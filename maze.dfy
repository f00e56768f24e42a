/**
 * The Panda-Man chase of new.go: a 15 x 20 grid of cell codes of which the
 * hand-written layout fills rows 0-10, a player and a ghost on it, and the
 * ghost's greedy step toward the player.
 */
module Maze {
  const Rows := 15
  const Cols := 20
  /** The layout fills rows 0 .. LayoutRows - 1; the rows below stay empty. */
  const LayoutRows := 11
  /** The bottom row of the layout. */
  const LastRow := LayoutRows - 1

  const Empty := 0
  const Wall := 1
  const Dot := 2

  /** Eating this many dots wins the round. */
  const WinScore := 80

  const Layout: seq<seq<int>> := [
    [1,1,1,1,1,1,1,1,1,1,1,1,1,1,1,1,1,1,1,1],
    [1,2,2,2,2,2,1,2,2,2,2,2,2,1,2,2,2,2,2,1],
    [1,2,1,1,1,2,1,2,1,1,1,1,2,1,2,1,1,1,2,1],
    [1,2,1,2,2,2,2,2,2,2,2,2,2,2,2,2,2,1,2,1],
    [1,2,1,2,1,1,1,2,1,1,1,1,2,1,1,1,2,1,2,1],
    [1,2,2,2,2,2,2,2,2,0,0,2,2,2,2,2,2,2,2,1],
    [1,2,1,2,1,1,1,2,1,1,1,1,2,1,1,1,2,1,2,1],
    [1,2,1,2,2,2,2,2,2,2,2,2,2,2,2,2,2,1,2,1],
    [1,2,1,1,1,2,1,2,1,1,1,1,2,1,2,1,1,1,2,1],
    [1,2,2,2,2,2,1,2,2,2,2,2,2,1,2,2,2,2,2,1],
    [1,1,1,1,1,1,1,1,1,1,1,1,1,1,1,1,1,1,1,1]]

  predicate InLayout(y: int, x: int) {
    0 <= y < LayoutRows && 0 <= x < Cols
  }

  /**
   * A maze of layout shape walled in on all four sides: rows 0 and 10 and
   * columns 0 and 19 are walls.
   */
  ghost predicate Walled(m: seq<seq<int>>) {
    && |m| == LayoutRows
    && (forall y :: 0 <= y < LayoutRows ==> |m[y]| == Cols)
    && (forall x :: 0 <= x < Cols ==> m[0][x] == Wall)
    && (forall x :: 0 <= x < Cols ==> m[LastRow][x] == Wall)
    && (forall y :: 0 <= y < LayoutRows ==> m[y][0] == Wall)
    && (forall y :: 0 <= y < LayoutRows ==> m[y][Cols - 1] == Wall)
  }

  /** A cell of maze `m` an actor may stand on. */
  ghost predicate OnFloor(m: seq<seq<int>>, y: int, x: int) {
    InLayout(y, x) && y < |m| && x < |m[y]| && m[y][x] != Wall
  }

  /** The hand-written layout is walled in. */
  lemma LayoutWalled()
    ensures Walled(Layout)
  {
    assert forall x :: 0 <= x < Cols ==> Layout[0][x] == Wall && Layout[LastRow][x] == Wall;
    assert forall y :: 0 <= y < LayoutRows ==> Layout[y][0] == Wall && Layout[y][Cols - 1] == Wall;
  }

  /**
   * In a walled-in maze a floor cell lies in rows 1-9 and columns 1-18, so each
   * of its four neighbours is a layout cell.
   */
  lemma FloorIsInterior(m: seq<seq<int>>, y: int, x: int)
    requires Walled(m) && OnFloor(m, y, x)
    ensures 1 <= y <= LayoutRows - 2 && 1 <= x <= Cols - 2
  {
  }

  /** Hence a valid round keeps both actors inside rows 1-9 and columns 1-18. */
  lemma ActorsInside(p: PacmanGame)
    requires p.Valid()
    ensures 1 <= p.playerY <= LastRow - 1 && 1 <= p.playerX <= Cols - 2
    ensures 1 <= p.ghostY <= LastRow - 1 && 1 <= p.ghostX <= Cols - 2
  {
    FloorIsInterior(p.layout, p.playerY, p.playerX);
    FloorIsInterior(p.layout, p.ghostY, p.ghostX);
  }

  /** Where InitPacman puts the actors: neither starts on a wall, and they start apart. */
  lemma StartCellsAreFloor()
    ensures OnFloor(Layout, 1, 1) && OnFloor(Layout, 5, 10)
    ensures Layout[1][1] == Dot && Layout[5][10] == Empty
  {
  }

  /** One step of movePlayer by (dx, dy) from column x, row y: taken exactly when it lands on floor. */
  ghost function PlayerStep(m: seq<seq<int>>, x: int, y: int, dx: int, dy: int): (q: (int, int))
    ensures OnFloor(m, y, x) ==> OnFloor(m, q.1, q.0)
    ensures q == (x, y) || q == (x + dx, y + dy)
    ensures OnFloor(m, y + dy, x + dx) ==> q == (x + dx, y + dy)
    ensures !OnFloor(m, y + dy, x + dx) ==> q == (x, y)
  {
    if OnFloor(m, y + dy, x + dx) then (x + dx, y + dy) else (x, y)
  }

  /** How many of the four arrow keys are pressed. */
  function Presses(left: bool, right: bool, up: bool, down: bool): (k: int)
    ensures 0 <= k <= 4
    ensures k == 0 <==> !left && !right && !up && !down
  {
    (if left then 1 else 0) + (if right then 1 else 0) + (if up then 1 else 0) + (if down then 1 else 0)
  }

  /**
   * Where the arrow keys of one frame take the player: the steps for left,
   * right, up and down, in that order. From a floor cell the player stays on
   * the floor; left and right move the column by at most one cell each, up and
   * down the row.
   */
  ghost function ArrowKeys(m: seq<seq<int>>, x: int, y: int, left: bool, right: bool, up: bool, down: bool): (q: (int, int))
    ensures OnFloor(m, y, x) ==> OnFloor(m, q.1, q.0)
    ensures x - (if left then 1 else 0) <= q.0 <= x + (if right then 1 else 0)
    ensures y - (if up then 1 else 0) <= q.1 <= y + (if down then 1 else 0)
    ensures !left && !right && !up && !down ==> q == (x, y)
  {
    var p1 := if left then PlayerStep(m, x, y, -1, 0) else (x, y);
    var p2 := if right then PlayerStep(m, p1.0, p1.1, 1, 0) else p1;
    var p3 := if up then PlayerStep(m, p2.0, p2.1, 0, -1) else p2;
    if down then PlayerStep(m, p3.0, p3.1, 0, 1) else p3
  }

  /** In the open, left then right comes back: the two steps undo each other. */
  lemma LeftRightReturns(m: seq<seq<int>>, x: int, y: int)
    requires OnFloor(m, y, x) && OnFloor(m, y, x - 1)
    ensures ArrowKeys(m, x, y, true, true, false, false) == (x, y)
  {
  }

  /** Against a wall a key does nothing. */
  lemma BlockedKeyStays(m: seq<seq<int>>, x: int, y: int)
    requires !OnFloor(m, y - 1, x)
    ensures ArrowKeys(m, x, y, false, false, true, false) == (x, y)
  {
  }

  /**
   * The cells the arrow keys of one frame take the player onto: the target of
   * each step, left, right, up, down in that order, that is taken. These are
   * the only cells movePlayer writes.
   */
  ghost function Steps(m: seq<seq<int>>, x: int, y: int, left: bool, right: bool, up: bool, down: bool): (s: set<(int, int)>)
    ensures forall p :: p in s ==> OnFloor(m, p.1, p.0)
    ensures !left && !right && !up && !down ==> s == {}
    ensures ArrowKeys(m, x, y, left, right, up, down) != (x, y) ==> ArrowKeys(m, x, y, left, right, up, down) in s
  {
    var p1 := if left then PlayerStep(m, x, y, -1, 0) else (x, y);
    var p2 := if right then PlayerStep(m, p1.0, p1.1, 1, 0) else p1;
    var p3 := if up then PlayerStep(m, p2.0, p2.1, 0, -1) else p2;
    var p4 := if down then PlayerStep(m, p3.0, p3.1, 0, 1) else p3;
    (if p1 != (x, y) then {p1} else {}) + (if p2 != p1 then {p2} else {}) +
    (if p3 != p2 then {p3} else {}) + (if p4 != p3 then {p4} else {})
  }

  /** The keys of a frame split into left and right, then up and down from where those left the player. */
  lemma KeysSplit(m: seq<seq<int>>, x: int, y: int, left: bool, right: bool, up: bool, down: bool)
    ensures var p := ArrowKeys(m, x, y, left, right, false, false);
      && ArrowKeys(m, x, y, left, right, up, down) == ArrowKeys(m, p.0, p.1, false, false, up, down)
      && Steps(m, x, y, left, right, up, down) ==
           Steps(m, x, y, left, right, false, false) + Steps(m, p.0, p.1, false, false, up, down)
      && Presses(left, right, up, down) == Presses(left, right, false, false) + Presses(false, false, up, down)
  {
  }

  /** Against a wall no cell is stepped onto. */
  lemma BlockedKeyStepsNowhere(m: seq<seq<int>>, x: int, y: int)
    requires !OnFloor(m, y - 1, x)
    ensures Steps(m, x, y, false, false, true, false) == {}
  {
  }

  /**
   * The wins today that a score rising from `before` to `after` records:
   * movePlayer records one for every point scored that brings the score to 80
   * or more.
   */
  function WinsEarned(before: int, after: int): (w: int)
    ensures w >= 0
    ensures after < WinScore || after <= before ==> w == 0
    ensures after == before + 1 ==> w == (if after >= WinScore then 1 else 0)
    ensures before >= WinScore && after >= before ==> w == after - before
  {
    if after <= before || after < WinScore then 0
    else after - (if before < WinScore - 1 then WinScore - 1 else before)
  }

  /** Wins earned over two stretches of rising score add up. */
  lemma WinsEarnedAdd(a: int, b: int, c: int)
    requires a <= b <= c
    ensures WinsEarned(a, b) + WinsEarned(b, c) == WinsEarned(a, c)
  {
  }

  /**
   * The ghost's cooldown for a round, from the wins recorded today:
   * 30 - 2 * wins, but never below 5.
   */
  function GhostDelay(winsToday: int): (d: int)
    ensures d >= 5 && d >= 30 - 2 * winsToday
    ensures d == 5 || d == 30 - 2 * winsToday
  {
    var delay := 30 - winsToday * 2;
    if delay < 5 then 5 else delay
  }

  /** More wins never make the ghost slower. */
  lemma GhostDelayAntitone(w1: int, w2: int)
    requires w1 <= w2
    ensures GhostDelay(w2) <= GhostDelay(w1)
  {
  }

  /** The floor is reached from 13 wins on, and only then. */
  lemma GhostDelayFloor(w: int)
    ensures GhostDelay(w) == 5 <==> w >= 13
  {
  }

  function Abs(n: int): (m: int)
    ensures m >= 0 && (m == n || m == -n)
  {
    if n < 0 then -n else n
  }

  /**
   * The ghost's step for offset (dx, dy) = player - ghost: one cell along the
   * axis with the larger |offset|, vertically on a tie, and upward when dy <= 0.
   */
  function GhostDirection(dx: int, dy: int): (m: (int, int))
    ensures Abs(m.0) + Abs(m.1) == 1
    ensures Abs(dx) > Abs(dy) ==> m.1 == 0 && (m.0 == 1 <==> dx > 0)
    ensures Abs(dx) <= Abs(dy) ==> m.0 == 0 && (m.1 == 1 <==> dy > 0)
  {
    if Abs(dx) > Abs(dy) then
      (if dx > 0 then 1 else -1, 0)
    else
      (0, if dy > 0 then 1 else -1)
  }

  /**
   * The step is greedy: unless the ghost already stands on the player, it
   * shortens the Manhattan distance to the player by exactly one.
   */
  lemma GhostStepCloses(dx: int, dy: int)
    requires dx != 0 || dy != 0
    ensures var m := GhostDirection(dx, dy);
      Abs(dx - m.0) + Abs(dy - m.1) == Abs(dx) + Abs(dy) - 1
  {
  }

  /** The ghost's part of a frame: its column, its row and its move timer afterwards. */
  datatype GhostState = GhostState(x: int, y: int, timer: int)

  /**
   * The ghost step for a ghost at (gx, gy) chasing a player at (px, py): the
   * timer counts the frame and, once it exceeds the cooldown, restarts at 0
   * while the ghost takes the GhostDirection step unless it leads off the floor.
   */
  ghost function GhostStep(m: seq<seq<int>>, gx: int, gy: int, px: int, py: int, timer: int, delay: int): (g: GhostState)
    ensures timer + 1 > delay ==> g.timer == 0
    ensures timer + 1 <= delay ==> g.timer == timer + 1 && g.x == gx && g.y == gy
    ensures 0 <= timer && 0 <= delay ==> 0 <= g.timer <= delay
    ensures OnFloor(m, gy, gx) ==> OnFloor(m, g.y, g.x)
    ensures Abs(g.x - gx) + Abs(g.y - gy) <= 1
  {
    var d := GhostDirection(px - gx, py - gy);
    if timer + 1 <= delay then GhostState(gx, gy, timer + 1)
    else if OnFloor(m, gy + d.1, gx + d.0) then GhostState(gx + d.0, gy + d.1, 0)
    else GhostState(gx, gy, 0)
  }

  /** When the ghost does move, it comes one cell closer to the player. */
  lemma GhostStepApproaches(m: seq<seq<int>>, gx: int, gy: int, px: int, py: int, timer: int, delay: int)
    requires (gx, gy) != (px, py)
    ensures var g := GhostStep(m, gx, gy, px, py, timer, delay);
      (g.x, g.y) != (gx, gy) ==> Abs(px - g.x) + Abs(py - g.y) == Abs(px - gx) + Abs(py - gy) - 1
  {
    GhostStepCloses(px - gx, py - gy);
  }

  /** On the player's own cell the tie is broken upward, so the ghost steps off it. */
  lemma GhostStepOffPlayer()
    ensures GhostDirection(0, 0) == (0, -1)
  {
  }

  /**
   * The Go PacmanGame struct. `layout` is the hand-written layout that
   * InitPacman copies into the grid; the object holds it as a constant so that
   * the round invariant can name it.
   */
  class PacmanGame {
    const grid: array2<int>
    const layout: seq<seq<int>>
    var playerX: int
    var playerY: int
    var ghostX: int
    var ghostY: int
    var ghostMoveTimer: int
    var ghostSpeedDelay: int
    var score: int
    var gameOver: bool
    var win: bool

    /** The layout is walled in and both start cells are floor. */
    ghost predicate LayoutReady() {
      Walled(layout) && OnFloor(layout, 1, 1) && OnFloor(layout, 5, 10)
    }

    /**
     * The round invariant: each layout cell of the grid holds its layout value
     * or is a cleared dot, Win is exactly "a score of at least 80", and both
     * actors stand on floor cells.
     */
    ghost predicate Valid()
      reads this, grid
    {
      && grid.Length0 == Rows && grid.Length1 == Cols
      && LayoutReady()
      && (forall y, x :: 0 <= y < LayoutRows && 0 <= x < Cols ==>
            grid[y, x] == layout[y][x] || (grid[y, x] == Empty && layout[y][x] == Dot))
      && score >= 0
      && (win <==> score >= WinScore)
      && OnFloor(layout, playerY, playerX)
      && OnFloor(layout, ghostY, ghostX)
      && ghostSpeedDelay >= 5
    }

    /** Rows 11-14 are outside the layout; nothing writes them. */
    ghost predicate LowerRowsEmpty()
      reads this, grid
      requires grid.Length0 == Rows && grid.Length1 == Cols
    {
      forall y, x :: LayoutRows <= y < Rows && 0 <= x < Cols ==> grid[y, x] == Empty
    }

    /** The state InitPacman leaves, for a day with `winsToday` wins: every dot back, the actors on their start cells. */
    ghost predicate NewRound(winsToday: int)
      reads this, grid
    {
      && grid.Length0 == Rows && grid.Length1 == Cols && |layout| == LayoutRows
      && (forall y :: 0 <= y < LayoutRows ==> |layout[y]| == Cols)
      && (forall y, x :: 0 <= y < LayoutRows && 0 <= x < Cols ==> grid[y, x] == layout[y][x])
      && playerX == 1 && playerY == 1
      && ghostX == 10 && ghostY == 5
      && score == 0 && !gameOver && !win
      && ghostSpeedDelay == GhostDelay(winsToday)
    }

    /** The cell code at (y, x), reading outside the grid as a wall. */
    function At(y: int, x: int): int
      reads this, grid
    {
      if 0 <= y < grid.Length0 && 0 <= x < grid.Length1 then grid[y, x] else Wall
    }

    /** The zero value of the Go struct: an all-empty grid; and the layout. */
    constructor ()
      ensures grid.Length0 == Rows && grid.Length1 == Cols && fresh(grid)
      ensures forall y, x :: 0 <= y < Rows && 0 <= x < Cols ==> grid[y, x] == Empty
      ensures layout == Layout && LayoutReady()
      ensures LowerRowsEmpty()
      ensures playerX == 0 && playerY == 0 && ghostX == 0 && ghostY == 0
      ensures ghostMoveTimer == 0 && ghostSpeedDelay == 0 && score == 0 && !gameOver && !win
    {
      grid := new int[Rows, Cols]((y, x) => Empty);
      layout := Layout;
      playerX, playerY, ghostX, ghostY := 0, 0, 0, 0;
      ghostMoveTimer, ghostSpeedDelay, score := 0, 0, 0;
      gameOver, win := false, false;
      new;
      LayoutWalled();
      StartCellsAreFloor();
    }
  }
}

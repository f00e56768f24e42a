/**
 * The Game object of new.go: the current mode, the loaded statistics and
 * settings, the applied colours, and the timer, fishing and maze sub-states,
 * with the per-frame update logic. Keys are "just pressed this frame" flags,
 * `now` is the frame's clock reading in nanoseconds, and the random draws of
 * the fishing game are parameters.
 */
module PandaGame {
  import opened Wrappers
  import opened Colors
  import opened Profiles
  import opened Stats
  import opened Maze
  import opened FocusTimer
  import opened Fishing
  import opened TimeUnits

  datatype GameMode = ModeDirectory | ModeRelax | ModeFocus | ModeFishing | ModePacman | ModeSettings

  /** The keys read by Update, true when pressed on this frame. */
  datatype Input = Input(
    escape: bool, key1: bool, key2: bool, key3: bool, key4: bool,
    keyA: bool, keyS: bool, keyD: bool, space: bool,
    up: bool, down: bool, left: bool, right: bool)

  /** The Right key, then the Left key, applied to a profile index. */
  function CycledIndex(i: int, n: int, right: bool, left: bool): (j: int)
    requires n > 0
    ensures 0 <= i < n ==> 0 <= j < n
    ensures right && left && 0 <= i < n ==> j == i
    ensures right && left ==> j == if i >= 0 then i % n else n - 1
    ensures !right && !left ==> j == i
    ensures right && !left ==> j == NextIndex(i, n)
    ensures left && !right ==> j == PrevIndex(i, n)
  {
    RightThenLeft(i, n);
    var r := if right then NextIndex(i, n) else i;
    if left then PrevIndex(r, n) else r
  }

  /** The mode selected from the directory: the last of the keys 1, 2, 3, 4, S checked wins. */
  function DirectoryChoice(mode: GameMode, input: Input): (m: GameMode)
    ensures !input.key1 && !input.key2 && !input.key3 && !input.key4 && !input.keyS ==> m == mode
    ensures input.keyS ==> m == ModeSettings
    ensures !input.keyS && input.key4 ==> m == ModePacman
    ensures !input.keyS && !input.key4 && input.key3 ==> m == ModeFishing
    ensures !input.keyS && !input.key4 && !input.key3 && input.key2 ==> m == ModeFocus
    ensures !input.keyS && !input.key4 && !input.key3 && !input.key2 && input.key1 ==> m == ModeRelax
  {
    if input.keyS then ModeSettings
    else if input.key4 then ModePacman
    else if input.key3 then ModeFishing
    else if input.key2 then ModeFocus
    else if input.key1 then ModeRelax
    else mode
  }

  /** The mode whose branch of Update runs: Escape first returns to the directory. */
  function ActiveMode(mode: GameMode, escape: bool): (m: GameMode)
    ensures escape ==> m == ModeDirectory
    ensures !escape ==> m == mode
  {
    if escape then ModeDirectory else mode
  }

  /*
   * What one frame of Update does to each part of the state, given the mode
   * whose branch ran: that mode's own step, and the old value elsewhere.
   */

  /** Only the directory and the focus screen switch modes. */
  function ModeAfter(m: GameMode, gopherState: int, input: Input): GameMode {
    if m == ModeDirectory then DirectoryChoice(m, input)
    else if m == ModeFocus then Game.FocusExit(m, gopherState, input)
    else m
  }

  /** Only the focus screen runs the timer. */
  function TimerAfter(m: GameMode, t: Timer, input: Input, now: int): Timer {
    if m == ModeFocus then FocusStep(t, input.up, input.down, input.space, input.key3, input.key4, now) else t
  }

  /** Only the fishing screen plays the fishing game. */
  function FishingAfter(m: GameMode, f: FishingGame, input: Input, spotRoll: int, biteRoll: int, reel: Reel): FishingGame
    requires 0 <= spotRoll < 3
  {
    if m == ModeFishing then FishingStep(f, input.keyA, input.keyS, input.keyD, input.space, spotRoll, biteRoll, reel) else f
  }

  /** The fish caught on this frame: one when the reel lands a fish on the fishing screen. */
  function FishCaughtIn(m: GameMode, f: FishingGame, reel: Reel): int {
    if m == ModeFishing && Catches(f, reel) then 1 else 0
  }

  /** Only the settings screen moves the active profile. */
  function SettingsAfter(m: GameMode, s: AppSettings, input: Input): AppSettings
    requires |s.profiles| > 0
  {
    if m == ModeSettings then s.(activeIndex := CycledIndex(s.activeIndex, |s.profiles|, input.right, input.left)) else s
  }

  /** The settings screen re-applies the profile's colours when Right or Left is pressed. */
  predicate RecolorsIn(m: GameMode, input: Input) {
    m == ModeSettings && (input.right || input.left)
  }

  /** The background and accent colours: the new active profile's after a recolouring, the old ones otherwise. */
  function ColorsAfter(m: GameMode, s: AppSettings, bg: RGBA, accent: RGBA, input: Input): (RGBA, RGBA)
    requires |s.profiles| > 0
  {
    if RecolorsIn(m, input) then ProfileColors(SettingsAfter(m, s, input)) else (bg, accent)
  }

  /** Key 4 starts a maze round from the directory, and from the focus screen once the gopher is out. */
  predicate StartsRoundIn(m: GameMode, gopherState: int, input: Input) {
    (m == ModeDirectory && input.key4) || (m == ModeFocus && gopherState == 2 && input.key4)
  }

  class Game {
    var mode: GameMode
    var tick: int
    var stats: GameStats
    var settings: AppSettings
    var bgColor: RGBA
    var accentColor: RGBA
    var timer: Timer
    var fishing: FishingGame
    const pacman: PacmanGame

    /** The maze part of the invariant: a valid round, and rows 11-14 empty. */
    ghost predicate MazeValid()
      reads pacman, pacman.grid
    {
      pacman.Valid() && pacman.LowerRowsEmpty() && pacman.ghostMoveTimer >= 0
    }

    /** The object invariant kept by every frame. */
    ghost predicate Valid()
      reads this`settings, this`timer, this`fishing, this`tick, pacman, pacman.grid
    {
      && MazeValid()
      && |settings.profiles| > 0
      && TimerValid(timer)
      && FishingValid(fishing)
      && tick >= 0
    }

    /** The colours of the profile ApplyProfile picks. */
    ghost predicate ColorsApplied()
      reads this`settings, this`bgColor, this`accentColor
      requires |settings.profiles| > 0
    {
      (bgColor, accentColor) == ProfileColors(settings)
    }

    /**
     * NewGame. `stored` is what the statistics hold after reading the stats
     * file (EmptyStats when there is none), `storedSettings` the settings read
     * from the settings file, if one could be read, and `today` the date.
     */
    constructor (stored: GameStats, today: string, storedSettings: Option<AppSettings>)
      requires storedSettings.Some? ==> |storedSettings.value.profiles| > 0
      ensures Valid() && fresh(pacman) && fresh(pacman.grid) && pacman.layout == Layout
      ensures mode == ModeDirectory && tick == 0
      ensures stats == DailyReset(stored, today)
      ensures settings == match storedSettings case Some(s) => s case None => DefaultSettings
      ensures ColorsApplied()
      ensures timer == InitialTimer && fishing == InitialFishing
      ensures pacman.NewRound(stats.pacmanWinsToday) && pacman.ghostMoveTimer == 0
    {
      assert TimerValid(InitialTimer) && FishingValid(InitialFishing);
      mode := ModeDirectory;
      tick := 0;
      timer := InitialTimer;
      fishing := InitialFishing;
      stats := EmptyStats;
      settings := AppSettings(0, []);
      bgColor, accentColor := RGBA(0, 0, 0, 0), RGBA(0, 0, 0, 0);
      pacman := new PacmanGame();
      new;
      Start(stored, today, storedSettings);
    }

    /** What NewGame does once the fields exist: LoadData, then InitPacman. */
    method Start(stored: GameStats, today: string, storedSettings: Option<AppSettings>)
      requires storedSettings.Some? ==> |storedSettings.value.profiles| > 0
      requires pacman.grid.Length0 == Rows && pacman.grid.Length1 == Cols && pacman.LayoutReady()
      requires pacman.LowerRowsEmpty() && pacman.ghostMoveTimer == 0
      requires TimerValid(timer) && FishingValid(fishing) && tick >= 0
      modifies this`stats, this`settings, this`bgColor, this`accentColor, pacman, pacman.grid
      ensures Valid()
      ensures stats == DailyReset(stored, today)
      ensures settings == match storedSettings case Some(s) => s case None => DefaultSettings
      ensures ColorsApplied()
      ensures pacman.NewRound(stats.pacmanWinsToday) && pacman.ghostMoveTimer == 0
    {
      LoadData(stored, today, storedSettings);
      assert pacman.LowerRowsEmpty();
      InitPacman();
      assert pacman.LowerRowsEmpty();
    }

    /** LoadData without the file reads: the daily reset, the settings or their defaults, the colours. */
    method LoadData(stored: GameStats, today: string, storedSettings: Option<AppSettings>)
      requires storedSettings.Some? ==> |storedSettings.value.profiles| > 0
      modifies this`stats, this`settings, this`bgColor, this`accentColor
      ensures stats == DailyReset(stored, today)
      ensures settings == match storedSettings case Some(s) => s case None => DefaultSettings
      ensures |settings.profiles| > 0 && ColorsApplied()
    {
      stats := stored;
      if stats.lastLoginDate != today {
        stats := stats.(todayPlayTimeSec := 0, pacmanWinsToday := 0, lastLoginDate := today);
      }
      match storedSettings {
        case Some(s) => settings := s;
        case None => settings := DefaultSettings;
      }
      ApplyProfile();
    }

    method ApplyProfile()
      requires |settings.profiles| > 0
      modifies this`bgColor, this`accentColor
      ensures ColorsApplied()
    {
      var idx := settings.activeIndex;
      if idx < 0 || idx >= |settings.profiles| {
        idx := 0;
      }
      var p := settings.profiles[idx];
      bgColor := ParseHex(p.bgHex);
      accentColor := ParseHex(p.accentHex);
    }

    /**
     * InitPacman: copy the layout into rows 0-10, put the actors on their start
     * cells, clear score and flags, and set the ghost's cooldown from today's
     * wins. The ghost's move timer and rows 11-14 are left as they are.
     */
    method InitPacman()
      requires pacman.grid.Length0 == Rows && pacman.grid.Length1 == Cols && pacman.LayoutReady()
      modifies pacman, pacman.grid
      ensures pacman.Valid() && pacman.NewRound(stats.pacmanWinsToday)
      ensures forall y, x :: 0 <= y < LayoutRows && 0 <= x < Cols ==> pacman.grid[y, x] == pacman.layout[y][x]
      ensures forall y, x :: LayoutRows <= y < Rows && 0 <= x < Cols ==> pacman.grid[y, x] == old(pacman.grid[y, x])
      ensures pacman.ghostMoveTimer == old(pacman.ghostMoveTimer)
    {
      var grid, layout := pacman.grid, pacman.layout;
      for y := 0 to LayoutRows
        invariant forall i, j :: 0 <= i < y && 0 <= j < Cols ==> grid[i, j] == layout[i][j]
        invariant forall i, j :: y <= i < Rows && 0 <= j < Cols ==> grid[i, j] == old(grid[i, j])
        invariant pacman.ghostMoveTimer == old(pacman.ghostMoveTimer)
      {
        for x := 0 to Cols
          invariant forall i, j :: 0 <= i < y && 0 <= j < Cols ==> grid[i, j] == layout[i][j]
          invariant forall j :: 0 <= j < x ==> grid[y, j] == layout[y][j]
          invariant forall i, j :: y < i < Rows && 0 <= j < Cols ==> grid[i, j] == old(grid[i, j])
          invariant forall j :: x <= j < Cols ==> grid[y, j] == old(grid[y, j])
          invariant pacman.ghostMoveTimer == old(pacman.ghostMoveTimer)
        {
          grid[y, x] := layout[y][x];
        }
      }
      pacman.playerX, pacman.playerY := 1, 1;
      pacman.ghostX, pacman.ghostY := 10, 5;
      pacman.score, pacman.gameOver, pacman.win := 0, false, false;
      var delay := 30 - stats.pacmanWinsToday * 2;
      if delay < 5 {
        delay := 5;
      }
      pacman.ghostSpeedDelay := delay;
    }

    /**
     * movePlayer: step to the neighbouring cell unless it is a wall; eating a
     * dot clears it and scores one, and a score of 80 or more wins and records a
     * win for today.
     */
    method MovePlayer(dx: int, dy: int)
      requires MazeValid()
      requires (dx == 0 && (dy == 1 || dy == -1)) || (dy == 0 && (dx == 1 || dx == -1))
      modifies this`stats, pacman, pacman.grid
      ensures MazeValid()
      ensures (pacman.playerX, pacman.playerY) == PlayerStep(pacman.layout, old(pacman.playerX), old(pacman.playerY), dx, dy)
      ensures pacman.ghostX == old(pacman.ghostX) && pacman.ghostY == old(pacman.ghostY)
      ensures pacman.ghostMoveTimer == old(pacman.ghostMoveTimer)
      ensures pacman.ghostSpeedDelay == old(pacman.ghostSpeedDelay) && pacman.gameOver == old(pacman.gameOver)
      ensures old(pacman.score) <= pacman.score <= old(pacman.score) + 1
      ensures stats == old(stats).(pacmanWinsToday := old(stats.pacmanWinsToday) + WinsEarned(old(pacman.score), pacman.score))
      ensures forall y, x :: 0 <= y < Rows && 0 <= x < Cols ==>
        pacman.grid[y, x] == old(pacman.grid[y, x]) || (old(pacman.grid[y, x]) == Dot && pacman.grid[y, x] == Empty)
      ensures var moved := (pacman.playerX, pacman.playerY) != old((pacman.playerX, pacman.playerY));
        forall y, x :: 0 <= y < Rows && 0 <= x < Cols && (!moved || (x, y) != (pacman.playerX, pacman.playerY)) ==>
          pacman.grid[y, x] == old(pacman.grid[y, x])
      ensures (pacman.playerX, pacman.playerY) != old((pacman.playerX, pacman.playerY)) ==>
        pacman.grid[pacman.playerY, pacman.playerX] != Dot
      ensures old(pacman.At(pacman.playerY + dy, pacman.playerX + dx)) == Dot ==>
        pacman.grid[pacman.playerY, pacman.playerX] == Empty && pacman.score == old(pacman.score) + 1
      ensures old(pacman.At(pacman.playerY + dy, pacman.playerX + dx)) != Dot ==>
        pacman.score == old(pacman.score) && pacman.win == old(pacman.win)
    {
      var nx, ny := pacman.playerX + dx, pacman.playerY + dy;
      FloorIsInterior(pacman.layout, pacman.playerY, pacman.playerX);
      if pacman.grid[ny, nx] != Wall {
        pacman.playerX, pacman.playerY := nx, ny;
        EatDot();
      }
    }

    /** The second half of movePlayer: a dot under the player is cleared and scores. */
    method EatDot()
      requires MazeValid()
      modifies this`stats, pacman`score, pacman`win, pacman.grid
      ensures MazeValid()
      ensures old(pacman.score) <= pacman.score <= old(pacman.score) + 1
      ensures stats == old(stats).(pacmanWinsToday := old(stats.pacmanWinsToday) + WinsEarned(old(pacman.score), pacman.score))
      ensures pacman.grid[pacman.playerY, pacman.playerX] != Dot
      ensures forall y, x :: 0 <= y < Rows && 0 <= x < Cols && (y, x) != (pacman.playerY, pacman.playerX) ==>
        pacman.grid[y, x] == old(pacman.grid[y, x])
      ensures old(pacman.grid[pacman.playerY, pacman.playerX]) == Dot ==>
        pacman.grid[pacman.playerY, pacman.playerX] == Empty && pacman.score == old(pacman.score) + 1
      ensures old(pacman.grid[pacman.playerY, pacman.playerX]) != Dot ==>
        && pacman.score == old(pacman.score) && pacman.win == old(pacman.win)
        && pacman.grid[pacman.playerY, pacman.playerX] == old(pacman.grid[pacman.playerY, pacman.playerX])
    {
      var x, y := pacman.playerX, pacman.playerY;
      if pacman.grid[y, x] == Dot {
        pacman.grid[y, x] := Empty;
        pacman.score := pacman.score + 1;
        if pacman.score >= WinScore {
          pacman.win := true;
          stats := stats.(pacmanWinsToday := stats.pacmanWinsToday + 1);
        }
      }
    }

    /**
     * The ghost step of updatePacman: the move timer counts frames and, once it
     * exceeds the cooldown, restarts at 0 while the ghost takes one greedy step
     * toward the player unless that cell is a wall.
     */
    method MoveGhost()
      requires MazeValid()
      modifies pacman`ghostX, pacman`ghostY, pacman`ghostMoveTimer
      ensures MazeValid()
      ensures GhostState(pacman.ghostX, pacman.ghostY, pacman.ghostMoveTimer) ==
        GhostStep(pacman.layout, old(pacman.ghostX), old(pacman.ghostY), pacman.playerX, pacman.playerY,
                  old(pacman.ghostMoveTimer), pacman.ghostSpeedDelay)
      ensures 0 <= pacman.ghostMoveTimer <= pacman.ghostSpeedDelay
    {
      ghost var step := GhostStep(pacman.layout, pacman.ghostX, pacman.ghostY, pacman.playerX, pacman.playerY,
                                  pacman.ghostMoveTimer, pacman.ghostSpeedDelay);
      pacman.ghostMoveTimer := pacman.ghostMoveTimer + 1;
      if pacman.ghostMoveTimer > pacman.ghostSpeedDelay {
        pacman.ghostMoveTimer := 0;
        var dx := pacman.playerX - pacman.ghostX;
        var dy := pacman.playerY - pacman.ghostY;
        var mx, my := 0, 0;
        if Abs(dx) > Abs(dy) {
          if dx > 0 { mx := 1; } else { mx := -1; }
        } else {
          if dy > 0 { my := 1; } else { my := -1; }
        }
        assert (mx, my) == GhostDirection(dx, dy);
        var gx, gy := pacman.ghostX, pacman.ghostY;
        FloorIsInterior(pacman.layout, gy, gx);
        assert pacman.grid[gy + my, gx + mx] != Wall <==> OnFloor(pacman.layout, gy + my, gx + mx);
        if pacman.grid[gy + my, gx + mx] != Wall {
          pacman.ghostX, pacman.ghostY := gx + mx, gy + my;
        }
      }
      assert GhostState(pacman.ghostX, pacman.ghostY, pacman.ghostMoveTimer) == step;
    }

    /**
     * What one updatePacman frame does. A finished round stays as it is or, on
     * space, starts afresh, and wins today are not touched; otherwise the round
     * is played on, as RoundFrame says, and wins today can only grow.
     */
    twostate predicate PacmanFrame(space: bool, left: bool, right: bool, up: bool, down: bool)
      reads this, pacman, pacman.grid
    {
      if old(pacman.gameOver || pacman.win) then
        stats.pacmanWinsToday == old(stats.pacmanWinsToday) && RestartFrame(space, stats.pacmanWinsToday)
      else
        && stats.pacmanWinsToday == old(stats.pacmanWinsToday) + WinsEarned(old(pacman.score), pacman.score)
        && RoundFrame(left, right, up, down)
    }

    /** A frame of a finished round: space starts a new one for `wins` wins today, anything else leaves the maze alone. */
    twostate predicate RestartFrame(space: bool, wins: int)
      reads pacman, pacman.grid
    {
      && (space ==> pacman.NewRound(wins) && pacman.ghostMoveTimer == old(pacman.ghostMoveTimer))
      && (!space ==> unchanged(pacman) && unchanged(pacman.grid))
    }

    /**
     * A frame of a round in play: the player takes the arrow-key steps, the
     * ghost its timed greedy step toward where the player ended up, and the two
     * meeting ends the game. Dots are only ever cleared, at most one per
     * pressed key.
     */
    twostate predicate RoundFrame(left: bool, right: bool, up: bool, down: bool)
      reads pacman, pacman.grid
    {
      var p := ArrowKeys(pacman.layout, old(pacman.playerX), old(pacman.playerY), left, right, up, down);
      && (pacman.playerX, pacman.playerY) == p
      && GhostState(pacman.ghostX, pacman.ghostY, pacman.ghostMoveTimer) ==
           GhostStep(pacman.layout, old(pacman.ghostX), old(pacman.ghostY), p.0, p.1,
                     old(pacman.ghostMoveTimer), old(pacman.ghostSpeedDelay))
      && pacman.ghostSpeedDelay == old(pacman.ghostSpeedDelay)
      && (pacman.gameOver <==> pacman.playerX == pacman.ghostX && pacman.playerY == pacman.ghostY)
      && old(pacman.score) <= pacman.score <= old(pacman.score) + Presses(left, right, up, down)
      && (forall y, x :: 0 <= y < pacman.grid.Length0 && 0 <= x < pacman.grid.Length1 ==>
            pacman.grid[y, x] == old(pacman.grid[y, x]) || (old(pacman.grid[y, x]) == Dot && pacman.grid[y, x] == Empty))
      && SteppedOnly(Steps(pacman.layout, old(pacman.playerX), old(pacman.playerY), left, right, up, down))
    }

    /**
     * updatePacman: a finished round waits for space to start a new one;
     * otherwise the round is played on for this frame.
     */
    method UpdatePacman(space: bool, left: bool, right: bool, up: bool, down: bool)
      requires MazeValid()
      modifies this`stats, pacman, pacman.grid
      ensures MazeValid()
      ensures PacmanFrame(space, left, right, up, down)
      ensures stats == old(stats).(pacmanWinsToday := stats.pacmanWinsToday)
      ensures !old(pacman.gameOver || pacman.win) ==> 0 <= pacman.ghostMoveTimer <= pacman.ghostSpeedDelay
    {
      if pacman.gameOver || pacman.win {
        if space {
          InitPacman();
        }
        return;
      }
      PlayRound(left, right, up, down);
    }

    /** A frame of a round in play: the arrow keys (left, right, up, down), the ghost's step, the collision test. */
    method PlayRound(left: bool, right: bool, up: bool, down: bool)
      requires MazeValid() && !pacman.gameOver
      modifies this`stats, pacman, pacman.grid
      ensures MazeValid()
      ensures RoundFrame(left, right, up, down)
      ensures stats == old(stats).(pacmanWinsToday := old(stats.pacmanWinsToday) + WinsEarned(old(pacman.score), pacman.score))
      ensures 0 <= pacman.ghostMoveTimer <= pacman.ghostSpeedDelay
    {
      MoveKeys(left, right, up, down);
      MoveGhost();
      Collide();
    }

    /** The end of updatePacman: the ghost on the player's cell ends the game. */
    method Collide()
      requires MazeValid()
      modifies pacman`gameOver
      ensures MazeValid()
      ensures pacman.gameOver == (old(pacman.gameOver) || (pacman.playerX == pacman.ghostX && pacman.playerY == pacman.ghostY))
    {
      if pacman.playerX == pacman.ghostX && pacman.playerY == pacman.ghostY {
        pacman.gameOver := true;
      }
    }

    /**
     * Of the grid, only the cells in `stepped` have changed since the old
     * state, and none of those holds a dot.
     */
    twostate predicate SteppedOnly(stepped: set<(int, int)>)
      reads pacman, pacman.grid
    {
      forall y, x :: 0 <= y < pacman.grid.Length0 && 0 <= x < pacman.grid.Length1 ==>
        && ((x, y) !in stepped ==> pacman.grid[y, x] == old(pacman.grid[y, x]))
        && ((x, y) in stepped ==> pacman.grid[y, x] != Dot)
    }

    /**
     * What the arrow keys of one frame do, from the old state: the player ends
     * where ArrowKeys says; only the cells it steps onto change, and none of
     * them keeps a dot; every other change is a dot eaten; the score grows by at
     * most one per key, and each point that brings it to 80 or more records one
     * more win today. The ghost, its timer, the cooldown and GameOver are kept.
     */
    twostate predicate KeysFrame(left: bool, right: bool, up: bool, down: bool)
      reads this, pacman, pacman.grid
    {
      var x0, y0 := old(pacman.playerX), old(pacman.playerY);
      && (pacman.playerX, pacman.playerY) == ArrowKeys(pacman.layout, x0, y0, left, right, up, down)
      && pacman.ghostX == old(pacman.ghostX) && pacman.ghostY == old(pacman.ghostY)
      && pacman.ghostMoveTimer == old(pacman.ghostMoveTimer)
      && pacman.ghostSpeedDelay == old(pacman.ghostSpeedDelay) && pacman.gameOver == old(pacman.gameOver)
      && old(pacman.score) <= pacman.score <= old(pacman.score) + Presses(left, right, up, down)
      && (forall y, x :: 0 <= y < pacman.grid.Length0 && 0 <= x < pacman.grid.Length1 ==>
            pacman.grid[y, x] == old(pacman.grid[y, x]) || (old(pacman.grid[y, x]) == Dot && pacman.grid[y, x] == Empty))
      && SteppedOnly(Steps(pacman.layout, x0, y0, left, right, up, down))
      && stats == old(stats).(pacmanWinsToday := old(stats.pacmanWinsToday) + WinsEarned(old(pacman.score), pacman.score))
    }

    /** The arrow keys of updatePacman: left, right, up, down, each a step of the player. */
    method MoveKeys(left: bool, right: bool, up: bool, down: bool)
      requires MazeValid()
      modifies this`stats, pacman, pacman.grid
      ensures MazeValid()
      ensures KeysFrame(left, right, up, down)
    {
      ghost var s0 := pacman.score;
      MoveAcross(left, right);
      ghost var s1 := pacman.score;
      MoveAlong(up, down);
      KeysSplit(pacman.layout, old(pacman.playerX), old(pacman.playerY), left, right, up, down);
      WinsEarnedAdd(s0, s1, pacman.score);
    }

    /** The left and right keys of the frame. */
    method MoveAcross(left: bool, right: bool)
      requires MazeValid()
      modifies this`stats, pacman, pacman.grid
      ensures MazeValid()
      ensures KeysFrame(left, right, false, false)
    {
      ghost var s0 := pacman.score;
      if left { MovePlayer(-1, 0); }
      ghost var s1 := pacman.score;
      if right { MovePlayer(1, 0); }
      WinsEarnedAdd(s0, s1, pacman.score);
    }

    /** The up and down keys of the frame. */
    method MoveAlong(up: bool, down: bool)
      requires MazeValid()
      modifies this`stats, pacman, pacman.grid
      ensures MazeValid()
      ensures KeysFrame(false, false, up, down)
    {
      ghost var s0 := pacman.score;
      if up { MovePlayer(0, -1); }
      ghost var s1 := pacman.score;
      if down { MovePlayer(0, 1); }
      WinsEarnedAdd(s0, s1, pacman.score);
    }

    /** The settings screen: Right, then Left, cycle the profile; a change re-applies the colours. */
    method UpdateSettings(right: bool, left: bool)
      requires |settings.profiles| > 0
      modifies this`settings, this`bgColor, this`accentColor
      ensures |settings.profiles| > 0
      ensures settings == old(settings).(activeIndex :=
        CycledIndex(old(settings.activeIndex), |old(settings.profiles)|, right, left))
      ensures right || left ==> ColorsApplied()
      ensures !right && !left ==> bgColor == old(bgColor) && accentColor == old(accentColor)
    {
      var change := false;
      var n := |settings.profiles|;
      var idx := settings.activeIndex;
      if right {
        idx := GoRem(idx + 1, n);
        change := true;
      }
      if left {
        idx := idx - 1;
        if idx < 0 {
          idx := n - 1;
        }
        change := true;
      }
      settings := settings.(activeIndex := idx);
      if change {
        ApplyProfile();
      }
    }

    /** updateFocus: the timer's step, and in gopher state 2 the menu keys 3 and 4. */
    method UpdateFocus(input: Input, now: int)
      requires MazeValid() && TimerValid(timer)
      modifies this`timer, this`mode, pacman, pacman.grid
      ensures MazeValid() && TimerValid(timer)
      ensures timer == FocusStep(old(timer), input.up, input.down, input.space, input.key3, input.key4, now)
      ensures var celebrating := old(timer.gopherState) == 2;
        mode == if celebrating && input.key4 then ModePacman
                else if celebrating && input.key3 then ModeFishing
                else old(mode)
      ensures old(timer.gopherState) == 2 && input.key4 ==>
        pacman.NewRound(stats.pacmanWinsToday) && pacman.ghostMoveTimer == old(pacman.ghostMoveTimer)
      ensures !(old(timer.gopherState) == 2 && input.key4) ==> unchanged(pacman) && unchanged(pacman.grid)
    {
      var t := timer;
      if t.gopherState == 2 {
        if input.key3 {
          t := t.(gopherState := 0, active := false);
          mode := ModeFishing;
        }
        if input.key4 {
          t := t.(gopherState := 0, active := false);
          mode := ModePacman;
          InitPacman();
        }
        if input.space {
          t := t.(gopherState := 0, active := false);
        }
        assert t == FocusStep(timer, input.up, input.down, input.space, input.key3, input.key4, now);
      } else if !t.active {
        if input.up {
          t := t.(targetMinutes := t.targetMinutes + 5);
        }
        if input.down {
          t := t.(targetMinutes := t.targetMinutes - 5);
          if t.targetMinutes < 5 {
            t := t.(targetMinutes := 5);
          }
        }
        t := t.(timeLeft := t.targetMinutes * Minute);
        if input.space {
          t := t.(active := true, lastTick := now, gopherState := 0);
        }
        assert t == FocusStep(timer, input.up, input.down, input.space, input.key3, input.key4, now);
      } else {
        t := t.(timeLeft := t.timeLeft - (now - t.lastTick), lastTick := now);
        if LastTenth(t.timeLeft, t.targetMinutes) {
          t := t.(gopherState := 1);
        }
        if t.timeLeft <= 0 {
          t := t.(timeLeft := 0, gopherState := 2);
        }
        assert t == FocusStep(timer, input.up, input.down, input.space, input.key3, input.key4, now);
      }
      timer := t;
    }

    /** updateFishing: the hot-spot timer, then the step of the current state; a landed fish counts in the round score and in the lifetime statistic. */
    method UpdateFishing(input: Input, spotRoll: int, biteRoll: int, reel: Reel)
      requires FishingValid(fishing) && 0 <= spotRoll < 3
      modifies this`fishing, this`stats
      ensures FishingValid(fishing)
      ensures fishing == FishingStep(old(fishing), input.keyA, input.keyS, input.keyD, input.space, spotRoll, biteRoll, reel)
      ensures stats == old(stats).(fishCaught := old(stats.fishCaught) + if Catches(old(fishing), reel) then 1 else 0)
    {
      var f := fishing.(waitTimer := fishing.waitTimer + 1);
      if f.waitTimer > HotSpotPeriod {
        f := f.(waitTimer := 0, targetSpot := spotRoll + 1);
      }
      assert f == HotSpotTick(fishing, spotRoll);
      if f.state == 0 {
        var target := 0;
        if input.keyA { target := 1; }
        if input.keyS { target := 2; }
        if input.keyD { target := 3; }
        if target > 0 {
          f := f.(activeSpot := target, state := 1);
        }
      } else if f.state == 1 {
        if f.activeSpot == f.targetSpot && biteRoll < 2 {
          f := f.(state := 2);
        }
        if input.space {
          f := f.(state := 0);
        }
      } else if f.state == 2 {
        if reel == Landed {
          f := f.(score := f.score + 1, state := 0);
          stats := stats.(fishCaught := stats.fishCaught + 1);
        }
        if reel == Escaped {
          f := f.(state := 0);
        }
      }
      fishing := f;
    }

    /** The directory screen: keys 1, 2, 3, 4 and S pick a mode, and 4 starts a new maze round. */
    method UpdateDirectory(input: Input)
      requires MazeValid()
      modifies this`mode, pacman, pacman.grid
      ensures MazeValid()
      ensures mode == DirectoryChoice(old(mode), input)
      ensures input.key4 ==> pacman.NewRound(stats.pacmanWinsToday) && pacman.ghostMoveTimer == old(pacman.ghostMoveTimer)
      ensures !input.key4 ==> unchanged(pacman) && unchanged(pacman.grid)
    {
      if input.key1 { mode := ModeRelax; }
      if input.key2 { mode := ModeFocus; }
      if input.key3 { mode := ModeFishing; }
      if input.key4 { mode := ModePacman; InitPacman(); }
      if input.keyS { mode := ModeSettings; }
    }

    /** The mode after a focus frame: in gopher state 2 key 4 opens the maze and key 3 the fishing game, key 4 winning. */
    static function FocusExit(mode: GameMode, gopherState: int, input: Input): (m: GameMode)
      ensures gopherState != 2 ==> m == mode
      ensures gopherState == 2 && input.key4 ==> m == ModePacman
      ensures gopherState == 2 && !input.key4 && input.key3 ==> m == ModeFishing
      ensures gopherState == 2 && !input.key4 && !input.key3 ==> m == mode
    {
      if gopherState == 2 && input.key4 then ModePacman
      else if gopherState == 2 && input.key3 then ModeFishing
      else mode
    }

    /** The branch of Update for the three modes that can start or play a maze round. */
    method RunMazeMode(input: Input, now: int)
      requires Valid()
      requires mode == ModeDirectory || mode == ModeFocus || mode == ModePacman
      modifies this`mode, this`stats, this`timer, pacman, pacman.grid
      ensures Valid()
      ensures stats == old(stats).(pacmanWinsToday := stats.pacmanWinsToday)
      ensures mode == ModeAfter(old(mode), old(timer.gopherState), input)
      ensures timer == TimerAfter(old(mode), old(timer), input, now)
      ensures old(mode) == ModePacman && old(pacman.gameOver || pacman.win) ==> RestartFrame(input.space, stats.pacmanWinsToday)
      ensures old(mode) == ModePacman && !old(pacman.gameOver || pacman.win) ==> RoundFrame(input.left, input.right, input.up, input.down)
      ensures old(mode) == ModePacman && !old(pacman.gameOver || pacman.win) ==>
        stats.pacmanWinsToday == old(stats.pacmanWinsToday) + WinsEarned(old(pacman.score), pacman.score)
      ensures old(mode) != ModePacman || old(pacman.gameOver || pacman.win) ==> stats == old(stats)
      ensures old(stats.pacmanWinsToday) <= stats.pacmanWinsToday
      ensures StartsRoundIn(old(mode), old(timer.gopherState), input) ==>
        pacman.NewRound(stats.pacmanWinsToday) && pacman.ghostMoveTimer == old(pacman.ghostMoveTimer)
      ensures old(mode) != ModePacman && !StartsRoundIn(old(mode), old(timer.gopherState), input) ==>
        unchanged(pacman) && unchanged(pacman.grid)
      ensures fishing == old(fishing) && settings == old(settings) && bgColor == old(bgColor) && accentColor == old(accentColor)
    {
      match mode {
        case ModeDirectory =>
          UpdateDirectory(input);
        case ModeFocus =>
          UpdateFocus(input, now);
        case ModePacman =>
          UpdatePacman(input.space, input.left, input.right, input.up, input.down);
      }
    }

    /** The branch of Update for the modes that leave the maze alone. */
    method RunPanelMode(input: Input, spotRoll: int, biteRoll: int, reel: Reel)
      requires Valid() && 0 <= spotRoll < 3
      requires mode == ModeRelax || mode == ModeFishing || mode == ModeSettings
      modifies this`stats, this`settings, this`bgColor, this`accentColor, this`fishing
      ensures Valid()
      ensures stats == old(stats).(fishCaught := old(stats.fishCaught) + FishCaughtIn(mode, old(fishing), reel))
      ensures fishing == FishingAfter(mode, old(fishing), input, spotRoll, biteRoll, reel)
      ensures settings == SettingsAfter(mode, old(settings), input)
      ensures (bgColor, accentColor) == ColorsAfter(mode, old(settings), old(bgColor), old(accentColor), input)
      ensures unchanged(pacman) && unchanged(pacman.grid)
    {
      match mode {
        case ModeSettings =>
          UpdateSettings(input.right, input.left);
        case ModeFishing =>
          UpdateFishing(input, spotRoll, biteRoll, reel);
        case ModeRelax =>
      }
    }

    /** The branch of Update for the current mode. */
    method RunMode(input: Input, now: int, spotRoll: int, biteRoll: int, reel: Reel)
      requires Valid() && 0 <= spotRoll < 3
      modifies this`mode, this`stats, this`settings, this`bgColor, this`accentColor, this`timer, this`fishing
      modifies pacman, pacman.grid
      ensures Valid()
      ensures stats == old(stats).(fishCaught := old(stats.fishCaught) + FishCaughtIn(old(mode), old(fishing), reel),
                                   pacmanWinsToday := stats.pacmanWinsToday)
      ensures mode == ModeAfter(old(mode), old(timer.gopherState), input)
      ensures timer == TimerAfter(old(mode), old(timer), input, now)
      ensures fishing == FishingAfter(old(mode), old(fishing), input, spotRoll, biteRoll, reel)
      ensures settings == SettingsAfter(old(mode), old(settings), input)
      ensures (bgColor, accentColor) == ColorsAfter(old(mode), old(settings), old(bgColor), old(accentColor), input)
      ensures old(mode) != ModePacman || old(pacman.gameOver || pacman.win) ==> stats.pacmanWinsToday == old(stats.pacmanWinsToday)
      ensures old(stats.pacmanWinsToday) <= stats.pacmanWinsToday
      ensures StartsRoundIn(old(mode), old(timer.gopherState), input) ==>
        pacman.NewRound(stats.pacmanWinsToday) && pacman.ghostMoveTimer == old(pacman.ghostMoveTimer)
      ensures old(mode) != ModePacman && !StartsRoundIn(old(mode), old(timer.gopherState), input) ==>
        unchanged(pacman) && unchanged(pacman.grid)
    {
      if mode == ModeDirectory || mode == ModeFocus || mode == ModePacman {
        RunMazeMode(input, now);
      } else {
        RunPanelMode(input, spotRoll, biteRoll, reel);
      }
    }

    /**
     * Update, one frame: count the tick (and a second of play time every 60
     * ticks), let Escape return to the directory, then run the branch of the
     * current mode.
     */
    method Update(input: Input, now: int, spotRoll: int, biteRoll: int, reel: Reel)
      requires Valid() && 0 <= spotRoll < 3
      modifies this, pacman, pacman.grid
      ensures Valid()
      ensures tick == old(tick) + 1
      ensures var second := if tick % 60 == 0 then 1 else 0;
        var m := ActiveMode(old(mode), input.escape);
        stats == old(stats).(totalPlayTimeSec := old(stats.totalPlayTimeSec) + second,
                             todayPlayTimeSec := old(stats.todayPlayTimeSec) + second,
                             fishCaught := old(stats.fishCaught) + FishCaughtIn(m, old(fishing), reel),
                             pacmanWinsToday := stats.pacmanWinsToday)
      ensures var m := ActiveMode(old(mode), input.escape);
        mode == ModeAfter(m, old(timer.gopherState), input)
      ensures var m := ActiveMode(old(mode), input.escape);
        timer == TimerAfter(m, old(timer), input, now)
      ensures var m := ActiveMode(old(mode), input.escape);
        fishing == FishingAfter(m, old(fishing), input, spotRoll, biteRoll, reel)
      ensures var m := ActiveMode(old(mode), input.escape);
        settings == SettingsAfter(m, old(settings), input)
      ensures var m := ActiveMode(old(mode), input.escape);
        (bgColor, accentColor) == ColorsAfter(m, old(settings), old(bgColor), old(accentColor), input)
      ensures ActiveMode(old(mode), input.escape) != ModePacman || old(pacman.gameOver || pacman.win) ==>
        stats.pacmanWinsToday == old(stats.pacmanWinsToday)
      ensures old(stats.pacmanWinsToday) <= stats.pacmanWinsToday
      ensures var m := ActiveMode(old(mode), input.escape);
        StartsRoundIn(m, old(timer.gopherState), input) ==>
          pacman.NewRound(stats.pacmanWinsToday) && pacman.ghostMoveTimer == old(pacman.ghostMoveTimer)
      ensures var m := ActiveMode(old(mode), input.escape);
        m != ModePacman && !StartsRoundIn(m, old(timer.gopherState), input) ==> unchanged(pacman) && unchanged(pacman.grid)
    {
      tick := tick + 1;
      var second := if tick % 60 == 0 then 1 else 0;
      stats := stats.(totalPlayTimeSec := stats.totalPlayTimeSec + second, todayPlayTimeSec := stats.todayPlayTimeSec + second);
      if input.escape {
        mode := ModeDirectory;
      }
      RunMode(input, now, spotRoll, biteRoll, reel);
    }
  }
}

/**
 * The focus (pomodoro) mode of internal/gamemode/focus.go: Idle until space is
 * held, then Running down by wall-clock time, then Break, which it never leaves.
 * Times are int64 nanosecond counts; `now` is the clock reading of the frame.
 */
module Gamemode {
  import opened TimeUnits

  datatype FocusState = FocusIdle | FocusRunning | FocusBreak

  datatype Focus = Focus(state: FocusState, duration: int, timeLeft: int, lastUpdate: int)

  /** One Update at time `now`, with `space` whether the space key is held. */
  function Advance(f: Focus, now: int, space: bool): (g: Focus)
    ensures g.duration == f.duration
    ensures f.state == FocusBreak ==> g == f
    ensures f.state == FocusIdle ==>
      g == if space then f.(state := FocusRunning, lastUpdate := now) else f
    ensures f.state == FocusRunning ==>
      var left := f.timeLeft - (now - f.lastUpdate);
      g.lastUpdate == now &&
      (g.state == FocusBreak <==> left <= 0) &&
      (g.state == FocusBreak ==> g.timeLeft == 5 * Minute) &&
      (g.state != FocusBreak ==> g.state == FocusRunning && g.timeLeft == left)
  {
    match f.state
    case FocusIdle =>
      if space then f.(state := FocusRunning, lastUpdate := now) else f
    case FocusRunning =>
      var dt := now - f.lastUpdate;
      var left := f.timeLeft - dt;
      if left <= 0 then Focus(FocusBreak, f.duration, 5 * Minute, now)
      else Focus(FocusRunning, f.duration, left, now)
    case FocusBreak => f
  }

  /** Time is left whenever the timer waits or runs. */
  predicate Valid(f: Focus) {
    f.state != FocusBreak ==> f.timeLeft > 0
  }

  lemma AdvanceKeepsValid(f: Focus, now: int, space: bool)
    requires Valid(f)
    ensures Valid(Advance(f, now, space))
  {
  }

  /** Updates at the successive clock readings `nows` (space only matters in Idle). */
  function Run(f: Focus, nows: seq<int>): Focus
  {
    if |nows| == 0 then f else Advance(Run(f, nows[..|nows| - 1]), nows[|nows| - 1], false)
  }

  predicate Nondecreasing(nows: seq<int>) {
    forall i, j :: 0 <= i <= j < |nows| ==> nows[i] <= nows[j]
  }

  /** Break stays Break, whatever the clock does. */
  lemma {:induction false} BreakAbsorbing(f: Focus, nows: seq<int>)
    requires f.state == FocusBreak
    ensures Run(f, nows) == f
  {
    if |nows| > 0 {
      BreakAbsorbing(f, nows[..|nows| - 1]);
    }
  }

  /**
   * The countdown does not depend on how frames split the time: after updates
   * at a monotonic clock, a running timer has lost exactly the time elapsed since
   * its last update, or has switched to a five-minute break once that elapsed
   * time reached what was left.
   */
  lemma {:induction false} Countdown(f: Focus, nows: seq<int>)
    requires f.state == FocusRunning && |nows| > 0 && Nondecreasing(nows)
    ensures var elapsed := nows[|nows| - 1] - f.lastUpdate;
      var g := Run(f, nows);
      (elapsed < f.timeLeft ==> g == Focus(FocusRunning, f.duration, f.timeLeft - elapsed, nows[|nows| - 1])) &&
      (elapsed >= f.timeLeft ==> g.state == FocusBreak && g.timeLeft == 5 * Minute && g.duration == f.duration)
  {
    var n := |nows|;
    var init := nows[..n - 1];
    if n > 1 {
      assert Nondecreasing(init);
      Countdown(f, init);
      var p := Run(f, init);
      assert init[n - 2] <= nows[n - 1];
      if p.state == FocusBreak {
        BreakAbsorbing(p, [nows[n - 1]]);
      }
    }
  }

  class FocusMode {
    var state: FocusState
    var duration: int
    var timeLeft: int
    var lastUpdate: int

    function Snapshot(): Focus
      reads this
    {
      Focus(state, duration, timeLeft, lastUpdate)
    }

    /** NewFocusMode: idle, with a 25-minute session ready. */
    constructor ()
      ensures state == FocusIdle && duration == 25 * Minute && timeLeft == 25 * Minute
      ensures Valid(Snapshot())
    {
      state := FocusIdle;
      duration, timeLeft := 25 * Minute, 25 * Minute;
      lastUpdate := 0;
    }

    method Update(now: int, space: bool)
      modifies this
      ensures Snapshot() == Advance(old(Snapshot()), now, space)
      ensures old(Valid(Snapshot())) ==> Valid(Snapshot())
    {
      match state {
        case FocusIdle =>
          if space {
            state := FocusRunning;
            lastUpdate := now;
          }
        case FocusRunning =>
          var dt := now - lastUpdate;
          lastUpdate := now;
          timeLeft := timeLeft - dt;
          if timeLeft <= 0 {
            state := FocusBreak;
            timeLeft := 5 * Minute;
          }
        case FocusBreak =>
      }
    }
  }
}

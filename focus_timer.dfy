/**
 * The focus timer of new.go (the `Timer` part of Game and updateFocus):
 * target minutes adjusted in steps of 5 while idle, a wall-clock countdown
 * while active, and the gopher that appears in the last tenth (state 1) and
 * celebrates at zero (state 2) until a menu key is pressed.
 */
module FocusTimer {
  import opened TimeUnits

  datatype Timer = Timer(
    active: bool,
    targetMinutes: int,
    timeLeft: int,        // nanoseconds
    lastTick: int,        // clock reading, nanoseconds
    gopherState: int)

  /** The timer NewGame sets up: 25 minutes, idle. */
  const InitialTimer := Timer(false, 25, 25 * Minute, 0, 0)

  /** What the timer keeps between frames. */
  predicate TimerValid(t: Timer) {
    && t.targetMinutes >= 5 && t.targetMinutes % 5 == 0
    && 0 <= t.gopherState <= 2
    && (t.gopherState == 2 ==> t.active && t.timeLeft == 0)
    && (!t.active ==> t.gopherState == 0)
    && (t.active && t.gopherState != 2 ==> t.timeLeft > 0)
  }

  /** True when at most a tenth of the session is left (an integer form of the source's float ratio). */
  predicate LastTenth(timeLeft: int, targetMinutes: int) {
    10 * timeLeft <= targetMinutes * Minute
  }

  /**
   * For a positive target the integer test is the source's ratio test
   * `timeLeft / total <= 0.10`, read in exact arithmetic.
   */
  lemma LastTenthIsRatio(timeLeft: int, targetMinutes: int)
    requires targetMinutes > 0
    ensures LastTenth(timeLeft, targetMinutes) <==>
      (timeLeft as real) / ((targetMinutes * Minute) as real) <= 0.1
  {
    var total := (targetMinutes * Minute) as real;
    assert total > 0.0;
    assert (timeLeft as real) / total <= 0.1 <==> (timeLeft as real) <= 0.1 * total;
  }

  /** Up adds five minutes, Down takes five away but not below five. */
  function AdjustTarget(minutes: int, up: bool, down: bool): (m: int)
    ensures minutes >= 5 ==> m >= 5
    ensures minutes % 5 == 0 ==> m % 5 == 0
    ensures !up && !down ==> m == minutes
    ensures up && !down ==> m == minutes + 5
    ensures !up && down ==> m == (if minutes - 5 < 5 then 5 else minutes - 5)
    ensures up && down && minutes >= 5 ==> m == minutes
  {
    var m := if up then minutes + 5 else minutes;
    if down then (if m - 5 < 5 then 5 else m - 5) else m
  }

  /**
   * The timer's part of one updateFocus at clock reading `now`. In gopher
   * state 2 any of the keys 3, 4 and space stops the timer; idle, the target is
   * adjusted, the display is reset to it and space starts the countdown; active,
   * the elapsed time is taken off and the gopher state follows what is left.
   */
  function FocusStep(t: Timer, up: bool, down: bool, space: bool, key3: bool, key4: bool, now: int): (u: Timer)
    ensures u.targetMinutes == if !t.active && t.gopherState != 2 then AdjustTarget(t.targetMinutes, up, down) else t.targetMinutes
  {
    if t.gopherState == 2 then
      if key3 || key4 || space then t.(gopherState := 0, active := false) else t
    else if !t.active then
      var minutes := AdjustTarget(t.targetMinutes, up, down);
      var idle := t.(targetMinutes := minutes, timeLeft := minutes * Minute);
      if space then idle.(active := true, lastTick := now, gopherState := 0) else idle
    else
      var left := t.timeLeft - (now - t.lastTick);
      var gopher := if LastTenth(left, t.targetMinutes) then 1 else t.gopherState;
      if left <= 0 then t.(timeLeft := 0, lastTick := now, gopherState := 2)
      else t.(timeLeft := left, lastTick := now, gopherState := gopher)
  }

  /** The invariant survives every frame; in particular the target never drops below 5 minutes. */
  lemma FocusStepKeepsValid(t: Timer, up: bool, down: bool, space: bool, key3: bool, key4: bool, now: int)
    requires TimerValid(t)
    ensures TimerValid(FocusStep(t, up, down, space, key3, key4, now))
  {
  }

  /** Idle, the countdown shows the (adjusted) target, and space starts it from there. */
  lemma IdleShowsTarget(t: Timer, up: bool, down: bool, space: bool, key3: bool, key4: bool, now: int)
    requires TimerValid(t) && !t.active
    ensures var u := FocusStep(t, up, down, space, key3, key4, now);
      u.timeLeft == u.targetMinutes * Minute && (u.active <==> space) && u.gopherState == 0 &&
      (space ==> u.lastTick == now) && (!space ==> u.lastTick == t.lastTick)
  {
  }

  /**
   * Active, the remaining time goes down by exactly the elapsed time, clamped
   * at zero, and reaching zero is exactly what makes the gopher celebrate.
   */
  lemma ActiveCountsDown(t: Timer, up: bool, down: bool, space: bool, key3: bool, key4: bool, now: int)
    requires TimerValid(t) && t.active && t.gopherState != 2
    ensures var u := FocusStep(t, up, down, space, key3, key4, now);
      var left := t.timeLeft - (now - t.lastTick);
      u.active && u.lastTick == now && u.targetMinutes == t.targetMinutes &&
      (u.gopherState == 2 <==> left <= 0) &&
      u.timeLeft == (if left <= 0 then 0 else left) &&
      (0 < left && LastTenth(left, t.targetMinutes) ==> u.gopherState == 1) &&
      (0 < left && !LastTenth(left, t.targetMinutes) ==> u.gopherState == t.gopherState)
  {
  }

  /**
   * In gopher state 2 the timer waits for a menu key and then stops; leaving
   * keeps the remaining time, the last tick and the target.
   */
  lemma CelebrationEnds(t: Timer, up: bool, down: bool, space: bool, key3: bool, key4: bool, now: int)
    requires TimerValid(t) && t.gopherState == 2
    ensures var u := FocusStep(t, up, down, space, key3, key4, now);
      (key3 || key4 || space ==>
         !u.active && u.gopherState == 0 &&
         u.timeLeft == t.timeLeft && u.lastTick == t.lastTick && u.targetMinutes == t.targetMinutes) &&
      (!(key3 || key4 || space) ==> u == t)
  {
  }
}

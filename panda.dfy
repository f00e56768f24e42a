/**
 * The animated panda sprite (internal/entity/panda.go): a GIF's frames with a
 * per-frame delay in ticks, a current frame and a tick counter that Update
 * advances once per game tick.
 */
module Entity {
  /** The two animation fields Update changes. */
  datatype Clock = Clock(frame: int, counter: int)

  /** The frame after `k`, wrapping to 0 after the last of `frameCount` frames. */
  function NextFrame(k: int, frameCount: nat): (j: int)
    ensures 0 <= k < frameCount ==> 0 <= j < frameCount
    ensures 0 <= k < frameCount - 1 ==> j == k + 1
    ensures k == frameCount - 1 ==> j == 0
  {
    if k + 1 >= frameCount then 0 else k + 1
  }

  /**
   * One Update: with no frames nothing happens; otherwise the counter is
   * incremented and, once it reaches the current frame's delay, is reset while
   * the frame advances.
   */
  function Tick(c: Clock, delays: seq<int>, frameCount: nat): (d: Clock)
    requires frameCount > 0 ==> 0 <= c.frame < |delays|
    ensures frameCount == 0 ==> d == c
    ensures frameCount > 0 && c.counter + 1 < delays[c.frame] ==> d == Clock(c.frame, c.counter + 1)
    ensures frameCount > 0 && c.counter + 1 >= delays[c.frame] ==> d == Clock(NextFrame(c.frame, frameCount), 0)
    ensures 0 <= c.frame < frameCount ==> 0 <= d.frame < frameCount
  {
    if frameCount == 0 then c
    else
      var counter := c.counter + 1;
      if counter >= delays[c.frame] then Clock(NextFrame(c.frame, frameCount), 0)
      else Clock(c.frame, counter)
  }

  /** A well-formed animation: every frame has a delay and the clock points at a frame. */
  predicate Playable(c: Clock, delays: seq<int>, frameCount: nat) {
    0 < frameCount <= |delays| && 0 <= c.frame < frameCount
  }

  /** `j` successive Updates. */
  function Ticks(c: Clock, delays: seq<int>, frameCount: nat, j: nat): (d: Clock)
    requires Playable(c, delays, frameCount)
    ensures Playable(d, delays, frameCount)
  {
    if j == 0 then c else Tick(Ticks(c, delays, frameCount, j - 1), delays, frameCount)
  }

  /** How many Updates a frame with delay `delay` stays on screen: at least one. */
  function Hold(delay: int): (h: int)
    ensures h >= 1 && h >= delay
    ensures delay >= 1 ==> h == delay
  {
    if delay < 1 then 1 else delay
  }

  /** A frame entered with counter 0 is still shown, with counter j, for j < Hold(delay). */
  lemma {:induction false} HoldsFrame(delays: seq<int>, frameCount: nat, k: int, j: nat)
    requires 0 <= k < frameCount <= |delays|
    requires j < Hold(delays[k])
    ensures Ticks(Clock(k, 0), delays, frameCount, j) == Clock(k, j)
  {
    if j > 0 {
      HoldsFrame(delays, frameCount, k, j - 1);
    }
  }

  /** After exactly Hold(delay) Updates the next frame starts with counter 0. */
  lemma AdvancesAfterHold(delays: seq<int>, frameCount: nat, k: int)
    requires 0 <= k < frameCount <= |delays|
    ensures Ticks(Clock(k, 0), delays, frameCount, Hold(delays[k]))
         == Clock(NextFrame(k, frameCount), 0)
  {
    HoldsFrame(delays, frameCount, k, Hold(delays[k]) - 1);
  }

  class Panda<Image> {
    var x: real
    var y: real
    var frames: seq<Image>
    var delays: seq<int>
    var currentFrame: int
    var tickCounter: int

    /** Every frame has a delay and the current frame is one of them. */
    ghost predicate Valid()
      reads this
    {
      |delays| >= |frames| && (|frames| > 0 ==> 0 <= currentFrame < |frames|)
    }

    function ClockOf(): Clock
      reads this
    {
      Clock(currentFrame, tickCounter)
    }

    /** NewPanda, given the frames and delays of the decoded GIF. */
    constructor (frames: seq<Image>, delays: seq<int>)
      ensures x == 120.0 && y == 100.0
      ensures this.frames == frames && this.delays == delays
      ensures currentFrame == 0 && tickCounter == 0
      ensures |delays| >= |frames| ==> Valid()
    {
      x, y := 120.0, 100.0;
      this.frames, this.delays := frames, delays;
      currentFrame, tickCounter := 0, 0;
    }

    method Update()
      requires |frames| > 0 ==> 0 <= currentFrame < |delays|
      modifies this`currentFrame, this`tickCounter
      ensures ClockOf() == Tick(old(ClockOf()), delays, |frames|)
      ensures x == old(x) && y == old(y) && frames == old(frames) && delays == old(delays)
      ensures old(Valid()) ==> Valid()
    {
      if |frames| == 0 {
        return;
      }
      tickCounter := tickCounter + 1;
      var targetDelay := delays[currentFrame];
      if tickCounter >= targetDelay {
        tickCounter := 0;
        currentFrame := currentFrame + 1;
        if currentFrame >= |frames| {
          currentFrame := 0;
        }
      }
    }
  }
}

/**
 * The fishing mini-game of new.go (FishingGame and updateFishing): cast at one
 * of three spots (state 1), wait for a bite at the current hot spot (state 2),
 * reel in or lose the fish (back to state 0). The random draws and the
 * floating-point tug of war are inputs: `spotRoll` is rand.Intn(3),
 * `biteRoll` is rand.Intn(100), and `reel` says how this frame's reeling ended.
 */
module Fishing {
  /** The integer fields of FishingGame; state 0 idle, 1 waiting, 2 reeling. */
  datatype FishingGame = FishingGame(state: int, activeSpot: int, targetSpot: int, score: int, waitTimer: int)

  /** The zero value of the Go struct. */
  const InitialFishing := FishingGame(0, 0, 0, 0, 0)

  /** The hot spot is re-rolled on the frame the timer passes this many ticks. */
  const HotSpotPeriod := 120

  /** ReelProgress reached 100 (Landed), fell to 0 (Escaped), or neither (Holding) this frame. */
  datatype Reel = Landed | Escaped | Holding

  predicate FishingValid(f: FishingGame) {
    && 0 <= f.state <= 2
    && 0 <= f.waitTimer <= HotSpotPeriod
    && 0 <= f.targetSpot <= 3
    && 0 <= f.activeSpot <= 3
    && (f.state != 0 ==> 1 <= f.activeSpot)
  }

  /** The spot the A, S and D keys cast to this frame, 0 for none; the last one checked wins. */
  function CastTarget(keyA: bool, keyS: bool, keyD: bool): (t: int)
    ensures 0 <= t <= 3
    ensures t == 0 <==> !keyA && !keyS && !keyD
    ensures keyD ==> t == 3
    ensures keyS && !keyD ==> t == 2
    ensures keyA && !keyS && !keyD ==> t == 1
  {
    if keyD then 3 else if keyS then 2 else if keyA then 1 else 0
  }

  /** The fish is landed this frame. */
  predicate Catches(f: FishingGame, reel: Reel) {
    f.state == 2 && reel == Landed
  }

  /** The hot-spot timer of updateFishing: it counts frames and re-rolls the hot spot when it passes 120. */
  function HotSpotTick(f: FishingGame, spotRoll: int): (g: FishingGame)
    requires 0 <= spotRoll < 3
    ensures g.state == f.state && g.activeSpot == f.activeSpot && g.score == f.score
  {
    var wait := f.waitTimer + 1;
    if wait > HotSpotPeriod then f.(waitTimer := 0, targetSpot := spotRoll + 1)
    else f.(waitTimer := wait)
  }

  /** The state switch of updateFishing, after the hot-spot timer has run. */
  function Transition(f: FishingGame, keyA: bool, keyS: bool, keyD: bool, space: bool,
                      biteRoll: int, reel: Reel): (g: FishingGame)
    ensures g.waitTimer == f.waitTimer && g.targetSpot == f.targetSpot
    ensures g.score == f.score + (if Catches(f, reel) then 1 else 0)
  {
    if f.state == 0 then
      var target := CastTarget(keyA, keyS, keyD);
      if target > 0 then f.(activeSpot := target, state := 1) else f
    else if f.state == 1 then
      var bitten := if f.activeSpot == f.targetSpot && biteRoll < 2 then f.(state := 2) else f;
      if space then bitten.(state := 0) else bitten
    else if f.state == 2 then
      match reel
      case Landed => f.(score := f.score + 1, state := 0)
      case Escaped => f.(state := 0)
      case Holding => f
    else f
  }

  /** One updateFishing. */
  function FishingStep(f: FishingGame, keyA: bool, keyS: bool, keyD: bool, space: bool,
                       spotRoll: int, biteRoll: int, reel: Reel): (g: FishingGame)
    requires 0 <= spotRoll < 3
    ensures g.score == f.score + (if Catches(f, reel) then 1 else 0)
  {
    Transition(HotSpotTick(f, spotRoll), keyA, keyS, keyD, space, biteRoll, reel)
  }

  lemma FishingStepKeepsValid(f: FishingGame, keyA: bool, keyS: bool, keyD: bool, space: bool,
                              spotRoll: int, biteRoll: int, reel: Reel)
    requires FishingValid(f) && 0 <= spotRoll < 3
    ensures FishingValid(FishingStep(f, keyA, keyS, keyD, space, spotRoll, biteRoll, reel))
  {
  }

  /**
   * The hot-spot timer counts modulo 121 and the hot spot changes only on the
   * frame it wraps, to the rolled spot 1-3.
   */
  lemma HotSpotTimer(f: FishingGame, keyA: bool, keyS: bool, keyD: bool, space: bool,
                     spotRoll: int, biteRoll: int, reel: Reel)
    requires FishingValid(f) && 0 <= spotRoll < 3
    ensures var g := FishingStep(f, keyA, keyS, keyD, space, spotRoll, biteRoll, reel);
      g.waitTimer == (f.waitTimer + 1) % (HotSpotPeriod + 1) &&
      (g.targetSpot == if f.waitTimer == HotSpotPeriod then spotRoll + 1 else f.targetSpot)
  {
  }

  /**
   * The bite gate: a waiting line starts reeling exactly when it waits at this
   * frame's hot spot, the roll is one of the 2 in 100 that bite, and space does
   * not reel the line in.
   */
  lemma BiteGate(f: FishingGame, keyA: bool, keyS: bool, keyD: bool, space: bool,
                 spotRoll: int, biteRoll: int, reel: Reel)
    requires FishingValid(f) && f.state == 1 && 0 <= spotRoll < 3
    ensures var g := FishingStep(f, keyA, keyS, keyD, space, spotRoll, biteRoll, reel);
      (g.state == 2 <==> f.activeSpot == g.targetSpot && biteRoll < 2 && !space) &&
      (g.state == 0 <==> space) &&
      g.activeSpot == f.activeSpot && g.score == f.score
  {
  }

  /** Idle, pressing a spot key casts there; nothing else leaves state 0. */
  lemma CastStartsWaiting(f: FishingGame, keyA: bool, keyS: bool, keyD: bool, space: bool,
                          spotRoll: int, biteRoll: int, reel: Reel)
    requires FishingValid(f) && f.state == 0 && 0 <= spotRoll < 3
    ensures var g := FishingStep(f, keyA, keyS, keyD, space, spotRoll, biteRoll, reel);
      (g.state == 1 <==> keyA || keyS || keyD) &&
      (g.state == 1 ==> g.activeSpot == CastTarget(keyA, keyS, keyD)) &&
      (g.state == 0 ==> g.activeSpot == f.activeSpot)
  {
  }

  /** Reeling ends in state 0 on either outcome, and only a landed fish scores. */
  lemma ReelingOutcome(f: FishingGame, keyA: bool, keyS: bool, keyD: bool, space: bool,
                       spotRoll: int, biteRoll: int, reel: Reel)
    requires FishingValid(f) && f.state == 2 && 0 <= spotRoll < 3
    ensures var g := FishingStep(f, keyA, keyS, keyD, space, spotRoll, biteRoll, reel);
      (g.state == 0 <==> reel != Holding) && (g.state == 2 <==> reel == Holding) &&
      g.score == f.score + (if reel == Landed then 1 else 0)
  {
  }
}

/**
 * Colour profiles of the settings screen (new.go): the active-profile index,
 * the Right/Left keys that cycle it, and the fallback ApplyProfile uses for an
 * index outside the list.
 */
module Profiles {
  import opened Colors

  datatype ColorProfile = ColorProfile(name: string, bgHex: string, accentHex: string)

  datatype AppSettings = AppSettings(activeIndex: int, profiles: seq<ColorProfile>)

  /** The settings written when no settings file can be read. */
  const DefaultSettings := AppSettings(0, [
    ColorProfile("Retro", "#2d2d2d", "#ff6b6b"),
    ColorProfile("Light", "#fdf6e3", "#2aa198"),
    ColorProfile("Matrix", "#000000", "#00ff00")])

  /** Go's `a / n` for n > 0: the quotient truncates toward zero. */
  function GoQuot(a: int, n: int): int
    requires n > 0
  {
    if a >= 0 then a / n else -((-a) / n)
  }

  /**
   * Go's `a % n` for n > 0: the remainder that goes with the truncated
   * quotient, so it has the sign of `a`.
   */
  function GoRem(a: int, n: int): (r: int)
    requires n > 0
    ensures a == n * GoQuot(a, n) + r
    ensures a >= 0 ==> 0 <= r < n
    ensures a < 0 ==> -n < r <= 0
    ensures 0 <= a < n ==> r == a
  {
    EuclideanRem(if a >= 0 then a else -a, n);
    if a >= 0 then a % n else -((-a) % n)
  }

  lemma EuclideanRem(b: int, n: int)
    requires b >= 0 && n > 0
    ensures b == n * (b / n) + b % n
    ensures 0 <= b % n < n
    ensures b < n ==> b % n == b
  {
  }

  /** The Right key: `(i + 1) % n` with Go's remainder. */
  function NextIndex(i: int, n: int): (j: int)
    requires n > 0
    ensures -1 <= i ==> 0 <= j < n
    ensures 0 <= i < n - 1 ==> j == i + 1
    ensures i == n - 1 ==> j == 0
    ensures i < -1 ==> -n < j <= 0
  {
    GoRem(i + 1, n)
  }

  /** The Left key: one down, wrapping to the last profile below zero. */
  function PrevIndex(i: int, n: int): (j: int)
    ensures 0 < i ==> j == i - 1
    ensures i <= 0 ==> j == n - 1
    ensures 0 <= i < n ==> 0 <= j < n
  {
    if i - 1 < 0 then n - 1 else i - 1
  }

  /** Left undoes Right and Right undoes Left on every in-range index. */
  lemma CycleInverse(i: int, n: int)
    requires 0 <= i < n
    ensures PrevIndex(NextIndex(i, n), n) == i
    ensures NextIndex(PrevIndex(i, n), n) == i
  {
  }

  /**
   * Right then Left from any index: a non-negative one comes back reduced
   * modulo n, and a negative one ends on the last profile.
   */
  lemma RightThenLeft(i: int, n: int)
    requires n > 0
    ensures PrevIndex(NextIndex(i, n), n) == if i >= 0 then i % n else n - 1
  {
    if i >= 0 {
      var q, r := i / n, i % n;
      assert i + 1 == n * q + (r + 1);
      if r + 1 < n {
        assert (i + 1) % n == r + 1 by { EuclideanDivision(i + 1, n, q, r + 1); }
      } else {
        assert i + 1 == n * (q + 1) + 0;
        assert (i + 1) % n == 0 by { EuclideanDivision(i + 1, n, q + 1, 0); }
      }
    }
  }

  /** Division is fixed by any quotient and remainder that rebuild the dividend. */
  lemma EuclideanDivision(a: int, n: int, q: int, r: int)
    requires n > 0 && 0 <= r < n && a == n * q + r
    ensures a / n == q && a % n == r
  {
    var q', r' := a / n, a % n;
    assert n * (q - q') == r' - r;
    if q > q' {
      MultipleAtLeast(n, q - q');
    } else if q < q' {
      MultipleAtLeast(n, q' - q);
    }
  }

  lemma MultipleAtLeast(n: int, k: int)
    requires n > 0 && k >= 1
    ensures n * k >= n
  {
  }

  /** The index ApplyProfile reads: the stored one when it is in range, else 0. */
  function ProfileIndex(i: int, n: int): (k: int)
    requires n > 0
    ensures 0 <= k < n
    ensures k == i || k == 0
    ensures 0 <= i < n <==> k == i
  {
    if i < 0 || i >= n then 0 else i
  }

  /** The profile ApplyProfile applies; there must be one to fall back on. */
  function ActiveProfile(s: AppSettings): (p: ColorProfile)
    requires |s.profiles| > 0
    ensures p in s.profiles
    ensures 0 <= s.activeIndex < |s.profiles| ==> p == s.profiles[s.activeIndex]
    ensures !(0 <= s.activeIndex < |s.profiles|) ==> p == s.profiles[0]
  {
    s.profiles[ProfileIndex(s.activeIndex, |s.profiles|)]
  }

  /** The background and accent colours ApplyProfile sets: those of the active profile, parsed. */
  function ProfileColors(s: AppSettings): (RGBA, RGBA)
    requires |s.profiles| > 0
  {
    (ParseHex(ActiveProfile(s).bgHex), ParseHex(ActiveProfile(s).accentHex))
  }

  /** k presses of Right. */
  function NextTimes(i: int, n: int, k: nat): int
    requires n > 0
  {
    if k == 0 then i else NextIndex(NextTimes(i, n, k - 1), n)
  }

  /** Pressing Right a + b times is pressing it a times, then b times. */
  lemma {:induction false} NextTimesAdd(i: int, n: int, a: nat, b: nat)
    requires n > 0
    ensures NextTimes(i, n, a + b) == NextTimes(NextTimes(i, n, a), n, b)
  {
    if b > 0 {
      NextTimesAdd(i, n, a, b - 1);
    }
  }

  /** Below the last profile, k presses of Right move the selection k places. */
  lemma {:induction false} NextTimesNoWrap(i: int, n: int, k: nat)
    requires 0 <= i && i + k < n
    ensures NextTimes(i, n, k) == i + k
  {
    if k > 0 {
      NextTimesNoWrap(i, n, k - 1);
    }
  }

  /** Pressing Right once per profile brings the selection back where it started. */
  lemma FullCycle(i: int, n: int)
    requires 0 <= i < n
    ensures NextTimes(i, n, n) == i
  {
    NextTimesNoWrap(i, n, n - 1 - i);
    NextTimesAdd(i, n, n - 1 - i, 1);
    assert NextTimes(i, n, n - i) == 0;
    NextTimesNoWrap(0, n, i);
    NextTimesAdd(i, n, n - i, i);
  }

  /**
   * A stored index below -1 is not repaired by Right: Go's remainder keeps it at
   * or below zero, and ApplyProfile then falls back to profile 0 unless it is 0.
   */
  lemma NegativeIndexFallsBack(i: int, n: int)
    requires n > 0 && i < -1
    ensures ProfileIndex(NextIndex(i, n), n) == 0
  {
  }
}

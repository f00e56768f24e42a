/**
 * Colours of the settings profiles: `ParseHex` turns a "#RRGGBB" string into
 * an opaque RGBA colour (new.go).
 */
module Colors {
  import opened Wrappers

  type Byte = x: int | 0 <= x < 256

  datatype RGBA = RGBA(r: Byte, g: Byte, b: Byte, a: Byte)

  const OpaqueBlack := RGBA(0, 0, 0, 255)

  predicate IsHexDigit(c: char) {
    ('0' <= c <= '9') || ('a' <= c <= 'f') || ('A' <= c <= 'F')
  }

  predicate AllHex(s: string) {
    forall i :: 0 <= i < |s| ==> IsHexDigit(s[i])
  }

  function DigitValue(c: char): (d: nat)
    requires IsHexDigit(c)
    ensures d < 16
  {
    if '0' <= c <= '9' then c as int - '0' as int
    else if 'a' <= c <= 'f' then c as int - 'a' as int + 10
    else c as int - 'A' as int + 10
  }

  /** The number that the first `n` characters of `s`, all hexadecimal digits, denote, most significant first. */
  function HexPrefix(s: string, n: nat): nat
    requires n <= |s| && forall i :: 0 <= i < n ==> IsHexDigit(s[i])
  {
    if n == 0 then 0 else 16 * HexPrefix(s, n - 1) + DigitValue(s[n - 1])
  }

  /** The number that a string of hexadecimal digits denotes. */
  function HexValue(s: string): nat
    requires AllHex(s)
  {
    HexPrefix(s, |s|)
  }

  /** Reading one more digit never lowers the value read so far. */
  lemma {:induction false} HexPrefixMonotone(s: string, i: nat, j: nat)
    requires i <= j <= |s| && forall k :: 0 <= k < j ==> IsHexDigit(s[k])
    ensures HexPrefix(s, i) <= HexPrefix(s, j)
    decreases j - i
  {
    if i < j {
      HexPrefixMonotone(s, i, j - 1);
    }
  }

  /** 16 to the power n. */
  function Pow16(n: nat): (p: nat)
    ensures p >= 1
  {
    if n == 0 then 1 else 16 * Pow16(n - 1)
  }

  /** n hexadecimal digits denote a number below 16^n. */
  lemma {:induction false} HexPrefixBelow(s: string, n: nat)
    requires n <= |s| && forall i :: 0 <= i < n ==> IsHexDigit(s[i])
    ensures HexPrefix(s, n) < Pow16(n)
  {
    if n > 0 {
      HexPrefixBelow(s, n - 1);
    }
  }

  lemma {:induction false} Pow16Monotone(i: nat, j: nat)
    requires i <= j
    ensures Pow16(i) <= Pow16(j)
    decreases j - i
  {
    if i < j {
      Pow16Monotone(i, j - 1);
    }
  }

  /** The leading digits of a six-character string fit well within 32 bits. */
  lemma ShortRunFits(t: string)
    requires |t| == 6
    ensures HexPrefix(t, HexRun(t)) < 0x100_0000
  {
    HexPrefixBelow(t, HexRun(t));
    Pow16Monotone(HexRun(t), 6);
    assert Pow16(6) == 0x100_0000;
  }

  /** How many leading characters of `s` are hexadecimal digits. */
  function HexRun(s: string): (k: nat)
    ensures k <= |s|
    ensures forall i :: 0 <= i < k ==> IsHexDigit(s[i])
    ensures k < |s| ==> !IsHexDigit(s[k])
  {
    if |s| == 0 || !IsHexDigit(s[0]) then 0 else 1 + HexRun(s[1..])
  }

  const MaxUint32 := 0xFFFF_FFFF

  /**
   * The digit loop of `strconv.ParseUint(s, 16, 32)` from position `i`, with
   * the value `n` read so far. Each character is first checked to be a digit
   * (a syntax error, None, otherwise); a value past 32 bits then stops the scan
   * at once with the largest uint32, which Go returns with its range error.
   */
  function Scan(s: string, i: nat, n: nat): (r: Option<nat>)
    requires i <= |s| && n <= MaxUint32
    ensures r.Some? ==> n <= r.value <= MaxUint32
    ensures r.None? ==> exists k :: i <= k < |s| && !IsHexDigit(s[k])
    decreases |s| - i
  {
    if i == |s| then Some(n)
    else if !IsHexDigit(s[i]) then None
    else if 16 * n + DigitValue(s[i]) > MaxUint32 then Some(MaxUint32)
    else Scan(s, i + 1, 16 * n + DigitValue(s[i]))
  }

  /**
   * What the scan from a position inside the leading run of digits returns:
   * the largest uint32 once the whole run is past 32 bits, whatever follows
   * it; otherwise None when a non-digit follows, and the value when none does.
   */
  lemma {:induction false} ScanResult(s: string, i: nat)
    requires i <= HexRun(s) && HexPrefix(s, i) <= MaxUint32
    ensures var k := HexRun(s);
      Scan(s, i, HexPrefix(s, i)) ==
        if HexPrefix(s, k) > MaxUint32 then Some(MaxUint32)
        else if k < |s| then None
        else Some(HexPrefix(s, k))
    decreases |s| - i
  {
    var k := HexRun(s);
    if i < k {
      assert HexPrefix(s, i + 1) == 16 * HexPrefix(s, i) + DigitValue(s[i]);
      if HexPrefix(s, i + 1) > MaxUint32 {
        HexPrefixMonotone(s, i + 1, k);
      } else {
        ScanResult(s, i + 1);
      }
    }
  }

  /**
   * `strconv.ParseUint(s, 16, 32)`, which reads `s` left to right (with an
   * explicit base there is no "0x" prefix, sign or underscore). The empty
   * string, and a non-digit reached before the value passes 32 bits, are
   * syntax errors (None). A leading run of digits past 32 bits is a range
   * error, returned with the largest uint32 even when a non-digit follows it.
   * Otherwise the result is the value of the digits.
   */
  function ParseUint32Hex(s: string): (r: Option<nat>)
    ensures |s| == 0 ==> r == None
    ensures r.Some? ==> r.value <= MaxUint32
    ensures |s| > 0 && HexPrefix(s, HexRun(s)) > MaxUint32 ==> r == Some(MaxUint32)
    ensures HexRun(s) < |s| && HexPrefix(s, HexRun(s)) <= MaxUint32 ==> r == None
    ensures |s| > 0 && AllHex(s) && HexValue(s) <= MaxUint32 ==> r == Some(HexValue(s))
  {
    if |s| == 0 then None
    else
      ScanResult(s, 0);
      Scan(s, 0, 0)
  }

  /** A number of n >= 1 digits is at least its leading digit times 16^(n-1). */
  lemma {:induction false} HexPrefixLeading(s: string, n: nat)
    requires 1 <= n <= |s| && forall i :: 0 <= i < n ==> IsHexDigit(s[i])
    ensures HexPrefix(s, n) >= Pow16(n - 1) * DigitValue(s[0])
  {
    if n > 1 {
      HexPrefixLeading(s, n - 1);
      assert HexPrefix(s, n) >= 16 * HexPrefix(s, n - 1);
      ScaleBound(HexPrefix(s, n - 1), Pow16(n - 2), DigitValue(s[0]));
    }
  }

  lemma ScaleBound(h: nat, p: nat, d: nat)
    requires h >= p * d
    ensures 16 * h >= (16 * p) * d
  {
    assert (16 * p) * d == 16 * (p * d);
  }

  /**
   * A range error wins over a later bad digit: nine digits that do not start
   * with 0 overflow 32 bits, so whatever follows them (as in "123456789z") the
   * result is the largest uint32.
   */
  lemma OverflowBeforeBadDigit(s: string)
    requires |s| >= 9 && (forall i :: 0 <= i < 9 ==> IsHexDigit(s[i])) && DigitValue(s[0]) > 0
    ensures ParseUint32Hex(s) == Some(MaxUint32)
  {
    var k := HexRun(s);
    HexPrefixLeading(s, 9);
    assert Pow16(8) == 0x1_0000_0000;
    HexPrefixMonotone(s, 9, k);
  }

  /** A bad digit among the first eight characters is a syntax error: no overflow can come before it. */
  lemma BadDigitIsSyntaxError(s: string, k: nat)
    requires k < 8 && k < |s| && !IsHexDigit(s[k]) && forall i :: 0 <= i < k ==> IsHexDigit(s[i])
    ensures ParseUint32Hex(s) == None
  {
    assert HexRun(s) == k by {
      if HexRun(s) < k { assert !IsHexDigit(s[HexRun(s)]); }
    }
    HexPrefixBelow(s, k);
    Pow16Monotone(k, 8);
    assert Pow16(8) == 0x1_0000_0000;
  }

  /**
   * On six characters, all ParseHex passes it, ParseUint gives the value of
   * six digits or a syntax error: no overflow is possible.
   */
  lemma SixCharsParse(t: string)
    requires |t| == 6
    ensures ParseUint32Hex(t) == if AllHex(t) then Some(HexValue(t)) else None
  {
    ShortRunFits(t);
  }

  /** `strings.TrimPrefix(s, "#")`: one leading '#' at most is removed. */
  function TrimHash(s: string): (t: string)
    ensures |s| > 0 && s[0] == '#' ==> s == ['#'] + t
    ensures (|s| == 0 || s[0] != '#') ==> t == s
  {
    if |s| > 0 && s[0] == '#' then s[1..] else s
  }

  /** One byte written as two hexadecimal digits, `hi` first. */
  function PairValue(hi: char, lo: char): (v: Byte)
    requires IsHexDigit(hi) && IsHexDigit(lo)
  {
    16 * DigitValue(hi) + DigitValue(lo)
  }

  /**
   * ParseHex (new.go): strip one '#'; anything but six characters is opaque
   * black; otherwise the discarded ParseUint error leaves 0 for invalid digits,
   * and the value is split into its three bytes with alpha 255. On six
   * characters ParseUint32Hex cannot overflow (SixCharsParse), so its value,
   * or 0 on its syntax error, is HexValue or 0 as written here.
   */
  function ParseHex(s: string): (c: RGBA)
    ensures c.a == 255
    ensures |TrimHash(s)| != 6 ==> c == OpaqueBlack
    ensures |TrimHash(s)| == 6 && !AllHex(TrimHash(s)) ==> c == OpaqueBlack
    ensures var t := TrimHash(s);
      |t| == 6 && AllHex(t) ==>
        c == RGBA(PairValue(t[0], t[1]), PairValue(t[2], t[3]), PairValue(t[4], t[5]), 255)
  {
    var t := TrimHash(s);
    if |t| != 6 then OpaqueBlack
    else
      var v := if AllHex(t) then HexValue(t) else 0;
      SixDigitsValue(t);
      RGBA((v / 0x1_0000) % 256, (v / 0x100) % 256, v % 256, 255)
  }

  /** Six hex digits denote the three bytes they spell, high byte first. */
  lemma SixDigitsValue(t: string)
    requires |t| == 6
    ensures AllHex(t) ==>
      var v := HexValue(t);
      v <= 0xFF_FFFF &&
      (v / 0x1_0000) % 256 == PairValue(t[0], t[1]) &&
      (v / 0x100) % 256 == PairValue(t[2], t[3]) &&
      v % 256 == PairValue(t[4], t[5])
  {
    if AllHex(t) {
      SixDigitsSum(t);
      ByteSplit(PairValue(t[0], t[1]), PairValue(t[2], t[3]), PairValue(t[4], t[5]));
    }
  }

  lemma SixDigitsSum(t: string)
    requires |t| == 6 && AllHex(t)
    ensures HexValue(t) == 0x1_0000 * PairValue(t[0], t[1]) + 0x100 * PairValue(t[2], t[3]) + PairValue(t[4], t[5])
  {
    assert HexPrefix(t, 1) == DigitValue(t[0]);
    assert HexPrefix(t, 2) == PairValue(t[0], t[1]);
    assert HexPrefix(t, 3) == 16 * PairValue(t[0], t[1]) + DigitValue(t[2]);
    assert HexPrefix(t, 4) == 0x100 * PairValue(t[0], t[1]) + PairValue(t[2], t[3]);
    assert HexPrefix(t, 5) == 0x1000 * PairValue(t[0], t[1]) + 16 * PairValue(t[2], t[3]) + DigitValue(t[4]);
  }

  lemma ByteSplit(a: Byte, b: Byte, c: Byte)
    ensures var v := 0x1_0000 * a + 0x100 * b + c;
      v <= 0xFF_FFFF && (v / 0x1_0000) % 256 == a && (v / 0x100) % 256 == b && v % 256 == c
  {
    var v := 0x1_0000 * a + 0x100 * b + c;
    assert v / 0x1_0000 == a;
    assert v / 0x100 == 0x100 * a + b;
  }

  // A reference formatter, the inverse of ParseHex on opaque colours.

  function HexChar(d: int): (c: char)
    requires 0 <= d < 16
    ensures IsHexDigit(c) && DigitValue(c) == d
  {
    if d < 10 then ('0' as int + d) as char else ('a' as int + d - 10) as char
  }

  /** "#rrggbb" for the colour's red, green and blue bytes. */
  function FormatHex(c: RGBA): (s: string)
    ensures |s| == 7 && s[0] == '#'
  {
    ['#', HexChar(c.r / 16), HexChar(c.r % 16), HexChar(c.g / 16), HexChar(c.g % 16),
     HexChar(c.b / 16), HexChar(c.b % 16)]
  }

  /** Parsing a formatted colour gives back its three bytes, made opaque. */
  lemma ParseFormatRoundTrip(c: RGBA)
    ensures ParseHex(FormatHex(c)) == RGBA(c.r, c.g, c.b, 255)
  {
    var t := TrimHash(FormatHex(c));
    assert t == FormatHex(c)[1..];
    assert AllHex(t);
  }

  /** Only one '#' is stripped: "##rrggbb" is seven characters after trimming, hence black. */
  lemma DoubleHashIsBlack(c: RGBA)
    ensures ParseHex(['#'] + FormatHex(c)) == OpaqueBlack
  {
    assert TrimHash(['#'] + FormatHex(c)) == FormatHex(c);
  }

  /** The leading '#' is optional. */
  lemma HashOptional(s: string)
    requires |s| == 0 || s[0] != '#'
    ensures ParseHex(['#'] + s) == ParseHex(s)
  {
    assert TrimHash(['#'] + s) == s;
  }
}

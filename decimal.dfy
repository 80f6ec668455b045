/**
 * Decimal numerals: Python's `str(n)`, the zero-padded format `f"{n:0Wd}"`
 * and the base-10 parse `int(s)`.
 */
module Decimal {
  import opened Wrappers
  import Text

  predicate IsDigit(c: char)
  {
    '0' <= c <= '9'
  }

  predicate AllDigits(s: string)
  {
    forall i :: 0 <= i < |s| ==> IsDigit(s[i])
  }

  function DigitChar(d: nat): (c: char)
    requires d < 10
    ensures IsDigit(c) && c as int - '0' as int == d
  {
    ('0' as int + d) as char
  }

  function DigitValue(c: char): nat
    requires IsDigit(c)
  {
    c as int - '0' as int
  }

  /** The number a string of digits denotes, most significant digit first. */
  function DigitsValue(s: string): nat
    requires AllDigits(s)
  {
    if s == [] then 0 else DigitsValue(s[..|s| - 1]) * 10 + DigitValue(s[|s| - 1])
  }

  /** `str(n)` for a non-negative integer: at least one digit, no leading zero. */
  function NatToString(n: nat): (s: string)
    ensures |s| >= 1 && AllDigits(s)
    ensures n > 0 ==> s[0] != '0'
  {
    if n < 10 then [DigitChar(n)] else NatToString(n / 10) + [DigitChar(n % 10)]
  }

  /** `str(n)` denotes `n`. */
  lemma {:induction false} NatToStringValue(n: nat)
    ensures DigitsValue(NatToString(n)) == n
  {
    if n >= 10 {
      NatToStringValue(n / 10);
      var s := NatToString(n);
      assert s[..|s| - 1] == NatToString(n / 10);
    }
  }

  /** Distinct numbers print differently. */
  lemma NatToStringInjective(m: nat, n: nat)
    requires NatToString(m) == NatToString(n)
    ensures m == n
  {
    NatToStringValue(m);
    NatToStringValue(n);
  }

  function Pow10(d: nat): (p: nat)
    ensures p >= 1
  {
    if d == 0 then 1 else 10 * Pow10(d - 1)
  }

  /** A number below 10^d prints in at most d digits. */
  lemma {:induction false} NatToStringShort(n: nat, d: nat)
    requires d >= 1 && n < Pow10(d)
    ensures |NatToString(n)| <= d
  {
    if n >= 10 {
      assert d >= 2;
      NatToStringShort(n / 10, d - 1);
    }
  }

  function Zeros(k: nat): (s: string)
    ensures |s| == k && AllDigits(s)
    ensures forall i :: 0 <= i < k ==> s[i] == '0'
  {
    seq(k, _ => '0')
  }

  /** `f"{n:0{width}d}"`: `str(n)` left-padded with zeros to at least `width` characters. */
  function ZeroPad(n: nat, width: nat): (s: string)
    ensures AllDigits(s)
    ensures |s| == if |NatToString(n)| < width then width else |NatToString(n)|
  {
    var d := NatToString(n);
    if |d| < width then Zeros(width - |d|) + d else d
  }

  /** Leading zeros do not change the value of a numeral. */
  lemma {:induction false} LeadingZerosValue(k: nat, s: string)
    requires AllDigits(s)
    ensures DigitsValue(Zeros(k) + s) == DigitsValue(s)
    decreases k + |s|
  {
    var t := Zeros(k) + s;
    if s == [] {
      assert t == Zeros(k);
      if k > 0 {
        assert t[..|t| - 1] == Zeros(k - 1) + [];
        LeadingZerosValue(k - 1, []);
      }
    } else {
      assert t[..|t| - 1] == Zeros(k) + s[..|s| - 1];
      LeadingZerosValue(k, s[..|s| - 1]);
    }
  }

  /** A zero-padded numeral still denotes its number, so padding is injective. */
  lemma ZeroPadValue(n: nat, width: nat)
    ensures DigitsValue(ZeroPad(n, width)) == n
  {
    var d := NatToString(n);
    assert DigitsValue(d) == n by {
      NatToStringValue(n);
    }
    if |d| < width {
      assert ZeroPad(n, width) == Zeros(width - |d|) + d;
      LeadingZerosValue(width - |d|, d);
    }
  }

  lemma ZeroPadInjective(m: nat, n: nat, width: nat)
    requires ZeroPad(m, width) == ZeroPad(n, width)
    ensures m == n
  {
    ZeroPadValue(m, width);
    ZeroPadValue(n, width);
  }

  // ---------------------------------------------------------------------
  // int(s), base 10

  /** Digits with single underscores allowed between them, as Python's integer literals. */
  predicate IsDigitGroup(s: string)
  {
    && |s| >= 1 && IsDigit(s[0]) && IsDigit(s[|s| - 1])
    && (forall i :: 0 <= i < |s| ==> IsDigit(s[i]) || s[i] == '_')
    && (forall i :: 0 <= i < |s| - 1 ==> IsDigit(s[i]) || IsDigit(s[i + 1]))
  }

  function DropUnderscores(s: string): (r: string)
    requires forall i :: 0 <= i < |s| ==> IsDigit(s[i]) || s[i] == '_'
    ensures AllDigits(r)
  {
    if s == [] then [] else (if s[0] == '_' then [] else [s[0]]) + DropUnderscores(s[1..])
  }

  lemma {:induction false} DropUnderscoresDigits(s: string)
    requires AllDigits(s)
    ensures DropUnderscores(s) == s
  {
    if s != [] {
      DropUnderscoresDigits(s[1..]);
      assert [s[0]] + s[1..] == s;
    }
  }

  function GroupValue(s: string): nat
    requires IsDigitGroup(s)
  {
    DigitsValue(DropUnderscores(s))
  }

  /**
   * The whitespace `int()` strips around its argument: among ASCII characters only
   * tab, line feed, vertical tab, form feed, carriage return and space; beyond ASCII
   * every character `str.isspace()` accepts. The ASCII separators U+001C..U+001F
   * count for `str.isspace()` but are not stripped by `int()`.
   */
  predicate IsIntSpace(c: char)
  {
    var n := c as int;
    (9 <= n <= 13) || n == 32 || (n >= 0x80 && Text.IsSpace(c))
  }

  /** Leading `int()` whitespace removed. */
  function IntTrimLeft(s: string): (r: string)
    ensures |r| <= |s| && r == s[|s| - |r|..]
    ensures r == [] || !IsIntSpace(r[0])
  {
    if s != [] && IsIntSpace(s[0]) then IntTrimLeft(s[1..]) else s
  }

  /** Trailing `int()` whitespace removed. */
  function IntTrimRight(s: string): (r: string)
    ensures |r| <= |s| && r == s[..|r|]
    ensures r == [] || !IsIntSpace(r[|r| - 1])
  {
    if s != [] && IsIntSpace(s[|s| - 1]) then IntTrimRight(s[..|s| - 1]) else s
  }

  /** `int()`'s stripping of its argument at both ends. */
  function IntStrip(s: string): string
  {
    IntTrimRight(IntTrimLeft(s))
  }

  /** A string with no `int()` whitespace at either end is left as it is. */
  lemma IntStripUnpadded(s: string)
    requires s == [] || (!IsIntSpace(s[0]) && !IsIntSpace(s[|s| - 1]))
    ensures IntStrip(s) == s
  {
  }

  /**
   * `int(s)`: surrounding whitespace (in `int()`'s sense) is stripped, then an optional
   * sign and a digit group must make up the rest; `None` where Python raises `ValueError`.
   */
  function ParseInt(s: string): (r: Option<int>)
  {
    ParseSigned(IntStrip(s))
  }

  /** An optional sign and a digit group, with nothing around them. */
  function ParseSigned(t: string): Option<int>
  {
    if |t| >= 1 && (t[0] == '+' || t[0] == '-') then
      if IsDigitGroup(t[1..]) then
        var v: int := GroupValue(t[1..]);
        Some(if t[0] == '-' then -v else v)
      else None
    else if IsDigitGroup(t) then Some(GroupValue(t))
    else None
  }

  /** A numeral of digits is a digit group that reads back as its own value. */
  lemma DigitsAreGroup(d: string)
    requires |d| >= 1 && AllDigits(d)
    ensures IsDigitGroup(d) && GroupValue(d) == DigitsValue(d)
    ensures !IsIntSpace(d[0]) && !IsIntSpace(d[|d| - 1])
  {
    DropUnderscoresDigits(d);
  }

  /** `int(str(n)) == n` */
  lemma ParseIntNatToString(n: nat)
    ensures ParseInt(NatToString(n)) == Some(n)
  {
    var d := NatToString(n);
    DigitsAreGroup(d);
    IntStripUnpadded(d);
    NatToStringValue(n);
    assert !(d[0] == '+' || d[0] == '-');
  }

  /** `int("-" + str(n)) == -n` */
  lemma ParseIntNegative(n: nat)
    ensures ParseInt("-" + NatToString(n)) == Some(-(n as int))
  {
    var d := NatToString(n);
    DigitsAreGroup(d);
    NatToStringValue(n);
    StripNegated(d);
    ParseSignedNegated(d);
  }

  lemma StripNegated(d: string)
    requires |d| >= 1 && !IsIntSpace(d[|d| - 1])
    ensures IntStrip("-" + d) == "-" + d
  {
    var s := "-" + d;
    assert s[|s| - 1] == d[|d| - 1];
    IntStripUnpadded(s);
  }

  lemma ParseSignedNegated(d: string)
    requires IsDigitGroup(d)
    ensures ParseSigned("-" + d) == Some(-(GroupValue(d) as int))
  {
    var s := "-" + d;
    assert s[1..] == d;
    assert s[0] == '-';
  }

  /** Input without any digit is rejected, as `int` raises for it. */
  lemma ParseIntNeedsDigit(s: string)
    requires forall i :: 0 <= i < |s| ==> !IsDigit(s[i])
    ensures ParseInt(s) == None
  {
    var l := IntTrimLeft(s);
    assert forall i :: 0 <= i < |l| ==> l[i] == s[|s| - |l| + i];
    var t := IntTrimRight(l);
    assert forall i :: 0 <= i < |t| ==> t[i] == l[i];
    ParseSignedNoDigit(t);
  }

  /** Neither a digit first nor a sign followed by a digit: `ParseSigned` rejects. */
  lemma ParseSignedNoDigit(t: string)
    requires t == [] || !IsDigit(t[0])
    requires |t| < 2 || !IsDigit(t[1])
    ensures ParseSigned(t) == None
  {
    if |t| >= 1 {
      assert !IsDigitGroup(t);
      if |t| >= 2 {
        assert t[1..][0] == t[1];
      }
      assert !IsDigitGroup(t[1..]);
    }
  }

  /** A leading whitespace character (in `int()`'s sense) does not change what `int` reads. */
  lemma ParseIntLeadingSpace(c: char, s: string)
    requires IsIntSpace(c)
    ensures ParseInt([c] + s) == ParseInt(s)
  {
    assert ([c] + s)[1..] == s;
  }

  /** A leading character that is neither `int()` whitespace, a sign nor a digit makes `int` raise. */
  lemma ParseIntLeadingJunk(c: char, s: string)
    requires !IsIntSpace(c) && !IsDigit(c) && c != '+' && c != '-'
    ensures ParseInt([c] + s) == None
  {
    var u := [c] + s;
    assert IntTrimLeft(u) == u;
    var t := IntStrip(u);
    assert t == [] || t[0] == c;
  }

  /**
   * `int()` strips ordinary whitespace but not the ASCII separators U+001C..U+001F,
   * which `str.strip()` does remove: `int(" " + s)` reads as `int(s)`, while
   * `int("\x1c" + s)` raises for every `s`.
   */
  lemma ParseIntSeparatorNotStripped(s: string)
    ensures ParseInt(" " + s) == ParseInt(s)
    ensures ParseInt("\U{1c}" + s) == None
    ensures Text.Strip("\U{1c}" + s) == Text.Strip(s)
  {
    assert " " + s == [' '] + s;
    ParseIntLeadingSpace(' ', s);
    assert "\U{1c}" + s == ['\U{1c}'] + s;
    ParseIntLeadingJunk('\U{1c}', s);
    Text.StripLeadingSpace('\U{1c}', s);
  }
}

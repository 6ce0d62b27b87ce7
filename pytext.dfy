/**
 * The Python text primitives the printer relies on: `str.strip()` with no
 * argument, `str(n)` for integers and `int(s)` for strings.
 */
module PyText {
  import opened Wrappers

  /** Python's `str.isspace()` for one character: the characters that
      `str.strip()` removes when called without an argument. */
  predicate IsSpace(c: char) {
    var n := c as int;
    n == 0x20 || (0x09 <= n <= 0x0D) || (0x1C <= n <= 0x1F) || n == 0x85 || n == 0xA0
    || n == 0x1680 || (0x2000 <= n <= 0x200A) || n == 0x2028 || n == 0x2029
    || n == 0x202F || n == 0x205F || n == 0x3000
  }

  predicate AllSpace(s: string) {
    forall i :: 0 <= i < |s| ==> IsSpace(s[i])
  }

  /** No whitespace at either end (true of the empty string). */
  predicate Trimmed(s: string) {
    s == [] || (!IsSpace(s[0]) && !IsSpace(s[|s| - 1]))
  }

  /** The number of whitespace characters at the front of `s`. */
  function LeadingSpaces(s: string): (n: nat)
    ensures n <= |s|
    ensures AllSpace(s[..n])
    ensures n < |s| ==> !IsSpace(s[n])
  {
    if s == [] || !IsSpace(s[0]) then 0
    else
      var k := LeadingSpaces(s[1..]);
      assert s[1..][..k] == s[1..k + 1];
      k + 1
  }

  /** The number of whitespace characters at the back of `s`. */
  function TrailingSpaces(s: string): (n: nat)
    ensures n <= |s|
    ensures AllSpace(s[|s| - n..])
    ensures n < |s| ==> !IsSpace(s[|s| - n - 1])
  {
    if s == [] || !IsSpace(s[|s| - 1]) then 0
    else
      var p := s[..|s| - 1];
      var k := TrailingSpaces(p);
      assert s[|s| - 1 - k..] == p[|p| - k..] + [s[|s| - 1]];
      assert k < |p| ==> s[|s| - k - 2] == p[|p| - k - 1];
      k + 1
  }

  /** `s` is `r` with only whitespace added in front and behind. */
  ghost predicate Pads(s: string, r: string) {
    exists i :: 0 <= i <= |s| - |r| && s[i..i + |r|] == r && AllSpace(s[..i]) && AllSpace(s[i + |r|..])
  }

  /** Python's `s.strip()`. */
  function Strip(s: string): (r: string)
    ensures Trimmed(r)
    ensures Pads(s, r)
    ensures r == [] <==> AllSpace(s)
  {
    var i := LeadingSpaces(s);
    var t := s[i..];
    var j := TrailingSpaces(t);
    var r := t[..|t| - j];
    assert s[i..i + |r|] == r;
    assert s[i + |r|..] == t[|t| - j..];
    assert r == [] ==> AllSpace(s) by {
      if r == [] {
        assert t[|t| - j..] == t;
        assert i == |s|;
        assert s[..i] == s;
      }
    }
    r
  }

  /** `strip()` leaves a string with no whitespace at its ends unchanged. */
  lemma StripTrimmed(s: string)
    requires Trimmed(s)
    ensures Strip(s) == s
  {
    assert LeadingSpaces(s) == 0;
    assert s[0..] == s;
    assert TrailingSpaces(s) == 0;
    assert s[..|s|] == s;
  }

  /** Stripping an already stripped string changes nothing. */
  lemma StripIdempotent(s: string)
    ensures Strip(Strip(s)) == Strip(s)
  {
    StripTrimmed(Strip(s));
  }

  predicate IsDigit(c: char) {
    '0' <= c <= '9'
  }

  function DigitValue(c: char): (d: nat)
    requires IsDigit(c)
    ensures d < 10
  {
    c as int - '0' as int
  }

  function DigitChar(d: nat): (c: char)
    requires d < 10
    ensures IsDigit(c) && DigitValue(c) == d
  {
    (d + '0' as int) as char
  }

  /** Python's `str(n)` for a natural number: its decimal digits, without
      leading zeros. */
  function NatToString(n: nat): (s: string)
    ensures |s| > 0
    ensures forall i :: 0 <= i < |s| ==> IsDigit(s[i])
    ensures |s| > 1 ==> s[0] != '0'
  {
    if n < 10 then [DigitChar(n)]
    else NatToString(n / 10) + [DigitChar(n % 10)]
  }

  /** Python's `str(n)` for any integer: a minus sign exactly when `n` is
      negative, then decimal digits only. */
  function IntToString(n: int): (s: string)
    ensures |s| > 0 && IsDigit(s[|s| - 1])
    ensures s[0] == '-' <==> n < 0
    ensures forall i :: 0 < i < |s| ==> IsDigit(s[i])
    ensures n >= 0 ==> IsDigit(s[0])
  {
    if n < 0 then "-" + NatToString(-n) else NatToString(n)
  }

  /** `len(range(n))`: how many times `for i in range(n)` runs. */
  function RangeLen(n: int): nat {
    if n > 0 then n else 0
  }

  /** A run of decimal digits in which a single '_' may separate two digits,
      the digit syntax Python's `int(s)` accepts in base 10. */
  predicate DigitGroup(ds: string) {
    && |ds| > 0
    && IsDigit(ds[0])
    && IsDigit(ds[|ds| - 1])
    && forall i :: 0 < i < |ds| - 1 && !IsDigit(ds[i]) ==> ds[i] == '_' && IsDigit(ds[i - 1]) && IsDigit(ds[i + 1])
  }

  /** The value of a digit group, ignoring separators: the digits are read
      from the most significant one. */
  function GroupValue(ds: string): nat
    requires forall i :: 0 <= i < |ds| ==> IsDigit(ds[i]) || ds[i] == '_'
  {
    if ds == [] then 0
    else
      var last := ds[|ds| - 1];
      var front := GroupValue(ds[..|ds| - 1]);
      if last == '_' then front else front * 10 + DigitValue(last)
  }

  /** Python's `int(s)` in base 10 on a string that `strip()` has already
      trimmed: an optional sign and a digit group; anything else raises
      `ValueError`, modelled as `None`. */
  function ParseTrimmed(s: string): (r: Option<int>)
    ensures r.Some? ==> s != [] && IsDigit(s[|s| - 1])
    ensures r.Some? && r.value < 0 ==> s[0] == '-'
    ensures r.Some? && s[0] == '-' ==> r.value <= 0
  {
    if s == [] then None
    else
      var neg := s[0] == '-';
      var ds := if s[0] == '-' || s[0] == '+' then s[1..] else s;
      if !DigitGroup(ds) then None
      else
        var v: int := GroupValue(ds);
        Some(if neg then -v else v)
  }

  /** Python's `int(s)`: surrounding whitespace is ignored. */
  function PyInt(s: string): (r: Option<int>)
    ensures AllSpace(s) ==> r == None
  {
    ParseTrimmed(Strip(s))
  }

  lemma {:induction false} GroupValueOfNat(n: nat)
    ensures DigitGroup(NatToString(n))
    ensures GroupValue(NatToString(n)) == n
  {
    var s := NatToString(n);
    if n >= 10 {
      GroupValueOfNat(n / 10);
      var p := NatToString(n / 10);
      assert s[..|s| - 1] == p;
    }
  }

  /** `str(n)` has no whitespace at its ends and reads back as `n`. */
  lemma ParseIntToString(n: int)
    ensures Trimmed(IntToString(n))
    ensures ParseTrimmed(IntToString(n)) == Some(n)
  {
    if n < 0 {
      ParseNegative(-n);
    } else {
      ParseNatToString(n);
    }
  }

  lemma ParseNatToString(m: nat)
    ensures Trimmed(NatToString(m))
    ensures ParseTrimmed(NatToString(m)) == Some(m)
  {
    GroupValueOfNat(m);
    var ds := NatToString(m);
    assert IsDigit(ds[0]) && IsDigit(ds[|ds| - 1]);
  }

  lemma ParseNegative(m: nat)
    requires m > 0
    ensures Trimmed("-" + NatToString(m))
    ensures ParseTrimmed("-" + NatToString(m)) == Some(-(m as int))
  {
    GroupValueOfNat(m);
    ParseMinus(NatToString(m));
  }

  /** A minus sign in front of a digit group negates its value. */
  lemma ParseMinus(ds: string)
    requires DigitGroup(ds)
    ensures Trimmed("-" + ds)
    ensures ParseTrimmed("-" + ds) == Some(-(GroupValue(ds) as int))
  {
    var s := "-" + ds;
    assert s[1..] == ds;
    assert s[|s| - 1] == ds[|ds| - 1];
  }

  /** `int(str(n)) == n` for every integer `n`. */
  lemma PyIntOfIntToString(n: int)
    ensures PyInt(IntToString(n)) == Some(n)
  {
    ParseIntToString(n);
    StripTrimmed(IntToString(n));
  }
}

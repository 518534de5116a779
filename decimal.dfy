/**
 * Go's `fmt` handling of decimal integers, as the preview server and the capture
 * code use it: `fmt.Sprintf("%d", n)` renders a path number or a label, and
 * `fmt.Sscanf(s, "%d", &index)` reads a request's `index` parameter into an `int`
 * that starts out 0 and keeps that value whenever the scan fails.
 */
module Decimal {

  const MIN_INT64: int := -0x8000_0000_0000_0000
  const MAX_INT64: int := 0x7FFF_FFFF_FFFF_FFFF

  predicate IsDigit(c: char) {
    '0' <= c <= '9'
  }

  predicate AllDigits(s: string) {
    forall i :: 0 <= i < |s| ==> IsDigit(s[i])
  }

  function DigitChar(d: nat): (c: char)
    requires d < 10
    ensures IsDigit(c) && c as int - '0' as int == d
  {
    ('0' as int + d) as char
  }

  /** The decimal digits of `n`, most significant first, with no leading zero. */
  function NatDigits(n: nat): (s: string)
    ensures |s| >= 1 && AllDigits(s)
    ensures s[0] == '0' ==> n == 0
  {
    if n < 10 then [DigitChar(n)] else NatDigits(n / 10) + [DigitChar(n % 10)]
  }

  /** `fmt.Sprintf("%d", n)`: a minus sign for negative numbers, then the digits. */
  function FormatInt(n: int): (s: string)
    ensures |s| >= 1
    ensures n < 0 <==> s[0] == '-'
    ensures n >= 0 <==> AllDigits(s)
  {
    if n < 0 then "-" + NatDigits(-n) else NatDigits(n)
  }

  /** The number a run of decimal digits denotes. */
  function DigitsValue(s: string): nat
    requires AllDigits(s)
  {
    if s == [] then 0 else 10 * DigitsValue(s[..|s| - 1]) + (s[|s| - 1] as int - '0' as int)
  }

  /** The length of the longest prefix of `s` made of decimal digits. */
  function DigitRun(s: string): (k: nat)
    ensures k <= |s| && AllDigits(s[..k])
    ensures k < |s| ==> !IsDigit(s[k])
  {
    if s != [] && IsDigit(s[0]) then
      var k := 1 + DigitRun(s[1..]);
      assert s[..k] == [s[0]] + s[1..][..k - 1];
      k
    else 0
  }

  /**
   * The white space the scanner discards before a number: what fmt counts as
   * space, except the newline, which makes `Sscanf` fail instead.
   */
  predicate IsScanSpace(c: char) {
    c == '\t' || c == '\U{B}' || c == '\U{C}' || c == '\r' || c == ' '
    || c == '\U{85}' || c == '\U{A0}' || c == '\U{1680}'
    || ('\U{2000}' <= c <= '\U{200A}')
    || c == '\U{2028}' || c == '\U{2029}' || c == '\U{202F}' || c == '\U{205F}' || c == '\U{3000}'
  }

  /** `s` without its leading scanner white space. */
  function SkipSpace(s: string): (t: string)
    ensures |t| <= |s| && t == s[|s| - |t|..]
    ensures t != [] ==> !IsScanSpace(t[0])
  {
    if s != [] && IsScanSpace(s[0]) then SkipSpace(s[1..]) else s
  }

  /**
   * The value `fmt.Sscanf(s, "%d", &v)` leaves in a `v` that held 0: after the
   * white space, an optional sign and at least one digit; the digits that follow
   * are read greedily and the rest of `s` is ignored. No digit, or a number
   * outside the 64-bit `int`, is a scan error and `v` stays 0.
   */
  function ScanInt(s: string): (v: int)
    ensures MIN_INT64 <= v <= MAX_INT64
    ensures (forall i :: 0 <= i < |s| ==> !IsDigit(s[i])) ==> v == 0
  {
    var t := SkipSpace(s);
    var signed := t != [] && (t[0] == '+' || t[0] == '-');
    var body := if signed then t[1..] else t;
    var k := DigitRun(body);
    if k == 0 then 0
    else
      assert body[0] == s[|s| - |body|];
      var magnitude: int := DigitsValue(body[..k]);
      var n: int := if signed && t[0] == '-' then -magnitude else magnitude;
      if MIN_INT64 <= n <= MAX_INT64 then n else 0
  }

  lemma {:induction false} NatDigitsValue(n: nat)
    ensures DigitsValue(NatDigits(n)) == n
  {
    if n >= 10 {
      var s := NatDigits(n);
      assert s[..|s| - 1] == NatDigits(n / 10);
      NatDigitsValue(n / 10);
    }
  }

  lemma {:induction false} DigitRunOfDigits(s: string)
    requires AllDigits(s)
    ensures DigitRun(s) == |s|
  {
    if s != [] {
      DigitRunOfDigits(s[1..]);
    }
  }

  /** Scanning what `%d` printed gives the number back, for every 64-bit `int`. */
  lemma ScanFormatted(n: int)
    requires MIN_INT64 <= n <= MAX_INT64
    ensures ScanInt(FormatInt(n)) == n
  {
    var m := if n < 0 then -n else n;
    var d := NatDigits(m);
    NatDigitsValue(m);
    DigitRunOfDigits(d);
    assert d[..|d|] == d;
    var s := FormatInt(n);
    assert !IsScanSpace(s[0]);
    assert SkipSpace(s) == s;
    if n < 0 {
      assert s[0] == '-' && s[1..] == d;
    } else {
      assert s == d && !(s[0] == '+' || s[0] == '-');
    }
  }
}

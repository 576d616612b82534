/**
 * Decimal notation of integers: `toString`, and the parsers the
 * application uses: `Number(s)` (the whole string must be a number),
 * `parseInt(s, 10)` and the radix-less `parseInt(s)`, which also reads a
 * `0x` prefix as hexadecimal (a leading run of digits is enough for both,
 * after leading white space). NaN is `None`.
 */
module Numbers {
  import opened Wrappers
  import opened Text

  predicate IsDigit(c: char) {
    '0' <= c <= '9'
  }

  predicate AllDigits(s: string) {
    forall i :: 0 <= i < |s| ==> IsDigit(s[i])
  }

  function DigitChar(d: nat): (c: char)
    requires d < 10
    ensures IsDigit(c) && c as int - '0' as int == d
  {
    ('0' as int + d) as char
  }

  /** `n.toString()` for a non-negative integer. */
  function Decimal(n: nat): (r: string)
    ensures |r| >= 1 && AllDigits(r)
    ensures r[0] == '0' ==> n == 0
    ensures n < 10 <==> |r| == 1
  {
    if n < 10 then [DigitChar(n)] else Decimal(n / 10) + [DigitChar(n % 10)]
  }

  /** The value of a string of decimal digits, most significant first. */
  function DigitsValue(s: string): nat
    requires AllDigits(s)
    decreases |s|
  {
    if s == [] then 0
    else 10 * DigitsValue(s[..|s| - 1]) + (s[|s| - 1] as int - '0' as int)
  }

  /** Reading back the decimal notation of `n` gives `n`. */
  lemma {:induction false} DecimalValue(n: nat)
    ensures DigitsValue(Decimal(n)) == n
  {
    if n >= 10 {
      DecimalValue(n / 10);
      var d := Decimal(n);
      assert d[..|d| - 1] == Decimal(n / 10);
    }
  }

  /** The longest prefix of `s` made of digits. */
  function LeadingDigits(s: string): (r: string)
    ensures |r| <= |s| && r == s[..|r|] && AllDigits(r)
    ensures |r| < |s| ==> !IsDigit(s[|r|])
    decreases |s|
  {
    if s != [] && IsDigit(s[0]) then [s[0]] + LeadingDigits(s[1..]) else []
  }

  lemma {:induction false} LeadingDigitsAll(s: string)
    requires AllDigits(s)
    ensures LeadingDigits(s) == s
    decreases |s|
  {
    if s != [] {
      LeadingDigitsAll(s[1..]);
      assert s == [s[0]] + s[1..];
    }
  }

  function Signed(negative: bool, v: nat): int {
    if negative then -(v as int) else v
  }

  /**
   * `Number(s)` for the strings this model admits: the empty string is 0,
   * otherwise an optional sign followed by one or more digits.
   */
  function ParseNumber(s: string): (r: Option<int>)
    ensures r.Some? && s != "" ==> IsDigit(s[|s| - 1])
    ensures r.Some? && r.value < 0 ==> s != "" && s[0] == '-'
  {
    if s == "" then Some(0)
    else
      var negative := s[0] == '-';
      var body := if s[0] == '-' || s[0] == '+' then s[1..] else s;
      if body != [] && AllDigits(body) then Some(Signed(negative, DigitsValue(body))) else None
  }

  predicate IsHexDigit(c: char) {
    IsDigit(c) || 'a' <= c <= 'f' || 'A' <= c <= 'F'
  }

  function HexDigitValue(c: char): (d: nat)
    requires IsHexDigit(c)
    ensures d < 16
    ensures IsDigit(c) ==> d == c as int - '0' as int
  {
    if IsDigit(c) then c as int - '0' as int
    else if 'a' <= c <= 'f' then c as int - 'a' as int + 10
    else c as int - 'A' as int + 10
  }

  predicate AllHexDigits(s: string) {
    forall i :: 0 <= i < |s| ==> IsHexDigit(s[i])
  }

  /** The value of a string of hexadecimal digits, most significant first. */
  function HexDigitsValue(s: string): nat
    requires AllHexDigits(s)
    decreases |s|
  {
    if s == [] then 0
    else 16 * HexDigitsValue(s[..|s| - 1]) + HexDigitValue(s[|s| - 1])
  }

  /** The longest prefix of `s` made of hexadecimal digits. */
  function LeadingHexDigits(s: string): (r: string)
    ensures |r| <= |s| && r == s[..|r|] && AllHexDigits(r)
    ensures |r| < |s| ==> !IsHexDigit(s[|r|])
    decreases |s|
  {
    if s != [] && IsHexDigit(s[0]) then [s[0]] + LeadingHexDigits(s[1..]) else []
  }

  /** What follows the leading white space and the optional sign, and whether the sign was `-`. */
  function SignAndBody(s: string): (string, bool) {
    var t := s[SkipWhite(s, 0)..];
    var negative := t != [] && t[0] == '-';
    (if t != [] && (t[0] == '-' || t[0] == '+') then t[1..] else t, negative)
  }

  /** A leading run of decimal digits, read with the given sign. */
  function DecimalPrefix(body: string, negative: bool): Option<int> {
    var digits := LeadingDigits(body);
    if digits == [] then None else Some(Signed(negative, DigitsValue(digits)))
  }

  predicate HasHexPrefix(body: string) {
    |body| >= 2 && body[0] == '0' && (body[1] == 'x' || body[1] == 'X')
  }

  /**
   * `parseInt(s, 10)`: leading white space is skipped, then an optional
   * sign and at least one digit; what follows is ignored.
   */
  function ParseInt(s: string): (r: Option<int>)
    ensures r.Some? <==> SignAndBody(s).0 != [] && IsDigit(SignAndBody(s).0[0])
    ensures r.Some? && !SignAndBody(s).1 ==> r.value >= 0
  {
    var (body, negative) := SignAndBody(s);
    DecimalPrefix(body, negative)
  }

  /**
   * `parseInt(s)` with no radix: as `parseInt(s, 10)`, except that a body
   * starting `0x` or `0X` is read as hexadecimal digits after the prefix.
   */
  function ParseIntAuto(s: string): (r: Option<int>)
    ensures r.Some? ==> SignAndBody(s).0 != [] && IsDigit(SignAndBody(s).0[0])
    ensures r.Some? && !SignAndBody(s).1 ==> r.value >= 0
    ensures !HasHexPrefix(SignAndBody(s).0) ==> r == ParseInt(s)
  {
    var (body, negative) := SignAndBody(s);
    if HasHexPrefix(body) then
      var digits := LeadingHexDigits(body[2..]);
      if digits == [] then None else Some(Signed(negative, HexDigitsValue(digits)))
    else
      DecimalPrefix(body, negative)
  }

  /** The parsers read back what `toString` writes. */
  lemma ParseDecimal(n: nat)
    ensures ParseNumber(Decimal(n)) == Some(n)
    ensures ParseInt(Decimal(n)) == Some(n)
    ensures ParseIntAuto(Decimal(n)) == Some(n)
  {
    var d := Decimal(n);
    assert IsDigit(d[0]);
    SignAndBodyPlain(d);
    assert !HasHexPrefix(d);
    DecimalValue(n);
    LeadingDigitsAll(d);
  }

  /** Leading white space is skipped by both forms of `parseInt`. */
  lemma {:induction false} ParseIntSkipsWhite(w: string, s: string)
    requires forall i :: 0 <= i < |w| ==> IsWhite(w[i])
    ensures ParseInt(w + s) == ParseInt(s)
    ensures ParseIntAuto(w + s) == ParseIntAuto(s)
  {
    SkipWhiteAfter(w, s, 0);
    assert (w + s)[|w| + SkipWhite(s, 0)..] == s[SkipWhite(s, 0)..];
  }

  lemma {:induction false} SkipWhiteAfter(w: string, s: string, i: nat)
    requires i <= |w| && forall k :: 0 <= k < |w| ==> IsWhite(w[k])
    ensures SkipWhite(w + s, i) == |w| + SkipWhite(s, 0)
    decreases |w| - i
  {
    if i < |w| {
      assert (w + s)[i] == w[i];
      SkipWhiteAfter(w, s, i + 1);
    } else {
      SkipWhiteShift(w, s, 0);
    }
  }

  lemma {:induction false} SkipWhiteShift(w: string, s: string, j: nat)
    requires j <= |s|
    ensures SkipWhite(w + s, |w| + j) == |w| + SkipWhite(s, j)
    decreases |s| - j
  {
    if j < |s| {
      assert (w + s)[|w| + j] == s[j];
      SkipWhiteShift(w, s, j + 1);
    }
  }

  lemma {:induction false} LeadingHexDigitsAll(s: string)
    requires AllHexDigits(s)
    ensures LeadingHexDigits(s) == s
    decreases |s|
  {
    if s != [] {
      LeadingHexDigitsAll(s[1..]);
      assert s == [s[0]] + s[1..];
    }
  }

  /** A string that starts with neither white space nor a sign is its own body. */
  lemma SignAndBodyPlain(s: string)
    requires s != [] && !IsWhite(s[0]) && s[0] != '-' && s[0] != '+'
    ensures SignAndBody(s) == (s, false)
  {
    assert SkipWhite(s, 0) == 0;
    assert s[0..] == s;
  }

  lemma LeadingDigitsStop(s: string)
    requires |s| >= 2 && IsDigit(s[0]) && !IsDigit(s[1])
    ensures LeadingDigits(s) == [s[0]]
  {
    assert s[1..][0] == s[1];
  }

  /**
   * A `0x` prefix makes `parseInt(s)` read hexadecimal digits, while
   * `parseInt(s, 10)` stops at the `x` and reads 0.
   */
  lemma HexPrefix(h: string)
    requires h != [] && AllHexDigits(h)
    ensures ParseIntAuto("0x" + h) == Some(HexDigitsValue(h))
    ensures ParseInt("0x" + h) == Some(0)
  {
    var s := "0x" + h;
    assert s[0] == '0' && s[1] == 'x' && s[2..] == h;
    SignAndBodyPlain(s);
    assert HasHexPrefix(s);
    LeadingHexDigitsAll(h);
    assert ParseIntAuto(s) == Some(HexDigitsValue(h));
    LeadingDigitsStop(s);
    ZeroValue(s[0]);
    assert DecimalPrefix(s, false) == Some(0);
  }

  lemma ZeroValue(c: char)
    requires c == '0'
    ensures DigitsValue([c]) == 0
  {
    assert [c][..0] == [];
  }

  /**
   * A string whose first character is neither white space, a digit nor a
   * sign is NaN to every parser.
   */
  lemma ParseRejects(s: string)
    requires s != [] && !IsDigit(s[0]) && !IsWhite(s[0]) && s[0] != '-' && s[0] != '+'
    ensures ParseNumber(s).None? && ParseInt(s).None? && ParseIntAuto(s).None?
  {
    assert SkipWhite(s, 0) == 0;
    assert s[0..] == s;
  }
}

/**
 * The population slider and its text input: `formatNumber`, which puts a
 * space between groups of three digits, and the three event handlers that
 * keep the slider and the text in step.
 */
module Slider {
  import opened Wrappers
  import opened Text
  import opened Numbers
  import opened Seqs

  /** Groups a digit string in threes from the right, separated by single spaces. */
  function Group(s: string): (r: string)
    ensures |r| >= |s|
    decreases |s|
  {
    if |s| <= 3 then s else Group(s[..|s| - 3]) + " " + s[|s| - 3..]
  }

  /**
   * What `replace(/\B(?=(\d{3})+(?!\d))/g, " ")` does to a digit string,
   * read left to right from position `i`: a space goes before every digit
   * that is not the first and has a positive multiple of three digits
   * from it to the end.
   */
  function RegexGroup(s: string, i: nat): string
    decreases |s| - i
  {
    if i >= |s| then "" else SpaceBefore(|s|, i) + [s[i]] + RegexGroup(s, i + 1)
  }

  /** The space the regular expression inserts before position `i` of an `n`-digit string, if any. */
  function SpaceBefore(n: int, i: int): string {
    if 0 < i && (n - i) % 3 == 0 then " " else ""
  }

  lemma SpaceBeforeShift(n: int, i: int)
    ensures SpaceBefore(n + 3, i) == SpaceBefore(n, i)
  {
    assert (n + 3 - i) % 3 == (n - i) % 3;
  }

  /** `formatNumber` of a non-negative integer. */
  function FormatNumber(n: nat): string {
    Group(Decimal(n))
  }

  lemma {:induction false} RegexNoSpace(s: string, i: nat)
    requires 0 < i <= |s| && |s| - i < 3
    ensures RegexGroup(s, i) == s[i..]
    decreases |s| - i
  {
    if i < |s| {
      RegexNoSpace(s, i + 1);
      assert s[i..] == [s[i]] + s[i + 1..];
    }
  }

  /** The positions before the last three digits group the same way as the string without them. */
  lemma {:induction false} RegexSplit(s: string, i: nat)
    requires |s| > 3 && i <= |s| - 3
    ensures RegexGroup(s, i) == RegexGroup(s[..|s| - 3], i) + RegexGroup(s, |s| - 3)
    decreases |s| - i
  {
    var t := s[..|s| - 3];
    if i < |s| - 3 {
      var tail := RegexGroup(s, |s| - 3);
      var rest := RegexGroup(t, i + 1);
      RegexSplit(s, i + 1);
      SpaceBeforeShift(|t|, i);
      var head := SpaceBefore(|s|, i) + [s[i]];
      assert RegexGroup(s, i) == head + (rest + tail);
      assert RegexGroup(t, i) == head + rest;
      ConcatAssoc(head, rest, tail);
    }
  }

  /** `Group` inserts the spaces exactly where the regular expression does. */
  lemma {:induction false} GroupMatchesRegex(s: string)
    ensures Group(s) == RegexGroup(s, 0)
    decreases |s|
  {
    if |s| == 0 {
    } else if |s| <= 3 {
      RegexNoSpace(s, 1);
      assert s == [s[0]] + s[1..];
    } else {
      var t := s[..|s| - 3];
      var tail := s[|s| - 3..];
      GroupMatchesRegex(t);
      RegexSplit(s, 0);
      assert RegexGroup(s, |s| - 3) == " " + tail by {
        assert SpaceBefore(|s|, |s| - 3) == " ";
        RegexNoSpace(s, |s| - 2);
        assert tail == [s[|s| - 3]] + s[|s| - 2..];
      }
      assert Group(s) == Group(t) + " " + tail;
      ConcatAssoc(Group(t), " ", tail);
    }
  }

  /** Removing the spaces gives back the digits. */
  lemma {:induction false} StripGroup(s: string)
    requires forall i :: 0 <= i < |s| ==> !IsWhite(s[i])
    ensures StripWhite(Group(s)) == s
    decreases |s|
  {
    if |s| <= 3 {
      StripWhiteNone(s);
    } else {
      var t := s[..|s| - 3];
      var tail := s[|s| - 3..];
      var g := Group(t);
      StripGroup(t);
      StripWhiteAppend(g + " ", tail);
      StripWhiteAppend(g, " ");
      StripWhiteNone(tail);
      assert StripWhite(" ") == "";
      assert Group(s) == g + " " + tail;
      assert StripWhite(g + " ") == t;
      assert t + tail == s;
    }
  }

  /** One space goes in for each full group of three digits after the first digit. */
  lemma {:induction false} GroupLength(s: string)
    ensures |Group(s)| == |s| + (if |s| == 0 then 0 else (|s| - 1) / 3)
    decreases |s|
  {
    if |s| > 3 {
      GroupLength(s[..|s| - 3]);
    }
  }

  /**
   * The grouped string is digits with a space exactly at every fourth
   * position counted from the end, so no group but the first is shorter
   * than three digits and no space is doubled or at either end.
   */
  lemma {:induction false} GroupShape(s: string)
    requires AllDigits(s)
    ensures forall i :: 0 <= i < |Group(s)| ==>
      (Group(s)[i] == ' ' <==> (|Group(s)| - i) % 4 == 0) && (Group(s)[i] != ' ' ==> IsDigit(Group(s)[i]))
    decreases |s|
  {
    if |s| > 3 {
      var t := s[..|s| - 3];
      GroupShape(t);
      var g := Group(s);
      var gt := Group(t);
      assert g == gt + " " + s[|s| - 3..];
      assert |g| == |gt| + 4;
      forall i | 0 <= i < |g|
        ensures (g[i] == ' ' <==> (|g| - i) % 4 == 0) && (g[i] != ' ' ==> IsDigit(g[i]))
      {
        GroupPosition(s, t, g, gt, i);
      }
    } else {
      GroupLength(s);
    }
  }

  lemma GroupPosition(s: string, t: string, g: string, gt: string, i: nat)
    requires AllDigits(s) && |s| > 3 && t == s[..|s| - 3]
    requires g == gt + " " + s[|s| - 3..] && i < |g|
    requires forall k :: 0 <= k < |gt| ==> (gt[k] == ' ' <==> (|gt| - k) % 4 == 0) && (gt[k] != ' ' ==> IsDigit(gt[k]))
    ensures (g[i] == ' ' <==> (|g| - i) % 4 == 0) && (g[i] != ' ' ==> IsDigit(g[i]))
  {
    if i < |gt| {
      assert g[i] == gt[i];
      assert (|g| - i) % 4 == (|gt| - i) % 4 by {
        assert |g| - i == (|gt| - i) + 4;
      }
    } else if i > |gt| {
      assert g[i] == s[|s| - 3 + (i - |gt| - 1)];
      assert 0 < |g| - i < 4;
    }
  }

  /** Reading a formatted number back, as the input handler does, gives the number. */
  lemma FormatNumberRoundTrip(n: nat)
    ensures StripWhite(FormatNumber(n)) == Decimal(n)
    ensures ParseInt(StripWhite(FormatNumber(n))) == Some(n)
  {
    StripGroup(Decimal(n));
    ParseDecimal(n);
  }

  /** Numbers below a thousand are shown without a space. */
  lemma SmallNumbersUnchanged(n: nat)
    requires n < 1000
    ensures FormatNumber(n) == Decimal(n)
  {
    var d := Decimal(n);
    if |d| > 3 {
      DecimalValue(n);
      LeadingDigitsBound(d);
    }
  }

  lemma {:induction false} LeadingDigitsBound(s: string)
    requires AllDigits(s) && |s| >= 4 && s[0] != '0'
    ensures DigitsValue(s) >= 1000
    decreases |s|
  {
    var init := s[..|s| - 1];
    if |s| > 4 {
      LeadingDigitsBound(init);
    } else {
      assert init == s[..3];
    }
    assert DigitsValue(s) >= 10 * DigitsValue(init);
    if |s| == 4 {
      assert DigitsValue(init) >= 100 by {
        assert init[..2][..1] == s[..1];
        assert DigitsValue(init[..2][..1]) >= 1;
      }
    }
  }

  /** `Math.max(min, Math.min(max, n))`. */
  function Clamp(n: int, lo: nat, hi: nat): (r: nat)
    requires lo <= hi
    ensures lo <= r <= hi
    ensures lo <= n <= hi ==> r == n
    ensures n < lo ==> r == lo
    ensures n > hi ==> r == hi
  {
    if n < lo then lo else if n > hi then hi else n
  }

  /** The slider and the text box beside it. */
  class PopulationControl {
    const min: nat
    const max: nat
    var sliderValue: nat
    var inputText: string

    ghost predicate Valid()
      reads this
    {
      min <= sliderValue <= max
    }

    constructor (lo: nat, hi: nat, initial: nat)
      requires lo <= initial <= hi
      ensures Valid()
      ensures min == lo && max == hi && sliderValue == initial && inputText == ""
    {
      min, max := lo, hi;
      sliderValue, inputText := initial, "";
    }

    /** The slider moves: the text shows its value, formatted. */
    method OnSliderInput(value: nat)
      requires Valid() && min <= value <= max
      modifies this
      ensures Valid()
      ensures sliderValue == value && inputText == FormatNumber(value)
    {
      sliderValue := value;
      inputText := FormatNumber(value);
    }

    /**
     * The text changes: when it reads as an integer once its white space is
     * removed, the slider takes that integer clamped to its range and the
     * text shows the clamped value, formatted; otherwise the text stays as
     * typed and the slider does not move.
     */
    method OnInput(typed: string)
      requires Valid()
      modifies this
      ensures Valid()
      ensures ParseInt(StripWhite(typed)).Some? ==>
        && sliderValue == Clamp(ParseInt(StripWhite(typed)).value, min, max)
        && inputText == FormatNumber(sliderValue)
      ensures ParseInt(StripWhite(typed)).None? ==>
        sliderValue == old(sliderValue) && inputText == typed
    {
      inputText := typed;
      var raw := StripWhite(typed);
      var parsed := ParseInt(raw);
      if parsed.Some? {
        var v := Clamp(parsed.value, min, max);
        sliderValue := v;
        inputText := FormatNumber(v);
      }
    }

    /** The text loses focus: text that is empty or not an integer is replaced by the slider's value. */
    method OnBlur()
      requires Valid()
      modifies this
      ensures Valid()
      ensures sliderValue == old(sliderValue)
      ensures ParseInt(StripWhite(old(inputText))).None? ==> inputText == FormatNumber(sliderValue)
      ensures ParseInt(StripWhite(old(inputText))).Some? ==> inputText == old(inputText)
    {
      var raw := StripWhite(inputText);
      if raw == "" || ParseInt(raw).None? {
        inputText := FormatNumber(sliderValue);
      }
    }
  }

  /** After a handler has formatted the text, leaving the box changes nothing. */
  lemma BlurAfterFormatKeeps(n: nat)
    ensures ParseInt(StripWhite(FormatNumber(n))).Some?
  {
    FormatNumberRoundTrip(n);
  }

  /** Typing a formatted number in range moves the slider to exactly that number. */
  lemma TypedInRangeMovesSlider(n: nat, lo: nat, hi: nat)
    requires lo <= n <= hi
    ensures ParseInt(StripWhite(FormatNumber(n))).Some?
    ensures Clamp(ParseInt(StripWhite(FormatNumber(n))).value, lo, hi) == n
  {
    FormatNumberRoundTrip(n);
  }
}

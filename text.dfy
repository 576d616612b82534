/**
 * The string operations the application relies on: ASCII case folding
 * (`toLowerCase`), substring search (`includes`, `replace` with a string
 * pattern), `split`/`join` on a one-character separator and the removal
 * of white space (`replace(/\s/g, '')`, `trim`).
 */
module Text {
  import opened Wrappers

  /** ASCII upper-case letters fold to lower case; every other character is kept. */
  function LowerChar(c: char): char {
    if 'A' <= c <= 'Z' then (c as int + 32) as char else c
  }

  function Lower(s: string): (r: string)
    ensures |r| == |s|
    ensures forall i :: 0 <= i < |r| ==> !('A' <= r[i] <= 'Z')
    ensures forall i :: 0 <= i < |r| ==> r[i] == s[i] || ('A' <= s[i] <= 'Z' && r[i] as int == s[i] as int + 32)
  {
    seq(|s|, i requires 0 <= i < |s| => LowerChar(s[i]))
  }

  lemma LowerIdempotent(s: string)
    ensures Lower(Lower(s)) == Lower(s)
  {
  }

  /** `p` occurs in `s` starting at index `i`. */
  predicate OccursAt(p: string, s: string, i: int) {
    0 <= i && i + |p| <= |s| && s[i..i + |p|] == p
  }

  /** The index of the first occurrence of `p` in `s`, as `indexOf` finds it. */
  function IndexOf(s: string, p: string): (r: Option<nat>)
    ensures r.Some? ==> OccursAt(p, s, r.value)
    ensures r.Some? ==> forall j :: 0 <= j < r.value ==> !OccursAt(p, s, j)
    ensures r.None? ==> forall j :: !OccursAt(p, s, j)
    decreases |s|
  {
    if |p| <= |s| && s[..|p|] == p then
      Some(0)
    else if s == [] then
      None
    else
      match IndexOf(s[1..], p)
      case None =>
        assert forall j :: 1 <= j ==> (OccursAt(p, s, j) <==> OccursAt(p, s[1..], j - 1)) by {
          forall j | 1 <= j { OccursShift(p, s, j); }
        }
        None
      case Some(k) =>
        assert forall j :: 1 <= j ==> (OccursAt(p, s, j) <==> OccursAt(p, s[1..], j - 1)) by {
          forall j | 1 <= j { OccursShift(p, s, j); }
        }
        Some(k + 1)
  }

  /** An occurrence past the first character is an occurrence in the rest of the string. */
  lemma OccursShift(p: string, s: string, j: int)
    requires s != [] && 1 <= j
    ensures OccursAt(p, s, j) <==> OccursAt(p, s[1..], j - 1)
  {
    if j + |p| <= |s| {
      var a, b := s[1..][j - 1..j - 1 + |p|], s[j..j + |p|];
      assert |a| == |b|;
      forall k | 0 <= k < |a| ensures a[k] == b[k] {
        assert a[k] == s[j + k];
      }
      assert a == b;
    }
  }

  /** `s.includes(p)`. */
  function Includes(s: string, p: string): (b: bool)
    ensures b <==> exists i :: OccursAt(p, s, i)
  {
    IndexOf(s, p).Some?
  }

  /** `s.replace(p, rep)` with a string pattern: only the first occurrence is replaced. */
  function ReplaceFirst(s: string, p: string, rep: string): string {
    match IndexOf(s, p)
    case None => s
    case Some(i) => s[..i] + rep + s[i + |p|..]
  }

  /** A string that starts with the pattern has exactly that leading pattern replaced. */
  lemma ReplaceFirstAtStart(p: string, rest: string, rep: string)
    ensures ReplaceFirst(p + rest, p, rep) == rep + rest
  {
    assert OccursAt(p, p + rest, 0);
    assert IndexOf(p + rest, p) == Some(0);
    assert (p + rest)[|p|..] == rest;
  }

  /** A string without the pattern is left unchanged. */
  lemma ReplaceFirstAbsent(s: string, p: string, rep: string)
    requires !Includes(s, p)
    ensures ReplaceFirst(s, p, rep) == s
  {
  }

  /** The result of a replacement is the part before the first occurrence, the replacement and the rest. */
  lemma ReplaceFirstShape(s: string, p: string, rep: string)
    requires Includes(s, p)
    ensures exists i :: OccursAt(p, s, i)
                     && (forall j :: 0 <= j < i ==> !OccursAt(p, s, j))
                     && ReplaceFirst(s, p, rep) == s[..i] + rep + s[i + |p|..]
  {
    var i := IndexOf(s, p).value;
    assert OccursAt(p, s, i);
  }

  /** `s.split(sep)` for a one-character separator: an empty string gives `[""]`. */
  function Split(s: string, sep: char): (r: seq<string>)
    ensures |r| >= 1
    ensures forall i :: 0 <= i < |r| ==> sep !in r[i]
    decreases |s|
  {
    if s == [] then
      [""]
    else if s[0] == sep then
      [""] + Split(s[1..], sep)
    else
      var rest := Split(s[1..], sep);
      [[s[0]] + rest[0]] + rest[1..]
  }

  /** `xs.join(sep)`. */
  function Join(xs: seq<string>, sep: char): string
    decreases |xs|
  {
    if xs == [] then ""
    else if |xs| == 1 then xs[0]
    else xs[0] + [sep] + Join(xs[1..], sep)
  }

  /** Joining the pieces of a split gives back the original string. */
  lemma {:induction false} JoinSplit(s: string, sep: char)
    ensures Join(Split(s, sep), sep) == s
    decreases |s|
  {
    if s == [] {
    } else if s[0] == sep {
      JoinSplit(s[1..], sep);
      var rest := Split(s[1..], sep);
      assert Split(s, sep) == [""] + rest;
      assert ([""] + rest)[1..] == rest;
      assert s == [s[0]] + s[1..];
    } else {
      JoinSplit(s[1..], sep);
      var rest := Split(s[1..], sep);
      var r := [[s[0]] + rest[0]] + rest[1..];
      assert Split(s, sep) == r;
      if |rest| == 1 {
        assert Join(r, sep) == [s[0]] + rest[0];
        assert s == [s[0]] + s[1..];
      } else {
        assert r[1..] == rest[1..];
        assert Join(rest, sep) == rest[0] + [sep] + Join(rest[1..], sep);
        assert Join(r, sep) == [s[0]] + rest[0] + [sep] + Join(rest[1..], sep);
        assert s == [s[0]] + s[1..];
      }
    }
  }

  lemma {:induction false} SplitNoSeparator(a: string, sep: char)
    requires sep !in a
    ensures Split(a, sep) == [a]
    decreases |a|
  {
    if a != [] {
      SplitNoSeparator(a[1..], sep);
      assert a == [a[0]] + a[1..];
    }
  }

  lemma {:induction false} SplitAfter(a: string, sep: char, b: string)
    requires sep !in a
    ensures Split(a + [sep] + b, sep) == [a] + Split(b, sep)
    decreases |a|
  {
    var s := a + [sep] + b;
    if a == [] {
      assert s[0] == sep && s[1..] == b;
    } else {
      assert s[0] == a[0] && s[1..] == a[1..] + [sep] + b;
      SplitAfter(a[1..], sep, b);
      assert a == [a[0]] + a[1..];
    }
  }

  /** Splitting a join gives back the pieces, provided no piece contains the separator. */
  lemma {:induction false} SplitJoin(xs: seq<string>, sep: char)
    requires |xs| >= 1
    requires forall i :: 0 <= i < |xs| ==> sep !in xs[i]
    ensures Split(Join(xs, sep), sep) == xs
    decreases |xs|
  {
    if |xs| == 1 {
      SplitNoSeparator(xs[0], sep);
    } else {
      SplitJoin(xs[1..], sep);
      SplitAfter(xs[0], sep, Join(xs[1..], sep));
      assert xs == [xs[0]] + xs[1..];
    }
  }

  /** The characters `\s` matches in ASCII. */
  predicate IsWhite(c: char) {
    c == ' ' || c == '\t' || c == '\n' || c == '\r' || c == '\U{000B}' || c == '\U{000C}'
  }

  /** `s.replace(/\s/g, '')`. */
  function StripWhite(s: string): (r: string)
    ensures forall i :: 0 <= i < |r| ==> !IsWhite(r[i])
    ensures |r| <= |s|
    decreases |s|
  {
    if s == [] then []
    else if IsWhite(s[0]) then StripWhite(s[1..])
    else [s[0]] + StripWhite(s[1..])
  }

  lemma {:induction false} StripWhiteAppend(a: string, b: string)
    ensures StripWhite(a + b) == StripWhite(a) + StripWhite(b)
    decreases |a|
  {
    if a == [] {
      assert a + b == b;
    } else {
      assert (a + b)[1..] == a[1..] + b;
      StripWhiteAppend(a[1..], b);
    }
  }

  lemma {:induction false} StripWhiteNone(s: string)
    requires forall i :: 0 <= i < |s| ==> !IsWhite(s[i])
    ensures StripWhite(s) == s
    decreases |s|
  {
    if s != [] {
      StripWhiteNone(s[1..]);
    }
  }

  /** The index of the first character at or after `i` that is not white space (`|s|` if none). */
  function SkipWhite(s: string, i: nat): (j: nat)
    requires i <= |s|
    ensures i <= j <= |s|
    ensures j == |s| || !IsWhite(s[j])
    ensures forall k :: i <= k < j ==> IsWhite(s[k])
    decreases |s| - i
  {
    if i < |s| && IsWhite(s[i]) then SkipWhite(s, i + 1) else i
  }

  /** The end of `s[lo..e]` once the white space at its end is dropped. */
  function BackWhite(s: string, lo: nat, e: nat): (j: nat)
    requires lo <= e <= |s|
    ensures lo <= j <= e
    ensures j == lo || !IsWhite(s[j - 1])
    ensures forall k :: j <= k < e ==> IsWhite(s[k])
    decreases e
  {
    if e > lo && IsWhite(s[e - 1]) then BackWhite(s, lo, e - 1) else e
  }

  /** `s.trim()`: white space removed at both ends. */
  function Trim(s: string): string {
    var i := SkipWhite(s, 0);
    s[i..BackWhite(s, i, |s|)]
  }

  /**
   * `trim` returns the piece of the input that starts at its first
   * character that is not white space, with only white space cut off
   * after it, and the piece neither starts nor ends with white space.
   */
  lemma TrimCutsWhite(s: string)
    ensures Trim(s) == [] || (!IsWhite(Trim(s)[0]) && !IsWhite(Trim(s)[|Trim(s)| - 1]))
    ensures var i := SkipWhite(s, 0);
              && i + |Trim(s)| <= |s| && Trim(s) == s[i..i + |Trim(s)|]
              && (forall k :: 0 <= k < i ==> IsWhite(s[k]))
              && (forall k :: i + |Trim(s)| <= k < |s| ==> IsWhite(s[k]))
  {
    var i := SkipWhite(s, 0);
    var j := BackWhite(s, i, |s|);
    var r := Trim(s);
    assert r == s[i..j] && |r| == j - i;
    if r != [] {
      assert r[0] == s[i] && r[|r| - 1] == s[j - 1];
    }
  }

  /** Trimming twice is trimming once. */
  lemma TrimIdempotent(s: string)
    ensures Trim(Trim(s)) == Trim(s)
  {
    var t := Trim(s);
    TrimCutsWhite(s);
    assert SkipWhite(t, 0) == 0;
    var e := BackWhite(t, 0, |t|);
    assert e == |t|;
    assert t[0..e] == t;
  }
}

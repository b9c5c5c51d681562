/**
 * The string library operations the modelled code relies on: Java's
 * String.trim, indexOf, toLowerCase (ASCII letters only), startsWith and
 * contains, and Guava's Splitter and Joiner.
 */
module Text {

  /** The characters String.trim removes: every code point up to the space. */
  predicate IsJavaSpace(c: char) { c <= ' ' }

  /** The characters of Guava's CharMatcher.whitespace(), used by Splitter.trimResults. */
  predicate IsGuavaSpace(c: char) {
    c == '\t' || c == '\n' || c == '\U{0B}' || c == '\U{0C}' || c == '\r' || c == ' '
    || c == '\U{85}' || c == '\U{A0}' || c == '\U{1680}' || ('\U{2000}' <= c <= '\U{200A}')
    || c == '\U{2028}' || c == '\U{2029}' || c == '\U{202F}' || c == '\U{205F}' || c == '\U{3000}'
  }

  /** No character of `s` is in `cs`. */
  predicate NoneIn(s: string, cs: set<char>) {
    forall j :: 0 <= j < |s| ==> s[j] !in cs
  }

  /** `s` without its leading characters satisfying `p`. */
  function TrimStart(s: string, p: char -> bool): (r: string)
    ensures |r| <= |s| && r == s[|s| - |r|..]
    ensures |r| > 0 ==> !p(r[0])
    ensures forall i :: 0 <= i < |s| - |r| ==> p(s[i])
  {
    if |s| > 0 && p(s[0]) then
      var r := TrimStart(s[1..], p);
      assert forall i :: 1 <= i < |s| - |r| ==> s[i] == s[1..][i - 1];
      r
    else s
  }

  /** `s` without its trailing characters satisfying `p`. */
  function TrimEnd(s: string, p: char -> bool): (r: string)
    ensures |r| <= |s| && r == s[..|r|]
    ensures |r| > 0 ==> !p(r[|r| - 1])
    ensures forall i :: |r| <= i < |s| ==> p(s[i])
  {
    if |s| > 0 && p(s[|s| - 1]) then
      var r := TrimEnd(s[..|s| - 1], p);
      assert forall i :: |r| <= i < |s| - 1 ==> s[i] == s[..|s| - 1][i];
      r
    else s
  }

  /** `s` without leading and trailing characters satisfying `p`. */
  function TrimBy(s: string, p: char -> bool): (r: string)
    ensures |r| <= |s|
    ensures |r| > 0 ==> !p(r[0]) && !p(r[|r| - 1])
    ensures |r| == 0 <==> forall i :: 0 <= i < |s| ==> p(s[i])
  {
    TrimStart(TrimEnd(s, p), p)
  }

  /** `s` without its leading characters up to the space. */
  function TrimJavaStart(s: string): (r: string)
    ensures |r| <= |s|
  {
    if |s| > 0 && IsJavaSpace(s[0]) then TrimJavaStart(s[1..]) else s
  }

  /** `s` without its trailing characters up to the space. */
  function TrimJavaEnd(s: string): (r: string)
    ensures |r| <= |s|
  {
    if |s| > 0 && IsJavaSpace(s[|s| - 1]) then TrimJavaEnd(s[..|s| - 1]) else s
  }

  /** Java's String.trim. */
  function Trim(s: string): (r: string)
    ensures |r| <= |s|
  {
    TrimJavaStart(TrimJavaEnd(s))
  }

  /** String.trim is trimming by IsJavaSpace: no space is left at either end, and only spaces are removed. */
  lemma TrimIsTrimBy(s: string)
    ensures Trim(s) == TrimBy(s, IsJavaSpace)
  {
    TrimJavaEndIsTrimEnd(s);
    TrimJavaStartIsTrimStart(TrimJavaEnd(s));
  }

  lemma {:induction false} TrimJavaStartIsTrimStart(s: string)
    ensures TrimJavaStart(s) == TrimStart(s, IsJavaSpace)
  {
    if |s| > 0 && IsJavaSpace(s[0]) {
      TrimJavaStartIsTrimStart(s[1..]);
    }
  }

  lemma {:induction false} TrimJavaEndIsTrimEnd(s: string)
    ensures TrimJavaEnd(s) == TrimEnd(s, IsJavaSpace)
  {
    if |s| > 0 && IsJavaSpace(s[|s| - 1]) {
      TrimJavaEndIsTrimEnd(s[..|s| - 1]);
    }
  }

  /** A piece trimmed as Guava's Splitter.trimResults does. */
  function GuavaTrim(s: string): string {
    TrimBy(s, IsGuavaSpace)
  }

  /** The first index at or after `from` holding a character of `cs`, or -1 (CharMatcher.indexIn, String.indexOf). */
  function IndexOfAny(s: string, from: nat, cs: set<char>): (i: int)
    requires from <= |s|
    ensures i == -1 || from <= i < |s|
    ensures i >= 0 ==> s[i] in cs && NoneIn(s[from..i], cs)
    ensures i == -1 ==> NoneIn(s[from..], cs)
    decreases |s| - from
  {
    if from == |s| then -1
    else if s[from] in cs then from
    else IndexOfAny(s, from + 1, cs)
  }

  /** Guava's Splitter.on(any of `seps`).split: the pieces between separators, empty pieces included. */
  function SplitAny(s: string, seps: set<char>): (r: seq<string>)
    ensures |r| >= 1
    ensures forall k :: 0 <= k < |r| ==> NoneIn(r[k], seps)
    ensures NoneIn(s, seps) ==> r == [s]
    decreases |s|
  {
    var i := IndexOfAny(s, 0, seps);
    if i < 0 then [s] else [s[..i]] + SplitAny(s[i + 1..], seps)
  }

  /** The first separator at or after `from` is the one IndexOfAny finds. */
  lemma {:induction false} IndexOfAnyFirst(s: string, from: nat, cs: set<char>, i: nat)
    requires from <= i < |s| && s[i] in cs
    requires forall j :: from <= j < i ==> s[j] !in cs
    ensures IndexOfAny(s, from, cs) == i
    decreases i - from
  {
    if from < i {
      IndexOfAnyFirst(s, from + 1, cs, i);
    }
  }

  /**
   * The first piece of a split is the longest separator-free prefix; there is
   * a second piece iff the string holds a separator, and the pieces after the
   * first are the split of what follows that separator.
   */
  lemma SplitFirstPiece(s: string, sep: char)
    ensures var r := Split(s, sep);
            && sep !in r[0] && |r[0]| <= |s| && s[..|r[0]|] == r[0]
            && (|r| >= 2 <==> sep in s)
            && (|r| >= 2 ==> |r[0]| < |s| && s[|r[0]|] == sep && r[1..] == Split(s[|r[0]| + 1..], sep))
            && (|r| == 1 ==> r[0] == s)
  {
    var i := IndexOfAny(s, 0, {sep});
    var r := Split(s, sep);
    if i == -1 {
      assert s[0..] == s;
      assert forall j :: 0 <= j < |s| ==> s[j] != sep;
    } else {
      assert r == [s[..i]] + Split(s[i + 1..], sep);
      assert s[0..i] == s[..i];
      assert forall j :: 0 <= j < i ==> s[..i][j] != sep;
      assert s[i] == sep;
    }
  }

  /** Guava's Splitter.on(`sep`).split. */
  function Split(s: string, sep: char): seq<string> {
    SplitAny(s, {sep})
  }

  /** Guava's Joiner.on(`sep`).join. */
  function Join(xs: seq<string>, sep: string): string {
    if |xs| == 0 then ""
    else if |xs| == 1 then xs[0]
    else xs[0] + sep + Join(xs[1..], sep)
  }

  /** Splitting on one character and joining with it gives the string back. */
  lemma {:induction false} JoinSplit(s: string, sep: char)
    ensures Join(Split(s, sep), [sep]) == s
    decreases |s|
  {
    var i := IndexOfAny(s, 0, {sep});
    if i >= 0 {
      var rest := s[i + 1..];
      JoinSplit(rest, sep);
      var r := Split(s, sep);
      assert r == [s[..i]] + Split(rest, sep);
      assert r[1..] == Split(rest, sep);
      assert s == s[..i] + [sep] + rest;
    }
  }

  /** The pieces of a split with every piece trimmed and empty ones dropped. */
  function TrimOmitEmpty(pieces: seq<string>): (r: seq<string>)
    ensures forall k :: 0 <= k < |r| ==> |r[k]| > 0
    ensures |r| <= |pieces|
  {
    if |pieces| == 0 then []
    else
      var t := GuavaTrim(pieces[0]);
      (if |t| == 0 then [] else [t]) + TrimOmitEmpty(pieces[1..])
  }

  function LowerChar(c: char): char {
    if 'A' <= c <= 'Z' then (c as int + 32) as char else c
  }

  function UpperChar(c: char): char {
    if 'a' <= c <= 'z' then (c as int - 32) as char else c
  }

  /** String.toLowerCase, for ASCII letters. */
  function ToLower(s: string): (r: string)
    ensures |r| == |s| && forall i :: 0 <= i < |s| ==> r[i] == LowerChar(s[i])
  {
    seq(|s|, i requires 0 <= i < |s| => LowerChar(s[i]))
  }

  /** String.toUpperCase, for ASCII letters. */
  function ToUpper(s: string): (r: string)
    ensures |r| == |s| && forall i :: 0 <= i < |s| ==> r[i] == UpperChar(s[i])
  {
    seq(|s|, i requires 0 <= i < |s| => UpperChar(s[i]))
  }

  /** String.equalsIgnoreCase, for ASCII letters. */
  predicate EqualsIgnoreCase(a: string, b: string) {
    |a| == |b| && forall i :: 0 <= i < |a| ==> LowerChar(a[i]) == LowerChar(b[i])
  }

  predicate StartsWith(s: string, prefix: string) {
    |prefix| <= |s| && s[..|prefix|] == prefix
  }

  predicate EndsWith(s: string, suffix: string) {
    |suffix| <= |s| && s[|s| - |suffix|..] == suffix
  }

  /** String.contains. */
  predicate Contains(s: string, sub: string) {
    StartsWith(s, sub) || (|s| > 0 && Contains(s[1..], sub))
  }

  /** String.compareTo: the difference of the first differing characters, else of the lengths. */
  function CompareTo(a: string, b: string): int
  {
    if |a| == 0 || |b| == 0 then |a| - |b|
    else if a[0] != b[0] then a[0] as int - b[0] as int
    else CompareTo(a[1..], b[1..])
  }

  /** a and b agree before position k, where a has the smaller character. */
  predicate SmallerAt(a: string, b: string, k: int)
  {
    0 <= k < |a| && k < |b| && a[..k] == b[..k] && a[k] < b[k]
  }

  /** a comes before b in lexicographic order: a smaller character after a common prefix, or a proper prefix. */
  ghost predicate LexLess(a: string, b: string)
  {
    || (exists k :: SmallerAt(a, b, k))
    || (|a| < |b| && b[..|a|] == a)
  }

  /** Behind a common first character, the strings differ one position earlier. */
  lemma SmallerAtTail(a: string, b: string, k: int)
    requires |a| > 0 && |b| > 0 && a[0] == b[0]
    ensures SmallerAt(a, b, k) && k > 0 ==> SmallerAt(a[1..], b[1..], k - 1)
    ensures SmallerAt(a[1..], b[1..], k - 1) ==> SmallerAt(a, b, k)
  {
    if SmallerAt(a, b, k) && k > 0 {
      assert a[1..][..k - 1] == a[1..k] && b[1..][..k - 1] == b[1..k];
    }
    if SmallerAt(a[1..], b[1..], k - 1) {
      assert a[..k] == [a[0]] + a[1..][..k - 1];
      assert b[..k] == [b[0]] + b[1..][..k - 1];
    }
  }

  lemma LexLessTail(a: string, b: string)
    requires |a| > 0 && |b| > 0 && a[0] == b[0]
    ensures LexLess(a, b) <==> LexLess(a[1..], b[1..])
  {
    if exists k :: SmallerAt(a, b, k) {
      var k :| SmallerAt(a, b, k);
      SmallerAtTail(a, b, k);
    }
    if exists k :: SmallerAt(a[1..], b[1..], k) {
      var k :| SmallerAt(a[1..], b[1..], k);
      SmallerAtTail(a, b, k + 1);
    }
    if |a| < |b| && b[..|a|] == a {
      assert b[1..][..|a| - 1] == a[1..];
    }
    if |a| - 1 < |b| - 1 && b[1..][..|a| - 1] == a[1..] {
      assert b[..|a|] == [b[0]] + b[1..][..|a| - 1];
    }
  }

  /**
   * compareTo is negative exactly when a comes first lexicographically, zero
   * exactly on equal strings, and swapping the arguments negates it.
   */
  lemma {:induction false} CompareToSpec(a: string, b: string)
    ensures CompareTo(a, b) < 0 <==> LexLess(a, b)
    ensures CompareTo(a, b) == 0 <==> a == b
    ensures CompareTo(b, a) == -CompareTo(a, b)
    decreases |a|
  {
    if |a| == 0 || |b| == 0 {
      if |a| < |b| {
        assert b[..|a|] == a;
      }
    } else if a[0] != b[0] {
      if a[0] < b[0] {
        assert a[..0] == b[..0];
        assert SmallerAt(a, b, 0);
      }
      assert forall k :: SmallerAt(a, b, k) && k > 0 ==> a[..k][0] == b[..k][0];
    } else {
      CompareToSpec(a[1..], b[1..]);
      LexLessTail(a, b);
      if a[1..] == b[1..] {
        assert a == [a[0]] + a[1..] && b == [b[0]] + b[1..];
      }
    }
  }
}

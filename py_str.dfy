/**
 * The Python `str` builtins the core relies on: `isspace`, `strip`,
 * `split()` with no separator, `find` and the slice `s[i:j]`.
 */
module PyStr {

  /** Python's whitespace characters (`str.isspace`), used by `strip()` and `split()`. */
  predicate IsSpace(c: char)
  {
    c == ' ' || ('\t' <= c <= '\r') || ('\U{1C}' <= c <= '\U{1F}') ||
    c == '\U{85}' || c == '\U{A0}' || c == '\U{1680}' || ('\U{2000}' <= c <= '\U{200A}') ||
    c == '\U{2028}' || c == '\U{2029}' || c == '\U{202F}' || c == '\U{205F}' || c == '\U{3000}'
  }

  /** Neither end of `s` is whitespace. */
  predicate Stripped(s: string)
  {
    s == [] || (!IsSpace(s[0]) && !IsSpace(s[|s| - 1]))
  }

  /** `s.lstrip()`: `s` from its first non-whitespace character on. */
  function LStrip(s: string): (r: string)
    ensures |r| <= |s|
    ensures r == [] || !IsSpace(r[0])
  {
    if s != [] && IsSpace(s[0]) then LStrip(s[1..]) else s
  }

  /** `s.rstrip()`: `s` up to and including its last non-whitespace character. */
  function RStrip(s: string): (r: string)
    ensures |r| <= |s|
    ensures r == [] || !IsSpace(r[|r| - 1])
    ensures r != [] ==> r[0] == s[0]
  {
    if s != [] && IsSpace(s[|s| - 1]) then RStrip(s[..|s| - 1]) else s
  }

  /** `s.strip()`: `s` without its leading and trailing whitespace. */
  function Strip(s: string): (r: string)
    ensures Stripped(r)
  {
    RStrip(LStrip(s))
  }

  /** `lstrip` removes a prefix made of whitespace only. */
  lemma {:induction false} LStripRemovesSpace(s: string)
    ensures LStrip(s) == s[|s| - |LStrip(s)|..]
    ensures forall i :: 0 <= i < |s| - |LStrip(s)| ==> IsSpace(s[i])
  {
    if s != [] && IsSpace(s[0]) {
      LStripRemovesSpace(s[1..]);
      assert forall i :: 1 <= i < |s| - |LStrip(s)| ==> s[i] == s[1..][i - 1];
    }
  }

  /** `rstrip` removes a suffix made of whitespace only. */
  lemma {:induction false} RStripRemovesSpace(s: string)
    ensures RStrip(s) == s[..|RStrip(s)|]
    ensures forall i :: |RStrip(s)| <= i < |s| ==> IsSpace(s[i])
  {
    if s != [] && IsSpace(s[|s| - 1]) {
      RStripRemovesSpace(s[..|s| - 1]);
    }
  }

  /**
   * What `strip` keeps is the infix of `s` that starts after the `lead`
   * leading whitespace characters; only whitespace lies outside it.
   */
  lemma StripRemovesSpace(s: string) returns (lead: nat)
    ensures lead + |Strip(s)| <= |s| && Strip(s) == s[lead..lead + |Strip(s)|]
    ensures forall k :: 0 <= k < lead ==> IsSpace(s[k])
    ensures forall k :: lead + |Strip(s)| <= k < |s| ==> IsSpace(s[k])
  {
    var l := LStrip(s);
    LStripRemovesSpace(s);
    RStripRemovesSpace(l);
    lead := |s| - |l|;
    assert forall k :: lead <= k < |s| ==> s[k] == l[k - lead];
  }

  /** Stripping a string that is already stripped changes nothing; in particular `strip` is idempotent. */
  lemma StripStripped(s: string)
    requires Stripped(s)
    ensures Strip(s) == s
  {
  }

  /** The longest prefix of `s` without whitespace. */
  function Word(s: string): (w: string)
    ensures |w| <= |s| && w == s[..|w|]
    ensures forall c :: c in w ==> !IsSpace(c)
    ensures |w| < |s| ==> IsSpace(s[|w|])
  {
    if s == [] || IsSpace(s[0]) then [] else [s[0]] + Word(s[1..])
  }

  /** `s.split()`: the maximal runs of non-whitespace characters, in order. */
  function Split(s: string): (words: seq<string>)
    ensures forall w :: w in words ==> w != [] && forall c :: c in w ==> !IsSpace(c)
    decreases |s|
  {
    var t := LStrip(s);
    if t == [] then []
    else
      var w := Word(t);
      [w] + Split(t[|w|..])
  }

  /** A string that starts with whitespace splits like the same string without its first character. */
  lemma SplitSkipsSpace(s: string)
    requires s != [] && IsSpace(s[0])
    ensures Split(s) == Split(s[1..])
  {
  }

  /**
   * The number of words of `s` counted independently of `Split`: the
   * non-whitespace characters that open a word, that is, that come first or
   * right after whitespace (`afterSpace` says whether the character before
   * `s` was whitespace, or there was none).
   */
  function WordStarts(s: string, afterSpace: bool): nat
    decreases |s|
  {
    if s == [] then 0
    else (if !IsSpace(s[0]) && afterSpace then 1 else 0) + WordStarts(s[1..], IsSpace(s[0]))
  }

  /** Leading whitespace opens no word. */
  lemma {:induction false} WordStartsLStrip(s: string)
    ensures WordStarts(s, true) == WordStarts(LStrip(s), true)
    decreases |s|
  {
    if s != [] && IsSpace(s[0]) {
      WordStartsLStrip(s[1..]);
    }
  }

  /** Characters that continue a word open no new one. */
  lemma {:induction false} WordStartsInside(w: string, rest: string)
    requires forall c :: c in w ==> !IsSpace(c)
    ensures WordStarts(w + rest, false) == WordStarts(rest, false)
    decreases |w|
  {
    if w == [] {
      assert w + rest == rest;
    } else {
      assert w[0] in w;
      assert (w + rest)[1..] == w[1..] + rest;
      WordStartsInside(w[1..], rest);
    }
  }

  /** `split()` yields one word for every character that opens a word. */
  lemma {:induction false} SplitCount(s: string)
    ensures |Split(s)| == WordStarts(s, true)
    decreases |s|
  {
    WordStartsLStrip(s);
    var t := LStrip(s);
    if t != [] {
      var w := Word(t);
      var rest := t[|w|..];
      assert w[0] == t[0];
      assert t[1..] == w[1..] + rest;
      WordStartsInside(w[1..], rest);
      assert WordStarts(rest, false) == WordStarts(rest, true);
      SplitCount(rest);
    }
  }

  /**
   * Words are separated by at least one whitespace character, so a string
   * of length n holds at most (n + 1) / 2 of them.
   */
  lemma {:induction false} SplitBound(s: string)
    ensures 2 * |Split(s)| <= |s| + 1
    decreases |s|
  {
    var t := LStrip(s);
    if t != [] {
      var w := Word(t);
      var rest := t[|w|..];
      assert w != [];
      if rest != [] {
        SplitSkipsSpace(rest);
        SplitBound(rest[1..]);
      }
    }
  }

  /** `pat` is a prefix of `s`, compared character by character. */
  predicate StartsWith(s: string, pat: string)
    ensures StartsWith(s, pat) ==> |pat| <= |s|
  {
    pat == [] || (s != [] && s[0] == pat[0] && StartsWith(s[1..], pat[1..]))
  }

  /** A string that starts with `pat` has `pat` as its prefix. */
  lemma {:induction false} StartsWithPrefix(s: string, pat: string)
    requires StartsWith(s, pat)
    ensures |pat| <= |s| && s[..|pat|] == pat
  {
    if pat != [] {
      StartsWithPrefix(s[1..], pat[1..]);
      assert s[..|pat|] == [s[0]] + s[1..][..|pat| - 1];
      assert pat == [pat[0]] + pat[1..];
    }
  }

  /** `pat` occurs in `s` at position `i`. */
  predicate OccursAt(s: string, pat: string, i: int)
  {
    0 <= i <= |s| && StartsWith(s[i..], pat)
  }

  /** The first occurrence of `pat` in `s` at or after position `from`, or -1. */
  function FindFrom(s: string, pat: string, from: nat): (r: int)
    requires from <= |s|
    ensures r == -1 || (from <= r && OccursAt(s, pat, r))
    decreases |s| - from
  {
    if OccursAt(s, pat, from) then from
    else if from == |s| then -1
    else FindFrom(s, pat, from + 1)
  }

  /** `s.find(pat)`: the lowest index of an occurrence of `pat`, or -1 when there is none. */
  function Find(s: string, pat: string): (r: int)
    ensures r == -1 || OccursAt(s, pat, r)
  {
    FindFrom(s, pat, 0)
  }

  lemma {:induction false} FindFromIsFirst(s: string, pat: string, from: nat)
    requires from <= |s|
    ensures FindFrom(s, pat, from) == -1 ==> forall i :: from <= i ==> !OccursAt(s, pat, i)
    ensures forall i :: from <= i < FindFrom(s, pat, from) ==> !OccursAt(s, pat, i)
    decreases |s| - from
  {
    if !OccursAt(s, pat, from) && from < |s| {
      FindFromIsFirst(s, pat, from + 1);
    }
  }

  /** `find` reports -1 exactly when `pat` does not occur, and otherwise its first occurrence. */
  lemma FindIsFirst(s: string, pat: string)
    ensures Find(s, pat) == -1 <==> forall i :: !OccursAt(s, pat, i)
    ensures forall i :: 0 <= i < Find(s, pat) ==> !OccursAt(s, pat, i)
  {
    FindFromIsFirst(s, pat, 0);
  }

  /** The slice `s[i:j]` for in-range indices: empty when `j` precedes `i`. */
  function Slice(s: string, i: nat, j: nat): (r: string)
    requires i <= |s| && j <= |s|
    ensures i <= j ==> r == s[i..j]
    ensures j < i ==> r == []
  {
    if i <= j then s[i..j] else []
  }

  /** The number of (possibly overlapping) occurrences of `pat` in `s`. */
  function CountOccurrences(s: string, pat: string): nat
    decreases |s|
  {
    if s == [] || |s| < |pat| then 0
    else (if StartsWith(s, pat) then 1 else 0) + CountOccurrences(s[1..], pat)
  }

  /** Dropping a prefix never adds occurrences. */
  lemma {:induction false} CountSuffix(s: string, pat: string, k: nat)
    requires k <= |s|
    ensures CountOccurrences(s[k..], pat) <= CountOccurrences(s, pat)
    decreases k
  {
    if k > 0 {
      CountSuffix(s[1..], pat, k - 1);
      assert s[1..][k - 1..] == s[k..];
    }
  }

  /** An occurrence at `k` is counted, and what lies after it holds the remaining ones. */
  lemma {:induction false} CountAfterOccurrence(s: string, pat: string, k: nat)
    requires pat != [] && OccursAt(s, pat, k)
    ensures 1 + CountOccurrences(s[k + |pat|..], pat) <= CountOccurrences(s, pat)
  {
    var t := s[k..];
    CountSuffix(t[1..], pat, |pat| - 1);
    assert t[1..][|pat| - 1..] == s[k + |pat|..];
    CountSuffix(s, pat, k);
  }
}

/**
 * A worked instance of `parse_responses`: each value runs to the end of the
 * input, so `<START>a<END>x<START>b<END>y` gives `a` the value
 * `x<START>b<END>y` and `b` the value `y`.
 */
module ParserExample {
  import opened PyStr
  import opened Parser

  const Rest: string := "x" + StartTag + "b" + EndTag + "y"
  const Input: string := "<START>a<END>" + Rest

  /** A string starts with each of its prefixes. */
  lemma {:induction false} PrefixStartsWith(p: string, t: string)
    ensures StartsWith(p + t, p)
  {
    if p != [] {
      assert (p + t)[1..] == p[1..] + t;
      PrefixStartsWith(p[1..], t);
    }
  }

  /** A string that starts with `pat` agrees with it position by position. */
  lemma {:induction false} StartsWithAgrees(s: string, pat: string, k: nat)
    requires StartsWith(s, pat) && k < |pat|
    ensures s[k] == pat[k]
  {
    if k > 0 {
      StartsWithAgrees(s[1..], pat[1..], k - 1);
    }
  }

  /** `pat` does not occur at `j` when the text differs from it `k` characters in. */
  lemma Mismatch(s: string, pat: string, j: nat, k: nat)
    requires j + k < |s| && k < |pat| && s[j + k] != pat[k]
    ensures !OccursAt(s, pat, j)
  {
    if OccursAt(s, pat, j) {
      StartsWithAgrees(s[j..], pat, k);
    }
  }

  /** `pat` occurs at `|u|` in `u + pat + t`. */
  lemma OccursAfter(u: string, pat: string, t: string)
    ensures OccursAt(u + pat + t, pat, |u|)
  {
    PrefixStartsWith(pat, t);
    assert (u + pat + t)[|u|..] == pat + t;
  }

  /** `find` returns `i` when `pat` occurs at `i` and nowhere before. */
  lemma FindAt(s: string, pat: string, i: nat)
    requires OccursAt(s, pat, i)
    requires forall j :: 0 <= j < i ==> !OccursAt(s, pat, j)
    ensures Find(s, pat) == i
  {
    FindIsFirst(s, pat);
  }

  /** In the input, the first `<START>` is at 0 and the first `<END>` at 8. */
  lemma InputStart()
    ensures Find(Input, StartTag) == 0
  {
    OccursAfter("", StartTag, "a<END>" + Rest);
    assert "" + StartTag + ("a<END>" + Rest) == Input;
    FindAt(Input, StartTag, 0);
  }

  lemma InputEnd()
    ensures Find(Input, EndTag) == 8
  {
    OccursAfter("<START>a", EndTag, Rest);
    assert "<START>a" + EndTag + Rest == Input;
    forall j | 0 <= j < 8 ensures !OccursAt(Input, EndTag, j) {
      if j == 0 { Mismatch(Input, EndTag, j, 1); } else { Mismatch(Input, EndTag, j, 0); }
    }
    FindAt(Input, EndTag, 8);
  }

  /** After the first `<END>`, the first `<START>` is at 1 and the first `<END>` at 9. */
  lemma RestStart()
    ensures Find(Rest, StartTag) == 1
  {
    OccursAfter("x", StartTag, "b" + EndTag + "y");
    assert "x" + StartTag + ("b" + EndTag + "y") == Rest;
    Mismatch(Rest, StartTag, 0, 0);
    FindAt(Rest, StartTag, 1);
  }

  lemma RestEnd()
    ensures Find(Rest, EndTag) == 9
  {
    OccursAfter("x" + StartTag + "b", EndTag, "y");
    forall j | 0 <= j < 9 ensures !OccursAt(Rest, EndTag, j) {
      if j == 1 { Mismatch(Rest, EndTag, j, 1); } else { Mismatch(Rest, EndTag, j, 0); }
    }
    FindAt(Rest, EndTag, 9);
  }

  /** The last remainder holds no tag: the loop stops. */
  lemma LastValue()
    ensures Sections("y") == []
  {
    FindIsFirst("y", StartTag);
    NoSection("y");
  }

  /** The first pass reads the key `a` and continues after the first `<END>`. */
  lemma FirstSection()
    ensures HasSection(Input)
    ensures KeyOf(Input) == "a" && RestOf(Input) == Rest
  {
    InputStart();
    InputEnd();
    assert Slice(Input, 7, 8) == "a";
    StripStripped("a");
    assert Input[13..] == Rest;
  }

  /** The second pass reads the key `b` and leaves `y`. */
  lemma SecondKey()
    ensures HasSection(Rest) && KeyOf(Rest) == "b"
  {
    RestStart();
    RestEnd();
    assert Slice(Rest, 8, 9) == "b";
    StripStripped("b");
  }

  lemma SecondRest()
    ensures HasSection(Rest) && RestOf(Rest) == "y"
  {
    RestStart();
    RestEnd();
    assert Rest[14..] == "y";
  }

  lemma SecondSection()
    ensures Sections(Rest) == [("b", "y")]
  {
    SecondKey();
    SecondRest();
    LastValue();
    StripStripped("y");
    SectionsStep(Rest);
  }

  lemma FirstSectionValue()
    ensures HasSection(Input) && Sections(Input) == [("a", Rest)] + Sections(Rest)
  {
    FirstSection();
    StripStripped(Rest);
    SectionsStep(Input);
  }

  /** The sections the loop visits, in order. */
  lemma Pairs()
    ensures Sections(Input) == [("a", Rest), ("b", "y")]
  {
    FirstSectionValue();
    SecondSection();
  }

  /** Inserting two pairs in order. */
  lemma InsertTwo(p: (string, string), q: (string, string))
    ensures InsertAll([p, q]) == map[p.0 := p.1, q.0 := q.1]
  {
    InsertLast([], p);
    InsertLast([p], q);
    assert [] + [p] == [p];
    assert [p] + [q] == [p, q];
  }

  /** The worked instance: two sections, the first value holding the second section. */
  lemma TwoSections()
    ensures Sections(Input) == [("a", Rest), ("b", "y")]
    ensures InsertAll(Sections(Input)) == map["a" := Rest, "b" := "y"]
  {
    Pairs();
    InsertTwo(("a", Rest), ("b", "y"));
  }

  /** The two strings of the instance, written out. */
  lemma Spelled()
    ensures Input == "<START>a<END>x<START>b<END>y"
    ensures Rest == "x<START>b<END>y"
  {
  }
}

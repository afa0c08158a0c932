/**
 * `parse_responses`: reads an LLM reply laid out as `<START>key<END>value`
 * sections into a dictionary from keys to values.
 */
module Parser {
  import opened PyStr

  const StartTag: string := "<START>"
  const EndTag: string := "<END>"

  /** The loop of `parse_responses` runs another pass: both tags still occur somewhere. */
  predicate HasSection(response: string)
  {
    Find(response, StartTag) != -1 && Find(response, EndTag) != -1
  }

  /**
   * The key of the current pass: the stripped text between the end of the first
   * `<START>` and the first `<END>`; empty when that `<END>` comes first.
   */
  function KeyOf(response: string): (key: string)
    requires HasSection(response)
    ensures Stripped(key)
    ensures Find(response, EndTag) < Find(response, StartTag) + |StartTag| ==> key == ""
  {
    var startIndex := Find(response, StartTag) + |StartTag|;
    var endIndex := Find(response, EndTag);
    Strip(Slice(response, startIndex, endIndex))
  }

  /** What the next pass works on: everything after the first `<END>`. */
  function RestOf(response: string): (rest: string)
    requires HasSection(response)
    ensures |rest| <= |response| - |EndTag|
    ensures rest == response[|response| - |rest|..]
  {
    response[Find(response, EndTag) + |EndTag|..]
  }

  /**
   * The (key, value) pairs in the order the loop visits them. Each value is
   * the whole stripped remainder after its `<END>`, later sections included.
   */
  function Sections(response: string): (pairs: seq<(string, string)>)
    decreases |response|
  {
    if !HasSection(response) then []
    else [(KeyOf(response), Strip(RestOf(response)))] + Sections(RestOf(response))
  }

  /** The dictionary obtained by inserting `pairs` in order: a later pair overwrites an earlier one. */
  function InsertAll(pairs: seq<(string, string)>): (d: map<string, string>)
    ensures forall i :: 0 <= i < |pairs| ==> pairs[i].0 in d
  {
    if pairs == [] then map[]
    else
      var last := pairs[|pairs| - 1];
      InsertAll(pairs[..|pairs| - 1])[last.0 := last.1]
  }

  /** There are sections exactly when both tags occur. */
  lemma NoSection(response: string)
    ensures !HasSection(response) <==> Sections(response) == []
  {
  }

  /** A pass reads the first section and leaves the rest to the following passes. */
  lemma SectionsStep(response: string)
    requires HasSection(response)
    ensures Sections(response) == [(KeyOf(response), Strip(RestOf(response)))] + Sections(RestOf(response))
  {
  }

  /** Inserting one more pair updates the dictionary under that pair's key. */
  lemma InsertLast(pairs: seq<(string, string)>, p: (string, string))
    ensures InsertAll(pairs + [p]) == InsertAll(pairs)[p.0 := p.1]
  {
    assert (pairs + [p])[..|pairs|] == pairs;
  }

  /** One pass of the loop: it reads the next section, and inserting it extends the dictionary. */
  lemma Advance(response: string, visited: seq<(string, string)>, rest: string)
    requires HasSection(rest) && Sections(response) == visited + Sections(rest)
    ensures Sections(response) ==
      (visited + [(KeyOf(rest), Strip(RestOf(rest)))]) + Sections(RestOf(rest))
    ensures InsertAll(visited + [(KeyOf(rest), Strip(RestOf(rest)))]) ==
      InsertAll(visited)[KeyOf(rest) := Strip(RestOf(rest))]
  {
    var x := (KeyOf(rest), Strip(RestOf(rest)));
    var tail := Sections(RestOf(rest));
    SectionsStep(rest);
    InsertLast(visited, x);
    Assoc(visited, [x], tail);
  }

  lemma Assoc<T>(a: seq<T>, b: seq<T>, c: seq<T>)
    ensures a + (b + c) == (a + b) + c
  {
  }

  /** `parse_responses(response)`. */
  method ParseResponses(response: string) returns (parsedDict: map<string, string>)
    ensures parsedDict == InsertAll(Sections(response))
    ensures !HasSection(response) ==> parsedDict == map[]
  {
    parsedDict := map[];
    var rest := response;
    ghost var visited: seq<(string, string)> := [];
    while Find(rest, StartTag) != -1 && Find(rest, EndTag) != -1
      invariant Sections(response) == visited + Sections(rest)
      invariant parsedDict == InsertAll(visited)
      decreases |rest|
    {
      var startIndex := Find(rest, StartTag) + |StartTag|;
      var endIndex := Find(rest, EndTag);
      var key := Strip(Slice(rest, startIndex, endIndex));
      var value := Strip(rest[endIndex + |EndTag|..]);
      Advance(response, visited, rest);
      parsedDict := parsedDict[key := value];
      visited := visited + [(key, value)];
      rest := rest[endIndex + |EndTag|..];
    }
    NoSection(rest);
    assert visited + [] == visited;
    if !HasSection(response) {
      NoSection(response);
    }
  }

  /** `pairs[i]` is the last pair with key `key`. */
  predicate LastWithKey(pairs: seq<(string, string)>, key: string, i: int)
  {
    0 <= i < |pairs| && pairs[i].0 == key && forall j :: i < j < |pairs| ==> pairs[j].0 != key
  }

  /**
   * A repeated key keeps the value of its last occurrence: every key of the
   * dictionary is the key of some pair, its value is that pair's value, and no
   * later pair has the same key.
   */
  lemma {:induction false} LastOccurrenceWins(pairs: seq<(string, string)>, key: string)
    requires key in InsertAll(pairs)
    ensures exists i :: LastWithKey(pairs, key, i) && pairs[i].1 == InsertAll(pairs)[key]
  {
    assert pairs != [];
    var n := |pairs| - 1;
    var init := pairs[..n];
    var d := InsertAll(init);
    assert InsertAll(pairs) == d[pairs[n].0 := pairs[n].1];
    if pairs[n].0 == key {
      assert LastWithKey(pairs, key, n);
    } else {
      assert key in d && InsertAll(pairs)[key] == d[key];
      LastOccurrenceWins(init, key);
      var i :| LastWithKey(init, key, i) && init[i].1 == d[key];
      assert pairs[i] == init[i];
      forall j | i < j < |pairs| ensures pairs[j].0 != key {
        if j < n {
          assert pairs[j] == init[j];
        }
      }
      assert LastWithKey(pairs, key, i);
    }
  }

  /** A key is in the dictionary exactly when some pair carries it. */
  lemma {:induction false} InsertAllKeys(pairs: seq<(string, string)>)
    ensures forall i :: 0 <= i < |pairs| ==> pairs[i].0 in InsertAll(pairs)
    ensures forall key :: key in InsertAll(pairs) ==> exists i :: 0 <= i < |pairs| && pairs[i].0 == key
  {
    if pairs != [] {
      var init := pairs[..|pairs| - 1];
      InsertAllKeys(init);
      forall i | 0 <= i < |pairs| ensures pairs[i].0 in InsertAll(pairs) {
        if i < |init| {
          assert pairs[i] == init[i];
        }
      }
    }
    forall key | key in InsertAll(pairs) ensures exists i :: 0 <= i < |pairs| && pairs[i].0 == key {
      LastOccurrenceWins(pairs, key);
      var i :| LastWithKey(pairs, key, i) && pairs[i].1 == InsertAll(pairs)[key];
    }
  }

  /** Every key a pass reads ends up in the dictionary. */
  lemma ParsedKeysPresent(response: string)
    ensures forall i :: 0 <= i < |Sections(response)| ==>
      Sections(response)[i].0 in InsertAll(Sections(response))
  {
    InsertAllKeys(Sections(response));
  }

  /** The dictionary has at most as many entries as pairs were inserted. */
  lemma {:induction false} InsertAllSize(pairs: seq<(string, string)>)
    ensures |InsertAll(pairs)| <= |pairs|
  {
    if pairs != [] {
      InsertAllSize(pairs[..|pairs| - 1]);
    }
  }

  /** Every pass consumes one `<END>`, so there are at most as many sections as `<END>` tags. */
  lemma {:induction false} SectionsBound(response: string)
    ensures |Sections(response)| <= CountOccurrences(response, EndTag)
    decreases |response|
  {
    NoSection(response);
    if HasSection(response) {
      var rest := RestOf(response);
      var e := Find(response, EndTag);
      SectionsStep(response);
      assert |Sections(response)| == 1 + |Sections(rest)|;
      SectionsBound(rest);
      CountAfterOccurrence(response, EndTag, e);
      assert response[e + |EndTag|..] == rest;
    }
  }

  /** The number of dictionary entries is at most the number of `<END>` tags in the input. */
  lemma ParsedEntriesBound(response: string)
    ensures |InsertAll(Sections(response))| <= CountOccurrences(response, EndTag)
  {
    InsertAllSize(Sections(response));
    SectionsBound(response);
  }

  /** Section `i > 0` is section `i - 1` of what follows the first `<END>`. */
  lemma SectionAfterFirst(response: string, i: nat)
    requires 0 < i < |Sections(response)|
    ensures HasSection(response)
    ensures i - 1 < |Sections(RestOf(response))|
    ensures Sections(response)[i] == Sections(RestOf(response))[i - 1]
  {
    NoSection(response);
    SectionsStep(response);
  }

  /**
   * Where the value of pass `i` starts in the input: just after the `<END>`
   * that pass consumes.
   */
  function ValueStart(response: string, i: nat): (j: nat)
    ensures j <= |response|
    decreases |response|
  {
    if !HasSection(response) then |response|
    else if i == 0 then Find(response, EndTag) + |EndTag|
    else (|response| - |RestOf(response)|) + ValueStart(RestOf(response), i - 1)
  }

  /** An `<END>` of `s` ends at position `j`. */
  predicate EndsAt(s: string, j: int)
  {
    |EndTag| <= j <= |s| && s[j - |EndTag|..j] == EndTag
  }

  /** Every value starts right after an `<END>` of the input. */
  lemma {:induction false} ValueStartFollowsEnd(response: string, i: nat)
    requires i < |Sections(response)|
    ensures EndsAt(response, ValueStart(response, i))
    decreases i
  {
    NoSection(response);
    if i > 0 {
      SectionAfterFirst(response, i);
      ValueStartFollowsEnd(RestOf(response), i - 1);
      TailFollowsEnd(response, i);
    } else {
      HeadFollowsEnd(response);
    }
  }

  /** An `<END>` before a value's start in what follows the first `<END>` is one before the shifted start. */
  lemma TailFollowsEnd(response: string, i: nat)
    requires HasSection(response) && 0 < i
    requires EndsAt(RestOf(response), ValueStart(RestOf(response), i - 1))
    ensures EndsAt(response, ValueStart(response, i))
  {
    ValueStartStep(response, i);
    EndsAtSuffix(response, RestOf(response), ValueStart(RestOf(response), i - 1), ValueStart(response, i));
  }

  /** The first value starts right after the first `<END>`. */
  lemma HeadFollowsEnd(response: string)
    requires HasSection(response)
    ensures EndsAt(response, ValueStart(response, 0))
  {
    EndAt(response, Find(response, EndTag));
  }

  /** An occurrence of `<END>` spells `<END>`. */
  lemma EndAt(response: string, e: int)
    requires OccursAt(response, EndTag, e)
    ensures e + |EndTag| <= |response| && response[e..e + |EndTag|] == EndTag
  {
    StartsWithPrefix(response[e..], EndTag);
    assert response[e..][..|EndTag|] == response[e..e + |EndTag|];
  }

  /** A later pass's value starts at its position in the rest, shifted by where the rest begins. */
  lemma ValueStartStep(response: string, i: nat)
    requires HasSection(response) && 0 < i
    ensures ValueStart(response, i) == |response| - |RestOf(response)| + ValueStart(RestOf(response), i - 1)
  {
  }

  /** An `<END>` of a suffix is an `<END>` of the whole string, shifted by the suffix's offset. */
  lemma EndsAtSuffix(s: string, rest: string, k: int, j: int)
    requires |rest| <= |s| && rest == s[|s| - |rest|..]
    requires EndsAt(rest, k) && j == |s| - |rest| + k
    ensures EndsAt(s, j)
  {
    SliceOfSuffix(s, |s| - |rest|, k - |EndTag|, k);
  }

  /** A slice of the suffix from `offset` is the slice shifted by `offset`. */
  lemma SliceOfSuffix(s: string, offset: nat, a: nat, b: nat)
    requires a <= b && offset + b <= |s|
    ensures s[offset..][a..b] == s[offset + a..offset + b]
  {
  }

  /** Each pass's value starts after the previous one's, past one more `<END>`. */
  lemma {:induction false} ValueStartGrows(response: string, i: nat)
    requires i + 1 < |Sections(response)|
    ensures ValueStart(response, i) + |EndTag| <= ValueStart(response, i + 1)
    decreases i
  {
    NoSection(response);
    SectionAfterFirst(response, i + 1);
    if i > 0 {
      ValueStartGrows(RestOf(response), i - 1);
      TailGrows(response, i);
    } else {
      NoSection(RestOf(response));
    }
  }

  /** The order of two starts in what follows the first `<END>` carries over to the shifted starts. */
  lemma TailGrows(response: string, i: nat)
    requires HasSection(response) && 0 < i
    requires ValueStart(RestOf(response), i - 1) + |EndTag| <= ValueStart(RestOf(response), i)
    ensures ValueStart(response, i) + |EndTag| <= ValueStart(response, i + 1)
  {
  }

  /**
   * Every value is the stripped input from the end of its own pass's `<END>`
   * to the very end, so the text of the later sections is part of it.
   */
  lemma {:induction false} ValueIsStrippedSuffix(response: string, i: nat)
    requires i < |Sections(response)|
    ensures Sections(response)[i].1 == Strip(response[ValueStart(response, i)..])
    decreases i
  {
    NoSection(response);
    if i > 0 {
      SectionAfterFirst(response, i);
      ValueIsStrippedSuffix(RestOf(response), i - 1);
      TailValueStart(response, i);
    } else {
      HeadValueStart(response);
    }
  }

  /** The first value starts at `ValueStart(response, 0)`. */
  lemma HeadValueStart(response: string)
    requires HasSection(response)
    ensures Sections(response)[0].1 == Strip(response[ValueStart(response, 0)..])
  {
    var j := HeadValueSuffix(response);
  }

  /** A value found at its position in what follows the first `<END>` is found at the shifted position. */
  lemma TailValueStart(response: string, i: nat)
    requires HasSection(response) && 0 < i < |Sections(response)|
    requires i - 1 < |Sections(RestOf(response))|
    requires Sections(RestOf(response))[i - 1].1 ==
             Strip(RestOf(response)[ValueStart(RestOf(response), i - 1)..])
    ensures Sections(response)[i].1 == Strip(response[ValueStart(response, i)..])
  {
    SectionAfterFirst(response, i);
    var rest := RestOf(response);
    var k := ValueStart(rest, i - 1);
    SuffixOfSuffix(response, |response| - |rest|, k);
  }

  /** The first value is the stripped text after the first `<END>`. */
  lemma HeadValueSuffix(response: string) returns (j: nat)
    requires HasSection(response)
    ensures j == Find(response, EndTag) + |EndTag|
    ensures j <= |response| && Sections(response)[0].1 == Strip(response[j..])
  {
    SectionsStep(response);
    var rest := RestOf(response);
    j := |response| - |rest|;
    assert response[j..] == rest;
  }

  /** A suffix of the suffix from `offset` is the suffix from `offset + k`. */
  lemma SuffixOfSuffix(s: string, offset: nat, k: nat)
    requires offset + k <= |s|
    ensures s[offset..][k..] == s[offset + k..]
  {
  }

  /** Keys and values carry no surrounding whitespace. */
  lemma {:induction false} SectionsAreStripped(response: string)
    ensures forall i :: 0 <= i < |Sections(response)| ==>
      Stripped(Sections(response)[i].0) && Stripped(Sections(response)[i].1)
    decreases |response|
  {
    NoSection(response);
    if HasSection(response) {
      var rest := RestOf(response);
      SectionsAreStripped(rest);
      forall i | 0 <= i < |Sections(response)|
        ensures Stripped(Sections(response)[i].0) && Stripped(Sections(response)[i].1)
      {
        if i > 0 {
          SectionAfterFirst(response, i);
          assert Sections(response)[i] == Sections(rest)[i - 1];
        } else {
          SectionsStep(response);
        }
      }
    }
  }
}

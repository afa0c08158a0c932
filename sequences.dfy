/**
 * Order-preserving filtering, the shape shared by Python list comprehensions
 * of the form `[f(x) for x in xs if p(x)]` and dict comprehensions that drop entries.
 */
module Sequences {
  import opened Wrappers

  /**
   * Keeps, in order, the images of the elements that `select` maps to `Some`.
   * `select(x) == Some(y)` stands for "x passes the filter and contributes y".
   */
  function Collect<T, U>(s: seq<T>, select: T -> Option<U>): (r: seq<U>)
    ensures |r| <= |s|
  {
    if s == [] then []
    else
      var rest := Collect(s[1..], select);
      match select(s[0])
      case Some(y) => [y] + rest
      case None => rest
  }

  /** `idx` lists strictly increasing positions below `n`. */
  predicate StrictlyIncreasing(idx: seq<nat>, n: nat)
  {
    (forall j :: 0 <= j < |idx| ==> idx[j] < n) &&
    (forall j, k :: 0 <= j < k < |idx| ==> idx[j] < idx[k])
  }

  /** The positions of `s` that `Collect(s, select)` keeps, in order. */
  function Positions<T, U>(s: seq<T>, select: T -> Option<U>): seq<nat>
  {
    if s == [] then []
    else
      var tail := Positions(s[1..], select);
      var shifted := seq(|tail|, j requires 0 <= j < |tail| => tail[j] + 1);
      if select(s[0]).Some? then [0] + shifted else shifted
  }

  lemma {:induction false} PositionsIncrease<T, U>(s: seq<T>, select: T -> Option<U>)
    ensures |Positions(s, select)| == |Collect(s, select)|
    ensures StrictlyIncreasing(Positions(s, select), |s|)
  {
    if s != [] {
      PositionsIncrease(s[1..], select);
      var tail := Positions(s[1..], select);
      var p := Positions(s, select);
      var k := if select(s[0]).Some? then 1 else 0;
      assert forall j :: k <= j < |p| ==> p[j] == tail[j - k] + 1;
      assert k == 1 ==> p[0] == 0;
    }
  }

  lemma {:induction false} PositionsSelect<T, U>(s: seq<T>, select: T -> Option<U>)
    requires |Positions(s, select)| == |Collect(s, select)|
    requires StrictlyIncreasing(Positions(s, select), |s|)
    ensures forall j :: 0 <= j < |Positions(s, select)| ==>
      select(s[Positions(s, select)[j]]) == Some(Collect(s, select)[j])
  {
    if s != [] {
      PositionsIncrease(s[1..], select);
      PositionsSelect(s[1..], select);
      var tail := Positions(s[1..], select);
      var rest := Collect(s[1..], select);
      var p := Positions(s, select);
      var r := Collect(s, select);
      var k := if select(s[0]).Some? then 1 else 0;
      forall j | k <= j < |p| ensures select(s[p[j]]) == Some(r[j]) {
        assert p[j] == tail[j - k] + 1;
        assert r[j] == rest[j - k];
        assert s[p[j]] == s[1..][tail[j - k]];
      }
    }
  }

  lemma {:induction false} PositionsComplete<T, U>(s: seq<T>, select: T -> Option<U>)
    ensures forall i :: 0 <= i < |s| && select(s[i]).Some? ==> i in Positions(s, select)
  {
    if s != [] {
      PositionsComplete(s[1..], select);
      var tail := Positions(s[1..], select);
      var p := Positions(s, select);
      var k := if select(s[0]).Some? then 1 else 0;
      forall i | 0 < i < |s| && select(s[i]).Some? ensures i in p {
        assert s[1..][i - 1] == s[i];
        var j :| 0 <= j < |tail| && tail[j] == i - 1;
        assert p[j + k] == i;
      }
    }
  }

  /**
   * `Collect(s, select)` is exactly the in-order subsequence of the selected
   * elements: `idx` names, in increasing order, the positions that contributed,
   * and every position that `select` accepts is among them.
   */
  lemma CollectIsSubsequence<T, U>(s: seq<T>, select: T -> Option<U>)
    returns (idx: seq<nat>)
    ensures |idx| == |Collect(s, select)|
    ensures StrictlyIncreasing(idx, |s|)
    ensures forall j :: 0 <= j < |idx| ==> select(s[idx[j]]) == Some(Collect(s, select)[j])
    ensures forall i :: 0 <= i < |s| && select(s[i]).Some? ==> i in idx
  {
    PositionsIncrease(s, select);
    PositionsSelect(s, select);
    PositionsComplete(s, select);
    idx := Positions(s, select);
  }

  /** When `select` accepts every element, `Collect` keeps all of them, position by position. */
  lemma {:induction false} CollectAll<T, U>(s: seq<T>, select: T -> Option<U>)
    requires forall i :: 0 <= i < |s| ==> select(s[i]).Some?
    ensures |Collect(s, select)| == |s|
    ensures forall i :: 0 <= i < |s| ==> select(s[i]) == Some(Collect(s, select)[i])
  {
    if s != [] {
      CollectAll(s[1..], select);
      var rest := Collect(s[1..], select);
      assert Collect(s, select) == [select(s[0]).value] + rest;
      forall i | 0 < i < |s| ensures select(s[i]) == Some(Collect(s, select)[i]) {
        assert s[i] == s[1..][i - 1];
      }
    }
  }
}

/** First match, order-preserving filter and in-order collection over sequences. */
module Seqs {

  function FirstFrom<T>(s: seq<T>, p: T -> bool, from: nat): (i: nat)
    requires from <= |s|
    ensures from <= i <= |s|
    ensures i < |s| ==> p(s[i])
    ensures forall j :: from <= j < i ==> !p(s[j])
    decreases |s| - from
  {
    if from == |s| || p(s[from]) then from else FirstFrom(s, p, from + 1)
  }

  /** Index of the first element satisfying `p`, or |s|. */
  function First<T>(s: seq<T>, p: T -> bool): (i: nat)
    ensures i <= |s|
    ensures i < |s| ==> p(s[i])
    ensures forall j :: 0 <= j < i ==> !p(s[j])
  {
    FirstFrom(s, p, 0)
  }

  /** The elements satisfying `keep`, in order. */
  function Filter<T(!new)>(s: seq<T>, keep: T -> bool): (r: seq<T>)
    ensures |r| <= |s|
    ensures forall x :: x in r <==> x in s && keep(x)
  {
    if s == [] then []
    else
      var front := Filter(s[..|s| - 1], keep);
      assert s == s[..|s| - 1] + [s[|s| - 1]];
      if keep(s[|s| - 1]) then front + [s[|s| - 1]] else front
  }

  lemma FilterStep<T(!new)>(s: seq<T>, keep: T -> bool, i: nat)
    requires i < |s|
    ensures Filter(s[..i + 1], keep) == Filter(s[..i], keep) + (if keep(s[i]) then [s[i]] else [])
  {
    assert s[..i + 1][..i] == s[..i];
  }

  /** A filter keeps relative order: it is the image of the input under increasing positions. */
  lemma {:induction false} FilterPositions<T(!new)>(s: seq<T>, keep: T -> bool) returns (at: seq<nat>)
    ensures |at| == |Filter(s, keep)|
    ensures forall i :: 0 <= i < |at| ==> at[i] < |s| && s[at[i]] == Filter(s, keep)[i] && keep(s[at[i]])
    ensures forall i, j :: 0 <= i < j < |at| ==> at[i] < at[j]
  {
    if s == [] {
      at := [];
    } else {
      at := FilterPositions(s[..|s| - 1], keep);
      if keep(s[|s| - 1]) {
        at := at + [|s| - 1];
      }
    }
  }

  lemma {:induction false} FilterAll<T(!new)>(s: seq<T>, keep: T -> bool)
    requires forall x :: x in s ==> keep(x)
    ensures Filter(s, keep) == s
  {
    if s == [] {
    } else {
      FilterAll(s[..|s| - 1], keep);
      assert s == s[..|s| - 1] + [s[|s| - 1]];
    }
  }

  /** Filtering by a weaker test first changes nothing. */
  lemma {:induction false} FilterAfterWeaker<T(!new)>(s: seq<T>, weaker: T -> bool, keep: T -> bool)
    requires forall x :: x in s && keep(x) ==> weaker(x)
    ensures Filter(Filter(s, weaker), keep) == Filter(s, keep)
  {
    if s == [] {
    } else {
      var front, last := s[..|s| - 1], s[|s| - 1];
      FilterAfterWeaker(front, weaker, keep);
      if weaker(last) {
        assert Filter(s, weaker)[..|Filter(s, weaker)| - 1] == Filter(front, weaker);
      }
    }
  }
}

/** Sequence helpers shared by the components: sums, maxima and `Array.prototype.filter`. */
module Seqs {

  /** Sum of a sequence, as the right-nested reference definition. */
  function Sum(s: seq<real>): real {
    if s == [] then 0.0 else s[0] + Sum(s[1..])
  }

  /** `s.reduce((acc, v) => acc + v, init)`: a left fold. */
  function FoldSum(init: real, s: seq<real>): real
    decreases s
  {
    if s == [] then init else FoldSum(init + s[0], s[1..])
  }

  /** The left fold starting from 0 is the sum. */
  lemma {:induction false} FoldSumIsSum(init: real, s: seq<real>)
    ensures FoldSum(init, s) == init + Sum(s)
    decreases s
  {
    if s != [] {
      FoldSumIsSum(init + s[0], s[1..]);
    }
  }

  lemma {:induction false} SumAppend(s: seq<real>, x: real)
    ensures Sum(s + [x]) == Sum(s) + x
  {
    if s != [] {
      assert (s + [x])[1..] == s[1..] + [x];
      SumAppend(s[1..], x);
    }
  }

  /** `Math.max(...s)` of a non-empty sequence. */
  function MaxOf(s: seq<real>): (m: real)
    requires s != []
    ensures m in s
    ensures forall i :: 0 <= i < |s| ==> s[i] <= m
  {
    if |s| == 1 then s[0]
    else
      var rest := MaxOf(s[1..]);
      assert forall i :: 1 <= i < |s| ==> s[i] == s[1..][i - 1];
      if s[0] >= rest then s[0] else rest
  }

  /** `s.filter(keep)`. */
  function Filter<T>(s: seq<T>, keep: T -> bool): (r: seq<T>)
    ensures |r| <= |s|
  {
    if s == [] then []
    else if keep(s[0]) then [s[0]] + Filter(s[1..], keep)
    else Filter(s[1..], keep)
  }

  /** `r` can be obtained from `s` by deleting elements: the order is kept. */
  predicate IsSubsequence<T(==)>(r: seq<T>, s: seq<T>)
    decreases |s|
  {
    if r == [] then true
    else if s == [] then false
    else if r[0] == s[0] then IsSubsequence(r[1..], s[1..])
    else IsSubsequence(r, s[1..])
  }

  /** Exactly the kept elements, with their multiplicities. */
  lemma {:induction false} FilterCounts<T>(s: seq<T>, keep: T -> bool, x: T)
    ensures multiset(Filter(s, keep))[x] == if keep(x) then multiset(s)[x] else 0
  {
    if s != [] {
      FilterCounts(s[1..], keep, x);
      assert s == [s[0]] + s[1..];
      assert multiset(s) == multiset{s[0]} + multiset(s[1..]);
    }
  }

  /** An element is in the result iff it is in the input and is kept. */
  lemma FilterMembership<T>(s: seq<T>, keep: T -> bool, x: T)
    ensures x in Filter(s, keep) <==> x in s && keep(x)
  {
    FilterCounts(s, keep, x);
    assert x in Filter(s, keep) <==> multiset(Filter(s, keep))[x] > 0;
    assert x in s <==> multiset(s)[x] > 0;
  }

  /** The filter keeps the input order. */
  lemma {:induction false} FilterIsSubsequence<T>(s: seq<T>, keep: T -> bool)
    ensures IsSubsequence(Filter(s, keep), s)
  {
    if s != [] {
      FilterIsSubsequence(s[1..], keep);
      if !keep(s[0]) {
        SubsequenceDrop(Filter(s[1..], keep), s[0], s[1..]);
      }
    }
  }

  lemma {:induction false} SubsequenceDrop<T>(r: seq<T>, x: T, s: seq<T>)
    requires IsSubsequence(r, s)
    ensures IsSubsequence(r, [x] + s)
    decreases 2 * |s| + 1
  {
    if r != [] && r[0] == x {
      assert ([x] + s)[1..] == s;
      SubsequenceTail(r, s);
    } else {
      assert ([x] + s)[1..] == s;
    }
  }

  lemma {:induction false} SubsequenceTail<T>(r: seq<T>, s: seq<T>)
    requires r != [] && IsSubsequence(r, s)
    ensures IsSubsequence(r[1..], s)
    decreases 2 * |s|
  {
    if r[0] == s[0] {
      if r[1..] != [] {
        SubsequenceTail(r[1..], s[1..]);
        SubsequenceDrop(r[1..], s[0], s[1..]);
        assert [s[0]] + s[1..] == s;
      }
    } else {
      SubsequenceTail(r, s[1..]);
      if r[1..] != [] {
        SubsequenceDrop(r[1..], s[0], s[1..]);
        assert [s[0]] + s[1..] == s;
      }
    }
  }

  /** The filter keeps everything exactly when everything passes. */
  lemma {:induction false} FilterKeepsAll<T>(s: seq<T>, keep: T -> bool)
    requires forall i :: 0 <= i < |s| ==> keep(s[i])
    ensures Filter(s, keep) == s
  {
    if s != [] {
      FilterKeepsAll(s[1..], keep);
    }
  }

  /** Two tests that agree on every element keep the same elements. */
  lemma {:induction false} FilterCongruent<T>(s: seq<T>, keep: T -> bool, keep2: T -> bool)
    requires forall i :: 0 <= i < |s| ==> keep(s[i]) == keep2(s[i])
    ensures Filter(s, keep) == Filter(s, keep2)
  {
    if s != [] {
      FilterCongruent(s[1..], keep, keep2);
    }
  }

  /** The filter is empty when nothing passes. */
  lemma {:induction false} FilterNone<T>(s: seq<T>, keep: T -> bool)
    requires forall i :: 0 <= i < |s| ==> !keep(s[i])
    ensures Filter(s, keep) == []
  {
    if s != [] {
      FilterNone(s[1..], keep);
    }
  }

  /** Filtering distributes over concatenation. */
  lemma {:induction false} FilterAppend<T>(s: seq<T>, t: seq<T>, keep: T -> bool)
    ensures Filter(s + t, keep) == Filter(s, keep) + Filter(t, keep)
  {
    if s != [] {
      FilterAppend(s[1..], t, keep);
      assert (s + t)[1..] == s[1..] + t;
    } else {
      assert s + t == t;
    }
  }
}

/**
 * The array combinators the dashboard is written with: `filter`, `reduce`
 * with `+`, and `map` that swaps the entries a predicate picks out.
 */
module Seqs {

  /** The elements of `s` that satisfy `keep`, in their original order (`Array.prototype.filter`). */
  function Filter<T(!new)>(s: seq<T>, keep: T -> bool): (r: seq<T>)
    ensures |r| <= |s|
    ensures forall x :: x in r <==> x in s && keep(x)
  {
    if s == [] then [] else (if keep(s[0]) then [s[0]] else []) + Filter(s[1..], keep)
  }

  lemma FilterCons<T(!new)>(x: T, s: seq<T>, keep: T -> bool)
    ensures Filter([x] + s, keep) == (if keep(x) then [x] else []) + Filter(s, keep)
  {
    assert ([x] + s)[1..] == s;
  }

  /** A filter that rejects nothing returns its input unchanged. */
  lemma {:induction false} FilterKeepsAll<T(!new)>(s: seq<T>, keep: T -> bool)
    requires forall x :: x in s ==> keep(x)
    ensures Filter(s, keep) == s
  {
    if s != [] {
      FilterKeepsAll(s[1..], keep);
    }
  }

  /** The multiplicity of every value: a kept value as often as in `s`, any other value never. */
  lemma {:induction false} FilterMultiset<T(!new)>(s: seq<T>, keep: T -> bool)
    ensures forall x :: multiset(Filter(s, keep))[x] == if keep(x) then multiset(s)[x] else 0
  {
    if s != [] {
      FilterMultiset(s[1..], keep);
      assert s == [s[0]] + s[1..];
      assert multiset(s) == multiset([s[0]]) + multiset(s[1..]);
    }
  }

  /** The positions from `i` on whose entries `keep` accepts, in increasing order. */
  function KeptFrom<T>(s: seq<T>, keep: T -> bool, i: nat): (idx: seq<nat>)
    requires i <= |s|
    ensures forall k :: 0 <= k < |idx| ==> i <= idx[k] < |s| && keep(s[idx[k]])
    ensures forall k, m :: 0 <= k < m < |idx| ==> idx[k] < idx[m]
    ensures forall j :: i <= j < |s| && keep(s[j]) ==> j in idx
    decreases |s| - i
  {
    if i == |s| then [] else (if keep(s[i]) then [i] else []) + KeptFrom(s, keep, i + 1)
  }

  /** The positions of `s` whose entries `keep` accepts, in increasing order. */
  function KeptIndices<T>(s: seq<T>, keep: T -> bool): (idx: seq<nat>)
    ensures forall k :: 0 <= k < |idx| ==> idx[k] < |s| && keep(s[idx[k]])
    ensures forall k, m :: 0 <= k < m < |idx| ==> idx[k] < idx[m]
    ensures forall j :: 0 <= j < |s| && keep(s[j]) ==> j in idx
  {
    KeptFrom(s, keep, 0)
  }

  lemma {:induction false} FilterFrom<T(!new)>(s: seq<T>, keep: T -> bool, i: nat)
    requires i <= |s|
    ensures var r, idx := Filter(s[i..], keep), KeptFrom(s, keep, i);
      |r| == |idx| && forall k :: 0 <= k < |r| ==> r[k] == s[idx[k]]
    decreases |s| - i
  {
    if i < |s| {
      FilterFrom(s, keep, i + 1);
      var rest, later := Filter(s[i + 1..], keep), KeptFrom(s, keep, i + 1);
      assert s[i..][0] == s[i] && s[i..][1..] == s[i + 1..];
      if keep(s[i]) {
        assert Filter(s[i..], keep) == [s[i]] + rest;
        assert KeptFrom(s, keep, i) == [i] + later;
      } else {
        assert Filter(s[i..], keep) == rest;
        assert KeptFrom(s, keep, i) == later;
      }
    }
  }

  /**
   * The filter keeps order: its entries are the entries of `s` at the kept
   * positions, read in increasing position order.
   */
  lemma FilterInOrder<T(!new)>(s: seq<T>, keep: T -> bool)
    ensures var r, idx := Filter(s, keep), KeptIndices(s, keep);
      |r| == |idx| && forall k :: 0 <= k < |r| ==> r[k] == s[idx[k]]
  {
    FilterFrom(s, keep, 0);
    assert s[0..] == s;
  }

  /** `s.reduce((sum, x) => sum + f(x), 0)`, summed from the back. */
  function Sum<T>(s: seq<T>, f: T -> int): (r: int)
    ensures (forall i :: 0 <= i < |s| ==> f(s[i]) >= 0) ==> r >= 0
  {
    if s == [] then 0 else f(s[0]) + Sum(s[1..], f)
  }

  /** `s.reduce((acc, x) => acc + f(x), init)` as JavaScript runs it: a fold from the front. */
  function Reduce<T>(s: seq<T>, f: T -> int, init: int): int
  {
    if s == [] then init else Reduce(s[1..], f, init + f(s[0]))
  }

  /** The front-to-back fold gives the sum, so the order of additions does not matter. */
  lemma {:induction false} ReduceIsSum<T>(s: seq<T>, f: T -> int, init: int)
    ensures Reduce(s, f, init) == init + Sum(s, f)
  {
    if s != [] {
      ReduceIsSum(s[1..], f, init + f(s[0]));
    }
  }

  lemma SumCons<T>(x: T, s: seq<T>, f: T -> int)
    ensures Sum([x] + s, f) == f(x) + Sum(s, f)
  {
    assert ([x] + s)[1..] == s;
  }

  /** The sum of zeros is zero. */
  lemma {:induction false} SumOfZeros<T(!new)>(s: seq<T>, f: T -> int)
    requires forall x :: x in s ==> f(x) == 0
    ensures Sum(s, f) == 0
  {
    if s != [] {
      SumOfZeros(s[1..], f);
    }
  }

  /** A sum of pointwise differences is the difference of the sums. */
  lemma {:induction false} SumOfDifferences<T(!new)>(s: seq<T>, f: T -> int, g: T -> int, h: T -> int)
    requires forall x :: x in s ==> h(x) == f(x) - g(x)
    ensures Sum(s, h) == Sum(s, f) - Sum(s, g)
  {
    if s != [] {
      SumOfDifferences(s[1..], f, g, h);
    }
  }

  /** `s.map((x) => hit(x) ? v : x)`: every entry that `hit` picks out becomes `v`. */
  function Replace<T>(s: seq<T>, hit: T -> bool, v: T): (r: seq<T>)
    ensures |r| == |s|
    ensures forall i :: 0 <= i < |s| ==> r[i] == (if hit(s[i]) then v else s[i])
  {
    seq(|s|, i requires 0 <= i < |s| => if hit(s[i]) then v else s[i])
  }
}

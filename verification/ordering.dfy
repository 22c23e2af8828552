/** `eigenvalues.map((v, idx) => ({ v, idx })).sort((a, b) => b.v - a.v)`: the indices of
    the eigenvalues, largest value first. `Array.prototype.sort` is stable, so indices of
    equal values stay in increasing order; the order is built here by stable insertion. */
module Ordering {
  import opened Linalg

  /** Every entry of `order` indexes `values`, and any two positions list their indices by
      decreasing value, equal values by increasing index. */
  predicate Ranked(values: seq<real>, order: seq<nat>) {
    && (forall a :: 0 <= a < |order| ==> order[a] < |values|)
    && (forall a, b :: 0 <= a < b < |order| ==>
          values[order[a]] > values[order[b]] ||
          (values[order[a]] == values[order[b]] && order[a] < order[b]))
  }

  /** Places index `x` after every listed index whose value is at least its own. */
  function Insert(values: seq<real>, x: nat, order: seq<nat>): (r: seq<nat>)
    requires x < |values| && Ranked(values, order)
    requires forall a :: 0 <= a < |order| ==> order[a] < x
    ensures |r| == |order| + 1
    ensures multiset(r) == multiset(order) + multiset{x}
    ensures Ranked(values, r)
  {
    if |order| == 0 then [x]
    else if values[order[0]] < values[x] then
      RankedCons(values, x, order);
      [x] + order
    else
      RankedTail(values, order);
      var rest := Insert(values, x, order[1..]);
      InsertBehind(values, x, order, rest);
      [order[0]] + rest
  }

  /** Putting the head back in front of `x` inserted into the tail gives a ranked list of the
      head, the tail and `x`. */
  lemma InsertBehind(values: seq<real>, x: nat, order: seq<nat>, rest: seq<nat>)
    requires x < |values| && Ranked(values, order) && |order| > 0
    requires order[0] < x && values[x] <= values[order[0]]
    requires Ranked(values, rest) && multiset(rest) == multiset(order[1..]) + multiset{x}
    ensures Ranked(values, [order[0]] + rest)
    ensures multiset([order[0]] + rest) == multiset(order) + multiset{x}
  {
    HeadBeforeRest(values, x, order, rest);
    RankedCons(values, order[0], rest);
    assert order == [order[0]] + order[1..];
  }

  /** The head of a ranked list that `x` does not outrank stays ahead of `x` and of the rest. */
  lemma HeadBeforeRest(values: seq<real>, x: nat, order: seq<nat>, rest: seq<nat>)
    requires x < |values| && Ranked(values, order) && |order| > 0
    requires order[0] < x && values[x] <= values[order[0]]
    requires Ranked(values, rest) && multiset(rest) == multiset(order[1..]) + multiset{x}
    ensures forall a :: 0 <= a < |rest| ==>
      values[order[0]] > values[rest[a]] || (values[order[0]] == values[rest[a]] && order[0] < rest[a])
  {
    forall a | 0 <= a < |rest|
      ensures values[order[0]] > values[rest[a]] || (values[order[0]] == values[rest[a]] && order[0] < rest[a])
    {
      assert rest[a] in multiset(rest);
      if rest[a] != x {
        assert rest[a] in multiset(order[1..]);
        var b :| 0 <= b < |order[1..]| && order[1..][b] == rest[a];
        assert order[b + 1] == rest[a];
      }
    }
  }

  /** An index ranked before every entry of a ranked list can head it. */
  lemma RankedCons(values: seq<real>, h: nat, rest: seq<nat>)
    requires h < |values| && Ranked(values, rest)
    requires forall a :: 0 <= a < |rest| ==>
      values[h] > values[rest[a]] || (values[h] == values[rest[a]] && h < rest[a])
    ensures Ranked(values, [h] + rest)
  {
    var r := [h] + rest;
    assert forall a :: 0 < a < |r| ==> r[a] == rest[a - 1];
  }

  /** The first `k` indices in rank order. */
  function SortPrefix(values: seq<real>, k: nat): (r: seq<nat>)
    requires k <= |values|
    ensures |r| == k
    ensures multiset(r) == multiset(Range(k))
    ensures Ranked(values, r)
    ensures forall a :: 0 <= a < |r| ==> r[a] < k
  {
    if k == 0 then []
    else
      var r := Insert(values, k - 1, SortPrefix(values, k - 1));
      RangeSucc(k);
      RangeBound(r, k);
      r
  }

  lemma RangeSucc(k: nat)
    requires k > 0
    ensures multiset(Range(k)) == multiset(Range(k - 1)) + multiset{(k - 1) as nat}
  {
    assert Range(k) == Range(k - 1) + [k - 1];
  }

  /** A permutation of `0 .. k - 1` has every entry below `k`. */
  lemma RangeBound(r: seq<nat>, k: nat)
    requires multiset(r) == multiset(Range(k))
    ensures forall a :: 0 <= a < |r| ==> r[a] < k
  {
    forall a | 0 <= a < |r|
      ensures r[a] < k
    {
      assert r[a] in multiset(Range(k));
    }
  }

  /** The sorted order of all indices: a permutation of `0 .. |values| - 1`, ranked by value. */
  function Order(values: seq<real>): (r: seq<nat>)
    ensures |r| == |values|
    ensures multiset(r) == multiset(Range(|values|))
    ensures Ranked(values, r)
  {
    SortPrefix(values, |values|)
  }

  /** A ranked list is determined by its entries: any stable sort by decreasing value, not
      only insertion, yields `Order`. */
  lemma {:induction false} RankedUnique(values: seq<real>, o1: seq<nat>, o2: seq<nat>)
    requires Ranked(values, o1) && Ranked(values, o2) && multiset(o1) == multiset(o2)
    ensures o1 == o2
    decreases |o1|
  {
    assert |o1| == |multiset(o1)| == |o2|;
    if |o1| > 0 {
      HeadsAgree(values, o1, o2);
      TailMultiset(o1);
      TailMultiset(o2);
      RankedTail(values, o1);
      RankedTail(values, o2);
      RankedUnique(values, o1[1..], o2[1..]);
      assert o1 == [o1[0]] + o1[1..] && o2 == [o2[0]] + o2[1..];
    }
  }

  /** Two ranked lists of the same entries start with the same index. */
  lemma HeadsAgree(values: seq<real>, o1: seq<nat>, o2: seq<nat>)
    requires Ranked(values, o1) && Ranked(values, o2) && multiset(o1) == multiset(o2) && |o1| > 0
    ensures |o2| > 0 && o1[0] == o2[0]
  {
    assert o1[0] in multiset(o2);
    var b :| 0 <= b < |o2| && o2[b] == o1[0];
    assert o2[0] in multiset(o1);
    var a :| 0 <= a < |o1| && o1[a] == o2[0];
    if o1[0] != o2[0] {
      assert false;
    }
  }

  lemma TailMultiset(s: seq<nat>)
    requires |s| > 0
    ensures multiset(s[1..]) == multiset(s) - multiset{s[0]}
  {
    assert s == [s[0]] + s[1..];
  }

  lemma RankedTail(values: seq<real>, order: seq<nat>)
    requires Ranked(values, order) && |order| > 0
    ensures Ranked(values, order[1..])
  {
    var t := order[1..];
    assert forall a :: 0 <= a < |t| ==> t[a] == order[a + 1];
  }

  /** `Order` is the only ranked permutation of the indices. */
  lemma OrderUnique(values: seq<real>, order: seq<nat>)
    requires Ranked(values, order) && multiset(order) == multiset(Range(|values|))
    ensures order == Order(values)
  {
    RankedUnique(values, order, Order(values));
  }

  /** The first `kept` entries of a ranked permutation carry the largest values: no index
      outside them has a larger value than one inside. */
  lemma TopOfRanked(values: seq<real>, order: seq<nat>, kept: nat)
    requires Ranked(values, order) && multiset(order) == multiset(Range(|values|)) && kept <= |order|
    ensures forall c, x :: 0 <= c < kept && 0 <= x < |values| && x !in order[..kept] ==>
      values[order[c]] >= values[x]
  {
    forall c, x | 0 <= c < kept && 0 <= x < |values| && x !in order[..kept]
      ensures values[order[c]] >= values[x]
    {
      assert Range(|values|)[x] == x;
      assert x in multiset(order);
      var d :| 0 <= d < |order| && order[d] == x;
    }
  }
}

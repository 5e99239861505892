/**
  IndexValuePair: a position paired with a score, compared on the score
  alone. Both pipelines rank by building pairs in index order, sorting them
  ascending with `Collections.sort` (a stable sort) and then reversing the
  list with `Collections.reverse`.
 */
module IndexValuePairs {
  import opened Collections

  datatype IndexValuePair = IndexValuePair(index: int, value: real)

  /** `a.compareTo(c)`, that is `Double.compare(a.value, c.value)`, over reals. */
  function CompareTo(a: IndexValuePair, c: IndexValuePair): (r: int)
    ensures r < 0 <==> a.value < c.value
    ensures r == 0 <==> a.value == c.value
    ensures r > 0 <==> a.value > c.value
  {
    if a.value < c.value then -1
    else if a.value > c.value then 1
    else 0
  }

  /** The comparison reads the value only: the index never matters. */
  lemma CompareToIgnoresIndex(a: IndexValuePair, b: IndexValuePair, c: IndexValuePair)
    requires a.value == b.value
    ensures CompareTo(a, c) == CompareTo(b, c) && CompareTo(c, a) == CompareTo(c, b)
  {
  }

  /** sign(a.compareTo(c)) == -sign(c.compareTo(a)). */
  lemma CompareToAntisymmetric(a: IndexValuePair, c: IndexValuePair)
    ensures CompareTo(a, c) == -CompareTo(c, a)
  {
  }

  /** `compareTo(...) <= 0` is a total preorder. */
  lemma CompareToTotalPreorder(a: IndexValuePair, b: IndexValuePair, c: IndexValuePair)
    ensures CompareTo(a, b) <= 0 || CompareTo(b, a) <= 0
    ensures CompareTo(a, b) <= 0 && CompareTo(b, c) <= 0 ==> CompareTo(a, c) <= 0
  {
  }

  /** The pairs are listed in strictly increasing index order. */
  predicate IndexOrdered(ps: seq<IndexValuePair>)
  {
    forall i, j :: 0 <= i < j < |ps| ==> ps[i].index < ps[j].index
  }

  /** Each pair carries its own position as index, as every caller builds them. */
  predicate Indexed(ps: seq<IndexValuePair>)
  {
    forall k :: 0 <= k < |ps| ==> ps[k].index == k
  }

  /**
    `p` precedes `q` after a stable ascending sort of an index-ordered list:
    a smaller value first, and among equal values the smaller index first.
   */
  predicate Before(p: IndexValuePair, q: IndexValuePair)
  {
    p.value < q.value || (p.value == q.value && p.index < q.index)
  }

  /** The order `Collections.sort` leaves an index-ordered list in. */
  predicate Ascending(ps: seq<IndexValuePair>)
  {
    forall i, j :: 0 <= i < j < |ps| ==> Before(ps[i], ps[j])
  }

  /**
    The order sort-then-reverse leaves an index-ordered list in: values
    non-increasing, equal values in decreasing index order.
   */
  predicate Descending(ps: seq<IndexValuePair>)
  {
    forall i, j :: 0 <= i < j < |ps| ==> Before(ps[j], ps[i])
  }

  /** One step of the stable sort: `x`, the pair with the largest index so far, moves left past larger values only. */
  method Insert(s: seq<IndexValuePair>, x: IndexValuePair) returns (r: seq<IndexValuePair>)
    requires Ascending(s)
    requires forall k :: 0 <= k < |s| ==> s[k].index < x.index
    ensures Ascending(r)
    ensures multiset(r) == multiset(s) + multiset{x}
  {
    var j := |s|;
    while j > 0 && CompareTo(x, s[j - 1]) < 0
      invariant 0 <= j <= |s|
      invariant forall k :: j <= k < |s| ==> x.value < s[k].value
    {
      j := j - 1;
    }
    InsertAt(s, x, j);
    r := s[..j] + [x] + s[j..];
    assert s == s[..j] + s[j..];
  }

  /** Placing `x` after the values not above it and before the larger ones keeps the order. */
  lemma InsertAt(s: seq<IndexValuePair>, x: IndexValuePair, j: int)
    requires Ascending(s) && 0 <= j <= |s|
    requires forall k :: 0 <= k < |s| ==> s[k].index < x.index
    requires j > 0 ==> s[j - 1].value <= x.value
    requires forall k :: j <= k < |s| ==> x.value < s[k].value
    ensures Ascending(s[..j] + [x] + s[j..])
  {
    var r := s[..j] + [x] + s[j..];
    forall a, b | 0 <= a < b < |r| ensures Before(r[a], r[b]) {
      if b < j {
        assert r[a] == s[a] && r[b] == s[b];
      } else if b == j {
        assert r[a] == s[a] && r[b] == x;
        assert a < j - 1 ==> Before(s[a], s[j - 1]);
      } else if a < j {
        assert r[a] == s[a] && r[b] == s[b - 1];
      } else if a == j {
        assert r[a] == x && r[b] == s[b - 1];
      } else {
        assert r[a] == s[a - 1] && r[b] == s[b - 1];
      }
    }
  }

  /** `Collections.sort(pairs)`: a stable sort by `CompareTo`. */
  method Sort(ps: seq<IndexValuePair>) returns (r: seq<IndexValuePair>)
    requires IndexOrdered(ps)
    ensures Ascending(r)
    ensures multiset(r) == multiset(ps)
  {
    r := [];
    var i := 0;
    while i < |ps|
      invariant 0 <= i <= |ps|
      invariant Ascending(r)
      invariant multiset(r) == multiset(ps[..i])
      invariant forall k :: 0 <= k < |r| ==> r[k] in ps[..i]
    {
      forall k | 0 <= k < |r| ensures r[k].index < ps[i].index {
        var m :| 0 <= m < i && ps[m] == r[k];
      }
      r := Insert(r, ps[i]);
      assert ps[..i + 1] == ps[..i] + [ps[i]];
      forall k | 0 <= k < |r| ensures r[k] in ps[..i + 1] {
        assert r[k] in multiset(r);
      }
      i := i + 1;
    }
    assert ps[..i] == ps;
  }

  /** `Collections.reverse(list)`. */
  method Reverse(s: seq<IndexValuePair>) returns (r: seq<IndexValuePair>)
    ensures |r| == |s|
    ensures forall k :: 0 <= k < |s| ==> r[k] == s[|s| - 1 - k]
  {
    r := [];
    var i := 0;
    while i < |s|
      invariant 0 <= i <= |s|
      invariant |r| == i
      invariant forall k :: 0 <= k < i ==> r[k] == s[|s| - 1 - k]
    {
      r := r + [s[|s| - 1 - i]];
      i := i + 1;
    }
  }

  /** A reversed list holds the same pairs. */
  lemma {:induction false} ReversePermutes(s: seq<IndexValuePair>, r: seq<IndexValuePair>)
    requires |r| == |s|
    requires forall k :: 0 <= k < |s| ==> r[k] == s[|s| - 1 - k]
    ensures multiset(r) == multiset(s)
  {
    if |s| > 0 {
      var n := |s|;
      assert s == [s[0]] + s[1..];
      assert r == r[..n - 1] + [r[n - 1]];
      ReversePermutes(s[1..], r[..n - 1]);
    }
  }

  /** `Collections.sort(pairs); Collections.reverse(pairs);` as done at each ranking site. */
  method SortThenReverse(ps: seq<IndexValuePair>) returns (r: seq<IndexValuePair>)
    requires IndexOrdered(ps)
    ensures |r| == |ps|
    ensures Descending(r)
    ensures multiset(r) == multiset(ps)
  {
    var sorted := Sort(ps);
    r := Reverse(sorted);
    ReversePermutes(sorted, r);
    assert |r| == |multiset(r)| == |multiset(ps)| == |ps|;
  }

  /** Indexed lists are index-ordered. */
  lemma IndexedIsIndexOrdered(ps: seq<IndexValuePair>)
    requires Indexed(ps)
    ensures IndexOrdered(ps)
  {
  }

  /**
    The ranking is fully determined: two descending lists holding the same
    pairs are equal, so ties never leave the outcome open.
   */
  lemma {:induction false} DescendingUnique(a: seq<IndexValuePair>, b: seq<IndexValuePair>)
    requires Descending(a) && Descending(b)
    requires multiset(a) == multiset(b)
    ensures a == b
    decreases |a|
  {
    assert |a| == |multiset(a)| == |multiset(b)| == |b|;
    if |a| > 0 {
      SameHead(a, b);
      MultisetTail(a);
      MultisetTail(b);
      DescendingUnique(a[1..], b[1..]);
      assert a == [a[0]] + a[1..] && b == [b[0]] + b[1..];
    }
  }

  /** Two non-empty descending lists with the same pairs start with the same pair. */
  lemma SameHead(a: seq<IndexValuePair>, b: seq<IndexValuePair>)
    requires Descending(a) && Descending(b)
    requires multiset(a) == multiset(b) && |a| > 0 && |b| > 0
    ensures a[0] == b[0]
  {
    assert a[0] in multiset(b);
    var j :| 0 <= j < |b| && b[j] == a[0];
    assert b[0] in multiset(a);
    var i :| 0 <= i < |a| && a[i] == b[0];
  }

  lemma MultisetTail(a: seq<IndexValuePair>)
    requires |a| > 0
    ensures multiset(a[1..]) == multiset(a) - multiset{a[0]}
  {
    assert a == [a[0]] + a[1..];
  }

  /** The pairs `(k, values[k])` for every position `k`, as the ranking sites build them. */
  predicate PairsOf(ps: seq<IndexValuePair>, values: seq<real>)
  {
    |ps| == |values| && forall k :: 0 <= k < |ps| ==> ps[k] == IndexValuePair(k, values[k])
  }

  /** The values carried by a list of pairs, in list order. */
  function Values(ps: seq<IndexValuePair>): (r: seq<real>)
    ensures |r| == |ps| && forall t :: 0 <= t < |ps| ==> r[t] == ps[t].value
  {
    seq(|ps|, t requires 0 <= t < |ps| => ps[t].value)
  }

  /** Pairs that carry their own positions are the pairs of their values. */
  lemma ValuesPairs(ps: seq<IndexValuePair>)
    requires Indexed(ps)
    ensures PairsOf(ps, Values(ps)) && IndexOrdered(ps)
  {
  }

  /** The pairs `(i, values[i])`, built in index order. */
  method PairUp(values: seq<real>) returns (pairs: seq<IndexValuePair>)
    ensures PairsOf(pairs, values)
    ensures IndexOrdered(pairs)
  {
    pairs := [];
    for i := 0 to |values|
      invariant PairsOf(pairs, values[..i])
    {
      pairs := pairs + [IndexValuePair(i, values[i])];
    }
    assert values[..|values|] == values;
  }

  /** The indices carried by a list of pairs, in list order. */
  function Indices(ps: seq<IndexValuePair>): (r: seq<int>)
    ensures |r| == |ps| && forall t :: 0 <= t < |ps| ==> r[t] == ps[t].index
  {
    seq(|ps|, t requires 0 <= t < |ps| => ps[t].index)
  }

  /**
    `order` ranks the positions of `values`: it lists each position exactly
    once, higher values first, and equal values with the later position first.
   */
  ghost predicate RankedBy(order: seq<int>, values: seq<real>)
  {
    && |order| == |values|
    && (forall a :: 0 <= a < |order| ==> 0 <= order[a] < |values|)
    && (forall t :: 0 <= t < |values| ==> t in order)
    && NoDup(order)
    && (forall a, b :: 0 <= a < b < |order| ==>
          values[order[a]] > values[order[b]]
          || (values[order[a]] == values[order[b]] && order[a] > order[b]))
  }

  /**
    `order` lists distinct positions of `values`, higher values first and
    equal values with the later position first; unlike `RankedBy`, it need
    not list every position.
   */
  ghost predicate RankedPositions(order: seq<int>, values: seq<real>)
  {
    && (forall a :: 0 <= a < |order| ==> 0 <= order[a] < |values|)
    && NoDup(order)
    && (forall a, b :: 0 <= a < b < |order| ==>
          values[order[a]] > values[order[b]]
          || (values[order[a]] == values[order[b]] && order[a] > order[b]))
  }

  /** Two rankings of the same positions are the same list. */
  lemma {:induction false} RankedPositionsUnique(a: seq<int>, b: seq<int>, values: seq<real>)
    requires RankedPositions(a, values) && RankedPositions(b, values)
    requires Elems(a) == Elems(b)
    ensures a == b
    decreases |a|
  {
    assert |a| > 0 <==> |b| > 0 by {
      if |a| > 0 {
        assert a[0] in Elems(b);
      }
      if |b| > 0 {
        assert b[0] in Elems(a);
      }
    }
    if |a| > 0 {
      SameFirst(a, b, values);
      RankedTail(a, values);
      RankedTail(b, values);
      DropHead(a);
      DropHead(b);
      RankedPositionsUnique(a[1..], b[1..], values);
      assert a == [a[0]] + a[1..] && b == [b[0]] + b[1..];
    }
  }

  /** Two non-empty rankings of the same positions start alike. */
  lemma SameFirst(a: seq<int>, b: seq<int>, values: seq<real>)
    requires RankedPositions(a, values) && RankedPositions(b, values)
    requires Elems(a) == Elems(b) && |a| > 0 && |b| > 0
    ensures a[0] == b[0]
  {
    assert a[0] in Elems(b);
    var j :| 0 <= j < |b| && b[j] == a[0];
    assert b[0] in Elems(a);
    var i :| 0 <= i < |a| && a[i] == b[0];
    assert j == 0;
  }

  /** The tail of a ranking is a ranking. */
  lemma RankedTail(a: seq<int>, values: seq<real>)
    requires RankedPositions(a, values) && |a| > 0
    ensures RankedPositions(a[1..], values)
  {
    assert forall t :: 0 <= t < |a| - 1 ==> a[1..][t] == a[t + 1];
  }

  /** Without its head, a duplicate-free list holds its other elements only. */
  lemma DropHead(a: seq<int>)
    requires NoDup(a) && |a| > 0
    ensures Elems(a[1..]) == Elems(a) - {a[0]}
  {
    forall x | x in a && x != a[0] ensures x in a[1..] {
      var t :| 0 <= t < |a| && a[t] == x;
      assert a[1..][t - 1] == x;
    }
  }

  /** A ranking of all positions is determined by the values: ties never leave it open. */
  lemma RankedByUnique(a: seq<int>, b: seq<int>, values: seq<real>)
    requires RankedBy(a, values) && RankedBy(b, values)
    ensures a == b
  {
    assert Elems(a) == Elems(b) by {
      forall x ensures x in a <==> x in b {
        if x in a {
          var t :| 0 <= t < |a| && a[t] == x;
        }
        if x in b {
          var t :| 0 <= t < |b| && b[t] == x;
        }
      }
    }
    RankedPositionsUnique(a, b, values);
  }

  /** Sort-then-reverse of the pairs of `values` ranks the positions of `values`. */
  lemma DescendingRanks(values: seq<real>, ps: seq<IndexValuePair>, r: seq<IndexValuePair>)
    requires PairsOf(ps, values)
    requires Descending(r) && multiset(r) == multiset(ps)
    ensures forall t :: 0 <= t < |r| ==> 0 <= r[t].index < |ps| && r[t] == ps[r[t].index]
    ensures RankedBy(Indices(r), values)
  {
    assert |r| == |multiset(r)| == |multiset(ps)| == |ps|;
    forall t | 0 <= t < |r| ensures 0 <= r[t].index < |ps| && r[t] == ps[r[t].index] {
      assert r[t] in multiset(ps);
    }
    var order := Indices(r);
    forall k | 0 <= k < |values| ensures k in order {
      assert ps[k] in multiset(r);
      var t :| 0 <= t < |r| && r[t] == ps[k];
      assert order[t] == k;
    }
    forall a, b | 0 <= a < b < |order| ensures order[a] != order[b] {
      assert Before(r[b], r[a]);
    }
  }
}

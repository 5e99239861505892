/**
  The java.lang / java.util operations the summariser and the keyword
  extractor rely on: String.compareTo, Collections.sort on a list of strings,
  Collections.frequency, List.indexOf, Collections.max, and the exceptions
  these calls can raise.
 */
module Collections {

  /** The unchecked exceptions the core can raise through the library. */
  datatype Exception =
    | NoSuchElement      // Collections.max of an empty list
    | IndexOutOfBounds   // List.get past the end of a list

  /** A computation that either returns normally or throws. */
  datatype Result<T> = Ok(value: T) | Err(error: Exception)

  /** No value occurs twice in `s`. */
  predicate NoDup<T(==)>(s: seq<T>)
  {
    forall i, j :: 0 <= i < j < |s| ==> s[i] != s[j]
  }

  /** The elements of a sequence, as a set. */
  function Elems<T>(s: seq<T>): set<T>
  {
    set x | x in s
  }

  /** The indices 0 .. n-1. */
  function Range(n: int): (r: set<int>)
    ensures forall j :: j in r <==> 0 <= j < n
    ensures n >= 0 ==> |r| == n
  {
    if n <= 0 then {} else Range(n - 1) + {n - 1}
  }

  // ---------------------------------------------------------------------
  // String.compareTo: lexicographic on characters, a proper prefix first.
  // ---------------------------------------------------------------------

  /** `a.compareTo(b) < 0`. */
  predicate StringLess(a: string, b: string)
  {
    if |a| == 0 then |b| > 0
    else if |b| == 0 then false
    else if a[0] != b[0] then a[0] < b[0]
    else StringLess(a[1..], b[1..])
  }

  /** `a.compareTo(b) <= 0`. */
  predicate StringLeq(a: string, b: string)
  {
    a == b || StringLess(a, b)
  }

  lemma {:induction false} StringLessIrreflexive(a: string)
    ensures !StringLess(a, a)
  {
    if |a| > 0 {
      StringLessIrreflexive(a[1..]);
    }
  }

  lemma {:induction false} StringLessTransitive(a: string, b: string, c: string)
    requires StringLess(a, b) && StringLess(b, c)
    ensures StringLess(a, c)
  {
    if |a| > 0 && |b| > 0 && |c| > 0 && a[0] == b[0] && b[0] == c[0] {
      StringLessTransitive(a[1..], b[1..], c[1..]);
    }
  }

  /** Two different strings are always ordered one way or the other. */
  lemma {:induction false} StringLessTotal(a: string, b: string)
    requires a != b
    ensures StringLess(a, b) || StringLess(b, a)
  {
    if |a| > 0 && |b| > 0 && a[0] == b[0] {
      assert a == [a[0]] + a[1..] && b == [b[0]] + b[1..];
      StringLessTotal(a[1..], b[1..]);
    }
  }

  lemma StringLessAsymmetric(a: string, b: string)
    requires StringLess(a, b)
    ensures !StringLess(b, a)
  {
    if StringLess(b, a) {
      StringLessTransitive(a, b, a);
      StringLessIrreflexive(a);
    }
  }

  lemma StringLeqTransitive(a: string, b: string, c: string)
    requires StringLeq(a, b) && StringLeq(b, c)
    ensures StringLeq(a, c)
  {
    if a != b && b != c {
      StringLessTransitive(a, b, c);
    }
  }

  /** Ascending in the order of String.compareTo (duplicates allowed). */
  predicate Sorted(ws: seq<string>)
  {
    forall i, j :: 0 <= i < j < |ws| ==> StringLeq(ws[i], ws[j])
  }

  /** Strictly ascending: sorted and free of duplicates. */
  predicate StrictlySorted(ws: seq<string>)
  {
    forall i, j :: 0 <= i < j < |ws| ==> StringLess(ws[i], ws[j])
  }

  lemma StrictlySortedNoDup(ws: seq<string>)
    requires StrictlySorted(ws)
    ensures NoDup(ws)
  {
    forall i, j | 0 <= i < j < |ws| ensures ws[i] != ws[j] {
      StringLessIrreflexive(ws[i]);
    }
  }

  lemma SortedNoDupIsStrict(ws: seq<string>)
    requires Sorted(ws) && NoDup(ws)
    ensures StrictlySorted(ws)
  {
    forall i, j | 0 <= i < j < |ws| ensures StringLess(ws[i], ws[j]) {
      assert ws[i] != ws[j];
    }
  }

  /**
    A strictly ascending sequence is determined by its elements: two of them
    holding the same strings are equal.
   */
  lemma {:induction false} StrictlySortedUnique(a: seq<string>, b: seq<string>)
    requires StrictlySorted(a) && StrictlySorted(b)
    requires forall w :: w in a <==> w in b
    ensures a == b
    decreases |a|
  {
    if |a| > 0 {
      assert a[0] in b;
    }
    if |b| > 0 {
      assert b[0] in a;
    }
    if |a| > 0 && |b| > 0 {
      if a[0] != b[0] {
        assert a[0] in b;
        var j :| 0 <= j < |b| && b[j] == a[0];
        assert b[0] in a;
        var i :| 0 <= i < |a| && a[i] == b[0];
        assert StringLess(b[0], a[0]) && StringLess(a[0], b[0]);
        StringLessAsymmetric(a[0], b[0]);
      }
      forall w ensures w in a[1..] <==> w in b[1..] {
        if w in a[1..] {
          var i :| 1 <= i < |a| && a[i] == w;
          StringLessAsymmetric(a[0], w);
          assert w in b && w != b[0];
        }
        if w in b[1..] {
          var j :| 1 <= j < |b| && b[j] == w;
          StringLessAsymmetric(b[0], w);
          assert w in a && w != a[0];
        }
      }
      StrictlySortedUnique(a[1..], b[1..]);
      assert a == [a[0]] + a[1..] && b == [b[0]] + b[1..];
    }
  }

  /** One step of the sort: put `x` into place in an ascending list. */
  method InsertString(s: seq<string>, x: string) returns (r: seq<string>)
    requires Sorted(s)
    ensures Sorted(r)
    ensures multiset(r) == multiset(s) + multiset{x}
  {
    var j := |s|;
    while j > 0 && StringLess(x, s[j - 1])
      invariant 0 <= j <= |s|
      invariant forall k :: j <= k < |s| ==> StringLess(x, s[k])
    {
      j := j - 1;
    }
    if j > 0 {
      if x != s[j - 1] {
        StringLessTotal(x, s[j - 1]);
      }
      forall a | 0 <= a < j ensures StringLeq(s[a], x) {
        StringLeqTransitive(s[a], s[j - 1], x);
      }
    }
    r := s[..j] + [x] + s[j..];
    assert s == s[..j] + s[j..];
  }

  /** `Collections.sort` on a list of strings. */
  method SortStrings(ws: seq<string>) returns (r: seq<string>)
    ensures Sorted(r)
    ensures multiset(r) == multiset(ws)
  {
    r := [];
    var i := 0;
    while i < |ws|
      invariant 0 <= i <= |ws|
      invariant Sorted(r)
      invariant multiset(r) == multiset(ws[..i])
    {
      r := InsertString(r, ws[i]);
      assert ws[..i + 1] == ws[..i] + [ws[i]];
      i := i + 1;
    }
    assert ws[..i] == ws;
  }

  /** Sorting a duplicate-free list yields the strictly ascending list of its elements. */
  lemma SortedPermutationStrict(ws: seq<string>, r: seq<string>)
    requires NoDup(ws) && Sorted(r) && multiset(r) == multiset(ws)
    ensures StrictlySorted(r) && Elems(r) == Elems(ws) && |r| == |ws|
  {
    assert |r| == |multiset(r)| == |multiset(ws)| == |ws|;
    forall w ensures w in r <==> w in ws {
      assert w in r <==> w in multiset(r);
      assert w in ws <==> w in multiset(ws);
    }
    forall i, j | 0 <= i < j < |r| ensures r[i] != r[j] {
      if r[i] == r[j] {
        var w := r[i];
        assert multiset(r)[w] >= 2 by {
          assert r == r[..j] + [r[j]] + r[j + 1..];
          assert r[i] in r[..j];
        }
        NoDupMultiplicity(ws, w);
      }
    }
    SortedNoDupIsStrict(r);
  }

  lemma {:induction false} NoDupMultiplicity<T>(s: seq<T>, x: T)
    requires NoDup(s)
    ensures multiset(s)[x] <= 1
  {
    if |s| > 0 {
      assert s == [s[0]] + s[1..];
      assert NoDup(s[1..]) by {
        forall i, j | 0 <= i < j < |s[1..]| ensures s[1..][i] != s[1..][j] {
          assert s[1..][i] == s[i + 1] && s[1..][j] == s[j + 1];
        }
      }
      NoDupMultiplicity(s[1..], x);
      if x == s[0] {
        assert x !in s[1..];
      }
    }
  }

  /** Two duplicate-free lists with the same elements are permutations of each other. */
  lemma NoDupSameMultiset<T>(a: seq<T>, b: seq<T>)
    requires NoDup(a) && NoDup(b) && Elems(a) == Elems(b)
    ensures multiset(a) == multiset(b)
  {
    forall x ensures multiset(a)[x] == multiset(b)[x] {
      NoDupMultiplicity(a, x);
      NoDupMultiplicity(b, x);
      assert x in a <==> x in Elems(a);
      assert x in b <==> x in Elems(b);
    }
  }

  // ---------------------------------------------------------------------
  // Collections.sort on a list of integers
  // ---------------------------------------------------------------------

  /** Non-decreasing. */
  predicate SortedInts(s: seq<int>)
  {
    forall i, j :: 0 <= i < j < |s| ==> s[i] <= s[j]
  }

  /** Strictly increasing. */
  predicate IncreasingInts(s: seq<int>)
  {
    forall i, j :: 0 <= i < j < |s| ==> s[i] < s[j]
  }

  /** One step of the sort: put `x` into place in a non-decreasing list. */
  method InsertInt(s: seq<int>, x: int) returns (r: seq<int>)
    requires SortedInts(s)
    ensures SortedInts(r)
    ensures multiset(r) == multiset(s) + multiset{x}
  {
    var j := |s|;
    while j > 0 && x < s[j - 1]
      invariant 0 <= j <= |s|
      invariant forall k :: j <= k < |s| ==> x < s[k]
    {
      j := j - 1;
    }
    InsertIntAt(s, x, j);
    r := s[..j] + [x] + s[j..];
    assert s == s[..j] + s[j..];
  }

  lemma InsertIntAt(s: seq<int>, x: int, j: int)
    requires SortedInts(s) && 0 <= j <= |s|
    requires j > 0 ==> s[j - 1] <= x
    requires forall k :: j <= k < |s| ==> x < s[k]
    ensures SortedInts(s[..j] + [x] + s[j..])
  {
    var r := s[..j] + [x] + s[j..];
    forall a, b | 0 <= a < b < |r| ensures r[a] <= r[b] {
      if b < j {
        assert r[a] == s[a] && r[b] == s[b];
      } else if b == j {
        assert r[a] == s[a] && r[b] == x;
        assert a < j - 1 ==> s[a] <= s[j - 1];
      } else if a < j {
        assert r[a] == s[a] && r[b] == s[b - 1];
      } else if a == j {
        assert r[a] == x && r[b] == s[b - 1];
      } else {
        assert r[a] == s[a - 1] && r[b] == s[b - 1];
      }
    }
  }

  /** `Collections.sort` on a list of integers. */
  method SortInts(xs: seq<int>) returns (r: seq<int>)
    ensures SortedInts(r)
    ensures multiset(r) == multiset(xs)
  {
    r := [];
    var i := 0;
    while i < |xs|
      invariant 0 <= i <= |xs|
      invariant SortedInts(r)
      invariant multiset(r) == multiset(xs[..i])
    {
      r := InsertInt(r, xs[i]);
      assert xs[..i + 1] == xs[..i] + [xs[i]];
      i := i + 1;
    }
    assert xs[..i] == xs;
  }

  /** Sorting a duplicate-free list of integers yields a strictly increasing list of the same elements. */
  lemma SortedIntsPermutation(xs: seq<int>, r: seq<int>)
    requires NoDup(xs) && SortedInts(r) && multiset(r) == multiset(xs)
    ensures IncreasingInts(r) && Elems(r) == Elems(xs) && |r| == |xs|
  {
    assert |r| == |multiset(r)| == |multiset(xs)| == |xs|;
    forall w ensures w in r <==> w in xs {
      assert w in r <==> w in multiset(r);
      assert w in xs <==> w in multiset(xs);
    }
    forall i, j | 0 <= i < j < |r| ensures r[i] < r[j] {
      if r[i] == r[j] {
        var w := r[i];
        assert multiset(r)[w] >= 2 by {
          assert r == r[..j] + [r[j]] + r[j + 1..];
          assert r[i] in r[..j];
        }
        NoDupMultiplicity(xs, w);
      }
    }
  }

  // ---------------------------------------------------------------------
  // Collections.frequency, List.indexOf, Collections.max
  // ---------------------------------------------------------------------

  /** `Collections.frequency(s, w)`: how often `w` occurs in `s`. */
  function Count<T(==)>(s: seq<T>, w: T): (n: nat)
    ensures n <= |s|
    ensures n > 0 <==> w in s
  {
    if |s| == 0 then 0
    else Count(s[..|s| - 1], w) + (if s[|s| - 1] == w then 1 else 0)
  }

  /** `s.indexOf(w)`: the first position of `w` in `s`, or -1. */
  function IndexOf<T(==)>(s: seq<T>, w: T): (r: int)
    ensures -1 <= r < |s|
    ensures r == -1 <==> w !in s
    ensures 0 <= r ==> s[r] == w && w !in s[..r]
  {
    if |s| == 0 then -1
    else if s[0] == w then 0
    else
      var k := IndexOf(s[1..], w);
      if k == -1 then -1
      else assert s[..k + 1] == [s[0]] + s[1..][..k]; k + 1
  }

  /** `Collections.max(xs)`: throws on an empty list. */
  method Max(xs: seq<real>) returns (r: Result<real>)
    ensures r.Ok? <==> |xs| > 0
    ensures r.Ok? ==> r.value in xs && forall x :: x in xs ==> x <= r.value
  {
    if |xs| == 0 {
      return Err(NoSuchElement);
    }
    var m := xs[0];
    var i := 1;
    while i < |xs|
      invariant 1 <= i <= |xs|
      invariant m in xs[..i]
      invariant forall k :: 0 <= k < i ==> xs[k] <= m
    {
      if xs[i] > m {
        m := xs[i];
      }
      i := i + 1;
    }
    assert xs[..i] == xs;
    return Ok(m);
  }
}

/**
 * Sequence operations behind Laravel's collection pipeline: `filter`
 * (keeping relative order) and `unique` (dropping repeats, keeping the
 * first occurrence of each value).
 */
module Sequences {

  /** No value appears twice. */
  ghost predicate NoDuplicates<T>(s: seq<T>)
  {
    forall i, j :: 0 <= i < j < |s| ==> s[i] != s[j]
  }

  /** Position of the first occurrence of `x` in `s`. */
  function FirstIndex<T(==)>(s: seq<T>, x: T): (k: nat)
    requires x in s
    ensures k < |s| && s[k] == x && x !in s[..k]
  {
    if s[0] == x then 0
    else
      var k := FirstIndex(s[1..], x);
      assert s[..k + 1] == [s[0]] + s[1..][..k];
      k + 1
  }

  /** The first occurrence is the only position holding `x` with no `x` before it. */
  lemma FirstIndexUnique<T>(s: seq<T>, x: T, k: nat)
    requires k < |s| && s[k] == x && x !in s[..k]
    ensures FirstIndex(s, x) == k
  {
    var f := FirstIndex(s, x);
    assert forall j :: 0 <= j < k ==> s[..k][j] == s[j];
    assert forall j :: 0 <= j < f ==> s[..f][j] == s[j];
  }

  /** Extending a sequence does not move the first occurrence of a value already present. */
  lemma FirstIndexOfPrefix<T>(s: seq<T>, n: nat, y: T)
    requires n <= |s| && y in s[..n]
    ensures FirstIndex(s, y) == FirstIndex(s[..n], y)
  {
    var k := FirstIndex(s[..n], y);
    assert s[..n][..k] == s[..k];
    FirstIndexUnique(s, y, k);
  }

  /** `collect($s)->filter($f)->values()`: the elements satisfying `f`, in their original order. */
  function Filter<T>(f: T -> bool, s: seq<T>): (r: seq<T>)
    ensures |r| <= |s|
    ensures forall x :: x in r ==> x in s && f(x)
    ensures forall x :: x in s && f(x) ==> x in r
  {
    if |s| == 0 then []
    else if f(s[0]) then [s[0]] + Filter(f, s[1..])
    else Filter(f, s[1..])
  }

  /** Nothing is kept when no element passes. */
  lemma {:induction false} FilterNone<T>(f: T -> bool, s: seq<T>)
    requires forall x :: x in s ==> !f(x)
    ensures Filter(f, s) == []
    decreases |s|
  {
    if |s| > 0 {
      assert s[0] in s;
      FilterNone(f, s[1..]);
    }
  }

  /** Behind a different head value, the first index moves up by one. */
  lemma FirstIndexBehindHead<T>(h: T, t: seq<T>, z: T)
    requires z in t && z != h
    ensures FirstIndex([h] + t, z) == FirstIndex(t, z) + 1
  {
    assert ([h] + t)[1..] == t;
  }

  /** An element the filter rejects can be dropped before filtering. */
  lemma FilterSkips<T>(f: T -> bool, a: seq<T>, c: T, b: seq<T>)
    requires !f(c)
    ensures Filter(f, a + [c] + b) == Filter(f, a + b)
  {
    FilterConcat(f, a + [c], b);
    FilterConcat(f, a, [c]);
    FilterConcat(f, a, b);
    assert Filter(f, [c]) == [];
  }

  /** Filtering distributes over concatenation. */
  lemma {:induction false} FilterConcat<T>(f: T -> bool, a: seq<T>, b: seq<T>)
    ensures Filter(f, a + b) == Filter(f, a) + Filter(f, b)
    decreases |a|
  {
    if |a| == 0 {
      assert a + b == b;
    } else {
      assert (a + b)[1..] == a[1..] + b;
      FilterConcat(f, a[1..], b);
    }
  }

  /** Filtering keeps the relative order of the elements it keeps. */
  lemma {:induction false} FilterKeepsOrder<T>(f: T -> bool, s: seq<T>, x: T, y: T)
    requires x in Filter(f, s) && y in Filter(f, s)
    requires FirstIndex(Filter(f, s), x) < FirstIndex(Filter(f, s), y)
    ensures FirstIndex(s, x) < FirstIndex(s, y)
    decreases |s|
  {
    var r := Filter(f, s);
    var t := s[1..];
    var rt := Filter(f, t);
    if f(s[0]) {
      assert r == [s[0]] + rt;
      assert r[1..] == rt;
    } else {
      assert r == rt;
    }
    if s[0] != x && s[0] != y {
      assert FirstIndex(rt, x) < FirstIndex(rt, y);
      FilterKeepsOrder(f, t, x, y);
    }
  }

  /**
   * `collect($s)->unique()->values()`: each value once, at the position of
   * its first occurrence in `s`.
   */
  function Unique<T(==)>(s: seq<T>): (r: seq<T>)
    ensures NoDuplicates(r)
    ensures forall x :: x in r ==> x in s
    ensures forall x :: x in s ==> x in r
    ensures forall i, j :: 0 <= i < j < |r| ==> FirstIndex(s, r[i]) < FirstIndex(s, r[j])
    decreases |s|
  {
    if |s| == 0 then []
    else
      var n := |s| - 1;
      var p := Unique(s[..n]);
      var x := s[n];
      FirstIndexOfPrefixAll(s, n);
      if x in p then p
      else
        FirstIndexUnique(s, x, n);
        p + [x]
  }

  /** `FirstIndexOfPrefix` for every value of the prefix at once. */
  lemma FirstIndexOfPrefixAll<T>(s: seq<T>, n: nat)
    requires n <= |s|
    ensures forall y :: y in s[..n] ==> FirstIndex(s, y) == FirstIndex(s[..n], y)
  {
    forall y | y in s[..n] {
      FirstIndexOfPrefix(s, n, y);
    }
  }

  /** Two distinct values are already unique. */
  lemma UniqueOfDistinctPair<T>(a: T, b: T)
    requires a != b
    ensures Unique([a, b]) == [a, b]
  {
    assert [a, b][..1] == [a];
    assert [a][..0] == [];
    assert Unique([a][..0]) == [];
    assert Unique([a]) == [a];
  }

  /** The first value of `s` stays in front. */
  lemma UniqueKeepsHead<T>(s: seq<T>)
    requires |s| > 0
    ensures |Unique(s)| > 0 && Unique(s)[0] == s[0]
  {
    var r := Unique(s);
    assert s[0] in r;
    var k :| 0 <= k < |r| && r[k] == s[0];
    FirstIndexUnique(s, s[0], 0);
    var first := FirstIndex(s, r[0]);
    var atK := FirstIndex(s, r[k]);
    assert atK == 0;
  }

  /**
   * `Unique` is the only sequence with its three properties: same values,
   * no repeats, first-occurrence order.
   */
  lemma UniqueIsDetermined<T>(s: seq<T>, t: seq<T>)
    requires NoDuplicates(t)
    requires forall x :: x in t <==> x in s
    requires forall i, j :: 0 <= i < j < |t| ==> FirstIndex(s, t[i]) < FirstIndex(s, t[j])
    ensures t == Unique(s)
  {
    var r := Unique(s);
    // both sequences list the values of `s` by increasing first index,
    // so position by position they agree
    SameElementsSameLength(r, t);
    forall i | 0 <= i < |t|
      ensures t[i] == r[i]
    {
      SortedByKeyAgree(s, r, t, i);
    }
  }

  /** Two duplicate-free sequences over the same values have the same length. */
  lemma SameElementsSameLength<T>(a: seq<T>, b: seq<T>)
    requires NoDuplicates(a) && NoDuplicates(b)
    requires forall x :: x in a <==> x in b
    ensures |a| == |b|
  {
    var sa := set x | x in a;
    var sb := set x | x in b;
    assert sa == sb;
    DistinctCard(a);
    DistinctCard(b);
  }

  /** A duplicate-free sequence has as many values as positions. */
  lemma {:induction false} DistinctCard<T>(a: seq<T>)
    requires NoDuplicates(a)
    ensures |set x | x in a| == |a|
    decreases |a|
  {
    if |a| > 0 {
      var t := a[1..];
      DistinctCard(t);
      assert (set x | x in a) == (set x | x in t) + {a[0]};
      assert a[0] !in t;
    }
  }

  /** The values of `a` that occur in `s` before `x` first does. */
  ghost function Before<T>(s: seq<T>, a: seq<T>, x: T): set<T>
    requires x in s
  {
    set y | y in a && y in s && FirstIndex(s, y) < FirstIndex(s, x)
  }

  /**
   * In a duplicate-free sequence ordered by first index in `s`, exactly `i`
   * values come before position `i` in that order.
   */
  lemma Rank<T>(s: seq<T>, a: seq<T>, i: nat)
    requires NoDuplicates(a) && i < |a|
    requires forall x :: x in a ==> x in s
    requires forall p, q :: 0 <= p < q < |a| ==> FirstIndex(s, a[p]) < FirstIndex(s, a[q])
    ensures |Before(s, a, a[i])| == i
  {
    var below := Before(s, a, a[i]);
    var pre := a[..i];
    forall x | x in below
      ensures x in pre
    {
      var j :| 0 <= j < |a| && a[j] == x;
      assert FirstIndex(s, a[j]) < FirstIndex(s, a[i]);
      assert pre[j] == x;
    }
    forall x | x in pre
      ensures x in below
    {
      var j :| 0 <= j < i && pre[j] == x;
      assert a[j] == x;
    }
    assert below == set x | x in pre;
    assert NoDuplicates(pre) && |pre| == i;
    DistinctCard(pre);
  }

  /**
   * Two duplicate-free sequences over the same values, both increasing in
   * first index, agree at every position.
   */
  lemma SortedByKeyAgree<T>(s: seq<T>, a: seq<T>, b: seq<T>, i: nat)
    requires NoDuplicates(a) && NoDuplicates(b) && |a| == |b| && i < |a|
    requires forall x :: x in a <==> x in s
    requires forall x :: x in b <==> x in s
    requires forall i, j :: 0 <= i < j < |a| ==> FirstIndex(s, a[i]) < FirstIndex(s, a[j])
    requires forall i, j :: 0 <= i < j < |b| ==> FirstIndex(s, b[i]) < FirstIndex(s, b[j])
    ensures a[i] == b[i]
  {
    var m := FirstIndex(b, a[i]);
    Rank(s, a, i);
    Rank(s, b, m);
    assert Before(s, a, a[i]) == Before(s, b, a[i]);
  }
}

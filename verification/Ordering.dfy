/** The order in which Python sorts strings, and what sorting node ids amounts to. */
module Ordering {
  import opened Collections
  import opened Graphs

  /** Lexicographic comparison by code point. */
  predicate Leq(a: string, b: string) {
    a == "" || (b != "" && (a[0] < b[0] || (a[0] == b[0] && Leq(a[1..], b[1..]))))
  }

  lemma {:induction false} LeqTotal(a: string, b: string)
    ensures Leq(a, b) || Leq(b, a)
  {
    if a != "" && b != "" {
      LeqTotal(a[1..], b[1..]);
    }
  }

  lemma {:induction false} LeqAntisymmetric(a: string, b: string)
    requires Leq(a, b) && Leq(b, a)
    ensures a == b
  {
    if a != "" {
      LeqAntisymmetric(a[1..], b[1..]);
      assert a == [a[0]] + a[1..] && b == [b[0]] + b[1..];
    }
  }

  lemma {:induction false} LeqTransitive(a: string, b: string, c: string)
    requires Leq(a, b) && Leq(b, c)
    ensures Leq(a, c)
  {
    if a != "" && a[0] == b[0] == c[0] {
      LeqTransitive(a[1..], b[1..], c[1..]);
    }
  }

  /** `a` ends before it differs from `b`, or has the smaller character where they first differ, at position `k`. */
  ghost predicate SmallerAt(a: string, b: string, k: nat) {
    && k <= |a| && k <= |b| && a[..k] == b[..k]
    && (k < |a| ==> k < |b| && a[k] < b[k])
  }

  /** The order of Python strings: by code point at the first difference, and a prefix comes first. */
  ghost predicate ByCodePoint(a: string, b: string) {
    exists k: nat :: SmallerAt(a, b, k)
  }

  lemma {:induction false} LeqByCodePoint(a: string, b: string)
    ensures Leq(a, b) <==> ByCodePoint(a, b)
  {
    if a == "" {
      assert SmallerAt(a, b, 0);
    } else if b != "" {
      LeqByCodePoint(a[1..], b[1..]);
      if exists k: nat :: SmallerAt(a[1..], b[1..], k) && a[0] == b[0] {
        var k: nat :| SmallerAt(a[1..], b[1..], k) && a[0] == b[0];
        LongerSmaller(a, b, k);
      }
      if exists k: nat :: SmallerAt(a, b, k) {
        var k: nat :| SmallerAt(a, b, k);
        if k > 0 {
          ShorterSmaller(a, b, k);
        }
      }
      if a[0] < b[0] {
        assert SmallerAt(a, b, 0);
      }
    }
  }

  lemma {:induction false} LongerSmaller(a: string, b: string, k: nat)
    requires a != "" && b != "" && a[0] == b[0] && SmallerAt(a[1..], b[1..], k)
    ensures SmallerAt(a, b, k + 1)
  {
    assert a[..k + 1] == [a[0]] + a[1..][..k] && b[..k + 1] == [b[0]] + b[1..][..k];
  }

  lemma {:induction false} ShorterSmaller(a: string, b: string, k: nat)
    requires k > 0 && SmallerAt(a, b, k)
    ensures a[0] == b[0] && SmallerAt(a[1..], b[1..], k - 1)
  {
    assert a[..k][0] == b[..k][0];
    assert a[1..][..k - 1] == a[..k][1..] && b[1..][..k - 1] == b[..k][1..];
  }

  predicate Before(x: Id, y: Id) {
    Leq(x.name, y.name)
  }

  predicate IsSorted(s: seq<Id>) {
    forall i, j {:trigger Before(s[i], s[j])} :: 0 <= i < j < |s| ==> Before(s[i], s[j])
  }

  function InsertSorted(x: Id, s: seq<Id>): (r: seq<Id>)
    requires IsSorted(s)
    ensures IsSorted(r)
    ensures multiset(r) == multiset{x} + multiset(s)
  {
    if s == [] then [x]
    else if Before(x, s[0]) then
      SortedCons(x, s);
      [x] + s
    else
      var r := InsertSorted(x, s[1..]);
      LeqTotal(x.name, s[0].name);
      InsertedAfter(x, s, r);
      assert s == [s[0]] + s[1..];
      [s[0]] + r
  }

  lemma {:induction false} SortedCons(x: Id, s: seq<Id>)
    requires IsSorted(s) && (s != [] ==> Before(x, s[0]))
    ensures IsSorted([x] + s)
  {
    forall j | 0 <= j < |s|
      ensures Before(x, s[j])
    {
      if j > 0 {
        assert Before(s[0], s[j]);
        LeqTransitive(x.name, s[0].name, s[j].name);
      }
    }
    forall i, j | 0 <= i < j < |[x] + s|
      ensures Before(([x] + s)[i], ([x] + s)[j])
    {
      if i > 0 { assert Before(s[i - 1], s[j - 1]); }
    }
  }

  lemma {:induction false} InsertedAfter(x: Id, s: seq<Id>, r: seq<Id>)
    requires s != [] && IsSorted(s) && IsSorted(r) && Before(s[0], x)
    requires multiset(r) == multiset{x} + multiset(s[1..])
    ensures IsSorted([s[0]] + r)
  {
    if r != [] {
      assert r[0] in multiset(r);
      if r[0] != x {
        assert r[0] in s[1..];
        var j :| 1 <= j < |s| && s[j] == r[0];
        assert Before(s[0], s[j]);
      }
    }
    SortedCons(s[0], r);
  }

  /** Python's `sorted` on a list of node ids. */
  function Sorted(s: seq<Id>): (r: seq<Id>)
    ensures IsSorted(r)
    ensures multiset(r) == multiset(s)
  {
    if s == [] then []
    else
      assert s == [s[0]] + s[1..];
      InsertSorted(s[0], Sorted(s[1..]))
  }

  lemma {:induction false} SortedKeepsElems(s: seq<Id>)
    ensures Elems(Sorted(s)) == Elems(s)
    ensures Distinct(s) ==> Distinct(Sorted(s))
  {
    var r := Sorted(s);
    forall x ensures x in r <==> x in s {
      assert x in r <==> x in multiset(r);
      assert x in s <==> x in multiset(s);
    }
    assert |r| == |multiset(r)| == |multiset(s)| == |s|;
    DistinctCard(s);
    DistinctCard(r);
  }

  /** Two sorted listings of a set start with the same id. */
  lemma {:induction false} SortedHead(a: seq<Id>, b: seq<Id>)
    requires IsSorted(a) && IsSorted(b) && a != [] && b != []
    requires a[0] in b && b[0] in a
    ensures a[0] == b[0]
  {
    var i := IndexOf(b, a[0]);
    var j := IndexOf(a, b[0]);
    if i > 0 && j > 0 {
      assert Before(b[0], b[i]) && Before(a[0], a[j]);
      LeqAntisymmetric(a[0].name, b[0].name);
    }
  }

  lemma {:induction false} TailElems(s: seq<Id>)
    requires Distinct(s) && s != []
    ensures Distinct(s[1..]) && Elems(s[1..]) == Elems(s) - {s[0]}
  {
    RemoveOne(s, 0);
    assert s[..0] + s[1..] == s[1..];
  }

  lemma HeadTail(s: seq<Id>)
    requires s != []
    ensures s == [s[0]] + s[1..] && s[0] in Elems(s)
  {
  }

  /** A set of ids has one sorted listing. */
  lemma {:induction false} SortedListingUnique(a: seq<Id>, b: seq<Id>)
    requires IsSorted(a) && IsSorted(b) && Distinct(a) && Distinct(b) && Elems(a) == Elems(b)
    ensures a == b
  {
    DistinctCard(a);
    DistinctCard(b);
    if a != [] {
      HeadTail(a);
      HeadTail(b);
      SortedHead(a, b);
      hide IsSorted, Distinct, Elems;
      TailElems(a);
      TailElems(b);
      SortedTail(a);
      SortedTail(b);
      SortedListingUnique(a[1..], b[1..]);
    }
  }

  lemma {:induction false} SortedTail(a: seq<Id>)
    requires IsSorted(a) && a != []
    ensures IsSorted(a[1..])
  {
    forall i, j | 0 <= i < j < |a[1..]|
      ensures Before(a[1..][i], a[1..][j])
    {
      assert Before(a[i + 1], a[j + 1]);
    }
  }

  lemma {:induction false} SortedByCodePoint(s: seq<Id>)
    ensures IsSorted(s) <==> forall i, j :: 0 <= i < j < |s| ==> ByCodePoint(s[i].name, s[j].name)
  {
    hide Leq, ByCodePoint;
    forall i, j | 0 <= i < j < |s| ensures Before(s[i], s[j]) <==> ByCodePoint(s[i].name, s[j].name) {
      LeqByCodePoint(s[i].name, s[j].name);
    }
  }
}

/** Sequence, set and map facts shared by the other modules. */
module Collections {
  datatype Option<+T> = None | Some(value: T)

  datatype Result<+T, +E> = Success(value: T) | Failure(error: E)

  predicate Distinct<T(==)>(s: seq<T>) {
    forall i, j :: 0 <= i < j < |s| ==> s[i] != s[j]
  }

  function Elems<T>(s: seq<T>): set<T> {
    set x | x in s
  }

  lemma ElemsConcat<T>(a: seq<T>, b: seq<T>)
    ensures Elems(a + b) == Elems(a) + Elems(b)
  {
  }

  lemma {:induction false} DistinctConcat<T>(a: seq<T>, b: seq<T>)
    requires Distinct(a) && Distinct(b)
    requires Elems(a) !! Elems(b)
    ensures Distinct(a + b)
  {
    forall i, j | 0 <= i < j < |a + b|
      ensures (a + b)[i] != (a + b)[j]
    {
      if i < |a| <= j {
        assert a[i] in Elems(a) && b[j - |a|] in Elems(b);
      }
    }
  }

  lemma {:induction false} DistinctParts<T>(a: seq<T>, b: seq<T>)
    requires Distinct(a + b)
    ensures Distinct(a) && Distinct(b) && forall x :: x in a ==> x !in b
  {
    assert forall i :: 0 <= i < |a| ==> (a + b)[i] == a[i];
    assert forall i :: 0 <= i < |b| ==> (a + b)[|a| + i] == b[i];
  }

  lemma {:induction false} SubsetCard<T>(a: set<T>, b: set<T>)
    requires a <= b
    ensures |a| <= |b|
    ensures |a| == |b| ==> a == b
  {
    assert b == a + (b - a);
    assert a !! (b - a);
    assert |b| == |a| + |b - a|;
  }

  /** A sequence has as many different elements as positions exactly when none repeats. */
  lemma {:induction false} DistinctCard<T>(s: seq<T>)
    ensures |Elems(s)| <= |s|
    ensures Distinct(s) <==> |Elems(s)| == |s|
  {
    if s != [] {
      var rest := s[1..];
      DistinctCard(rest);
      assert s == [s[0]] + rest;
      assert Elems(s) == {s[0]} + Elems(rest);
      if s[0] in rest {
        assert Elems(s) == Elems(rest);
        var j :| 0 <= j < |rest| && rest[j] == s[0];
        assert s[0] == s[j + 1];
      } else {
        assert |Elems(s)| == 1 + |Elems(rest)|;
        if Distinct(rest) {
          assert Distinct([s[0]] + rest) by {
            DistinctConcat([s[0]], rest);
          }
        } else {
          var i, j :| 0 <= i < j < |rest| && rest[i] == rest[j];
          assert s[i + 1] == s[j + 1];
        }
      }
    }
  }

  lemma {:induction false} DistinctSnoc<T>(s: seq<T>, x: T)
    requires Distinct(s) && x !in s
    ensures Distinct(s + [x]) && Elems(s + [x]) == Elems(s) + {x}
  {
  }

  lemma {:induction false} IndexOfDistinct<T>(s: seq<T>, i: nat)
    requires Distinct(s) && i < |s|
    ensures IndexOf(s, s[i]) == i
  {
  }

  /** Position of `x` in `s`. */
  function IndexOf<T(==)>(s: seq<T>, x: T): (i: nat)
    requires x in s
    ensures i < |s| && s[i] == x && x !in s[..i]
  {
    if s[0] == x then 0 else 1 + IndexOf(s[1..], x)
  }

  lemma {:induction false} IndexOfLeast<T>(s: seq<T>, x: T, j: nat)
    requires j < |s| && s[j] == x
    ensures IndexOf(s, x) <= j
  {
    if j > 0 && s[0] != x {
      IndexOfLeast(s[1..], x, j - 1);
    }
  }

  /** Sum of the weights of the listed keys. */
  function SumOver<T>(keys: seq<T>, w: map<T, nat>): nat
    requires forall x :: x in keys ==> x in w
  {
    if keys == [] then 0 else w[keys[0]] + SumOver(keys[1..], w)
  }

  lemma {:induction false} SumOverSame<T>(keys: seq<T>, w: map<T, nat>, v: map<T, nat>)
    requires forall x :: x in keys ==> x in w && x in v && w[x] == v[x]
    ensures SumOver(keys, w) == SumOver(keys, v)
  {
    if keys != [] {
      SumOverSame(keys[1..], w, v);
    }
  }

  /** Changing one weight changes the sum by the difference. */
  lemma {:induction false} SumOverUpdate<T>(keys: seq<T>, w: map<T, nat>, k: T, x: nat)
    requires Distinct(keys) && k in keys
    requires forall y :: y in keys ==> y in w
    ensures SumOver(keys, w[k := x]) + w[k] == SumOver(keys, w) + x
  {
    if keys[0] == k {
      assert k !in keys[1..];
      SumOverSame(keys[1..], w, w[k := x]);
    } else {
      SumOverUpdate(keys[1..], w, k, x);
    }
  }

  lemma {:induction false} SumOverMono<T>(keys: seq<T>, w: map<T, nat>, v: map<T, nat>)
    requires forall x :: x in keys ==> x in w && x in v && w[x] <= v[x]
    ensures SumOver(keys, w) <= SumOver(keys, v)
  {
    if keys != [] {
      SumOverMono(keys[1..], w, v);
    }
  }

  lemma {:induction false} SumOverAtLeast<T>(keys: seq<T>, w: map<T, nat>, k: T)
    requires (forall x :: x in keys ==> x in w) && k in keys
    ensures SumOver(keys, w) >= w[k]
  {
    if keys[0] != k {
      SumOverAtLeast(keys[1..], w, k);
    }
  }

  /** The same weight for some of the keys and none for the others. */
  lemma {:induction false} SumOverSome<T>(keys: seq<T>, w: map<T, nat>, some: set<T>, c: nat)
    requires Distinct(keys) && some <= Elems(keys)
    requires forall x :: x in keys ==> x in w && w[x] == if x in some then c else 0
    ensures SumOver(keys, w) == c * |some|
  {
    if keys != [] {
      var k, rest := keys[0], keys[1..];
      assert Distinct(rest) && forall x :: x in keys <==> x == k || x in rest;
      assert k !in rest;
      hide Distinct;
      SumOverSome(rest, w, some - {k}, c);
      hide Elems;
      TakenOut(some, k, c);
    }
  }

  lemma {:induction false} TakenOut<T>(some: set<T>, k: T, c: nat)
    ensures c * |some| == (if k in some then c else 0) + c * |some - {k}|
  {
    assert |some| == |some - {k}| + if k in some then 1 else 0;
  }

  /** One strictly smaller weight makes the sum strictly smaller. */
  lemma {:induction false} SumOverStrict<T>(keys: seq<T>, w: map<T, nat>, v: map<T, nat>, k: T)
    requires forall x :: x in keys ==> x in w && x in v && w[x] <= v[x]
    requires k in keys && w[k] < v[k]
    ensures SumOver(keys, w) < SumOver(keys, v)
  {
    if keys[0] == k {
      SumOverMono(keys[1..], w, v);
    } else {
      SumOverStrict(keys[1..], w, v, k);
    }
  }

  /** Taking one occurrence out of a sequence without repetitions. */
  lemma {:induction false} RemoveOne<T>(s: seq<T>, i: nat)
    requires Distinct(s) && i < |s|
    ensures Distinct(s[..i] + s[i + 1..])
    ensures Elems(s[..i] + s[i + 1..]) == Elems(s) - {s[i]}
  {
    var r := s[..i] + s[i + 1..];
    assert forall k :: 0 <= k < |r| ==> r[k] == if k < i then s[k] else s[k + 1];
    assert s == s[..i] + [s[i]] + s[i + 1..];
  }

  /** The images of the elements, in order. */
  function Mapped<A, B>(s: seq<A>, f: A -> B): (r: seq<B>)
    ensures |r| == |s| && forall i :: 0 <= i < |s| ==> r[i] == f(s[i])
  {
    seq(|s|, i requires 0 <= i < |s| => f(s[i]))
  }
}

/** The bounded layer cache: an ordered dictionary that evicts its least recently used key. */
module LayerCache {
  import opened Collections

  datatype Url = Url(text: string)

  /** An ordered dictionary: keys from least to most recently used. */
  datatype Cache<V> = Cache(order: seq<Url>, items: map<Url, V>) {
    ghost predicate IsDict() {
      Distinct(order) && Elems(order) == items.Keys
    }
  }

  function Without(s: seq<Url>, k: Url): (r: seq<Url>)
    ensures forall x :: x in r <==> x in s && x != k
    ensures |r| <= |s|
  {
    if s == [] then []
    else
      assert s == s[..|s| - 1] + [s[|s| - 1]];
      Without(s[..|s| - 1], k) + if s[|s| - 1] == k then [] else [s[|s| - 1]]
  }

  function MoveToEnd(s: seq<Url>, k: Url): seq<Url> {
    Without(s, k) + [k]
  }

  function Lookup<V>(c: Cache<V>, k: Url): (Cache<V>, Option<V>) {
    if k in c.items then (c.(order := MoveToEnd(c.order, k)), Some(c.items[k])) else (c, None)
  }

  /** `popitem` on an empty dictionary raises `KeyError`: that is the failure, and it needs a size below 1. */
  function Store<V>(c: Cache<V>, size: int, k: Url, v: V): Result<Cache<V>, ()> {
    if k in c.items then Success(Cache(MoveToEnd(c.order, k), c.items[k := v]))
    else if |c.order| < size then Success(Cache(c.order + [k], c.items[k := v]))
    else if c.order == [] then Failure(())
    else Success(Cache(c.order[1..] + [k], (c.items - {c.order[0]})[k := v]))
  }

  class BoundedLayerCache<V> {
    const size: int
    var order: seq<Url>
    var items: map<Url, V>

    ghost function View(): Cache<V>
      reads this
    {
      Cache(order, items)
    }

    constructor (size: int)
      ensures this.size == size && View() == Cache([], map[])
    {
      this.size, order, items := size, [], map[];
    }

    method Get(url: Url) returns (layer: Option<V>)
      modifies this
      ensures (View(), layer) == Lookup(old(View()), url)
    {
      layer := None;
      if url in items {
        order := MoveToEnd(order, url);
        layer := Some(items[url]);
      }
    }

    /** `raised` stands for the `KeyError`; nothing has been changed then. */
    method Put(url: Url, layer: V) returns (raised: bool)
      modifies this
      ensures raised <==> url !in old(items) && old(order) == [] && size < 1
      ensures raised <==> Store(old(View()), size, url, layer).Failure?
      ensures View() == if raised then old(View()) else Store(old(View()), size, url, layer).value
    {
      raised := false;
      if url in items {
        order := MoveToEnd(order, url);
        items := items[url := layer];
        return;
      }
      if |order| >= size {
        if order == [] {
          return true;
        }
        items := items - {order[0]};
        order := order[1..];
      }
      order := order + [url];
      items := items[url := layer];
    }

    method Clear()
      modifies this
      ensures View() == Cache([], map[])
    {
      order, items := [], map[];
    }

    /** Look the layer up and create it on a miss; the `KeyError` of the store is passed on. */
    method GetFeatureLayer(url: Url, created: V) returns (layer: Result<V, ()>)
      modifies this
      ensures View() == Access(old(View()), size, url, created)
      ensures layer.Failure? <==> url !in old(items) && old(order) == [] && size < 1
      ensures layer.Success? ==> layer.value == if url in old(items) then old(items)[url] else created
      ensures layer.Success? ==> url in items && items[url] == layer.value && order != [] && order[|order| - 1] == url
      ensures url in old(items) ==> items == old(items)
    {
      var cached := Get(url);
      if cached.Some? {
        return Success(cached.value);
      }
      var raised := Put(url, created);
      layer := if raised then Failure(()) else Success(created);
    }
  }

  /** The get-else-put access pattern. */
  function Access<V>(c: Cache<V>, size: int, k: Url, v: V): Cache<V> {
    var (c1, hit) := Lookup(c, k);
    if hit.Some? || Store(c1, size, k, v).Failure? then c1 else Store(c1, size, k, v).value
  }

  // ---- Recency ----------------------------------------------------------------------------

  /** The different keys of a log, ordered by their last occurrence. */
  function Recency(log: seq<Url>): (r: seq<Url>)
    ensures Distinct(r) && forall k :: k in r <==> k in log
  {
    if log == [] then []
    else
      assert log == log[..|log| - 1] + [log[|log| - 1]];
      WithoutDistinct(Recency(log[..|log| - 1]), log[|log| - 1]);
      MoveToEnd(Recency(log[..|log| - 1]), log[|log| - 1])
  }

  lemma {:induction false} WithoutDistinct(s: seq<Url>, k: Url)
    requires Distinct(s)
    ensures Distinct(Without(s, k)) && k !in Without(s, k)
  {
    if s != [] {
      var last := |s| - 1;
      WithoutDistinct(s[..last], k);
      assert s[last] !in s[..last];
    }
  }

  /** Position of the last occurrence. */
  function LastIndex(log: seq<Url>, k: Url): (i: nat)
    requires k in log
    ensures i < |log| && log[i] == k && k !in log[i + 1..]
  {
    if log[|log| - 1] == k then |log| - 1
    else
      var i := LastIndex(log[..|log| - 1], k);
      assert log[i + 1..] == log[..|log| - 1][i + 1..] + [log[|log| - 1]];
      i
  }

  lemma {:induction false} LastIndexSnoc(log: seq<Url>, x: Url, k: Url)
    requires k in log
    ensures LastIndex(log + [x], k) == if x == k then |log| else LastIndex(log, k)
  {
    assert (log + [x])[..|log|] == log;
  }

  lemma {:induction false} WithoutKeepsOrder(s: seq<Url>, k: Url, i: nat, j: nat)
    requires i < j < |Without(s, k)|
    ensures exists a, b :: 0 <= a < b < |s| && s[a] == Without(s, k)[i] && s[b] == Without(s, k)[j]
  {
    var last := |s| - 1;
    var w := Without(s[..last], k);
    if j < |w| {
      WithoutKeepsOrder(s[..last], k, i, j);
      var a, b :| 0 <= a < b < last && s[..last][a] == w[i] && s[..last][b] == w[j];
      assert s[a] == Without(s, k)[i] && s[b] == Without(s, k)[j];
    } else {
      assert w[i] in w;
      var a := IndexOf(s[..last], w[i]);
      assert s[a] == Without(s, k)[i] && s[last] == Without(s, k)[j];
    }
  }

  /** Later in the recency list means touched later. */
  lemma {:induction false} RecencyOrder(log: seq<Url>, i: nat, j: nat)
    requires i < j < |Recency(log)|
    ensures Recency(log)[i] in log && Recency(log)[j] in log
    ensures LastIndex(log, Recency(log)[i]) < LastIndex(log, Recency(log)[j])
  {
    var last := |log| - 1;
    var before, x := log[..last], log[last];
    var prior := Recency(before);
    var w := Without(prior, x);
    assert log == before + [x];
    assert Recency(log) == w + [x];
    hide Recency, Without, LastIndex, Distinct;
    assert w[i] in w;
    LastIndexSnoc(before, x, w[i]);
    if j < |w| {
      assert w[j] in w;
      LastIndexSnoc(before, x, w[j]);
      WithoutKeepsOrder(prior, x, i, j);
      var a, b :| 0 <= a < b < |prior| && prior[a] == w[i] && prior[b] == w[j];
      RecencyOrder(before, a, b);
    }
  }

  function Suffix(s: seq<Url>, n: nat): seq<Url> {
    if |s| <= n then s else s[|s| - n..]
  }

  // ---- Refinement -------------------------------------------------------------------------

  datatype Op<V> = GetOp(k: Url) | PutOp(k: Url, v: V) | ClearOp

  function Apply<V>(c: Cache<V>, size: int, op: Op<V>): Cache<V>
    requires size >= 1
  {
    match op
    case GetOp(k) => Lookup(c, k).0
    case PutOp(k, v) => Store(c, size, k, v).value
    case ClearOp => Cache([], map[])
  }

  function Run<V>(size: int, ops: seq<Op<V>>): Cache<V>
    requires size >= 1
  {
    if ops == [] then Cache([], map[]) else Apply(Run(size, ops[..|ops| - 1]), size, ops[|ops| - 1])
  }

  /** The keys touched since the last clear: every put, and every get of one of the `size` most recent keys. */
  function TouchLog<V>(size: nat, ops: seq<Op<V>>): seq<Url> {
    if ops == [] then []
    else
      var log := TouchLog(size, ops[..|ops| - 1]);
      match ops[|ops| - 1]
      case ClearOp => []
      case PutOp(k, _) => log + [k]
      case GetOp(k) => if k in Suffix(Recency(log), size) then log + [k] else log
  }

  /** The value last put under a key. */
  function LastPut<V>(ops: seq<Op<V>>, k: Url): Option<V> {
    if ops == [] then None
    else
      match ops[|ops| - 1]
      case PutOp(j, v) => if j == k then Some(v) else LastPut(ops[..|ops| - 1], k)
      case _ => LastPut(ops[..|ops| - 1], k)
  }

  lemma {:induction false} WithoutAbsent(s: seq<Url>, k: Url)
    requires k !in s
    ensures Without(s, k) == s
  {
    if s != [] {
      WithoutAbsent(s[..|s| - 1], k);
    }
  }

  lemma {:induction false} WithoutConcat(a: seq<Url>, b: seq<Url>, k: Url)
    ensures Without(a + b, k) == Without(a, k) + Without(b, k)
  {
    if b == [] {
      assert a + b == a;
    } else {
      var last := |b| - 1;
      assert (a + b)[..|a + b| - 1] == a + b[..last];
      WithoutConcat(a, b[..last], k);
    }
  }

  lemma {:induction false} WithoutShrinks(s: seq<Url>, k: Url)
    requires Distinct(s) && k in s
    ensures |Without(s, k)| == |s| - 1
  {
    var last := |s| - 1;
    if s[last] == k {
      WithoutAbsent(s[..last], k);
    } else {
      WithoutShrinks(s[..last], k);
    }
  }

  lemma {:induction false} SuffixConcat(a: seq<Url>, b: seq<Url>, n: nat)
    ensures |b| >= n ==> Suffix(a + b, n) == Suffix(b, n)
  {
    if |b| >= n {
      assert (a + b)[|a + b| - n..] == b[|b| - n..];
    }
  }

  lemma {:induction false} SplitRecent(s: seq<Url>, n: nat)
    ensures var recent := Suffix(s, n); var older := s[..|s| - |recent|];
            s == older + recent && (|recent| < n ==> older == []) && |recent| <= n
  {
  }

  lemma {:induction false} MovedRecent(older: seq<Url>, recent: seq<Url>, n: nat, k: Url)
    requires Distinct(older + recent) && k in recent && |recent| <= n && (|recent| < n ==> older == [])
    ensures Suffix(MoveToEnd(older + recent, k), n) == MoveToEnd(recent, k)
  {
    DistinctParts(older, recent);
    assert k !in older;
    hide Without, Distinct;
    WithoutConcat(older, recent, k);
    WithoutAbsent(older, k);
    WithoutShrinks(recent, k);
    ConcatAssoc(older, Without(recent, k), [k]);
    SuffixConcat(older, MoveToEnd(recent, k), n);
    if |recent| < n {
      EmptyConcat(MoveToEnd(recent, k));
    }
  }

  lemma ConcatAssoc(a: seq<Url>, b: seq<Url>, c: seq<Url>)
    ensures a + b + c == a + (b + c)
  {
  }

  lemma EmptyConcat(a: seq<Url>)
    ensures [] + a == a
  {
  }

  lemma {:induction false} MovedOlder(older: seq<Url>, recent: seq<Url>, n: nat, k: Url)
    requires n >= 1 && k !in recent && |recent| <= n && (|recent| < n ==> older == [])
    ensures Suffix(MoveToEnd(older + recent, k), n) == if |recent| < n then recent + [k] else recent[1..] + [k]
  {
    WithoutConcat(older, recent, k);
    WithoutAbsent(recent, k);
    ConcatAssoc(Without(older, k), recent, [k]);
    SuffixConcat(Without(older, k), recent + [k], n);
    hide Without;
  }

  /** What touching a key does to the most recent keys. */
  lemma {:induction false} SuffixOfMoved(s: seq<Url>, n: nat, k: Url)
    requires Distinct(s) && n >= 1
    ensures Suffix(MoveToEnd(s, k), n) ==
      if k in Suffix(s, n) then MoveToEnd(Suffix(s, n), k)
      else if |Suffix(s, n)| < n then Suffix(s, n) + [k]
      else Suffix(s, n)[1..] + [k]
  {
    hide MoveToEnd, Suffix;
    var recent := Suffix(s, n);
    SplitRecent(s, n);
    var older := s[..|s| - |recent|];
    if k in recent {
      MovedRecent(older, recent, n, k);
    } else {
      MovedOlder(older, recent, n, k);
    }
  }

  lemma {:induction false} DropHead<V>(c: Cache<V>, k: Url, v: V)
    requires c.IsDict() && c.order != [] && k !in c.items
    ensures Cache(c.order[1..] + [k], (c.items - {c.order[0]})[k := v]).IsDict()
  {
    var rest := c.order[1..];
    assert c.order == [c.order[0]] + rest;
    assert k !in Elems(c.order);
    DistinctSnoc(rest, k);
  }

  lemma {:induction false} ApplyKeepsDict<V>(c: Cache<V>, size: int, op: Op<V>)
    requires size >= 1 && c.IsDict()
    ensures Apply(c, size, op).IsDict()
  {
    match op {
      case ClearOp =>
      case GetOp(k) =>
        if k in c.items { MovedIsDict(c, k, c.items[k]); assert c.items[k := c.items[k]] == c.items; }
      case PutOp(k, v) =>
        if k in c.items {
          MovedIsDict(c, k, v);
        } else if |c.order| < size {
          assert k !in Elems(c.order);
          DistinctSnoc(c.order, k);
        } else {
          DropHead(c, k, v);
        }
    }
  }

  lemma {:induction false} MovedIsDict<V>(c: Cache<V>, k: Url, v: V)
    requires c.IsDict() && k in c.items
    ensures Cache(MoveToEnd(c.order, k), c.items[k := v]).IsDict()
  {
    assert k in Elems(c.order);
    WithoutDistinct(c.order, k);
    DistinctSnoc(Without(c.order, k), k);
    assert Elems(MoveToEnd(c.order, k)) == Elems(c.order);
  }

  /** One operation keeps the order of the cache in step with the log. */
  lemma {:induction false} ApplyKeepsOrder<V>(c: Cache<V>, size: nat, ops: seq<Op<V>>)
    requires size >= 1 && ops != [] && c.IsDict()
    requires c.order == Suffix(Recency(TouchLog(size, ops[..|ops| - 1])), size)
    ensures Apply(c, size, ops[|ops| - 1]).order == Suffix(Recency(TouchLog(size, ops)), size)
  {
    hide Suffix, MoveToEnd;
    var op, log := ops[|ops| - 1], TouchLog(size, ops[..|ops| - 1]);
    assert forall k :: k in c.order <==> k in Elems(c.order);
    match op {
      case ClearOp => EmptySuffix(size);
      case GetOp(k) =>
        assert (log + [k])[..|log|] == log;
        SuffixOfMoved(Recency(log), size, k);
      case PutOp(k, _) =>
        assert (log + [k])[..|log|] == log;
        RecentFits(Recency(log), size);
        SuffixOfMoved(Recency(log), size, k);
    }
  }

  lemma EmptySuffix(n: nat)
    ensures Suffix([], n) == []
  {
  }

  lemma RecentFits(s: seq<Url>, n: nat)
    ensures |Suffix(s, n)| <= n
  {
  }

  lemma {:induction false} ApplyKeepsValues<V>(c: Cache<V>, size: nat, ops: seq<Op<V>>)
    requires size >= 1 && ops != []
    requires forall k :: k in c.items ==> Some(c.items[k]) == LastPut(ops[..|ops| - 1], k)
    ensures var t := Apply(c, size, ops[|ops| - 1]);
            forall k :: k in t.items ==> Some(t.items[k]) == LastPut(ops, k)
  {
    hide MoveToEnd;
  }

  /** The cache holds, in order, the `size` most recently touched keys since the last clear, with their last values. */
  lemma {:induction false} CacheIsRecency<V>(size: nat, ops: seq<Op<V>>)
    requires size >= 1
    ensures Run(size, ops).IsDict()
    ensures Run(size, ops).order == Suffix(Recency(TouchLog(size, ops)), size)
    ensures forall k :: k in Run(size, ops).items ==> Some(Run(size, ops).items[k]) == LastPut(ops, k)
  {
    if ops != [] {
      hide Recency, Suffix, MoveToEnd, TouchLog;
      var before, op := ops[..|ops| - 1], ops[|ops| - 1];
      CacheIsRecency(size, before);
      ApplyKeepsDict(Run(size, before), size, op);
      ApplyKeepsOrder(Run(size, before), size, ops);
      ApplyKeepsValues(Run(size, before), size, ops);
      hide Apply, LastPut;
    }
  }

  // ---- Inclusion --------------------------------------------------------------------------

  /** The cache after looking up and loading the keys of `ks` one after the other. */
  function Accesses<V>(size: int, ks: seq<Url>, load: Url -> V): Cache<V>
    requires size >= 1
  {
    if ks == [] then Cache([], map[])
    else Access(Accesses(size, ks[..|ks| - 1], load), size, ks[|ks| - 1], load(ks[|ks| - 1]))
  }

  /** One access moves its key to the recent end. */
  lemma {:induction false} AccessMoves<V>(c: Cache<V>, size: nat, recency: seq<Url>, k: Url, v: V)
    requires size >= 1 && c.IsDict() && Distinct(recency) && c.order == Suffix(recency, size)
    ensures Access(c, size, k, v).IsDict() && Access(c, size, k, v).order == Suffix(MoveToEnd(recency, k), size)
  {
    hide MoveToEnd, Suffix, Distinct;
    ApplyKeepsDict(c, size, GetOp(k));
    ApplyKeepsDict(c, size, PutOp(k, v));
    SuffixOfMoved(recency, size, k);
    RecentFits(recency, size);
    assert k in c.order <==> k in Elems(c.order);
  }

  lemma {:induction false} AccessesAreRecency<V>(size: nat, ks: seq<Url>, load: Url -> V)
    requires size >= 1
    ensures Accesses(size, ks, load).IsDict()
    ensures Accesses(size, ks, load).order == Suffix(Recency(ks), size)
  {
    if ks != [] {
      var before, k := ks[..|ks| - 1], ks[|ks| - 1];
      AccessesAreRecency(size, before, load);
      AccessMoves(Accesses(size, before, load), size, Recency(before), k, load(k));
    }
  }

  /** A smaller cache always holds a subset of a larger one, its most recent part. */
  lemma {:induction false} SmallerCacheIncluded<V>(small: nat, large: nat, ks: seq<Url>, load: Url -> V)
    requires 1 <= small <= large
    ensures Accesses(small, ks, load).items.Keys <= Accesses(large, ks, load).items.Keys
    ensures Accesses(small, ks, load).order == Suffix(Accesses(large, ks, load).order, small)
  {
    AccessesAreRecency(small, ks, load);
    AccessesAreRecency(large, ks, load);
    var a, b := Accesses(small, ks, load), Accesses(large, ks, load);
    assert a.order == Suffix(b.order, small);
    assert forall k :: k in a.order ==> k in b.order;
    assert Elems(a.order) <= Elems(b.order);
  }
}

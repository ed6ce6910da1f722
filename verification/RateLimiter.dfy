/** The per-client sliding-window rate limiter. */
module RateLimiter {
  import opened Windows

  type Store = map<string, seq<real>>

  const WINDOW := 60.0

  datatype Request = Request(client: string, now: real)

  /** The client's timestamps that are still in the window; an unknown client has none. */
  function Pruned(store: Store, r: Request): seq<real> {
    if r.client in store then After(store[r.client], r.now - WINDOW) else []
  }

  predicate Accepts(limit: int, store: Store, r: Request) {
    |Pruned(store, r)| < limit
  }

  function Next(limit: int, store: Store, r: Request): Store {
    store[r.client := Pruned(store, r) + (if Accepts(limit, store, r) then [r.now] else [])]
  }

  class Limiter {
    const limit: int
    var store: Store

    constructor (limit: int)
      ensures store == map[] && this.limit == limit
    {
      this.limit := limit;
      store := map[];
    }

    method Handle(r: Request) returns (accepted: bool)
      modifies this
      ensures accepted == Accepts(limit, old(store), r)
      ensures store == Next(limit, old(store), r)
    {
      var windowStart := r.now - WINDOW;
      if r.client !in store {
        store := store[r.client := []];
      }
      var times, kept := store[r.client], [];
      for i := 0 to |times|
        invariant r.client in store && store == old(store)[r.client := times]
        invariant kept == After(times[..i], windowStart)
      {
        assert times[..i + 1] == times[..i] + [times[i]];
        AfterSnoc(times[..i], times[i], windowStart);
        if times[i] > windowStart {
          kept := kept + [times[i]];
        }
      }
      assert times[..|times|] == times;
      store := store[r.client := kept];
      assert kept == Pruned(old(store), r);
      assert kept + [] == kept;
      if |kept| >= limit {
        assert store == Next(limit, old(store), r);
        return false;
      }
      store := store[r.client := kept + [r.now]];
      accepted := true;
    }
  }

  // ---- Runs -----------------------------------------------------------------------------

  function Run(limit: int, rs: seq<Request>): Store {
    if rs == [] then map[] else Next(limit, Run(limit, rs[..|rs| - 1]), rs[|rs| - 1])
  }

  /** Every request of `client` that was let through, never pruned. */
  function Accepted(limit: int, rs: seq<Request>, client: string): seq<real> {
    if rs == [] then []
    else
      var before, r := rs[..|rs| - 1], rs[|rs| - 1];
      Accepted(limit, before, client)
      + (if r.client == client && Accepts(limit, Run(limit, before), r) then [r.now] else [])
  }

  /** The clock never goes back. */
  ghost predicate Timed(rs: seq<Request>) {
    forall i, j :: 0 <= i < j < |rs| ==> rs[i].now <= rs[j].now
  }

  /** How many of the timestamps lie in the half-open window (start, end]. */
  function InWindow(ts: seq<real>, start: real, end: real): int {
    |After(ts, start)| - |After(ts, end)|
  }

  /** How many of the timestamps `t` satisfy `start < t <= end`, counted one by one. */
  function CountBetween(ts: seq<real>, start: real, end: real): nat {
    if ts == [] then 0
    else (if start < ts[0] <= end then 1 else 0) + CountBetween(ts[1..], start, end)
  }

  lemma {:induction false} InWindowCounts(ts: seq<real>, start: real, end: real)
    requires start <= end
    ensures InWindow(ts, start, end) == CountBetween(ts, start, end)
  {
    if ts != [] {
      InWindowCounts(ts[1..], start, end);
      AfterConcat([ts[0]], ts[1..], start);
      AfterConcat([ts[0]], ts[1..], end);
      assert [ts[0]] + ts[1..] == ts;
      assert After([ts[0]], start) == if ts[0] > start then [ts[0]] else [];
      assert After([ts[0]], end) == if ts[0] > end then [ts[0]] else [];
    }
  }

  ghost predicate Past(ts: seq<real>, now: real) {
    forall i :: 0 <= i < |ts| ==> ts[i] <= now
  }

  lemma {:induction false} NoneLate(ts: seq<real>, cut: real)
    requires Past(ts, cut)
    ensures After(ts, cut) == []
  {
    if ts != [] {
      NoneLate(ts[1..], cut);
    }
  }

  lemma {:induction false} AcceptedInThePast(limit: int, rs: seq<Request>, client: string, now: real)
    requires Timed(rs)
    requires rs != [] ==> rs[|rs| - 1].now <= now
    ensures Past(Accepted(limit, rs, client), now)
  {
    if rs != [] {
      var before, r := rs[..|rs| - 1], rs[|rs| - 1];
      if before != [] {
        assert rs[|before| - 1].now <= r.now;
      }
      AcceptedInThePast(limit, before, client, now);
    }
  }

  /** What the store holds for a client, nothing if it does not know the client. */
  function Stored(store: Store, client: string): seq<real> {
    if client in store then store[client] else []
  }

  /** One request keeps the stored list and the full log in agreement on the windows that are still open. */
  lemma {:induction false} PruneOnce(stored: seq<real>, log: seq<real>, now: real, cut: real, ok: bool)
    requires now - WINDOW <= cut && After(stored, cut) == After(log, cut)
    ensures var more := if ok then [now] else [];
            After(After(stored, now - WINDOW) + more, cut) == After(log + more, cut)
  {
    var more := if ok then [now] else [];
    AfterAfter(stored, now - WINDOW, cut);
    AfterConcat(After(stored, now - WINDOW), more, cut);
    AfterConcat(log, more, cut);
  }

  lemma NothingAppended(log: seq<real>)
    ensures log + [] == log
  {
  }

  lemma {:induction false} TimedSplit(rs: seq<Request>, r: Request)
    requires Timed(rs + [r])
    ensures Timed(rs)
    ensures rs != [] ==> rs[|rs| - 1].now <= r.now
  {
    var all := rs + [r];
    assert forall i :: 0 <= i < |rs| ==> all[i] == rs[i];
    assert all[|rs|] == r;
  }

  lemma {:induction false} AcceptedSnoc(limit: int, rs: seq<Request>, r: Request, client: string)
    ensures Accepted(limit, rs + [r], client) ==
            if r.client == client && Accepts(limit, Run(limit, rs), r) then Accepted(limit, rs, client) + [r.now]
            else Accepted(limit, rs, client)
  {
    hide Accepts;
    assert (rs + [r])[..|rs|] == rs;
    NothingAppended(Accepted(limit, rs, client));
  }

  lemma {:induction false} StoredSnoc(limit: int, rs: seq<Request>, r: Request, client: string)
    ensures Stored(Run(limit, rs + [r]), client) ==
            if r.client == client
            then After(Stored(Run(limit, rs), client), r.now - WINDOW)
                 + (if Accepts(limit, Run(limit, rs), r) then [r.now] else [])
            else Stored(Run(limit, rs), client)
  {
    hide Accepts;
    assert (rs + [r])[..|rs|] == rs;
  }

  lemma NothingStored(limit: int, client: string)
    ensures Stored(Run(limit, []), client) == [] && Accepted(limit, [], client) == []
  {
  }

  /** The pruned store and the full log of accepted requests agree on every window that is still open. */
  lemma {:induction false} PruningLosesNothing(limit: int, rs: seq<Request>, client: string, cut: real)
    requires Timed(rs)
    requires rs != [] ==> rs[|rs| - 1].now - WINDOW <= cut
    ensures After(Stored(Run(limit, rs), client), cut) == After(Accepted(limit, rs, client), cut)
  {
    hide After, Accepts, Timed, Stored, Run, Accepted;
    if rs == [] {
      NothingStored(limit, client);
    } else {
      var before, r := rs[..|rs| - 1], rs[|rs| - 1];
      assert before + [r] == rs;
      TimedSplit(before, r);
      PruningLosesNothing(limit, before, client, cut);
      StoredSnoc(limit, before, r, client);
      AcceptedSnoc(limit, before, r, client);
      if r.client == client {
        PruneOnce(Stored(Run(limit, before), client), Accepted(limit, before, client), r.now, cut,
                  Accepts(limit, Run(limit, before), r));
        NothingAppended(Accepted(limit, before, client));
      }
    }
  }

  /** A request is let through exactly when fewer than `limit` of its client were accepted in the last 60 seconds. */
  lemma {:induction false} AcceptsExactly(limit: int, rs: seq<Request>, r: Request)
    requires Timed(rs + [r])
    ensures Accepts(limit, Run(limit, rs), r) <==>
            CountBetween(Accepted(limit, rs, r.client), r.now - 60.0, r.now) < limit
  {
    hide Accepted, CountBetween, Timed, Past, Run;
    var log := Accepted(limit, rs, r.client);
    TimedSplit(rs, r);
    PruningLosesNothing(limit, rs, r.client, r.now - WINDOW);
    AcceptedInThePast(limit, rs, r.client, r.now);
    NoneLate(log, r.now);
    InWindowCounts(log, r.now - 60.0, r.now);
  }

  /** Accepting a request keeps every window at or under the limit. */
  lemma {:induction false} OneMoreFits(limit: int, log: seq<real>, now: real, start: real)
    requires Past(log, now)
    requires CountBetween(log, now - 60.0, now) < limit
    requires CountBetween(log, start, start + 60.0) <= limit
    ensures CountBetween(log + [now], start, start + 60.0) <= limit
  {
    InWindowCounts(log, start, start + 60.0);
    InWindowCounts(log + [now], start, start + 60.0);
    AfterSnoc(log, now, start);
    AfterSnoc(log, now, start + 60.0);
    if now <= start + 60.0 {
      NoneLate(log, start + 60.0);
      NoneLate(log, now);
      InWindowCounts(log, now - 60.0, now);
      AfterShorter(log, now - 60.0, start);
    }
  }

  lemma NothingAccepted(limit: int, client: string, start: real)
    ensures CountBetween(Accepted(limit, [], client), start, start + 60.0) == 0
  {
  }

  /** No window of 60 seconds, wherever it starts, holds more than `limit` accepted requests of a client. */
  lemma {:induction false} NoWindowOverflows(limit: int, rs: seq<Request>, client: string, start: real)
    requires limit >= 0 && Timed(rs)
    ensures CountBetween(Accepted(limit, rs, client), start, start + 60.0) <= limit
  {
    if rs != [] {
      var before, r := rs[..|rs| - 1], rs[|rs| - 1];
      assert before + [r] == rs;
      hide Accepted, CountBetween, Accepts, Timed, Past, Run;
      TimedSplit(before, r);
      NoWindowOverflows(limit, before, client, start);
      AcceptedSnoc(limit, before, r, client);
      AcceptedInThePast(limit, before, client, r.now);
      if r.client == client && Accepts(limit, Run(limit, before), r) {
        AcceptsExactly(limit, before, r);
        OneMoreFits(limit, Accepted(limit, before, client), r.now, start);
      }
    } else {
      NothingAccepted(limit, client, start);
    }
  }
}

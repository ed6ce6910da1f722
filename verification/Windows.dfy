/** Rolling time windows over lists of timestamps, as the circuit breaker and the rate limiter keep them. */
module Windows {
  /** The timestamps later than `cut`, in order. */
  function After(ts: seq<real>, cut: real): seq<real> {
    if ts == [] then []
    else (if ts[0] > cut then [ts[0]] else []) + After(ts[1..], cut)
  }

  lemma {:induction false} AfterConcat(a: seq<real>, b: seq<real>, cut: real)
    ensures After(a + b, cut) == After(a, cut) + After(b, cut)
  {
    if a == [] {
      assert a + b == b;
    } else {
      assert (a + b)[1..] == a[1..] + b;
      AfterConcat(a[1..], b, cut);
    }
  }

  lemma {:induction false} AfterSnoc(a: seq<real>, t: real, cut: real)
    ensures After(a + [t], cut) == After(a, cut) + (if t > cut then [t] else [])
  {
    AfterConcat(a, [t], cut);
  }

  /** Trimming early does not change what a later trim keeps. */
  lemma {:induction false} AfterAfter(ts: seq<real>, early: real, late: real)
    requires early <= late
    ensures After(After(ts, early), late) == After(ts, late)
  {
    if ts != [] {
      AfterAfter(ts[1..], early, late);
      var rest := After(ts[1..], early);
      AfterConcat(if ts[0] > early then [ts[0]] else [], rest, late);
    }
  }

  /** Two lists that agree on a window agree on every later one. */
  lemma {:induction false} AgreeLater(a: seq<real>, b: seq<real>, early: real, late: real)
    requires early <= late && After(a, early) == After(b, early)
    ensures After(a, late) == After(b, late)
  {
    AfterAfter(a, early, late);
    AfterAfter(b, early, late);
  }

  lemma {:induction false} AfterShorter(ts: seq<real>, early: real, late: real)
    requires early <= late
    ensures |After(ts, late)| <= |After(ts, early)| <= |ts|
  {
    if ts != [] {
      AfterShorter(ts[1..], early, late);
    }
  }
}

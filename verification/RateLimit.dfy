/** The fixed-window counter of repositories/redis/repository.py.

    A key's counter disappears when its time to live is over; `INCR` then starts a new one, and `EXPIRE NX` gives it
    its only deadline.  Times are milliseconds. */
module RateLimit {

  type Time = int
  type Key = nat

  datatype Option<T> = None | Some(value: T)

  /** A stored counter; one without a deadline stays. */
  datatype Counter = Counter(count: int, expiresAt: Option<Time>)

  function Live(c: Option<Counter>, now: Time): Option<Counter> {
    if c.Some? && c.value.expiresAt.Some? && c.value.expiresAt.value <= now then None else c
  }

  /** `INCR`, then `EXPIRE` of `window` seconds if there is no deadline yet, in one transaction. */
  function Bump(c: Option<Counter>, window: nat, now: Time): (k: Counter)
    ensures k.expiresAt.Some?
  {
    var live := Live(c, now);
    var count := if live.Some? then live.value.count + 1 else 1;
    Counter(count, if live.Some? && live.value.expiresAt.Some? then live.value.expiresAt
                   else Some(now + 1000 * window))
  }

  /** What the caller hears: nothing, or how many seconds to wait; `ttl` is what the server says of the key by then. */
  function Answer(count: int, limit: int, window: int, ttl: int): Option<int> {
    if count > limit then Some(if ttl > 0 then ttl else window) else None
  }

  /** Whole seconds left, rounded; -2 for a key that is gone. */
  function Ttl(c: Option<Counter>, now: Time): int {
    var live := Live(c, now);
    if live.None? then -2
    else if live.value.expiresAt.None? then -1
    else (live.value.expiresAt.value - now + 500) / 1000
  }

  /** The store, updated in place. */
  class Store {
    var counters: map<Key, Counter>

    constructor ()
      ensures counters == map[]
    {
      counters := map[];
    }

    function At(key: Key): Option<Counter>
      reads this
    {
      if key in counters then Some(counters[key]) else None
    }

    method Incr(key: Key, now: Time) returns (count: int)
      modifies this
      ensures var live := Live(old(At(key)), now);
        && count == (if live.Some? then live.value.count + 1 else 1)
        && counters == old(counters)[key := Counter(count, if live.Some? then live.value.expiresAt else None)]
    {
      var live := Live(At(key), now);
      count := if live.Some? then live.value.count + 1 else 1;
      counters := counters[key := Counter(count, if live.Some? then live.value.expiresAt else None)];
    }

    method ExpireIfNone(key: Key, seconds: nat, now: Time)
      requires key in counters
      modifies this
      ensures counters == old(counters)[key := Counter(old(counters)[key].count,
        if old(counters)[key].expiresAt.Some? then old(counters)[key].expiresAt else Some(now + 1000 * seconds))]
    {
      if counters[key].expiresAt.None? {
        counters := counters[key := counters[key].(expiresAt := Some(now + 1000 * seconds))];
      }
    }

    /** The request counts at `now`; if it is over the limit the time to live is asked for at `later`, by when
        other requests may have come: `seen` is the key as it is then. */
    method Evaluate(key: Key, limit: int, window: nat, now: Time, later: Time, seen: Option<Counter>)
      returns (wait: Option<int>)
      modifies this
      ensures counters == old(counters)[key := Bump(old(At(key)), window, now)]
      ensures wait == Answer(Bump(old(At(key)), window, now).count, limit, window, Ttl(seen, later))
    {
      var count := Incr(key, now);
      ExpireIfNone(key, window, now);
      if count > limit {
        var ttl := Ttl(seen, later);
        return Some(if ttl > 0 then ttl else window);
      }
      return None;
    }
  }

  /** A caller is told to wait, and then for a positive time, exactly when the request is over the limit. */
  lemma WaitExactlyOverLimit(count: int, limit: int, window: int, ttl: int)
    requires window > 0
    ensures var wait := Answer(count, limit, window, ttl);
      (count > limit <==> wait.Some?) && (wait.Some? ==> wait.value > 0)
  {
  }

  /** Asked at once, the wait is the rest of the window to within half a second, and never more than the window. */
  lemma WaitIsTheRestOfTheWindow(c: Option<Counter>, limit: int, window: nat, now: Time)
    requires window > 0 && Bump(c, window, now).count > limit
    requires c.Some? && c.value.expiresAt.Some? ==> c.value.expiresAt.value <= now + 1000 * window
    ensures var k := Bump(c, window, now);
      var wait := Answer(k.count, limit, window, Ttl(Some(k), now)).value;
      var rest := k.expiresAt.value - now;
      0 < rest <= 1000 * window && 0 < wait <= window
      && (rest >= 500 ==> -500 < 1000 * wait - rest <= 500)
      && (rest < 500 ==> wait == window)
  {
    var k := Bump(c, window, now);
    var rest := k.expiresAt.value - now;
    assert Live(Some(k), now) == Some(k);
    Rounded(rest, window);
  }

  lemma Rounded(rest: int, window: nat)
    requires 0 < rest <= 1000 * window
    ensures var t := (rest + 500) / 1000; 0 <= t <= window && -500 < 1000 * t - rest <= 500
  {
    var t := (rest + 500) / 1000;
    assert 1000 * t <= rest + 500 < 1000 * t + 1000;
  }

  // ---- Traces ----------------------------------------------------------------------------------

  /** The requests on one key, at their times. */
  predicate Chronological(trace: seq<Time>)
    decreases |trace|
  {
    |trace| <= 1 || (Chronological(trace[..|trace| - 1]) && trace[|trace| - 2] <= trace[|trace| - 1])
  }

  /** The key after all requests of the trace. */
  function After(trace: seq<Time>, window: nat): (c: Option<Counter>)
    ensures trace != [] ==> c.Some? && c.value.expiresAt.Some?
    ensures trace == [] ==> c.None?
    decreases |trace|
  {
    if trace == [] then None
    else Some(Bump(After(trace[..|trace| - 1], window), window, trace[|trace| - 1]))
  }

  /** The last request of the trace is let through. */
  predicate LastAdmitted(trace: seq<Time>, limit: int, window: nat)
    requires trace != []
  {
    After(trace, window).value.count <= limit
  }

  /** How many requests with times in the half-open interval are let through. */
  function Admitted(trace: seq<Time>, limit: int, window: nat, from: Time, until: Time): nat
    decreases |trace|
  {
    if trace == [] then 0
    else
      var t := trace[|trace| - 1];
      Admitted(trace[..|trace| - 1], limit, window, from, until)
        + (if from <= t < until && LastAdmitted(trace, limit, window) then 1 else 0)
  }

  function Min(a: int, b: int): int {
    if a < b then a else b
  }

  /** When the last window of the trace opened. */
  function Opened(trace: seq<Time>, window: nat): Time
    requires trace != []
  {
    After(trace, window).value.expiresAt.value - 1000 * window
  }

  lemma {:induction false} LastIsInWindow(trace: seq<Time>, window: nat)
    requires trace != [] && window > 0 && Chronological(trace)
    ensures Opened(trace, window) <= trace[|trace| - 1] < Opened(trace, window) + 1000 * window
    ensures After(trace, window).value.count >= 1
    decreases |trace|
  {
    var init := trace[..|trace| - 1];
    if init != [] {
      LastIsInWindow(init, window);
    }
  }

  lemma {:induction false} NoneAfterwards(trace: seq<Time>, limit: int, window: nat, from: Time, until: Time)
    requires Chronological(trace) && (trace != [] ==> trace[|trace| - 1] < from)
    ensures Admitted(trace, limit, window, from, until) == 0
    decreases |trace|
  {
    if trace != [] {
      NoneAfterwards(trace[..|trace| - 1], limit, window, from, until);
    }
  }

  /** A window lets through its first `limit` requests and no more. */
  lemma {:induction false} WindowAdmitsLimit(trace: seq<Time>, limit: nat, window: nat)
    requires trace != [] && window > 0 && Chronological(trace)
    ensures var from := Opened(trace, window);
      Admitted(trace, limit, window, from, from + 1000 * window) == Min(After(trace, window).value.count, limit)
    decreases |trace|
  {
    var init, t := trace[..|trace| - 1], trace[|trace| - 1];
    LastIsInWindow(trace, window);
    if init != [] {
      LastIsInWindow(init, window);
      WindowAdmitsLimit(init, limit, window);
      if Live(After(init, window), t).None? {
        NoneAfterwards(init, limit, window, t, t + 1000 * window);
      }
    }
  }

  /** What an interval of one window's length starting at `a` can have let through so far: only the rest of a window
      opened before it, and the whole of one opened in it. */
  function Allowance(trace: seq<Time>, limit: nat, window: nat, a: Time): int
    requires trace != []
  {
    var start, used := Opened(trace, window), Min(After(trace, window).value.count, limit);
    if start < a then used - 1
    else if start < a + 1000 * window then limit - 1 + used
    else 2 * limit - 1
  }

  lemma {:induction false} WithinAllowance(trace: seq<Time>, limit: nat, window: nat, a: Time)
    requires trace != [] && window > 0 && limit > 0 && Chronological(trace)
    ensures Admitted(trace, limit, window, a, a + 1000 * window) <= Allowance(trace, limit, window, a)
    decreases |trace|
  {
    var init, t := trace[..|trace| - 1], trace[|trace| - 1];
    LastIsInWindow(trace, window);
    if init == [] {
      assert Admitted(init, limit, window, a, a + 1000 * window) == 0;
    } else {
      LastIsInWindow(init, window);
      WithinAllowance(init, limit, window, a);
      if Opened(trace, window) < a {
        NewWindowStartsOver(trace, limit, window, a);
      }
    }
  }

  lemma NewWindowStartsOver(trace: seq<Time>, limit: nat, window: nat, a: Time)
    requires |trace| > 1 && window > 0 && Chronological(trace)
    requires Live(After(trace[..|trace| - 1], window), trace[|trace| - 1]).None?
      ==> trace[|trace| - 1] < a
    ensures Live(After(trace[..|trace| - 1], window), trace[|trace| - 1]).None?
      ==> Admitted(trace[..|trace| - 1], limit, window, a, a + 1000 * window) == 0
  {
    if Live(After(trace[..|trace| - 1], window), trace[|trace| - 1]).None? {
      NoneAfterwards(trace[..|trace| - 1], limit, window, a, a + 1000 * window);
    }
  }

  /** No interval as long as a window lets through twice the limit; with a limit of nothing, nothing. */
  lemma RateBound(trace: seq<Time>, limit: nat, window: nat, a: Time)
    requires window > 0 && Chronological(trace)
    ensures Admitted(trace, limit, window, a, a + 1000 * window) <= if limit == 0 then 0 else 2 * limit - 1
  {
    if limit == 0 {
      NothingForNothing(trace, window, a, a + 1000 * window);
    } else if trace != [] {
      WithinAllowance(trace, limit, window, a);
    }
  }

  lemma {:induction false} NothingForNothing(trace: seq<Time>, window: nat, from: Time, until: Time)
    requires window > 0 && Chronological(trace)
    ensures Admitted(trace, 0, window, from, until) == 0
    decreases |trace|
  {
    if trace != [] {
      NothingForNothing(trace[..|trace| - 1], window, from, until);
      LastIsInWindow(trace, window);
    }
  }

  // ---- The bound is reached --------------------------------------------------------------------

  /** `n` more requests, all at `t`. */
  function Burst(trace: seq<Time>, t: Time, n: nat): seq<Time> {
    if n == 0 then trace else Burst(trace, t, n - 1) + [t]
  }

  /** A trace may go on at `t`. */
  ghost predicate GoesOn(trace: seq<Time>, t: Time) {
    Chronological(trace) && trace != [] && trace[|trace| - 1] <= t
  }

  lemma OneMore(trace: seq<Time>, t: Time, limit: nat, window: nat, from: Time, until: Time)
    requires GoesOn(trace, t) && from <= t < until
    ensures GoesOn(trace + [t], t)
    ensures var k := Bump(After(trace, window), window, t);
      && After(trace + [t], window) == Some(k)
      && Admitted(trace + [t], limit, window, from, until) ==
           Admitted(trace, limit, window, from, until) + (if k.count <= limit then 1 else 0)
  {
    var longer := trace + [t];
    assert longer[..|longer| - 1] == trace && longer[|longer| - 1] == t;
  }

  lemma {:induction false} OneMoreWithin(trace: seq<Time>, t: Time, limit: nat, window: nat, from: Time, until: Time,
                                         k: Counter)
    requires GoesOn(trace, t) && from <= t < until
    requires After(trace, window) == Some(k) && t < k.expiresAt.value && k.count < limit
    ensures GoesOn(trace + [t], t) && After(trace + [t], window) == Some(k.(count := k.count + 1))
    ensures Admitted(trace + [t], limit, window, from, until) == Admitted(trace, limit, window, from, until) + 1
  {
    OneMore(trace, t, limit, window, from, until);
  }

  ghost predicate Counts(trace: seq<Time>, t: Time, n: nat, limit: nat, window: nat, from: Time, until: Time, k: Counter) {
    var burst := Burst(trace, t, n);
    && GoesOn(burst, t) && After(burst, window) == Some(k.(count := k.count + n))
    && Admitted(burst, limit, window, from, until) == Admitted(trace, limit, window, from, until) + n
  }

  lemma {:induction false} CountsOneMore(trace: seq<Time>, t: Time, n: nat, limit: nat, window: nat, from: Time,
                                         until: Time, k: Counter)
    requires from <= t < until && k.expiresAt.Some? && t < k.expiresAt.value && k.count + n < limit
    requires Counts(trace, t, n, limit, window, from, until, k)
    ensures Counts(trace, t, n + 1, limit, window, from, until, k)
  {
    OneMoreWithin(Burst(trace, t, n), t, limit, window, from, until, k.(count := k.count + n));
  }

  lemma {:induction false} BurstCounts(trace: seq<Time>, t: Time, n: nat, limit: nat, window: nat, from: Time,
                                       until: Time, k: Counter)
    requires GoesOn(trace, t) && from <= t < until
    requires After(trace, window) == Some(k) && t < k.expiresAt.value && k.count + n <= limit
    ensures Counts(trace, t, n, limit, window, from, until, k)
  {
    assert Counts(trace, t, 0, limit, window, from, until, k);
    for m := 0 to n
      invariant Counts(trace, t, m, limit, window, from, until, k)
    {
      CountsOneMore(trace, t, m, limit, window, from, until, k);
    }
  }

  /** One request to open a window, the rest of it at its end, and a full window right after. */
  function Worst(limit: nat, w: nat): seq<Time>
    requires limit > 0 && w > 0
  {
    Burst(Burst([0], w - 1, limit - 1) + [w], w, limit - 1)
  }

  lemma Opening(w: nat, limit: nat, window: nat)
    requires w == 1000 * window > 0
    ensures After([0], window) == Some(Counter(1, Some(w))) && GoesOn([0], w - 1)
    ensures Admitted([0], limit, window, 1, 1 + w) == 0
  {
    assert [0][..0] == [];
    assert After([0], window) == Some(Bump(None, window, 0));
    assert Admitted([0], limit, window, 1, 1 + w) == Admitted([0][..0], limit, window, 1, 1 + w);
  }

  /** The rest of the first window, used up at its end. */
  lemma {:induction false} EndOfWindow(first: seq<Time>, w: nat, limit: nat, window: nat)
    requires w == 1000 * window > 0 && limit > 0 && first == Burst([0], w - 1, limit - 1)
    ensures GoesOn(first, w) && After(first, window) == Some(Counter(limit, Some(w)))
    ensures Admitted(first, limit, window, 1, 1 + w) == limit - 1
  {
    Opening(w, limit, window);
    BurstCounts([0], w - 1, limit - 1, limit, window, 1, 1 + w, Counter(1, Some(w)));
  }

  /** A full window right after it. */
  lemma {:induction false} NextWindow(first: seq<Time>, w: nat, limit: nat, window: nat)
    requires w == 1000 * window > 0 && limit > 0
    requires GoesOn(first, w) && After(first, window) == Some(Counter(limit, Some(w)))
    ensures Chronological(Burst(first + [w], w, limit - 1))
    ensures Admitted(Burst(first + [w], w, limit - 1), limit, window, 1, 1 + w) ==
      Admitted(first, limit, window, 1, 1 + w) + limit
  {
    OneMore(first, w, limit, window, 1, 1 + w);
    BurstCounts(first + [w], w, limit - 1, limit, window, 1, 1 + w, Counter(1, Some(2 * w)));
  }

  /** The bound cannot be improved: a burst around the change of windows reaches it. */
  lemma {:induction false} RateBoundIsReached(limit: nat, window: nat, w: nat)
    requires w == 1000 * window > 0 && limit > 0
    ensures Chronological(Worst(limit, w))
    ensures Admitted(Worst(limit, w), limit, window, 1, 1 + w) == 2 * limit - 1
  {
    var first := Burst([0], w - 1, limit - 1);
    EndOfWindow(first, w, limit, window);
    NextWindow(first, w, limit, window);
    assert Worst(limit, w) == Burst(first + [w], w, limit - 1);
  }
}

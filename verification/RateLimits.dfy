/** The fixed-window rate limiter over a TTL key-value store. */
module RateLimits {
  import opened Events
  import opened Arithmetic

  /** A Redis counter; without an expiry it lives on. */
  datatype Counter = Counter(count: nat, expiresAt: Option<real>)

  /** `ratelimit:{identifier}:{bucket}`. */
  type Key = (string, int)
  type Counters = map<Key, Counter>

  /** How INCR ends: answered, or an error before or after it took effect. */
  datatype Incr = Answered | FailedBefore | FailedAfter

  /** One rate-limit check: the clock read, INCR and EXPIRE all happen at `time`. */
  datatype Request = Request(identifier: string, time: real, incr: Incr, expireFails: bool)

  /** `int(time.time()) // window_seconds`. */
  function Bucket(time: real, window: nat): int
    requires window > 0
  {
    time.Floor / window
  }

  function KeyAt(q: Request, window: nat): Key
    requires window > 0
  {
    (q.identifier, Bucket(q.time, window))
  }

  predicate Live(x: Counter, now: real) {
    x.expiresAt.None? || now < x.expiresAt.value
  }

  /** The keys Redis still holds at `now`. */
  function Purge(m: Counters, now: real): Counters {
    map k | k in m && Live(m[k], now) :: m[k]
  }

  /** INCR on a purged store: a missing key starts at one, without an expiry. */
  function Increment(m: Counters, k: Key): Counters {
    m[k := if k in m then m[k].(count := m[k].count + 1) else Counter(1, None)]
  }

  function Expire(m: Counters, k: Key, at: real): Counters
    requires k in m
  {
    m[k := m[k].(expiresAt := Some(at))]
  }

  /** The store after one check. */
  function After(m: Counters, q: Request, window: nat): Counters
    requires window > 0
  {
    var k := KeyAt(q, window);
    var live := Purge(m, q.time);
    if q.incr.FailedBefore? then live
    else
      var counted := Increment(live, k);
      if q.incr.Answered? && counted[k].count == 1 && !q.expireFails
      then Expire(counted, k, q.time + window as real) else counted
  }

  /** The verdict of one check; every Redis error lets the request through. */
  function Verdict(m: Counters, q: Request, limit: int, window: nat): bool
    requires window > 0
  {
    var k := KeyAt(q, window);
    var count := Increment(Purge(m, q.time), k)[k].count;
    if !q.incr.Answered? then true
    else if count == 1 && q.expireFails then true
    else count <= limit
  }

  /** `time` lies in window number `b`. */
  predicate InWindow(time: real, b: int, window: nat) {
    (b * window) as real <= time < ((b + 1) * window) as real
  }

  /** The bucket is the number of the window the time lies in. */
  lemma {:induction false} BucketIsWindow(time: real, window: nat, b: int)
    requires window > 0
    ensures InWindow(time, b, window) <==> b == Bucket(time, window)
  {
    var f, d := time.Floor, time.Floor / window;
    assert f == window * d + f % window;
    Spread(window, d);
    Spread(window, b);
    if InWindow(time, b, window) {
      assert b * window <= f < (b + 1) * window;
      CancelFactor(window, b, d + 1);
      CancelFactor(window, d, b + 1);
    }
  }

  /** The store holds the key and it has not expired. */
  predicate Stands(m: Counters, k: Key, now: real) {
    k in m && (m[k].expiresAt.Some? ==> now < m[k].expiresAt.value)
  }

  /** What INCR finds: the count of a live counter, or none. */
  function Counted(m: Counters, identifier: string, b: int, now: real): nat {
    if Stands(m, (identifier, b), now) then m[(identifier, b)].count else 0
  }

  /** `check_rate_limit` on the shared store. A zero window divides by zero, which fails open. */
  class RateLimiter {
    var counters: Counters

    constructor ()
      ensures counters == map[]
    {
      counters := map[];
    }

    method CheckRateLimit(q: Request, limit: int, window: nat) returns (allowed: bool)
      modifies this
      ensures window == 0 ==> allowed && counters == old(counters)
      ensures window > 0 ==> counters == After(old(counters), q, window) && allowed == Verdict(old(counters), q, limit, window)
      ensures window > 0 && !q.incr.Answered? ==> allowed
      ensures window > 0 && q.incr.Answered? ==> forall b: int :: InWindow(q.time, b, window) ==>
        var n := Counted(old(counters), q.identifier, b, q.time);
        allowed <==> n + 1 <= limit || (n == 0 && q.expireFails)
      ensures window > 0 && !q.incr.FailedBefore? ==> forall b: int :: InWindow(q.time, b, window) ==>
        var n, k := Counted(old(counters), q.identifier, b, q.time), (q.identifier, b);
        && k in counters && counters[k].count == n + 1
        && (n == 0 && q.incr.Answered? && !q.expireFails ==> counters[k].expiresAt == Some(q.time + window as real))
      ensures window > 0 ==> forall k: Key :: k.0 != q.identifier || !InWindow(q.time, k.1, window) ==>
        (k in counters <==> Stands(old(counters), k, q.time)) && (k in counters ==> counters[k] == old(counters)[k])
    {
      if window == 0 {
        return true;
      }
      forall b: int ensures InWindow(q.time, b, window) <==> b == Bucket(q.time, window) {
        BucketIsWindow(q.time, window, b);
      }
      hide InWindow;
      var bucket := q.time.Floor / window;
      var key := (q.identifier, bucket);
      counters := Purge(counters, q.time);
      if q.incr.FailedBefore? {
        return true;
      }
      counters := Increment(counters, key);
      if q.incr.FailedAfter? {
        return true;
      }
      var count := counters[key].count;
      if count == 1 {
        if q.expireFails {
          return true;
        }
        counters := Expire(counters, key, q.time + window as real);
      }
      allowed := count <= limit;
    }
  }

  // ---------------------------------------------------------------------------
  // Whole runs
  // ---------------------------------------------------------------------------

  ghost predicate InTimeOrder(qs: seq<Request>) {
    && (forall i :: 0 <= i < |qs| ==> qs[i].time >= 0.0)
    && (forall i, j :: 0 <= i < j < |qs| ==> qs[i].time <= qs[j].time)
  }

  /** The store after all of `qs`, starting empty. */
  function StoreAfter(qs: seq<Request>, window: nat): Counters
    requires window > 0
  {
    if qs == [] then map[] else After(StoreAfter(qs[..|qs| - 1], window), qs[|qs| - 1], window)
  }

  /** Whether request `i` of the run was let through. */
  function Admitted(qs: seq<Request>, i: nat, limit: int, window: nat): bool
    requires window > 0 && i < |qs|
  {
    Verdict(StoreAfter(qs[..i], window), qs[i], limit, window)
  }

  /** How many requests of the run were counted under `k`. */
  function Hits(qs: seq<Request>, k: Key, window: nat): nat
    requires window > 0
  {
    if qs == [] then 0
    else
      var q := qs[|qs| - 1];
      Hits(qs[..|qs| - 1], k, window) + if KeyAt(q, window) == k && !q.incr.FailedBefore? then 1 else 0
  }

  /** The first instant after the bucket of `k`. */
  function BucketEnd(k: Key, window: nat): real {
    ((k.1 + 1) * window) as real
  }

  lemma BucketHoldsItsTimes(q: Request, window: nat)
    requires window > 0 && q.time >= 0.0
    ensures q.time < BucketEnd(KeyAt(q, window), window) <= q.time + window as real
  {
    var f, b := q.time.Floor, Bucket(q.time, window);
    assert f == window * b + f % window;
    Spread(window, b);
    assert f < (b + 1) * window <= f + window;
    assert f as real <= q.time < (f + 1) as real;
  }

  /** What the store knows: exact counts for keys it holds, and it forgets none before their bucket is over. */
  ghost predicate Exact(m: Counters, qs: seq<Request>, window: nat, now: real)
    requires window > 0
  {
    && (forall k :: k in m ==> m[k].count == Hits(qs, k, window) && (m[k].expiresAt.Some? ==> BucketEnd(k, window) <= m[k].expiresAt.value))
    && (forall k :: Hits(qs, k, window) > 0 && k !in m ==> BucketEnd(k, window) <= now)
  }

  lemma PurgeKeepsExact(m: Counters, qs: seq<Request>, window: nat, before: real, now: real)
    requires window > 0 && before <= now && Exact(m, qs, window, before)
    ensures Exact(Purge(m, now), qs, window, now)
  {
  }

  /** A counter never expires inside its own bucket, so INCR returns one more than the earlier hits. */
  lemma {:induction false} CountIsExact(m: Counters, qs: seq<Request>, q: Request, window: nat, before: real)
    requires window > 0 && before <= q.time && q.time >= 0.0 && Exact(m, qs, window, before)
    ensures var k := KeyAt(q, window);
      && (k in Purge(m, q.time) <==> k in m && Live(m[k], q.time))
      && Increment(Purge(m, q.time), k)[k].count == Hits(qs, k, window) + 1
  {
    PurgeKeepsExact(m, qs, window, before, q.time);
    BucketHoldsItsTimes(q, window);
    var k := KeyAt(q, window);
    assert q.time < BucketEnd(k, window);
  }

  lemma {:induction false} HitsAppend(qs: seq<Request>, q: Request, k: Key, window: nat)
    requires window > 0
    ensures Hits(qs + [q], k, window) == Hits(qs, k, window) + if KeyAt(q, window) == k && !q.incr.FailedBefore? then 1 else 0
  {
    assert (qs + [q])[..|qs|] == qs;
  }

  lemma CheckKeepsExact(m: Counters, qs: seq<Request>, q: Request, window: nat, before: real)
    requires window > 0 && before <= q.time && q.time >= 0.0 && Exact(m, qs, window, before)
    ensures Exact(After(m, q, window), qs + [q], window, q.time)
  {
    hide Purge, KeyAt, BucketEnd, Hits, Live;
    PurgeKeepsExact(m, qs, window, before, q.time);
    CountIsExact(m, qs, q, window, before);
    BucketHoldsItsTimes(q, window);
    var k := KeyAt(q, window);
    var live, after := Purge(m, q.time), After(m, q, window);
    forall j
      ensures j in after ==> after[j].count == Hits(qs + [q], j, window)
      ensures j in after && after[j].expiresAt.Some? ==> BucketEnd(j, window) <= after[j].expiresAt.value
      ensures Hits(qs + [q], j, window) > 0 && j !in after ==> BucketEnd(j, window) <= q.time
    {
      HitsAppend(qs, q, j, window);
      assert j != k ==> (j in after <==> j in live) && (j in live ==> after[j] == live[j]);
    }
  }

  lemma {:induction false} StoreIsExact(qs: seq<Request>, window: nat, now: real)
    requires window > 0 && InTimeOrder(qs)
    requires qs == [] || qs[|qs| - 1].time <= now
    ensures Exact(StoreAfter(qs, window), qs, window, now)
  {
    if qs != [] {
      var n := |qs| - 1;
      var q := qs[n];
      var before := if n == 0 then q.time else qs[n - 1].time;
      StoreIsExact(qs[..n], window, before);
      CheckKeepsExact(StoreAfter(qs[..n], window), qs[..n], q, window, before);
      assert qs[..n] + [q] == qs;
      Later(StoreAfter(qs, window), qs, window, q.time, now);
    }
  }

  lemma Later(m: Counters, qs: seq<Request>, window: nat, before: real, now: real)
    requires window > 0 && before <= now && Exact(m, qs, window, before)
    ensures Exact(m, qs, window, now)
  {
  }

  /** How many of `qs` took effect for the identifier at a time in window `b`. */
  function TookEffect(qs: seq<Request>, identifier: string, b: int, window: nat): nat {
    if qs == [] then 0
    else
      var q := qs[|qs| - 1];
      TookEffect(qs[..|qs| - 1], identifier, b, window) +
      if q.identifier == identifier && InWindow(q.time, b, window) && !q.incr.FailedBefore? then 1 else 0
  }

  lemma {:induction false} HitsTookEffect(qs: seq<Request>, identifier: string, b: int, window: nat)
    requires window > 0
    ensures Hits(qs, (identifier, b), window) == TookEffect(qs, identifier, b, window)
  {
    if qs != [] {
      var q := qs[|qs| - 1];
      HitsTookEffect(qs[..|qs| - 1], identifier, b, window);
      BucketIsWindow(q.time, window, b);
      hide InWindow, Bucket;
    }
  }

  /**
   * The limiter admits exactly the first `limit` counted requests of each identifier and window: an
   * answered request in window number `b` passes if and only if fewer than `limit` earlier requests of
   * its identifier took effect in that window. A failed EXPIRE changes nothing about that, a failed
   * INCR lets the request through. Every request lies in some window.
   */
  lemma {:induction false} AdmittedExactly(qs: seq<Request>, i: nat, limit: int, window: nat)
    requires window > 0 && limit > 0 && InTimeOrder(qs) && i < |qs|
    ensures exists b: int :: InWindow(qs[i].time, b, window)
    ensures forall b: int :: InWindow(qs[i].time, b, window) ==>
      (Admitted(qs, i, limit, window)
       <==> !qs[i].incr.Answered? || TookEffect(qs[..i], qs[i].identifier, b, window) < limit)
  {
    hide InWindow, TookEffect, Hits, Verdict;
    AdmittedByHits(qs, i, limit, window);
    var k := Bucket(qs[i].time, window);
    BucketIsWindow(qs[i].time, window, k);
    forall b: int | InWindow(qs[i].time, b, window)
      ensures b == k && Hits(qs[..i], KeyAt(qs[i], window), window) == TookEffect(qs[..i], qs[i].identifier, b, window)
    {
      BucketIsWindow(qs[i].time, window, b);
      HitsTookEffect(qs[..i], qs[i].identifier, b, window);
    }
  }

  lemma {:induction false} AdmittedByHits(qs: seq<Request>, i: nat, limit: int, window: nat)
    requires window > 0 && limit > 0 && InTimeOrder(qs) && i < |qs|
    ensures Admitted(qs, i, limit, window)
       <==> !qs[i].incr.Answered? || Hits(qs[..i], KeyAt(qs[i], window), window) < limit
  {
    var q := qs[i];
    var before := if i == 0 then q.time else qs[i - 1].time;
    StoreIsExact(qs[..i], window, before);
    CountIsExact(StoreAfter(qs[..i], window), qs[..i], q, window, before);
  }

  /** The requests of one identifier, in order. */
  function Own(qs: seq<Request>, identifier: string): seq<Request> {
    if qs == [] then []
    else
      var q := qs[|qs| - 1];
      var before := Own(qs[..|qs| - 1], identifier);
      if q.identifier == identifier then before + [q] else before
  }

  lemma {:induction false} OneMoreEffect(qs: seq<Request>, q: Request, identifier: string, b: int, window: nat)
    ensures TookEffect(qs + [q], identifier, b, window) == TookEffect(qs, identifier, b, window) +
      if q.identifier == identifier && InWindow(q.time, b, window) && !q.incr.FailedBefore? then 1 else 0
  {
    assert (qs + [q])[..|qs|] == qs;
  }

  lemma {:induction false} OwnCount(qs: seq<Request>, identifier: string, b: int, window: nat)
    ensures TookEffect(Own(qs, identifier), identifier, b, window) == TookEffect(qs, identifier, b, window)
  {
    if qs != [] {
      hide InWindow, TookEffect;
      var n := |qs| - 1;
      OwnCount(qs[..n], identifier, b, window);
      assert qs == qs[..n] + [qs[n]];
      OneMoreEffect(qs[..n], qs[n], identifier, b, window);
      OneMoreEffect(Own(qs[..n], identifier), qs[n], identifier, b, window);
    }
  }

  lemma {:induction false} OwnOrder(qs: seq<Request>, identifier: string)
    requires InTimeOrder(qs)
    ensures InTimeOrder(Own(qs, identifier))
    ensures forall q :: q in Own(qs, identifier) ==> q in qs && q.time <= qs[|qs| - 1].time
  {
    if qs != [] {
      var n := |qs| - 1;
      OwnOrder(qs[..n], identifier);
      assert n > 0 ==> qs[n - 1].time <= qs[n].time;
    }
  }

  /** Requests of other identifiers never change a verdict: it is the one of a run of the client's own requests. */
  lemma {:induction false} OthersDoNotMatter(qs: seq<Request>, i: nat, limit: int, window: nat)
    requires window > 0 && limit > 0 && InTimeOrder(qs) && i < |qs|
    ensures var own := Own(qs[..i], qs[i].identifier);
      Admitted(qs, i, limit, window) == Admitted(own + [qs[i]], |own|, limit, window)
  {
    hide InWindow, TookEffect, Admitted, Own;
    var q := qs[i];
    var own := Own(qs[..i], q.identifier);
    var run := own + [q];
    AdmittedExactly(qs, i, limit, window);
    var b: int :| InWindow(q.time, b, window);
    OwnCount(qs[..i], q.identifier, b, window);
    OwnOrder(qs[..i], q.identifier);
    assert run[..|own|] == own;
    forall j | 0 <= j < |own| ensures run[j] == own[j] && own[j].time <= q.time {
      assert own[j] in own && qs[i - 1].time <= q.time;
    }
    AdmittedExactly(run, |own|, limit, window);
  }

  /** How many of the first `n` requests were answered, admitted and satisfy `p`. */
  function Passed(qs: seq<Request>, n: nat, limit: int, window: nat, p: Request -> bool): nat
    requires window > 0 && n <= |qs|
  {
    if n == 0 then 0
    else
      var rest := Passed(qs, n - 1, limit, window, p);
      if p(qs[n - 1]) && qs[n - 1].incr.Answered? && Admitted(qs, n - 1, limit, window) then rest + 1 else rest
  }

  function Under(identifier: string, b: int, window: nat): Request -> bool {
    (q: Request) => q.identifier == identifier && InWindow(q.time, b, window)
  }

  lemma {:induction false} PassedUnderKey(qs: seq<Request>, n: nat, limit: int, window: nat, identifier: string, b: int)
    requires window > 0 && limit > 0 && InTimeOrder(qs) && n <= |qs|
    ensures Passed(qs, n, limit, window, Under(identifier, b, window)) <= limit
    ensures Passed(qs, n, limit, window, Under(identifier, b, window)) <= TookEffect(qs[..n], identifier, b, window)
  {
    if n > 0 {
      hide InWindow, Admitted, TookEffect;
      PassedUnderKey(qs, n - 1, limit, window, identifier, b);
      AdmittedExactly(qs, n - 1, limit, window);
      assert qs[..n] == qs[..n - 1] + [qs[n - 1]];
      OneMoreEffect(qs[..n - 1], qs[n - 1], identifier, b, window);
    }
  }

  /** At most `limit` answered requests pass per identifier and window. */
  lemma {:induction false} BucketBound(qs: seq<Request>, limit: int, window: nat, identifier: string, b: int)
    requires window > 0 && limit > 0 && InTimeOrder(qs)
    ensures Passed(qs, |qs|, limit, window, Under(identifier, b, window)) <= limit
  {
    PassedUnderKey(qs, |qs|, limit, window, identifier, b);
  }

  lemma {:induction false} PassedSplits(qs: seq<Request>, n: nat, limit: int, window: nat,
                                        p: Request -> bool, a: Request -> bool, b: Request -> bool)
    requires window > 0 && n <= |qs|
    requires forall i :: 0 <= i < n && p(qs[i]) ==> a(qs[i]) || b(qs[i])
    ensures Passed(qs, n, limit, window, p) <= Passed(qs, n, limit, window, a) + Passed(qs, n, limit, window, b)
  {
    if n > 0 {
      PassedSplits(qs, n - 1, limit, window, p, a, b);
    }
  }

  function Within(identifier: string, start: real, window: nat): Request -> bool {
    (q: Request) => q.identifier == identifier && start <= q.time <= start + window as real
  }

  lemma TwoBuckets(start: real, time: real, window: nat)
    requires window > 0 && 0.0 <= start <= time <= start + window as real
    ensures Bucket(time, window) == Bucket(start, window) || Bucket(time, window) == Bucket(start, window) + 1
  {
    var f, g := start.Floor, time.Floor;
    assert f <= g <= f + window;
    DivMonotone(f, g, window);
    DivMonotone(g, f + window, window);
    DivShift(f, window);
  }

  /** Any stretch of `window` seconds, both ends included, passes at most `2 * limit` answered requests per identifier. */
  lemma {:induction false} SlidingBound(qs: seq<Request>, limit: int, window: nat, identifier: string, start: real)
    requires window > 0 && limit > 0 && InTimeOrder(qs) && start >= 0.0
    ensures Passed(qs, |qs|, limit, window, Within(identifier, start, window)) <= 2 * limit
  {
    hide InWindow;
    var b := Bucket(start, window);
    var a1, a2 := Under(identifier, b, window), Under(identifier, b + 1, window);
    forall i | 0 <= i < |qs| && Within(identifier, start, window)(qs[i]) ensures a1(qs[i]) || a2(qs[i]) {
      TwoBuckets(start, qs[i].time, window);
      BucketIsWindow(qs[i].time, window, b);
      BucketIsWindow(qs[i].time, window, b + 1);
    }
    PassedSplits(qs, |qs|, limit, window, Within(identifier, start, window), a1, a2);
    BucketBound(qs, limit, window, identifier, b);
    BucketBound(qs, limit, window, identifier, b + 1);
  }
}

/** The Worker's freshness decision, in milliseconds, and its agreement with the
    server's get-then-get_stale, in nanoseconds. */
module Freshness {
  import opened Wrappers
  import C = Cache

  const STALE_MAX_AGE_SECS: nat := 300
  const NANOS_PER_MS: nat := 1_000_000

  datatype Verdict = IsFresh | IsStale(age: nat) | Expired

  function Classify(fetchedAtMs: nat, nowMs: nat, ttl: nat): Verdict {
    var age := (if fetchedAtMs <= nowMs then nowMs - fetchedAtMs else 0) / 1000;
    if age < ttl then IsFresh
    else if age <= STALE_MAX_AGE_SECS then IsStale(age)
    else Expired
  }

  /** What a server request learns from `get` and then, on a miss, `get_stale`. */
  function ServerVerdict(m: C.Store, key: string, t: nat): Verdict {
    if C.Fresh(m, key, t).Some? then IsFresh
    else
      match C.Stale(m, key, C.STALE_MAX_AGE, t)
      case Some((_, age)) => IsStale(age)
      case None => Expired
  }

  /** Both clocks are cut to milliseconds before they are subtracted, so in whole seconds
      the Worker's age is the age or, just before a full second, one more. */
  lemma WorkerAge(fetchedAt: nat, t: nat)
    requires fetchedAt <= t
    ensures var worker := (t / NANOS_PER_MS - fetchedAt / NANOS_PER_MS) / 1000;
            var age := (t - fetchedAt) / C.SECOND;
            fetchedAt / NANOS_PER_MS <= t / NANOS_PER_MS
            && (worker == age || (worker == age + 1 && t - fetchedAt + NANOS_PER_MS > worker * C.SECOND))
  {}

  /** For one entry read at one instant, with each clock cut to milliseconds: the verdicts
      differ if and only if the Worker's age in seconds is right and the entry is past its TTL and
      strictly between 300 s and 301 s old, or that age is one too many and reaches the TTL with
      the payload still served by one of the two. */
  lemma RuntimesAgree(m: C.Store, key: string, t: nat, ttl: nat)
    requires key in m && m[key].fetchedAt <= t && m[key].expiry == m[key].fetchedAt + ttl * C.SECOND
    ensures var fetchedAt := m[key].fetchedAt;
            var worker := (t / NANOS_PER_MS - fetchedAt / NANOS_PER_MS) / 1000;
            var age := (t - fetchedAt) / C.SECOND;
            Classify(fetchedAt / NANOS_PER_MS, t / NANOS_PER_MS, ttl) == ServerVerdict(m, key, t) <==>
            if worker == age then !(ttl <= 300 && 300 * C.SECOND < t - fetchedAt < 301 * C.SECOND)
            else worker < ttl || (worker > ttl && worker > 300)
  {
    var age := t - m[key].fetchedAt;
    WorkerAge(m[key].fetchedAt, t);
    assert age / C.SECOND < ttl <==> age < ttl * C.SECOND;
  }

  /** Where the Worker's age is right, the only difference is that between 300 s and 301 s it
      still calls the payload stale. */
  lemma WorkerServesLonger(m: C.Store, key: string, t: nat, ttl: nat)
    requires key in m && m[key].fetchedAt <= t && m[key].expiry == m[key].fetchedAt + ttl * C.SECOND
    requires ttl <= 300 && 300 * C.SECOND < t - m[key].fetchedAt
    requires (t / NANOS_PER_MS - m[key].fetchedAt / NANOS_PER_MS) / 1000 == 300
    ensures Classify(m[key].fetchedAt / NANOS_PER_MS, t / NANOS_PER_MS, ttl) == IsStale(300)
    ensures ServerVerdict(m, key, t) == Expired
  {
    assert t - m[key].fetchedAt >= ttl * C.SECOND;
  }

  /** A fetch time ahead of the clock counts as age zero: fresh for any positive TTL, and for
      the server still found as stale. */
  lemma SkewedClocks(m: C.Store, key: string, t: nat, maxAge: nat, fetchedAtMs: nat, nowMs: nat, ttl: nat)
    ensures nowMs < fetchedAtMs && ttl > 0 ==> Classify(fetchedAtMs, nowMs, ttl) == IsFresh
    ensures nowMs < fetchedAtMs && ttl == 0 ==> Classify(fetchedAtMs, nowMs, ttl) == IsStale(0)
    ensures key in m && t < m[key].fetchedAt ==> C.Stale(m, key, maxAge, t) == Some((m[key].value, 0))
  {}
}

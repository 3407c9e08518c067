/** The per-pod cache: a map whose expired entries linger for five minutes and
    are only swept, lazily, once the map has grown past a threshold.

    Instants and durations are nanoseconds; TTLs are whole seconds. */
module Cache {
  import opened Wrappers

  const SECOND: nat := 1_000_000_000
  const STALE_MAX_AGE: nat := 300 * SECOND
  const SWEEP_THRESHOLD: nat := 4096

  datatype Entry = Entry(value: string, expiry: nat, fetchedAt: nat)

  type Store = map<string, Entry>

  /** One `put_at`: `fetchedAt` is read by the caller before the map is locked, `now`
      is the instant at which the map is locked and, if it is too full, swept. */
  datatype Put = Put(key: string, value: string, ttl: nat, fetchedAt: nat, now: nat)

  function EntryOf(p: Put): Entry {
    Entry(p.value, p.fetchedAt + p.ttl * SECOND, p.fetchedAt)
  }

  function Elapsed(since: nat, now: nat): nat {
    if since <= now then now - since else 0
  }

  function Fresh(m: Store, key: string, t: nat): Option<string> {
    if key in m && m[key].expiry > t then Some(m[key].value) else None
  }

  function Stale(m: Store, key: string, maxAge: nat, t: nat): Option<(string, nat)> {
    if key in m && Elapsed(m[key].fetchedAt, t) <= maxAge
    then Some((m[key].value, Elapsed(m[key].fetchedAt, t) / SECOND))
    else None
  }

  function Swept(m: Store, now: nat): Store {
    map k | k in m && m[k].fetchedAt + STALE_MAX_AGE > now :: m[k]
  }

  function Apply(m: Store, p: Put): Store {
    (if |m| > SWEEP_THRESHOLD then Swept(m, p.now) else m)[p.key := EntryOf(p)]
  }

  class Cache {
    var inner: Store
    /** history: every put so far */
    ghost var puts: seq<Put>

    /** The map is the replay of the puts, under a clock that does not run backwards. */
    ghost predicate Valid()
      reads this
    {
      inner == Contents(puts) && Ordered(puts)
    }

    constructor ()
      ensures Valid() && puts == []
    {
      inner, puts := map[], [];
    }

    /** The shared cache's answer first, then this pod's own. */
    method Lookup(shared: Option<string>, key: string, now: nat) returns (v: Option<string>)
      requires Valid() && Reached(puts, now)
      ensures v == if shared.Some? then shared else Fresh(inner, key, now)
      ensures shared.None? && TtlsWithin(puts, 300) ==> v == Fresh(Latest(puts), key, now)
    {
      if shared.Some? {
        return shared;
      }
      v := Get(key, now);
    }

    /** With TTLs inside the stale window the answer is that of a cache that never forgets. */
    method Get(key: string, now: nat) returns (v: Option<string>)
      requires Valid() && Reached(puts, now)
      ensures v == Fresh(inner, key, now)
      ensures v.Some? ==> v == Fresh(Latest(puts), key, now)
      ensures TtlsWithin(puts, 300) ==> v == Fresh(Latest(puts), key, now)
    {
      SweptOnlyOld(puts, now);
      if TtlsWithin(puts, 300) {
        GetRefinesHistory(puts, key, now);
      }
      v := None;
      if key in inner {
        var e := inner[key];
        if e.expiry > now {
          v := Some(e.value);
        }
      }
    }

    /** Inside the stale window the answer is that of a cache that never forgets, except
        perhaps at the very instant of a sweep. */
    method GetStale(key: string, maxAge: nat, now: nat) returns (v: Option<(string, nat)>)
      requires Valid() && Reached(puts, now)
      ensures v == Stale(inner, key, maxAge, now)
      ensures v.Some? ==> v == Stale(Latest(puts), key, maxAge, now)
      ensures maxAge <= STALE_MAX_AGE && LastSweep(puts) < now ==> v == Stale(Latest(puts), key, maxAge, now)
    {
      SweptOnlyOld(puts, now);
      if key !in inner {
        return None;
      }
      var e := inner[key];
      var age := Elapsed(e.fetchedAt, now);
      if age > maxAge {
        return None;
      }
      v := Some((e.value, age / SECOND));
    }

    /** The put is the latest of its key; memory stays bounded by what is recent. */
    method PutAt(key: string, value: string, ttl: nat, fetchedAt: nat, now: nat)
      requires Valid() && Reached(puts, now) && fetchedAt <= now
      modifies this
      ensures Valid() && Reached(puts, now)
      ensures puts == old(puts) + [Put(key, value, ttl, fetchedAt, now)]
      ensures inner == Apply(old(inner), Put(key, value, ttl, fetchedAt, now))
      ensures |inner| <= 4097 || inner.Keys == RecentKeys(Latest(old(puts)), now) + {key}
    {
      hide Contents;
      hide Ordered;
      hide Reached;
      hide Latest;
      hide RecentKeys;
      PutIsBounded(puts, Put(key, value, ttl, fetchedAt, now));
      if |inner| > SWEEP_THRESHOLD {
        inner := map k | k in inner && inner[k].fetchedAt + STALE_MAX_AGE > now :: inner[k];
      }
      inner := inner[key := Entry(value, fetchedAt + ttl * SECOND, fetchedAt)];
      puts := puts + [Put(key, value, ttl, fetchedAt, now)];
    }
  }

  /// ## Runs of puts

  /** What the cache holds after a run of puts. */
  function Contents(ps: seq<Put>): Store {
    if ps == [] then map[] else Apply(Contents(ps[..|ps| - 1]), ps[|ps| - 1])
  }

  /** A cache that never forgets: the latest put of every key. */
  function Latest(ps: seq<Put>): Store {
    if ps == [] then map[] else Latest(ps[..|ps| - 1])[ps[|ps| - 1].key := EntryOf(ps[|ps| - 1])]
  }

  /** The instant of the last sweep, or -1 when no put has swept yet. */
  function LastSweep(ps: seq<Put>): int {
    if ps == [] then -1
    else
      var init, p := ps[..|ps| - 1], ps[|ps| - 1];
      if |Contents(init)| > SWEEP_THRESHOLD then p.now else LastSweep(init)
  }

  /** Time never runs backwards, and every stamp was read before its map was locked. */
  ghost predicate Ordered(ps: seq<Put>) {
    && (forall i :: 0 <= i < |ps| ==> ps[i].fetchedAt <= ps[i].now)
    && (forall i, j :: 0 <= i < j < |ps| ==> ps[i].now <= ps[j].now)
  }

  ghost predicate TtlsWithin(ps: seq<Put>, bound: nat) {
    forall i :: 0 <= i < |ps| ==> ps[i].ttl <= bound
  }

  /** `t` is not before any put of the run. */
  ghost predicate Reached(ps: seq<Put>, t: nat) {
    forall i :: 0 <= i < |ps| ==> ps[i].now <= t
  }

  lemma {:induction false} AppendPut(ps: seq<Put>, p: Put)
    requires Ordered(ps) && Reached(ps, p.now) && p.fetchedAt <= p.now
    ensures Ordered(ps + [p]) && Reached(ps + [p], p.now)
    ensures Contents(ps + [p]) == Apply(Contents(ps), p)
    ensures Latest(ps + [p]) == Latest(ps)[p.key := EntryOf(p)]
  {
    assert (ps + [p])[..|ps|] == ps;
  }

  lemma {:induction false} SweptOnlyOld(ps: seq<Put>, t: nat)
    requires Ordered(ps) && Reached(ps, t)
    ensures LastSweep(ps) <= t
    ensures forall k :: k in Contents(ps) ==> k in Latest(ps) && Contents(ps)[k] == Latest(ps)[k]
    ensures forall k :: k in Latest(ps) && k !in Contents(ps) ==> Latest(ps)[k].fetchedAt + STALE_MAX_AGE <= LastSweep(ps)
  {
    if ps != [] {
      var init, p := ps[..|ps| - 1], ps[|ps| - 1];
      SweptOnlyOld(init, p.now);
    }
  }

  lemma {:induction false} LatestHasTtl(ps: seq<Put>, bound: nat)
    requires TtlsWithin(ps, bound)
    ensures forall k :: k in Latest(ps) ==> Latest(ps)[k].expiry <= Latest(ps)[k].fetchedAt + bound * SECOND
  {
    if ps != [] {
      var init, p := ps[..|ps| - 1], ps[|ps| - 1];
      LatestHasTtl(init, bound);
      assert p.ttl * SECOND <= bound * SECOND;
    }
  }

  lemma {:induction false} LatestIsLast(ps: seq<Put>, key: string) returns (i: int)
    ensures -1 <= i < |ps|
    ensures forall j :: i < j < |ps| ==> ps[j].key != key
    ensures i == -1 <==> key !in Latest(ps)
    ensures i >= 0 ==> ps[i].key == key && Latest(ps)[key] == EntryOf(ps[i])
  {
    if ps == [] {
      i := -1;
    } else if ps[|ps| - 1].key == key {
      i := |ps| - 1;
    } else {
      i := LatestIsLast(ps[..|ps| - 1], key);
    }
  }

  /** While a put is younger than the stale window its key stays, under that put or a later
      one, provided stamps of the key do not go back. */
  lemma KeptWhileRecent(ps: seq<Put>, i: nat, t: nat) returns (j: nat)
    requires Ordered(ps) && Reached(ps, t) && i < |ps| && t < ps[i].fetchedAt + STALE_MAX_AGE
    requires forall k :: i < k < |ps| && ps[k].key == ps[i].key ==> ps[i].fetchedAt <= ps[k].fetchedAt
    ensures i <= j < |ps| && ps[j].key == ps[i].key && ps[i].fetchedAt <= ps[j].fetchedAt <= t
    ensures ps[i].key in Contents(ps) && Contents(ps)[ps[i].key] == EntryOf(ps[j])
  {
    SweptOnlyOld(ps, t);
    j := LatestIsLast(ps, ps[i].key);
    assert i <= j && ps[j].fetchedAt <= ps[j].now;
  }

  lemma StaleWhileRecent(ps: seq<Put>, i: nat, t: nat) returns (j: nat)
    requires Ordered(ps) && Reached(ps, t) && i < |ps| && t < ps[i].fetchedAt + STALE_MAX_AGE
    requires forall k :: i < k < |ps| && ps[k].key == ps[i].key ==> ps[i].fetchedAt <= ps[k].fetchedAt
    ensures i <= j < |ps| && ps[j].key == ps[i].key && ps[i].fetchedAt <= ps[j].fetchedAt <= t
    ensures Stale(Contents(ps), ps[i].key, STALE_MAX_AGE, t) == Some((ps[j].value, (t - ps[j].fetchedAt) / SECOND))
  {
    j := KeptWhileRecent(ps, i, t);
  }

  /** With TTLs of at most the stale window no sweep is ever visible through `get`. */
  lemma {:induction false} GetRefinesHistory(ps: seq<Put>, key: string, t: nat)
    requires Ordered(ps) && TtlsWithin(ps, 300) && Reached(ps, t)
    ensures Fresh(Contents(ps), key, t) == Fresh(Latest(ps), key, t)
  {
    SweptOnlyOld(ps, t);
    LatestHasTtl(ps, 300);
  }

  /** `get_stale` answers as the history does, except at the very instant of a sweep
      for an entry exactly as old as the whole window. No TTL bound is needed. */
  lemma {:induction false} GetStaleRefinesHistory(ps: seq<Put>, key: string, maxAge: nat, t: nat)
    requires Ordered(ps) && Reached(ps, t) && maxAge <= STALE_MAX_AGE
    ensures Stale(Contents(ps), key, maxAge, t) == Stale(Latest(ps), key, maxAge, t)
       <==> !(LastSweep(ps) == t && maxAge == STALE_MAX_AGE && key !in Contents(ps)
              && key in Latest(ps) && Latest(ps)[key].fetchedAt + STALE_MAX_AGE == t)
  {
    SweptOnlyOld(ps, t);
  }

  lemma {:induction false} GetStaleRefinesHistoryAfterSweep(ps: seq<Put>, key: string, maxAge: nat, t: nat)
    requires Ordered(ps) && Reached(ps, t) && maxAge <= STALE_MAX_AGE && LastSweep(ps) < t
    ensures Stale(Contents(ps), key, maxAge, t) == Stale(Latest(ps), key, maxAge, t)
  {
    SweptOnlyOld(ps, t);
  }

  /// ### The TTL bound is exact: a longer TTL lets a sweep drop a live entry

  function Xs(n: nat): (s: string)
    ensures |s| == n
  {
    seq(n, _ => 'x')
  }

  /** Enough distinct keys, all put at instant 0, for the next put to sweep. */
  function Crowd(n: nat, ttl: nat): (ps: seq<Put>)
    ensures |ps| == n
    ensures forall i :: 0 <= i < n ==> ps[i].ttl == ttl && ps[i].fetchedAt == ps[i].now == 0
  {
    if n == 0 then [] else Crowd(n - 1, ttl) + [Put(Xs(n - 1), "v", ttl, 0, 0)]
  }

  lemma {:induction false} CrowdFills(n: nat, ttl: nat)
    requires n <= SWEEP_THRESHOLD + 1
    ensures |Contents(Crowd(n, ttl))| == n && forall k :: k in Contents(Crowd(n, ttl)) ==> |k| < n
  {
    hide Swept;
    hide EntryOf;
    if n > 0 {
      CrowdFills(n - 1, ttl);
      var init, p := Crowd(n - 1, ttl), Put(Xs(n - 1), "v", ttl, 0, 0);
      assert Crowd(n, ttl)[..n - 1] == init;
      MapGrows(Contents(init), p.key, EntryOf(p));
    }
  }

  lemma {:induction false} CrowdHasFirst(n: nat, ttl: nat)
    requires n > 0
    ensures "" in Latest(Crowd(n, ttl)) && Latest(Crowd(n, ttl))[""] == EntryOf(Put("", "v", ttl, 0, 0))
  {
    assert Crowd(n, ttl)[..n - 1] == Crowd(n - 1, ttl);
    if n == 1 {
      assert Xs(0) == "";
    } else {
      CrowdHasFirst(n - 1, ttl);
    }
  }

  lemma MapGrows(m: Store, key: string, e: Entry)
    requires key !in m
    ensures |m[key := e]| == |m| + 1
  {
    assert m[key := e].Keys == m.Keys + {key};
  }

  ghost predicate AgreesWithHistory(ttl: nat, ps: seq<Put>, key: string, t: nat) {
    Ordered(ps) && TtlsWithin(ps, ttl) && Reached(ps, t) ==> Fresh(Contents(ps), key, t) == Fresh(Latest(ps), key, t)
  }

  lemma SweepDropsLiveEntry(ttl: nat)
    requires ttl > 300
    ensures exists ps, key, t :: !AgreesWithHistory(ttl, ps, key, t)
  {
    var n := SWEEP_THRESHOLD + 1;
    var crowd := Crowd(n, ttl);
    var p := Put("last", "v", ttl, STALE_MAX_AGE, STALE_MAX_AGE);
    var ps := crowd + [p];
    CrowdFills(n, ttl);
    CrowdHasFirst(n, ttl);
    AppendPut(crowd, p);
    SweptOnlyOld(crowd, 0);
    assert !AgreesWithHistory(ttl, ps, "", STALE_MAX_AGE);
  }

  lemma TtlBoundIsExact(ttl: nat)
    ensures (forall ps, key, t :: AgreesWithHistory(ttl, ps, key, t)) <==> ttl <= 300
  {
    if ttl <= 300 {
      forall ps: seq<Put>, key: string, t: nat
        ensures AgreesWithHistory(ttl, ps, key, t)
      {
        if Ordered(ps) && TtlsWithin(ps, ttl) && Reached(ps, t) {
          GetRefinesHistory(ps, key, t);
        }
      }
    } else {
      SweepDropsLiveEntry(ttl);
    }
  }

  /// ### Memory

  /** Keys whose latest put was stamped within the stale window before `now`. */
  function RecentKeys(m: Store, now: nat): set<string> {
    set k | k in m && m[k].fetchedAt + STALE_MAX_AGE > now
  }

  /** A put that sweeps keeps exactly the keys stamped inside the window and the new one. */
  lemma {:induction false} SweepingPutKeepsExactlyRecent(ps: seq<Put>, p: Put)
    requires Ordered(ps + [p]) && |Contents(ps)| > SWEEP_THRESHOLD
    ensures Contents(ps + [p]).Keys == RecentKeys(Latest(ps), p.now) + {p.key}
  {
    var all := ps + [p];
    assert all[..|all| - 1] == ps && all[|ps|] == p;
    assert forall i :: 0 <= i < |ps| ==> all[i] == ps[i];
    SweptOnlyOld(ps, p.now);
  }

  lemma GrowsByOne(m: Store, key: string, e: Entry)
    ensures |m[key := e]| <= |m| + 1
  {
    assert m[key := e].Keys == m.Keys + {key};
    assert |m[key := e].Keys| <= |m.Keys| + 1;
  }

  lemma {:induction false} PutIsBounded(ps: seq<Put>, p: Put)
    requires Ordered(ps) && Reached(ps, p.now) && p.fetchedAt <= p.now
    ensures Ordered(ps + [p]) && Reached(ps + [p], p.now) && Contents(ps + [p]) == Apply(Contents(ps), p)
    ensures |Contents(ps + [p])| <= SWEEP_THRESHOLD + 1
         || Contents(ps + [p]).Keys == RecentKeys(Latest(ps), p.now) + {p.key}
  {
    AppendPut(ps, p);
    if |Contents(ps)| > SWEEP_THRESHOLD {
      SweepingPutKeepsExactlyRecent(ps, p);
    } else {
      GrowsByOne(Contents(ps), p.key, EntryOf(p));
    }
  }

  lemma {:induction false} MemoryBound(ps: seq<Put>, p: Put)
    requires Ordered(ps + [p])
    ensures |Contents(ps + [p])| <= 4097
         || |Contents(ps + [p])| == |RecentKeys(Latest(ps), p.now) + {p.key}|
    ensures |Contents(ps)| <= 4096 ==> Contents(ps + [p]) == Contents(ps)[p.key := EntryOf(p)]
  {
    var all := ps + [p];
    assert all[..|all| - 1] == ps;
    if |Contents(ps)| > SWEEP_THRESHOLD {
      SweepingPutKeepsExactlyRecent(ps, p);
      assert |Contents(all)| == |Contents(all).Keys|;
    } else {
      GrowsByOne(Contents(ps), p.key, EntryOf(p));
    }
  }
}

/** What single steps of the single-flight protocol achieve, in every reachable state. */
module InflightSteps {
  import opened Wrappers
  import opened Inflight
  import opened InflightOwnership
  import opened InflightWaiters
  import opened InflightStores
  import opened InflightBounds
  import opened InflightTheorems
  import opened InflightProgress
  import C = Cache

  /** Call `u` will notify the waiters of Notify `n`, and fetches the key for them. */
  ghost predicate Serves(s: State, u: nat, n: nat, key: string) {
    u < |s.tasks| && s.tasks[u].key == key && WillNotify(s.tasks[u].pc) == Some(n)
  }

  ghost predicate IsLed(s: State, key: string) {
    exists u :: 0 <= u < |s.tasks| && s.tasks[u].key == key && Leads(s.tasks[u].pc).Some?
  }

  lemma LockIsExclusive(s: State, t: nat)
    requires Reachable(s) && t < |s.tasks| && HoldsLock(s.tasks[t].pc)
    ensures s.lock == Some(t) && forall u :: 0 <= u < |s.tasks| && u != t ==> !HoldsLock(s.tasks[u].pc)
  {
    ReachableInv(s);
    assert TaskOk(s, t);
    forall u | 0 <= u < |s.tasks| && u != t
      ensures !HoldsLock(s.tasks[u].pc)
    {
      assert TaskOk(s, u);
    }
  }

  lemma FreeMeansFree(s: State)
    requires Reachable(s) && s.lock.None?
    ensures forall u :: 0 <= u < |s.tasks| ==> !HoldsLock(s.tasks[u].pc)
  {
    ReachableInv(s);
    forall u | 0 <= u < |s.tasks|
      ensures !HoldsLock(s.tasks[u].pc)
    {
      assert TaskOk(s, u);
    }
  }

  /** What a call finds under the lock will be notified by the leader of its key. */
  lemma FoundIsServed(s: State, t: nat)
    requires Reachable(s) && t < |s.tasks| && (s.tasks[t].pc.Found? || s.tasks[t].pc.Enabled?)
    ensures var n := s.tasks[t].pc.n; n < |s.notifies| && Serves(s, s.notifies[n].leader, n, s.tasks[t].key)
  {
    ReachableInv(s);
    assert TaskOk(s, t) && KeyOk(s, s.tasks[t].key);
  }

  /** A local answer is the latest store of the key; with TTLs inside the stale window a
      miss means that there is none alive. */
  lemma FreshIsLatest(s: State, key: string)
    requires Reachable(s)
    ensures C.Reached(s.puts, s.clock)
    ensures C.Fresh(s.store, key, s.clock).Some? ==>
              C.Fresh(s.store, key, s.clock) == C.Fresh(C.Latest(s.puts), key, s.clock)
    ensures C.TtlsWithin(s.puts, 300) ==> C.Fresh(s.store, key, s.clock) == C.Fresh(C.Latest(s.puts), key, s.clock)
  {
    hide Ownership;
    hide Waiters;
    hide Outcomes;
    hide WriteOk;
    hide CarriesOk;
    hide Fetches;
    hide StampOk;
    ReachableInv(s);
    C.SweptOnlyOld(s.puts, s.clock);
    if C.TtlsWithin(s.puts, 300) {
      C.GetRefinesHistory(s.puts, key, s.clock);
    }
  }

  /** A call fails only if nothing was stored for its key in the last five minutes. */
  lemma FailedMeansNothingRecent(s: State, t: nat)
    requires Reachable(s) && t < |s.tasks| && s.tasks[t].pc.ReadStale?
    requires C.Stale(s.store, s.tasks[t].key, C.STALE_MAX_AGE, s.clock).None?
    ensures forall i :: 0 <= i < |s.puts| && s.puts[i].key == s.tasks[t].key ==>
              s.puts[i].fetchedAt + C.STALE_MAX_AGE <= s.clock
  {
    hide ApplyAct;
    forall i | 0 <= i < |s.puts| && s.puts[i].key == s.tasks[t].key
      ensures s.puts[i].fetchedAt + C.STALE_MAX_AGE <= s.clock
    {
      if s.clock < s.puts[i].fetchedAt + C.STALE_MAX_AGE {
        StaleReadSucceeds(s, t, i);
      }
    }
  }

  lemma StaleReadSucceeds(s: State, t: nat, i: nat)
    requires Reachable(s) && t < |s.tasks| && s.tasks[t].pc.ReadStale?
    requires i < |s.puts| && s.puts[i].key == s.tasks[t].key
    requires s.clock < s.puts[i].fetchedAt + C.STALE_MAX_AGE
    ensures C.Stale(s.store, s.tasks[t].key, C.STALE_MAX_AGE, s.clock).Some?
  {
    hide Reachable;
    WaiterNeverFailsInsideWindow(s, t, i);
  }

  /** A call that is not blocked can take its step, whatever upstream answers. */
  lemma CanReceive(s: State, t: nat, reply: Outcome)
    requires Reachable(s) && t < |s.tasks| && !Blocked(s, s.tasks[t].pc)
    ensures !s.tasks[t].pc.SharedLookup? && !s.tasks[t].pc.Fetching? ==> CanAct(s, t, NoInput)
    ensures s.tasks[t].pc.Fetching? ==> CanAct(s, t, Upstream(reply))
  {
    ReachableInv(s);
    UnblockedCanAct(s, t);
  }

  lemma OwnNotify(s: State, t: nat)
    requires Reachable(s) && t < |s.tasks| && WillNotify(s.tasks[t].pc).Some?
    ensures var n := WillNotify(s.tasks[t].pc).value; n < |s.notifies| && s.notifies[n].leader == t
  {
    ReachableInv(s);
    assert TaskOk(s, t);
  }

  lemma StampIsPast(s: State, t: nat)
    requires Reachable(s) && t < |s.tasks| && s.tasks[t].pc.Stamped?
    ensures s.tasks[t].pc.at <= s.clock && (s.tasks[t].key, s.tasks[t].pc.value) in s.fetched
  {
    ReachableInv(s);
    assert CarriesOk(s, t);
  }

  /** A leader is not among its own waiters. */
  lemma LeaderNeverWaits(s: State, t: nat)
    requires Reachable(s) && t < |s.tasks| && WillNotify(s.tasks[t].pc).Some?
    ensures s.tasks[t].waited.None?
  {
    ReachableInv(s);
    assert WaiterOk(s, t);
  }

  lemma LastPutIsLatest(s: State, before: seq<C.Put>, p: C.Put)
    requires Reachable(s) && s.puts == before + [p]
    ensures C.Latest(s.puts)[p.key := C.EntryOf(p)] == C.Latest(s.puts)
    ensures forall i :: 0 <= i < |s.puts| && s.puts[i].key == p.key ==> s.puts[i].fetchedAt <= p.fetchedAt
  {
    assert s.puts[..|s.puts| - 1] == before;
    forall i | 0 <= i < |s.puts| && s.puts[i].key == p.key
      ensures s.puts[i].fetchedAt <= p.fetchedAt
    {
      StoresAreSerialised(s, i, |before|);
    }
  }

  /** A call outside any critical section, with no other call under way, finds the lock free. */
  lemma AloneIsFree(s: State, t: nat)
    requires Reachable(s) && t < |s.tasks| && !HoldsLock(s.tasks[t].pc)
    requires forall u :: 0 <= u < |s.tasks| && u != t ==> s.tasks[u].pc.Done?
    ensures s.lock.None?
  {
    ReachableInv(s);
    assert s.lock.Some? ==> TaskOk(s, s.lock.value);
  }

  /** What it finds under the lock cannot be another call's Notify. */
  lemma AloneLeads(s: State, t: nat)
    requires Reachable(s) && t < |s.tasks| && (s.tasks[t].pc.Inserted? || s.tasks[t].pc.Found?)
    requires forall u :: 0 <= u < |s.tasks| && u != t ==> s.tasks[u].pc.Done?
    ensures s.tasks[t].pc.Inserted?
  {
    if s.tasks[t].pc.Found? {
      FoundIsServed(s, t);
    }
  }
}

/** What holds of every run of the single-flight protocol. */
module InflightTheorems {
  import opened Wrappers
  import opened Inflight
  import opened InflightOwnership
  import opened InflightWaiters
  import opened InflightStores
  import opened InflightBounds
  import C = Cache

  ghost predicate Inv(s: State) {
    Ownership(s) && Waiters(s) && StoreInv(s) && Serial(s) && Outcomes(s)
  }

  lemma InvKept(s: State, step: Step)
    requires Inv(s) && CanStep(s, step)
    ensures Inv(ApplyStep(s, step))
  {
    OwnershipKept(s, step);
    WaitersKept(s, step);
    StoreKept(s, step);
    SerialKept(s, step);
    OutcomesKept(s, step);
  }

  lemma {:induction false} RunKeepsInv(steps: seq<Step>)
    requires Run(Init, steps).Some?
    ensures Inv(Run(Init, steps).value)
  {
    if steps != [] {
      var before := steps[..|steps| - 1];
      RunKeepsInv(before);
      InvKept(Run(Init, before).value, steps[|steps| - 1]);
    }
  }

  lemma ReachableInv(s: State)
    requires Reachable(s)
    ensures Inv(s)
  {
    var steps :| Run(Init, steps) == Some(s);
    RunKeepsInv(steps);
  }

  /// ## Safety

  /** At most one task per key lies between insert and remove. */
  lemma MutualExclusion(s: State, t: nat, u: nat)
    requires Reachable(s) && t < |s.tasks| && u < |s.tasks| && s.tasks[t].key == s.tasks[u].key
    requires Leads(s.tasks[t].pc).Some? && Leads(s.tasks[u].pc).Some?
    ensures t == u
  {
    ReachableInv(s);
    OneLeaderPerKey(s, t, u);
  }

  /** `keys` lists exactly the keys being led, each under its own leader's Notify. */
  lemma KeysAreTheLedKeys(s: State, k: string)
    requires Reachable(s)
    ensures k in s.keys <==> exists t :: 0 <= t < |s.tasks| && s.tasks[t].key == k && Leads(s.tasks[t].pc).Some?
    ensures forall t :: 0 <= t < |s.tasks| && s.tasks[t].key == k && Leads(s.tasks[t].pc).Some? ==>
              k in s.keys && Leads(s.tasks[t].pc) == Some(s.keys[k])
              && s.keys[k] < |s.notifies| && s.notifies[s.keys[k]].leader == t
  {
    ReachableInv(s);
    if k in s.keys {
      assert KeyOk(s, k);
    }
    forall t | 0 <= t < |s.tasks| && s.tasks[t].key == k && Leads(s.tasks[t].pc).Some?
      ensures k in s.keys && Leads(s.tasks[t].pc) == Some(s.keys[k])
              && s.keys[k] < |s.notifies| && s.notifies[s.keys[k]].leader == t
    {
      assert TaskOk(s, t);
    }
  }

  /** Line 65 finds and removes the leader's own entry, and no task is left between
      finding that entry and registering on it. */
  lemma RemoveTakesOwnEntry(s: State, t: nat)
    requires Reachable(s) && t < |s.tasks| && s.tasks[t].pc.Removing?
    ensures s.tasks[t].key in s.keys && s.keys[s.tasks[t].key] == s.tasks[t].pc.n
    ensures var s' := ApplyAct(s, t, NoInput);
            && s'.keys == s.keys - {s.tasks[t].key}
            && forall u :: 0 <= u < |s'.tasks| ==> !s'.tasks[u].pc.Found? && !s'.tasks[u].pc.Enabled?
  {
    ReachableInv(s);
    assert TaskOk(s, t);
    forall u | 0 <= u < |s.tasks| ensures u != t ==> !HoldsLock(s.tasks[u].pc) {
      assert TaskOk(s, u);
    }
  }

  /** Line 66 wakes every waiter of the leader's Notify and no other: a leader that has
      meanwhile started over on the same key keeps its waiters. */
  lemma NotifyWakesExactlyOwnWaiters(s: State, t: nat)
    requires Reachable(s) && t < |s.tasks| && s.tasks[t].pc.Notifying?
    ensures CanAct(s, t, NoInput)
    ensures var n := s.tasks[t].pc.n;
            var s' := ApplyAct(s, t, NoInput);
            && s.notifies[n].leader == t
            && (forall u :: 0 <= u < |s.tasks| && s.tasks[u].waited == Some(n) ==>
                  s.tasks[u].key == s.tasks[t].key && s.tasks[u].pc == Waiting(n) && u in s'.notifies[n].woken)
            && (forall u :: u in s'.notifies[n].woken ==> u < |s.tasks| && s.tasks[u].waited == Some(n))
            && (forall m :: 0 <= m < |s.notifies| && m != n ==> s'.notifies[m] == s.notifies[m])
  {
    ReachableInv(s);
    var n := s.tasks[t].pc.n;
    assert TaskOk(s, t) && ListsOk(s, n);
    forall u | 0 <= u < |s.tasks| && s.tasks[u].waited == Some(n)
      ensures s.tasks[u].key == s.tasks[t].key && s.tasks[u].pc == Waiting(n) && u in s.notifies[n].registered
    {
      assert WaiterOk(s, u) && TaskOk(s, u);
    }
  }

  /** No wakeup is lost. */
  lemma NoLostWakeup(s: State, t: nat)
    requires Reachable(s) && t < |s.tasks| && s.tasks[t].pc.Waiting?
    ensures var n := s.tasks[t].pc.n;
            n < |s.notifies|
            && (t in s.notifies[n].woken
                || (t in s.notifies[n].registered
                    && s.notifies[n].leader < |s.tasks|
                    && WillNotify(s.tasks[s.notifies[n].leader].pc) == Some(n)))
  {
    ReachableInv(s);
    assert WaiterOk(s, t) && ListsOk(s, s.tasks[t].pc.n);
  }

  /** Whatever a call returns for its key this pod fetched for that key, and nothing stale
      is older than five minutes. Only an answer of the shared cache may have been fetched
      by another pod, and then the call never looked further. */
  lemma ReturnsOnlyFetched(s: State, t: nat)
    requires Reachable(s) && t < |s.tasks| && s.tasks[t].pc.Done?
    ensures var task := s.tasks[t];
            match task.pc.result
            case Cached(v) =>
              if task.shared.Some?
              then task.shared == Some(v) && ((task.key, v) in s.fetched || (task.key, v) in s.elsewhere)
              else (task.key, v) in s.fetched
            case Fresh(v) => task.shared.None? && (task.key, v) in s.fetched
            case Stale(v, age) => task.shared.None? && (task.key, v) in s.fetched && age <= 300
            case Failed(_) => task.shared.None?
  {
    ReachableInv(s);
    assert CarriesOk(s, t);
  }

  /** Stores to one key happen one after the other, with stamps that never go back. */
  lemma StoresAreSerialised(s: State, i: nat, j: nat)
    requires Reachable(s) && i <= j < |s.puts| && s.puts[i].key == s.puts[j].key
    ensures s.puts[i].fetchedAt <= s.puts[j].fetchedAt
  {
    ReachableInv(s);
  }

  /// ## Waiters get the result

  /** A Notify whose leader's fetch returned `v` has that value stored by the time any of
      its waiters reads the cache. */
  lemma LeaderStoredBeforeWaking(s: State, t: nat, v: string)
    requires Reachable(s) && t < |s.tasks| && s.tasks[t].waited.Some? && Returning(s.tasks[t].pc)
    requires s.tasks[t].waited.value < |s.notifies| && s.notifies[s.tasks[t].waited.value].outcome == Some(Ok(v))
    ensures var landed := s.notifies[s.tasks[t].waited.value].landed;
            landed.Some? && landed.value < |s.puts|
            && s.puts[landed.value].key == s.tasks[t].key && s.puts[landed.value].value == v
  {
    ReachableInv(s);
    var n := s.tasks[t].waited.value;
    assert WaiterOk(s, t) && ListsOk(s, n) && OutcomeOk(s, n);
  }

  ghost predicate OwnOrLater(s: State, key: string, i: nat, value: string)
    requires i < |s.puts|
  {
    exists j :: i <= j < |s.puts| && s.puts[j].key == key && s.puts[j].value == value
  }

  /** The first read of a waiter whose leader's store is `i`: inside that store's TTL, and
      before a sweep may take it, it returns that value or a later store's as a cache hit.
      Only the calls for this key need to share a TTL. */
  lemma WaiterReadsCached(s: State, t: nat, i: nat)
    requires Reachable(s) && t < |s.tasks| && s.tasks[t].pc.ReadFresh?
    requires KeyTtl(s, s.tasks[t].key, s.tasks[t].ttl)
    requires i < |s.puts| && s.puts[i].key == s.tasks[t].key
    requires s.clock < s.puts[i].fetchedAt + s.tasks[t].ttl * C.SECOND
    requires s.clock < s.puts[i].fetchedAt + C.STALE_MAX_AGE
    ensures var pc := ApplyAct(s, t, NoInput).tasks[t].pc;
            pc.Done? && pc.result.Cached? && OwnOrLater(s, s.tasks[t].key, i, pc.result.value)
  {
    hide Ownership;
    hide Waiters;
    hide Outcomes;
    hide CarriesOk;
    hide Fetches;
    hide StampOk;
    ReachableInv(s);
    var last := C.KeptWhileRecent(s.puts, i, s.clock);
    assert WriteOk(s, last);
  }

  lemma DivMonotone(a: nat, b: nat)
    requires a <= b
    ensures a / C.SECOND <= b / C.SECOND
  {}

  /** The second read: for five minutes after the leader's store it never fails, whatever
      is stored or swept meanwhile. No bound on the TTL is needed. */
  lemma WaiterNeverFailsInsideWindow(s: State, t: nat, i: nat)
    requires Reachable(s) && t < |s.tasks| && s.tasks[t].pc.ReadStale?
    requires i < |s.puts| && s.puts[i].key == s.tasks[t].key
    requires s.clock < s.puts[i].fetchedAt + C.STALE_MAX_AGE
    ensures var pc := ApplyAct(s, t, NoInput).tasks[t].pc;
            pc.Done? && pc.result.Stale? && OwnOrLater(s, s.tasks[t].key, i, pc.result.value)
            && pc.result.age <= (s.clock - s.puts[i].fetchedAt) / C.SECOND
  {
    hide Ownership;
    hide Waiters;
    hide Outcomes;
    hide WriteOk;
    hide CarriesOk;
    hide Fetches;
    hide StampOk;
    ReachableInv(s);
    var last := C.StaleWhileRecent(s.puts, i, s.clock);
    DivMonotone(s.clock - s.puts[last].fetchedAt, s.clock - s.puts[i].fetchedAt);
  }

  /// ## How often upstream is asked

  lemma {:induction false} RunKeepsMisses(steps: seq<Step>, key: string, ttl: nat)
    requires Run(Init, steps).Some? && KeyTtl(Run(Init, steps).value, key, ttl)
    ensures Misses(Run(Init, steps).value, key)
  {
    if steps != [] {
      var before := steps[..|steps| - 1];
      var s, last := Run(Init, before).value, steps[|steps| - 1];
      RunKeepsInv(before);
      KeyTtlBefore(s, last, key, ttl);
      RunKeepsMisses(before, key, ttl);
      MissesKept(s, last, key, ttl);
    }
  }

  lemma KeyTtlBefore(s: State, step: Step, key: string, ttl: nat)
    requires CanStep(s, step) && KeyTtl(ApplyStep(s, step), key, ttl)
    ensures KeyTtl(s, key, ttl)
  {
    var s' := ApplyStep(s, step);
    assert forall t :: 0 <= t < |s.tasks| ==> s'.tasks[t].key == s.tasks[t].key && s'.tasks[t].ttl == s.tasks[t].ttl;
  }

  /** A task that goes on to ask upstream after a store to its key either looked its key up
      before that store, or when the store was no longer sure to be found. */
  lemma RefetchBound(s: State, t: nat, i: nat)
    requires Reachable(s) && t < |s.tasks| && KeyTtl(s, s.tasks[t].key, s.tasks[t].ttl)
    requires s.tasks[t].pc.Locked? || s.tasks[t].pc.Fetching?
    requires i < |s.puts| && s.puts[i].key == s.tasks[t].key
    ensures s.tasks[t].missed.Some?
    ensures i >= s.tasks[t].missed.value.seen
            || s.tasks[t].missed.value.at >= s.puts[i].fetchedAt + Lasting(s.tasks[t].ttl)
  {
    var steps :| Run(Init, steps) == Some(s);
    RunKeepsMisses(steps, s.tasks[t].key, s.tasks[t].ttl);
    assert MissOk(s, t);
  }

  /** Whether a call that holds the lock fetches: if and only if no call leads its key. A
      store still sure to be found does not prevent it; that the call holds the lock at all
      only shows that it looked the key up before that store. */
  lemma FetchesIff(s: State, t: nat)
    requires Reachable(s) && t < |s.tasks| && s.tasks[t].pc.Locked?
    ensures Look(s, t).tasks[t].pc.Inserted? || Look(s, t).tasks[t].pc.Found?
    ensures Look(s, t).tasks[t].pc.Inserted? <==>
            forall u :: 0 <= u < |s.tasks| && s.tasks[u].key == s.tasks[t].key ==> Leads(s.tasks[u].pc).None?
    ensures forall i :: 0 <= i < |s.puts| && s.puts[i].key == s.tasks[t].key
                        && KeyTtl(s, s.tasks[t].key, s.tasks[t].ttl)
                        && s.clock < s.puts[i].fetchedAt + Lasting(s.tasks[t].ttl) ==>
              s.tasks[t].missed.Some? && s.tasks[t].missed.value.seen <= i
  {
    KeysAreTheLedKeys(s, s.tasks[t].key);
    forall i | 0 <= i < |s.puts| && s.puts[i].key == s.tasks[t].key
               && KeyTtl(s, s.tasks[t].key, s.tasks[t].ttl)
               && s.clock < s.puts[i].fetchedAt + Lasting(s.tasks[t].ttl)
      ensures s.tasks[t].missed.Some? && s.tasks[t].missed.value.seen <= i
    {
      RefetchBound(s, t, i);
      MissIsPast(s, t);
    }
  }

  lemma MissIsPast(s: State, t: nat)
    requires Reachable(s) && t < |s.tasks| && KeyTtl(s, s.tasks[t].key, s.tasks[t].ttl) && s.tasks[t].missed.Some?
    ensures s.tasks[t].missed.value.at <= s.clock
  {
    var steps :| Run(Init, steps) == Some(s);
    RunKeepsMisses(steps, s.tasks[t].key, s.tasks[t].ttl);
    assert MissOk(s, t);
  }

  lemma ReachableStep(s: State, step: Step)
    requires Reachable(s) && CanStep(s, step)
    ensures Reachable(ApplyStep(s, step))
  {
    var steps :| Run(Init, steps) == Some(s);
    assert (steps + [step])[..|steps|] == steps;
    assert Run(Init, steps + [step]) == Some(ApplyStep(s, step));
  }
}

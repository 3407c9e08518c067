/** What a woken waiter does: it first looks for a live entry, and settles for a stale one or an
    error only after what its leader stored had run out. */
module InflightRetries {
  import opened Wrappers
  import opened Inflight
  import opened InflightOwnership
  import opened InflightWaiters
  import opened InflightStores
  import opened InflightBounds
  import opened InflightTheorems
  import C = Cache

  /** A fetch that succeeded had been stored by the time of a read that saw so many puts. */
  ghost predicate StoredBy(notify: Notify, seen: nat) {
    notify.outcome.Some? && (notify.outcome.value.Ok? ==> notify.landed.Some? && notify.landed.value < seen)
  }

  /** A stale answer or an error comes after a first read that found no store to the key still
      sure to be found. */
  ghost predicate RetryOk(s: State, t: nat)
    requires t < |s.tasks|
  {
    var task := s.tasks[t];
    && (task.pc.ReadStale? || (task.pc.Done? && (task.pc.result.Stale? || task.pc.result.Failed?)) ==> task.retried.Some?)
    && (task.retried.Some? ==>
          && Returning(task.pc) && task.retried.value.at <= s.clock && task.retried.value.seen <= |s.puts|
          && (forall i :: 0 <= i < task.retried.value.seen && s.puts[i].key == task.key ==>
                s.puts[i].fetchedAt + Lasting(task.ttl) <= task.retried.value.at)
          && (task.waited.Some? ==>
                task.waited.value < |s.notifies| && StoredBy(s.notifies[task.waited.value], task.retried.value.seen)))
  }

  ghost predicate Retries(s: State, key: string) {
    forall t :: 0 <= t < |s.tasks| && s.tasks[t].key == key ==> RetryOk(s, t)
  }

  /** Once a leader has notified, what became of its fetch stands. */
  lemma OutcomeStands(s: State, t: nat, input: Input, n: nat)
    requires Ownership(s) && CanAct(s, t, input) && n < |s.notifies|
    requires s.notifies[n].leader < |s.tasks| && Returning(s.tasks[s.notifies[n].leader].pc)
    ensures var s' := ApplyAct(s, t, input);
            n < |s'.notifies| && s'.notifies[n].outcome == s.notifies[n].outcome && s'.notifies[n].landed == s.notifies[n].landed
  {
    assert TaskOk(s, t);
  }

  lemma RetriesKeptByRead(s: State, t: nat, error: string, ttl: nat)
    requires Inv(s) && t < |s.tasks| && s.tasks[t].pc == ReadFresh(error)
    requires KeyTtl(s, s.tasks[t].key, ttl) && RetryOk(s, t)
    ensures RetryOk(FromCacheFresh(s, t, error), t)
  {
    var key := s.tasks[t].key;
    if C.Fresh(s.store, key, s.clock).None? {
      forall i | 0 <= i < |s.puts| && s.puts[i].key == key
        ensures s.puts[i].fetchedAt + Lasting(ttl) <= s.clock
      {
        MissSeesOnlyExpired(s, key, ttl, i);
      }
      if s.tasks[t].waited.Some? {
        WaitedIsStored(s, t);
      }
    }
  }

  lemma WaitedIsStored(s: State, t: nat)
    requires Inv(s) && t < |s.tasks| && s.tasks[t].waited.Some? && Returning(s.tasks[t].pc)
    ensures s.tasks[t].waited.value < |s.notifies|
    ensures StoredBy(s.notifies[s.tasks[t].waited.value], |s.puts|)
    ensures var leader := s.notifies[s.tasks[t].waited.value].leader; leader < |s.tasks| && Returning(s.tasks[leader].pc)
  {
    hide StoreInv;
    hide Serial;
    hide Ownership;
    var n := s.tasks[t].waited.value;
    assert WaiterOk(s, t) && ListsOk(s, n) && OutcomeOk(s, n);
  }

  lemma RetryStays(s: State, t: nat, input: Input, u: nat, ttl: nat)
    requires Inv(s) && CanAct(s, t, input) && u < |s.tasks| && KeyTtl(s, s.tasks[u].key, ttl) && RetryOk(s, u)
    ensures RetryOk(ApplyAct(s, t, input), u)
  {
    var s' := ApplyAct(s, t, input);
    if u == t && s.tasks[t].pc.ReadFresh? {
      RetriesKeptByRead(s, t, s.tasks[t].pc.error, ttl);
    } else {
      RetryUnmoved(s, t, input, u);
    }
  }

  lemma RetryFrame(s: State, s': State, u: nat)
    requires u < |s.tasks| <= |s'.tasks| && RetryOk(s, u)
    requires s'.tasks[u] == s.tasks[u] && s.puts <= s'.puts && s.clock <= s'.clock
    requires s.tasks[u].retried.Some? && s.tasks[u].waited.Some? ==>
               var n := s.tasks[u].waited.value;
               n < |s.notifies| && n < |s'.notifies|
               && s'.notifies[n].outcome == s.notifies[n].outcome && s'.notifies[n].landed == s.notifies[n].landed
    ensures RetryOk(s', u)
  {}

  lemma RetryUnmoved(s: State, t: nat, input: Input, u: nat)
    requires Inv(s) && CanAct(s, t, input) && u < |s.tasks| && RetryOk(s, u)
    requires u == t ==> !s.tasks[t].pc.ReadFresh?
    ensures RetryOk(ApplyAct(s, t, input), u)
  {
    hide StoreInv;
    hide Serial;
    hide Outcomes;
    hide Waiters;
    hide CanAct;
    hide ApplyAct;
    var s' := ApplyAct(s, t, input);
    if u != t {
      if s.tasks[u].retried.Some? && s.tasks[u].waited.Some? {
        WaitedIsStored(s, u);
        OutcomeStands(s, t, input, s.tasks[u].waited.value);
      }
      RetryFrame(s, s', u);
    } else if s.tasks[t].pc.ReadStale? {
      RetrySettles(s, t, input);
    } else {
      NoRetryYet(s, t, input);
    }
  }

  lemma RetrySettles(s: State, t: nat, input: Input)
    requires CanAct(s, t, input) && s.tasks[t].pc.ReadStale? && RetryOk(s, t)
    ensures RetryOk(ApplyAct(s, t, input), t)
  {}

  lemma NoRetryYet(s: State, t: nat, input: Input)
    requires CanAct(s, t, input) && !s.tasks[t].pc.ReadFresh? && !s.tasks[t].pc.ReadStale? && RetryOk(s, t)
    ensures RetryOk(ApplyAct(s, t, input), t)
  {
    var pc := s.tasks[t].pc;
    if pc.Fetching? || pc.Stamped? || pc.Notifying? {
      LeaderHasNoRetry(s, t, input);
    }
  }

  lemma LeaderHasNoRetry(s: State, t: nat, input: Input)
    requires CanAct(s, t, input) && RetryOk(s, t)
    requires s.tasks[t].pc.Fetching? || s.tasks[t].pc.Stamped? || s.tasks[t].pc.Notifying?
    ensures RetryOk(ApplyAct(s, t, input), t)
  {}

  lemma RetriesKept(s: State, step: Step, key: string, ttl: nat)
    requires Inv(s) && KeyTtl(s, key, ttl) && Retries(s, key) && CanStep(s, step)
    ensures Retries(ApplyStep(s, step), key)
  {
    hide Inv;
    hide CanAct;
    hide ApplyAct;
    var s' := ApplyStep(s, step);
    forall u | 0 <= u < |s'.tasks| && s'.tasks[u].key == key
      ensures RetryOk(s', u)
    {
      if u < |s.tasks| {
        if step.Act? {
          RetryStays(s, step.t, step.input, u, ttl);
        } else {
          RetryFrame(s, s', u);
        }
      }
    }
  }

  lemma {:induction false} RunKeepsRetries(steps: seq<Step>, key: string, ttl: nat)
    requires Run(Init, steps).Some? && KeyTtl(Run(Init, steps).value, key, ttl)
    ensures Retries(Run(Init, steps).value, key)
  {
    hide Inv;
    if steps != [] {
      var before := steps[..|steps| - 1];
      var s, last := Run(Init, before).value, steps[|steps| - 1];
      RunKeepsInv(before);
      KeyTtlBefore(s, last, key, ttl);
      RunKeepsRetries(before, key, ttl);
      RetriesKept(s, last, key, ttl);
    }
  }

  /// ## Theorems

  /** A woken waiter whose leader's store is `i`, inside that store's TTL and 300 s of its
      stamp: its own next two steps return that value or a later store's as a cache hit. */
  lemma WokenReadsCached(s: State, t: nat, n: nat, i: nat)
    requires Reachable(s) && t < |s.tasks| && s.tasks[t].pc == Waiting(n) && n < |s.notifies| && t in s.notifies[n].woken
    requires KeyTtl(s, s.tasks[t].key, s.tasks[t].ttl)
    requires i < |s.puts| && s.puts[i].key == s.tasks[t].key
    requires s.clock < s.puts[i].fetchedAt + s.tasks[t].ttl * C.SECOND && s.clock < s.puts[i].fetchedAt + 300 * C.SECOND
    ensures CanAct(s, t, NoInput) && CanAct(ApplyAct(s, t, NoInput), t, NoInput)
    ensures var s' := ApplyAct(ApplyAct(s, t, NoInput), t, NoInput);
            && s'.tasks[t].pc.Done? && s'.tasks[t].pc.result.Cached?
            && OwnOrLater(s, s.tasks[t].key, i, s'.tasks[t].pc.result.value)
  {
    hide Reachable;
    var s1 := ApplyAct(s, t, NoInput);
    ReachableStep(s, Act(t, NoInput));
    WaiterReadsCached(s1, t, i);
  }

  /** Whatever other calls, the clock and sweeps do in between: a waiter of a successful leader
      that returns a stale answer or an error first looked for a live entry, at an instant at
      which its leader's store had run out. */
  lemma WaiterMissesOnlyExpired(s: State, t: nat, n: nat, v: string)
    requires Reachable(s) && t < |s.tasks| && KeyTtl(s, s.tasks[t].key, s.tasks[t].ttl)
    requires s.tasks[t].waited == Some(n) && n < |s.notifies| && s.notifies[n].outcome == Some(Ok(v))
    requires s.tasks[t].pc.Done? && !s.tasks[t].pc.result.Cached?
    ensures s.tasks[t].retried.Some? && s.tasks[t].retried.value.at <= s.clock
    ensures var landed := s.notifies[n].landed;
            && landed.Some? && landed.value < s.tasks[t].retried.value.seen <= |s.puts|
            && s.puts[landed.value].key == s.tasks[t].key && s.puts[landed.value].value == v
            && s.puts[landed.value].fetchedAt + Lasting(s.tasks[t].ttl) <= s.tasks[t].retried.value.at
  {
    var steps :| Run(Init, steps) == Some(s);
    RunKeepsRetries(steps, s.tasks[t].key, s.tasks[t].ttl);
    assert RetryOk(s, t);
    WaiterResult(s, t);
    LeaderStoredBeforeWaking(s, t, v);
  }

  /** A waiter never returns a fetch of its own, and fails with one error only. */
  lemma WaiterResult(s: State, t: nat)
    requires Reachable(s) && t < |s.tasks| && s.tasks[t].waited.Some? && s.tasks[t].pc.Done?
    ensures match s.tasks[t].pc.result
            case Cached(_) => true
            case Stale(_, _) => true
            case Failed(e) => e == "upstream unavailable"
            case Fresh(_) => false
  {
    hide Ownership;
    hide StoreInv;
    hide Serial;
    hide Outcomes;
    hide Reachable;
    ReachableInv(s);
    assert WaiterOk(s, t);
  }

  /** A leader returns what it fetched, or after an error the cache's answer or that error. */
  lemma LeaderResult(s: State, n: nat)
    requires Reachable(s) && n < |s.notifies|
    ensures var leader := s.notifies[n].leader;
            leader < |s.tasks| &&
            (s.tasks[leader].pc.Done? ==>
              && s.notifies[n].outcome.Some?
              && match s.notifies[n].outcome.value
                 case Ok(v) => s.tasks[leader].pc.result == Fresh(v)
                 case Err(e) =>
                   match s.tasks[leader].pc.result
                   case Failed(e') => e' == e
                   case Fresh(_) => false
                   case _ => true)
  {
    hide Ownership;
    hide StoreInv;
    hide Serial;
    hide Waiters;
    hide Reachable;
    ReachableInv(s);
    assert OutcomeOk(s, n);
  }
}

/** Stores to a key are serialised; what a task that missed the cache can know of earlier
    stores; what becomes of a leader's fetch. */
module InflightBounds {
  import opened Wrappers
  import opened Inflight
  import opened InflightOwnership
  import opened InflightStores
  import C = Cache

  /// ## Stores to one key are serialised

  /** A stamp already read is not older than any store to the key. */
  ghost predicate StampOk(s: State, t: nat)
    requires t < |s.tasks|
  {
    var task := s.tasks[t];
    task.pc.Stamped? ==> forall i :: 0 <= i < |s.puts| && s.puts[i].key == task.key ==> s.puts[i].fetchedAt <= task.pc.at
  }

  ghost predicate SerialPuts(puts: seq<C.Put>) {
    forall i, j :: 0 <= i < j < |puts| && puts[i].key == puts[j].key ==> puts[i].fetchedAt <= puts[j].fetchedAt
  }

  ghost predicate Serial(s: State) {
    SerialPuts(s.puts) && forall t :: 0 <= t < |s.tasks| ==> StampOk(s, t)
  }

  lemma OneLeaderPerKey(s: State, t: nat, u: nat)
    requires Ownership(s) && t < |s.tasks| && u < |s.tasks|
    requires Leads(s.tasks[t].pc).Some? && Leads(s.tasks[u].pc).Some? && s.tasks[t].key == s.tasks[u].key
    ensures t == u
  {
    assert TaskOk(s, t) && TaskOk(s, u);
  }

  lemma SerialKeptByLand(s: State, t: nat, n: nat, value: string, at: nat)
    requires Ownership(s) && StoreInv(s) && Serial(s)
    requires t < |s.tasks| && n < |s.notifies| && s.tasks[t].pc == Stamped(n, value, at)
    ensures Serial(Land(s, t, n, value, at))
  {
    var s' := Land(s, t, n, value, at);
    assert StampOk(s, t);
    forall u | 0 <= u < |s'.tasks| ensures StampOk(s', u) {
      assert StampOk(s, u);
      if u != t && s.tasks[u].pc.Stamped? && s.tasks[u].key == s.tasks[t].key {
        OneLeaderPerKey(s, t, u);
      }
    }
  }

  lemma SerialMove(s: State, s': State)
    requires Serial(s) && s'.puts == s.puts && |s.tasks| <= |s'.tasks|
    requires forall t :: 0 <= t < |s.tasks| ==> s'.tasks[t].key == s.tasks[t].key
    requires forall t :: 0 <= t < |s'.tasks| ==> (t < |s.tasks| && s'.tasks[t].pc == s.tasks[t].pc) || StampOk(s', t)
    ensures Serial(s')
  {
    forall t | 0 <= t < |s'.tasks| ensures StampOk(s', t) {
      assert t < |s.tasks| ==> StampOk(s, t);
    }
  }

  /** A stamp read now is not older than the stores there have been. */
  lemma SerialKeptByStamp(s: State, t: nat, input: Input)
    requires StoreInv(s) && Serial(s) && CanAct(s, t, input) && s.tasks[t].pc.Storing?
    ensures Serial(ApplyAct(s, t, input))
  {
    SerialMove(s, ApplyAct(s, t, input));
  }

  lemma SerialKept(s: State, step: Step)
    requires Ownership(s) && StoreInv(s) && Serial(s) && CanStep(s, step)
    ensures Serial(ApplyStep(s, step))
  {
    if step.Act? && s.tasks[step.t].pc.Stamped? {
      SerialKeptByLand(s, step.t, s.tasks[step.t].pc.n, s.tasks[step.t].pc.value, s.tasks[step.t].pc.at);
    } else if step.Act? && s.tasks[step.t].pc.Storing? {
      SerialKeptByStamp(s, step.t, step.input);
    } else {
      SerialMove(s, ApplyStep(s, step));
    }
  }

  /// ## What a miss says about the stores before it

  /** All calls for the key use this TTL. */
  ghost predicate KeyTtl(s: State, key: string, ttl: nat) {
    forall t :: 0 <= t < |s.tasks| && s.tasks[t].key == key ==> s.tasks[t].ttl == ttl
  }

  /** How long a store is sure to be found: its TTL, or until a sweep may take it. */
  function Lasting(ttl: nat): nat {
    if ttl <= 300 then ttl * C.SECOND else C.STALE_MAX_AGE
  }

  /** No store to the key made before the miss was sure to be found then. */
  ghost predicate MissOk(s: State, t: nat)
    requires t < |s.tasks|
  {
    var task := s.tasks[t];
    && (!task.pc.SharedLookup? && !task.pc.LocalLookup? && !task.pc.Done? ==> task.missed.Some?)
    && (task.missed.Some? ==>
          && task.missed.value.at <= s.clock && task.missed.value.seen <= |s.puts|
          && forall i :: 0 <= i < task.missed.value.seen && s.puts[i].key == task.key ==>
               s.puts[i].fetchedAt + Lasting(task.ttl) <= task.missed.value.at)
  }

  ghost predicate Misses(s: State, key: string) {
    forall t :: 0 <= t < |s.tasks| && s.tasks[t].key == key ==> MissOk(s, t)
  }

  lemma MissSeesOnlyExpired(s: State, key: string, ttl: nat, i: nat)
    requires StoreInv(s) && Serial(s) && KeyTtl(s, key, ttl)
    requires C.Fresh(s.store, key, s.clock).None?
    requires i < |s.puts| && s.puts[i].key == key
    ensures s.puts[i].fetchedAt + Lasting(ttl) <= s.clock
  {
    if s.clock < s.puts[i].fetchedAt + C.STALE_MAX_AGE {
      var last := C.KeptWhileRecent(s.puts, i, s.clock);
      assert WriteOk(s, last);
    }
  }

  lemma MissesMove(s: State, s': State, key: string)
    requires Misses(s, key) && s.clock <= s'.clock && s.puts <= s'.puts && |s.tasks| <= |s'.tasks|
    requires forall t :: 0 <= t < |s'.tasks| && s'.tasks[t].key == key ==>
      (t < |s.tasks| && s'.tasks[t].key == s.tasks[t].key && s'.tasks[t].ttl == s.tasks[t].ttl
       && s'.tasks[t].missed == s.tasks[t].missed
       && (s'.tasks[t].missed.Some? || s'.tasks[t].pc == s.tasks[t].pc)) || MissOk(s', t)
    ensures Misses(s', key)
  {
    forall t | 0 <= t < |s'.tasks| && s'.tasks[t].key == key ensures MissOk(s', t) {
      assert t < |s.tasks| && s.tasks[t].key == key ==> MissOk(s, t);
    }
  }

  lemma MissesKeptByLookUp(s: State, t: nat, ttl: nat)
    requires t < |s.tasks| && s.tasks[t].pc.LocalLookup?
    requires StoreInv(s) && Serial(s) && KeyTtl(s, s.tasks[t].key, ttl) && Misses(s, s.tasks[t].key)
    ensures Misses(LookUp(s, t), s.tasks[t].key)
  {
    var key, s' := s.tasks[t].key, LookUp(s, t);
    assert MissOk(s, t);
    if C.Fresh(s.store, key, s.clock).None? {
      forall i | 0 <= i < |s.puts| && s.puts[i].key == key
        ensures s.puts[i].fetchedAt + Lasting(ttl) <= s.clock
      {
        MissSeesOnlyExpired(s, key, ttl, i);
      }
    }
    MissesMove(s, s', key);
  }

  lemma MissesKept(s: State, step: Step, key: string, ttl: nat)
    requires StoreInv(s) && Serial(s) && KeyTtl(s, key, ttl) && Misses(s, key) && CanStep(s, step)
    ensures Misses(ApplyStep(s, step), key)
  {
    if step.Act? && s.tasks[step.t].key == key {
      assert MissOk(s, step.t);
      if s.tasks[step.t].pc.LocalLookup? {
        MissesKeptByLookUp(s, step.t, ttl);
      } else {
        MissesMove(s, ApplyStep(s, step), key);
      }
    } else {
      MissesMove(s, ApplyStep(s, step), key);
    }
  }

  /// ## What becomes of a fetch

  /** The outcome of a Notify's fetch, as its leader carries it, and the put that stored it. */
  ghost predicate OutcomeOk(s: State, n: nat)
    requires n < |s.notifies|
  {
    var notify := s.notifies[n];
    && notify.leader < |s.tasks|
    && (notify.landed.Some? ==>
          && notify.landed.value < |s.puts|
          && s.puts[notify.landed.value].key == s.tasks[notify.leader].key
          && notify.outcome == Some(Ok(s.puts[notify.landed.value].value)))
    && var stored := notify.outcome.Some? && (notify.outcome.value.Ok? ==> notify.landed.Some?);
    match s.tasks[notify.leader].pc
    case Inserted(_) => notify.outcome.None?
    case Fetching(_) => notify.outcome.None?
    case Storing(_, v) => notify.outcome == Some(Ok(v))
    case Stamped(_, v, _) => notify.outcome == Some(Ok(v))
    case Unlisting(_, o) => stored && notify.outcome == Some(o)
    case Removing(_, o) => stored && notify.outcome == Some(o)
    case Notifying(_, o) => stored && notify.outcome == Some(o)
    case ReadFresh(e) => notify.outcome == Some(Err(e))
    case ReadStale(e) => notify.outcome == Some(Err(e))
    case Done(r) =>
      stored && (match notify.outcome.value
                 case Ok(v) => r == Fresh(v)
                 case Err(e) => !r.Fresh? && (r.Failed? ==> r == Failed(e)))
    case _ => false
  }

  ghost predicate Outcomes(s: State) {
    forall n :: 0 <= n < |s.notifies| ==> OutcomeOk(s, n)
  }

  lemma OutcomesMove(s: State, s': State, t: nat)
    requires Ownership(s) && Outcomes(s) && OnlyMoves(s, s', t) && s.puts <= s'.puts
    requires forall n :: 0 <= n < |s.notifies| && s.notifies[n].leader != t ==>
      s'.notifies[n].outcome == s.notifies[n].outcome && s'.notifies[n].landed == s.notifies[n].landed
    requires forall n :: 0 <= n < |s'.notifies| && (n >= |s.notifies| || s.notifies[n].leader == t) ==> OutcomeOk(s', n)
    ensures Outcomes(s')
  {
    forall n | 0 <= n < |s'.notifies| ensures OutcomeOk(s', n) {
      if n < |s.notifies| && s.notifies[n].leader != t {
        assert OutcomeOk(s, n);
      }
    }
  }

  /** Tasks that never led are nobody's leader. */
  lemma OutcomesKeptByOther(s: State, t: nat, input: Input)
    requires Ownership(s) && Outcomes(s) && CanAct(s, t, input)
    requires var pc := s.tasks[t].pc;
             pc.SharedLookup? || pc.LocalLookup? || pc.WantLock? || pc.Enabled? || pc.Waiting?
    ensures Outcomes(ApplyAct(s, t, input))
  {
    forall n | 0 <= n < |s.notifies| ensures s.notifies[n].leader != t {
      assert NotifyOk(s, n);
    }
    OutcomesMove(s, ApplyAct(s, t, input), t);
  }

  lemma OutcomesKeptByLook(s: State, t: nat)
    requires Ownership(s) && Outcomes(s) && t < |s.tasks| && s.tasks[t].pc.Locked?
    ensures Outcomes(Look(s, t))
  {
    forall n | 0 <= n < |s.notifies| ensures s.notifies[n].leader != t {
      assert NotifyOk(s, n);
    }
    OutcomesMove(s, Look(s, t), t);
  }

  lemma OutcomesKeptByEnable(s: State, t: nat, m: nat)
    requires Ownership(s) && Outcomes(s) && t < |s.tasks| && m < |s.notifies| && s.tasks[t].pc == Found(m)
    ensures Outcomes(Enable(s, t, m))
  {
    forall n | 0 <= n < |s.notifies| ensures s.notifies[n].leader != t {
      assert NotifyOk(s, n);
    }
    OutcomesMove(s, Enable(s, t, m), t);
  }

  /** A leader's steps change the outcome of its own Notify only. */
  lemma OutcomesKeptByLeader(s: State, s': State, t: nat, n: nat)
    requires Ownership(s) && Outcomes(s) && OnlyMoves(s, s', t) && s.puts <= s'.puts
    requires WillNotify(s.tasks[t].pc) == Some(n) && |s'.notifies| == |s.notifies|
    requires forall m :: 0 <= m < |s.notifies| && m != n ==> s'.notifies[m] == s.notifies[m]
    requires n < |s.notifies| && OutcomeOk(s, n) ==> OutcomeOk(s', n)
    ensures Outcomes(s')
  {
    assert TaskOk(s, t) && OutcomeOk(s, n);
    forall m | 0 <= m < |s.notifies| && s.notifies[m].leader == t ensures OutcomeOk(s', m) {
      assert NotifyOk(s, m);
      assert m == n;
    }
    OutcomesMove(s, s', t);
  }

  lemma OutcomesKeptByReturning(s: State, t: nat, input: Input)
    requires Ownership(s) && Outcomes(s) && CanAct(s, t, input)
    requires s.tasks[t].pc.ReadFresh? || s.tasks[t].pc.ReadStale?
    ensures Outcomes(ApplyAct(s, t, input))
  {
    var s' := ApplyAct(s, t, input);
    forall n | 0 <= n < |s.notifies| && s.notifies[n].leader == t ensures OutcomeOk(s', n) {
      assert OutcomeOk(s, n);
    }
    OutcomesMove(s, s', t);
  }

  lemma OutcomesKeptByLand(s: State, t: nat, n: nat, value: string, at: nat)
    requires Ownership(s) && Outcomes(s) && t < |s.tasks| && n < |s.notifies| && s.tasks[t].pc == Stamped(n, value, at)
    ensures Outcomes(Land(s, t, n, value, at))
  {
    assert TaskOk(s, t);
    OutcomesKeptByLeader(s, Land(s, t, n, value, at), t, n);
  }

  lemma OutcomesKeptByFetch(s: State, t: nat, n: nat, reply: Outcome)
    requires Ownership(s) && Outcomes(s) && t < |s.tasks| && n < |s.notifies| && s.tasks[t].pc == Fetching(n)
    ensures Outcomes(Fetch(s, t, n, reply))
  {
    assert TaskOk(s, t);
    OutcomesKeptByLeader(s, Fetch(s, t, n, reply), t, n);
  }

  lemma OutcomesKeptByNotify(s: State, t: nat, n: nat, outcome: Outcome)
    requires Ownership(s) && Outcomes(s) && t < |s.tasks| && n < |s.notifies| && s.tasks[t].pc == Notifying(n, outcome)
    ensures Outcomes(NotifyWaiters(s, t, n, outcome))
  {
    assert TaskOk(s, t);
    OutcomesKeptByLeader(s, NotifyWaiters(s, t, n, outcome), t, n);
  }

  lemma OutcomesKeptByLeading(s: State, t: nat, input: Input)
    requires Ownership(s) && Outcomes(s) && CanAct(s, t, input)
    requires var pc := s.tasks[t].pc; pc.Inserted? || pc.Storing? || pc.Unlisting? || pc.Removing?
    ensures Outcomes(ApplyAct(s, t, input))
  {
    assert TaskOk(s, t);
    OutcomesKeptByLeader(s, ApplyAct(s, t, input), t, s.tasks[t].pc.n);
  }

  lemma OutcomesKept(s: State, step: Step)
    requires Ownership(s) && Outcomes(s) && CanStep(s, step)
    ensures Outcomes(ApplyStep(s, step))
  {
    if step.Act? {
      OutcomesKeptByAct(s, step.t, step.input);
    } else {
      forall n | 0 <= n < |s.notifies| ensures OutcomeOk(ApplyStep(s, step), n) {
        assert OutcomeOk(s, n);
      }
    }
  }

  lemma OutcomesKeptByAct(s: State, t: nat, input: Input)
    requires Ownership(s) && Outcomes(s) && CanAct(s, t, input)
    ensures Outcomes(ApplyAct(s, t, input))
  {
    match s.tasks[t].pc
    case Locked => OutcomesKeptByLook(s, t);
    case Found(n) => OutcomesKeptByEnable(s, t, n);
    case Fetching(n) => OutcomesKeptByFetch(s, t, n, input.reply);
    case Stamped(n, v, at) => OutcomesKeptByLand(s, t, n, v, at);
    case Notifying(n, o) => OutcomesKeptByNotify(s, t, n, o);
    case ReadFresh(_) => OutcomesKeptByReturning(s, t, input);
    case ReadStale(_) => OutcomesKeptByReturning(s, t, input);
    case Inserted(_) => OutcomesKeptByLeading(s, t, input);
    case Storing(_, _) => OutcomesKeptByLeading(s, t, input);
    case Unlisting(_, _) => OutcomesKeptByLeading(s, t, input);
    case Removing(_, _) => OutcomesKeptByLeading(s, t, input);
    case Done(_) => {}
    case _ => OutcomesKeptByOther(s, t, input);
  }
}

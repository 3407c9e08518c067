/** Mutual exclusion and ownership in the single-flight protocol. */
module InflightOwnership {
  import opened Wrappers
  import opened Inflight

  predicate HoldsLock(pc: Pc) {
    pc.Locked? || pc.Found? || pc.Enabled? || pc.Inserted? || pc.Removing?
  }

  /** The task's own Notify while it is between inserting its key and removing it. */
  function Leads(pc: Pc): Option<nat> {
    match pc
    case Inserted(n) => Some(n)
    case Fetching(n) => Some(n)
    case Storing(n, _) => Some(n)
    case Stamped(n, _, _) => Some(n)
    case Unlisting(n, _) => Some(n)
    case Removing(n, _) => Some(n)
    case _ => None
  }

  /** The task's own Notify until it has called `notify_waiters`. */
  function WillNotify(pc: Pc): Option<nat> {
    if pc.Notifying? then Some(pc.n) else Leads(pc)
  }

  predicate Returning(pc: Pc) {
    pc.ReadFresh? || pc.ReadStale? || pc.Done?
  }

  /** The task whose counter is in a critical section is the one holding the lock. A
      leader's Notify is its own and is listed under its key from insert to remove. A
      task that has found a Notify under the lock still finds it listed. */
  ghost predicate TaskOk(s: State, t: nat)
    requires t < |s.tasks|
  {
    var task := s.tasks[t];
    && (s.lock == Some(t) <==> HoldsLock(task.pc))
    && (WillNotify(task.pc).Some? ==>
          WillNotify(task.pc).value < |s.notifies| && s.notifies[WillNotify(task.pc).value].leader == t)
    && (Leads(task.pc).Some? ==> task.key in s.keys && s.keys[task.key] == Leads(task.pc).value)
    && (task.pc.Found? || task.pc.Enabled? ==> task.key in s.keys && s.keys[task.key] == task.pc.n)
  }

  /** A Notify's leader either will still notify or is returning. */
  ghost predicate NotifyOk(s: State, n: nat)
    requires n < |s.notifies|
  {
    var leader := s.notifies[n].leader;
    leader < |s.tasks| && (WillNotify(s.tasks[leader].pc) == Some(n) || Returning(s.tasks[leader].pc))
  }

  /** A listed key is listed by its leader. */
  ghost predicate KeyOk(s: State, k: string)
    requires k in s.keys
  {
    s.keys[k] < |s.notifies|
    && var leader := s.notifies[s.keys[k]].leader;
    leader < |s.tasks| && s.tasks[leader].key == k && Leads(s.tasks[leader].pc) == Some(s.keys[k])
  }

  ghost predicate Ownership(s: State) {
    && (s.lock.Some? ==> s.lock.value < |s.tasks|)
    && (forall t :: 0 <= t < |s.tasks| ==> TaskOk(s, t))
    && (forall n :: 0 <= n < |s.notifies| ==> NotifyOk(s, n))
    && (forall k :: k in s.keys ==> KeyOk(s, k))
  }

  /** From `s` to `s'` only task `t` moved; no key changed and no Notify changed hands. */
  ghost predicate OnlyMoves(s: State, s': State, t: nat) {
    && |s'.tasks| == |s.tasks|
    && t < |s.tasks|
    && (forall u :: 0 <= u < |s.tasks| && u != t ==> s'.tasks[u] == s.tasks[u])
    && s'.tasks[t].key == s.tasks[t].key
    && |s.notifies| <= |s'.notifies|
    && (forall n :: 0 <= n < |s.notifies| ==> s'.notifies[n].leader == s.notifies[n].leader)
  }

  /** Every step but insert and remove leaves the leaders as they were. */
  lemma PlainMove(s: State, s': State, t: nat)
    requires Ownership(s) && OnlyMoves(s, s', t)
    requires s'.keys == s.keys && |s'.notifies| == |s.notifies|
    requires s'.lock == s.lock || {s.lock, s'.lock} == {None, Some(t)}
    requires Leads(s'.tasks[t].pc) == Leads(s.tasks[t].pc)
    requires WillNotify(s'.tasks[t].pc) == WillNotify(s.tasks[t].pc) || Returning(s'.tasks[t].pc)
    requires Returning(s.tasks[t].pc) ==> Returning(s'.tasks[t].pc)
    requires TaskOk(s', t)
    ensures Ownership(s')
  {
    assert {s.lock, s'.lock} == {None, Some(t)} ==> s.lock in {s.lock, s'.lock} && s'.lock in {s.lock, s'.lock};
    forall u | 0 <= u < |s.tasks| ensures TaskOk(s', u) {
      assert TaskOk(s, u);
    }
    forall n | 0 <= n < |s.notifies| ensures NotifyOk(s', n) {
      assert NotifyOk(s, n);
    }
    forall k | k in s.keys ensures KeyOk(s', k) {
      assert KeyOk(s, k);
    }
  }

  /** Listing a fresh Notify under the lock. */
  lemma InsertMove(s: State, s': State, t: nat)
    requires Ownership(s) && OnlyMoves(s, s', t)
    requires s.tasks[t].pc.Locked? && s.tasks[t].key !in s.keys
    requires s'.keys == s.keys[s.tasks[t].key := |s.notifies|] && s'.lock == s.lock
    requires |s'.notifies| == |s.notifies| + 1 && s'.notifies[|s.notifies|].leader == t
    requires s'.tasks[t].pc == Inserted(|s.notifies|)
    ensures Ownership(s')
  {
    forall u | 0 <= u < |s.tasks| ensures TaskOk(s', u) {
      assert TaskOk(s, u);
    }
    forall n | 0 <= n < |s'.notifies| ensures NotifyOk(s', n) {
      assert n < |s.notifies| ==> NotifyOk(s, n);
    }
    forall k | k in s'.keys ensures KeyOk(s', k) {
      assert k in s.keys ==> KeyOk(s, k);
    }
  }

  /** Removing the key. The entry removed is the leader's own, and nobody is between
      finding it and registering on it, since that needs the lock. */
  lemma RemoveMove(s: State, s': State, t: nat)
    requires Ownership(s) && OnlyMoves(s, s', t)
    requires s.tasks[t].pc.Removing?
    requires s'.keys == s.keys - {s.tasks[t].key} && s'.lock == None && |s'.notifies| == |s.notifies|
    requires s'.tasks[t].pc == Notifying(s.tasks[t].pc.n, s.tasks[t].pc.outcome)
    ensures Ownership(s')
  {
    assert TaskOk(s, t);
    forall u | 0 <= u < |s.tasks| ensures TaskOk(s', u) {
      assert TaskOk(s, u);
    }
    forall n | 0 <= n < |s.notifies| ensures NotifyOk(s', n) {
      assert NotifyOk(s, n);
    }
    forall k | k in s'.keys ensures KeyOk(s', k) {
      assert KeyOk(s, k);
    }
  }

  lemma OwnershipKept(s: State, step: Step)
    requires Ownership(s) && CanStep(s, step)
    ensures Ownership(ApplyStep(s, step))
  {
    if step.Act? {
      OwnershipKeptByAct(s, step.t, step.input);
    } else {
      var s' := ApplyStep(s, step);
      forall u | 0 <= u < |s'.tasks| ensures TaskOk(s', u) {
        assert u < |s.tasks| ==> TaskOk(s, u);
      }
      forall n | 0 <= n < |s.notifies| ensures NotifyOk(s', n) {
        assert NotifyOk(s, n);
      }
      forall k | k in s.keys ensures KeyOk(s', k) {
        assert KeyOk(s, k);
      }
    }
  }

  lemma OwnershipKeptByAct(s: State, t: nat, input: Input)
    requires Ownership(s) && CanAct(s, t, input)
    ensures Ownership(ApplyAct(s, t, input))
  {
    var s' := ApplyAct(s, t, input);
    assert TaskOk(s, t);
    match s.tasks[t].pc
    case Locked => KeptByLook(s, t);
    case Removing(n, o) => RemoveMove(s, s', t);
    case Fetching(n) => KeptByFetch(s, t, n, input.reply);
    case Stamped(n, v, at) => KeptByLand(s, t, n, v, at);
    case Found(n) => KeptByEnable(s, t, n);
    case Notifying(n, o) => KeptByNotify(s, t, n, o);
    case Done(_) => {}
    case WantLock => KeptByLockMove(s, t, input);
    case Enabled(_) => KeptByLockMove(s, t, input);
    case Inserted(_) => KeptByLockMove(s, t, input);
    case Unlisting(_, _) => KeptByLockMove(s, t, input);
    case LocalLookup => KeptByRead(s, t, input);
    case ReadFresh(_) => KeptByRead(s, t, input);
    case ReadStale(_) => KeptByRead(s, t, input);
    case _ => KeptByUnlockedMove(s, t, input);
  }

  lemma KeptByRead(s: State, t: nat, input: Input)
    requires Ownership(s) && CanAct(s, t, input) && TaskOk(s, t)
    requires var pc := s.tasks[t].pc; pc.LocalLookup? || pc.ReadFresh? || pc.ReadStale?
    ensures Ownership(ApplyAct(s, t, input))
  {
    PlainMove(s, ApplyAct(s, t, input), t);
  }

  lemma KeptByLockMove(s: State, t: nat, input: Input)
    requires Ownership(s) && CanAct(s, t, input) && TaskOk(s, t)
    requires var pc := s.tasks[t].pc; pc.WantLock? || pc.Enabled? || pc.Inserted? || pc.Unlisting?
    ensures Ownership(ApplyAct(s, t, input))
  {
    PlainMove(s, ApplyAct(s, t, input), t);
  }

  lemma KeptByUnlockedMove(s: State, t: nat, input: Input)
    requires Ownership(s) && CanAct(s, t, input) && TaskOk(s, t)
    requires var pc := s.tasks[t].pc; pc.SharedLookup? || pc.Waiting? || pc.Storing?
    ensures Ownership(ApplyAct(s, t, input))
  {
    PlainMove(s, ApplyAct(s, t, input), t);
  }

  lemma KeptByLook(s: State, t: nat)
    requires Ownership(s) && t < |s.tasks| && TaskOk(s, t) && s.tasks[t].pc.Locked?
    ensures Ownership(Look(s, t))
  {
    if s.tasks[t].key in s.keys { PlainMove(s, Look(s, t), t); } else { InsertMove(s, Look(s, t), t); }
  }

  lemma KeptByEnable(s: State, t: nat, n: nat)
    requires Ownership(s) && t < |s.tasks| && TaskOk(s, t) && n < |s.notifies| && s.tasks[t].pc == Found(n)
    ensures Ownership(Enable(s, t, n))
  {
    PlainMove(s, Enable(s, t, n), t);
  }

  lemma KeptByFetch(s: State, t: nat, n: nat, reply: Outcome)
    requires Ownership(s) && t < |s.tasks| && TaskOk(s, t) && n < |s.notifies| && s.tasks[t].pc == Fetching(n)
    ensures Ownership(Fetch(s, t, n, reply))
  {
    PlainMove(s, Fetch(s, t, n, reply), t);
  }

  lemma KeptByLand(s: State, t: nat, n: nat, value: string, at: nat)
    requires Ownership(s) && t < |s.tasks| && TaskOk(s, t) && n < |s.notifies| && s.tasks[t].pc == Stamped(n, value, at)
    ensures Ownership(Land(s, t, n, value, at))
  {
    PlainMove(s, Land(s, t, n, value, at), t);
  }

  lemma KeptByNotify(s: State, t: nat, n: nat, outcome: Outcome)
    requires Ownership(s) && t < |s.tasks| && TaskOk(s, t) && n < |s.notifies| && s.tasks[t].pc == Notifying(n, outcome)
    ensures Ownership(NotifyWaiters(s, t, n, outcome))
  {
    PlainMove(s, NotifyWaiters(s, t, n, outcome), t);
  }
}

/** No wakeup is lost: a waiter is registered on a Notify whose leader has yet to notify,
    or it has been woken. */
module InflightWaiters {
  import opened Wrappers
  import opened Inflight
  import opened InflightOwnership

  /** The error a returning task carries. */
  function ErrorOf(pc: Pc): Option<string> {
    match pc
    case ReadFresh(e) => Some(e)
    case ReadStale(e) => Some(e)
    case Done(Failed(e)) => Some(e)
    case _ => None
  }

  /** A task that has registered did so on a Notify of its own key. Until it returns it is
      registered there or woken; once it returns it has been woken, and never returns a fetch
      of its own nor an error of upstream's. */
  ghost predicate WaiterOk(s: State, t: nat)
    requires t < |s.tasks|
  {
    var task := s.tasks[t];
    && (task.pc.Enabled? || task.pc.Waiting? ==> task.waited == Some(task.pc.n))
    && (task.waited.Some? ==>
          && task.waited.value < |s.notifies|
          && (task.pc.Enabled? || task.pc.Waiting? || Returning(task.pc))
          && var notify := s.notifies[task.waited.value];
             && notify.leader < |s.tasks| && s.tasks[notify.leader].key == task.key
             && (t in notify.registered || t in notify.woken)
             && (Returning(task.pc) ==>
                   && t in notify.woken
                   && (ErrorOf(task.pc).Some? ==> ErrorOf(task.pc) == Some("upstream unavailable"))
                   && (task.pc.Done? ==> !task.pc.result.Fresh?)))
  }

  /** A Notify's lists hold only its own waiters; nobody is registered once its leader has
      notified and nobody is woken before. */
  ghost predicate ListsOk(s: State, n: nat)
    requires n < |s.notifies|
  {
    var notify := s.notifies[n];
    && notify.leader < |s.tasks|
    && (forall t :: t in notify.registered ==>
          t < |s.tasks| && s.tasks[t].waited == Some(n) && WillNotify(s.tasks[notify.leader].pc) == Some(n))
    && (forall t :: t in notify.woken ==>
          t < |s.tasks| && s.tasks[t].waited == Some(n) && Returning(s.tasks[notify.leader].pc))
  }

  ghost predicate Waiters(s: State) {
    && (forall t :: 0 <= t < |s.tasks| ==> WaiterOk(s, t))
    && (forall n :: 0 <= n < |s.notifies| ==> ListsOk(s, n))
  }

  lemma WaitersMove(s: State, s': State, t: nat)
    requires Waiters(s) && OnlyMoves(s, s', t)
    requires s'.tasks[t].waited == s.tasks[t].waited
    requires forall n :: 0 <= n < |s.notifies| ==>
      s'.notifies[n].registered == s.notifies[n].registered && s'.notifies[n].woken == s.notifies[n].woken
    requires forall n :: |s.notifies| <= n < |s'.notifies| ==>
      s'.notifies[n].leader < |s.tasks| && s'.notifies[n].registered == s'.notifies[n].woken == {}
    requires WillNotify(s.tasks[t].pc).Some? ==> WillNotify(s'.tasks[t].pc) == WillNotify(s.tasks[t].pc)
    requires Returning(s.tasks[t].pc) ==> Returning(s'.tasks[t].pc)
    requires WaiterOk(s', t)
    ensures Waiters(s')
  {
    forall u | 0 <= u < |s.tasks| ensures WaiterOk(s', u) {
      assert WaiterOk(s, u);
    }
    forall n | 0 <= n < |s'.notifies| ensures ListsOk(s', n) {
      assert n < |s.notifies| ==> ListsOk(s, n);
    }
  }

  lemma WaitersKept(s: State, step: Step)
    requires Ownership(s) && Waiters(s) && CanStep(s, step)
    ensures Waiters(ApplyStep(s, step))
  {
    if step.Act? {
      WaitersKeptByAct(s, step.t, step.input);
    } else {
      var s' := ApplyStep(s, step);
      forall u | 0 <= u < |s'.tasks| ensures WaiterOk(s', u) {
        assert u < |s.tasks| ==> WaiterOk(s, u);
      }
      forall n | 0 <= n < |s'.notifies| ensures ListsOk(s', n) {
        assert ListsOk(s, n);
      }
    }
  }

  lemma WaitersKeptByAct(s: State, t: nat, input: Input)
    requires Ownership(s) && Waiters(s) && CanAct(s, t, input)
    ensures Waiters(ApplyAct(s, t, input))
  {
    match s.tasks[t].pc
    case Locked => WaitersKeptByLook(s, t);
    case Found(n) => WaitersKeptByEnable(s, t, n);
    case Notifying(n, o) => WaitersKeptByNotify(s, t, n, o);
    case Fetching(n) => WaitersKeptByFetch(s, t, n, input.reply);
    case Stamped(n, v, at) => WaitersKeptByLand(s, t, n, v, at);
    case Done(_) => {}
    case Enabled(_) => WaitersKeptByLockMove(s, t, input);
    case Inserted(_) => WaitersKeptByLockMove(s, t, input);
    case WantLock => WaitersKeptByLockMove(s, t, input);
    case Unlisting(_, _) => WaitersKeptByLockMove(s, t, input);
    case Removing(_, _) => WaitersKeptByLockMove(s, t, input);
    case _ => WaitersKeptByUnlockedMove(s, t, input);
  }

  lemma WaitersKeptByLook(s: State, t: nat)
    requires Ownership(s) && Waiters(s) && t < |s.tasks| && s.tasks[t].pc.Locked?
    ensures Waiters(Look(s, t))
  {
    assert WaiterOk(s, t);
    WaitersMove(s, Look(s, t), t);
  }

  /** Registering happens while the Notify is still listed, so its leader has yet to notify. */
  lemma WaitersKeptByEnable(s: State, t: nat, n: nat)
    requires Ownership(s) && Waiters(s) && t < |s.tasks| && n < |s.notifies| && s.tasks[t].pc == Found(n)
    ensures Waiters(Enable(s, t, n))
  {
    var s' := Enable(s, t, n);
    assert TaskOk(s, t) && KeyOk(s, s.tasks[t].key) && WaiterOk(s, t);
    forall u | 0 <= u < |s.tasks| ensures WaiterOk(s', u) {
      assert WaiterOk(s, u);
    }
    forall m | 0 <= m < |s.notifies| ensures ListsOk(s', m) {
      assert ListsOk(s, m);
    }
  }

  /** Notifying wakes exactly the leader's own waiters. */
  lemma WaitersKeptByNotify(s: State, t: nat, n: nat, outcome: Outcome)
    requires Ownership(s) && Waiters(s) && t < |s.tasks| && n < |s.notifies| && s.tasks[t].pc == Notifying(n, outcome)
    ensures Waiters(NotifyWaiters(s, t, n, outcome))
  {
    var s' := NotifyWaiters(s, t, n, outcome);
    assert TaskOk(s, t) && WaiterOk(s, t);
    forall u | 0 <= u < |s.tasks| ensures WaiterOk(s', u) {
      assert WaiterOk(s, u);
    }
    forall m | 0 <= m < |s.notifies| ensures ListsOk(s', m) {
      assert ListsOk(s, m);
    }
  }

  lemma WaitersKeptByFetch(s: State, t: nat, n: nat, reply: Outcome)
    requires Waiters(s) && t < |s.tasks| && n < |s.notifies| && s.tasks[t].pc == Fetching(n)
    ensures Waiters(Fetch(s, t, n, reply))
  {
    assert WaiterOk(s, t);
    WaitersMove(s, Fetch(s, t, n, reply), t);
  }

  lemma WaitersKeptByLand(s: State, t: nat, n: nat, value: string, at: nat)
    requires Waiters(s) && t < |s.tasks| && n < |s.notifies| && s.tasks[t].pc == Stamped(n, value, at)
    ensures Waiters(Land(s, t, n, value, at))
  {
    assert WaiterOk(s, t);
    WaitersMove(s, Land(s, t, n, value, at), t);
  }

  lemma WaitersKeptByLockMove(s: State, t: nat, input: Input)
    requires Waiters(s) && CanAct(s, t, input)
    requires var pc := s.tasks[t].pc; pc.WantLock? || pc.Enabled? || pc.Inserted? || pc.Unlisting? || pc.Removing?
    ensures Waiters(ApplyAct(s, t, input))
  {
    assert WaiterOk(s, t);
    WaitersMove(s, ApplyAct(s, t, input), t);
  }

  lemma WaitersKeptByUnlockedMove(s: State, t: nat, input: Input)
    requires Waiters(s) && CanAct(s, t, input)
    requires var pc := s.tasks[t].pc;
             pc.SharedLookup? || pc.LocalLookup? || pc.Waiting? || pc.Storing? || pc.ReadFresh? || pc.ReadStale?
    ensures Waiters(ApplyAct(s, t, input))
  {
    assert WaiterOk(s, t);
    WaitersMove(s, ApplyAct(s, t, input), t);
  }
}

/** The pool's guarantees in every reachable state: connections stay in step with the peer,
    answers go to the calls that asked, and the skip window holds exactly when the failure
    written last is the latest. */
module MemcachedPoolTheorems {
  import opened Wrappers
  import opened MemcachedWire
  import opened MemcachedPool
  import opened MemcachedReplies
  import opened MemcachedPoolProofs
  import Utf8

  /// ## Connections

  /** A pooled connection has no unread bytes, none on their way and no outstanding command. */
  lemma IdleInSync(s: State, i: nat)
    requires Reachable(s) && i < |s.idle|
    ensures s.idle[i] < |s.links|
    ensures var link := s.links[s.idle[i]]; link.inbox == "" && link.wire == "" && link.pending.None? && link.holder.None?
  {
    hide GateOk;
    ReachableInv(s);
    assert IdleOk(s, i);
  }

  lemma PoolIsBounded(s: State)
    requires Reachable(s)
    ensures |s.idle| <= 8
    ensures forall i, j :: 0 <= i < j < |s.idle| ==> s.idle[i] != s.idle[j]
  {
    ReachableInv(s);
  }

  /** No two calls use one connection, and none uses a pooled one. */
  lemma ExclusiveUse(s: State, t: nat, u: nat)
    requires Reachable(s) && t < |s.calls| && u < |s.calls|
    requires LinkOf(s.calls[t].pc).Some? && LinkOf(s.calls[t].pc) == LinkOf(s.calls[u].pc)
    ensures t == u && LinkOf(s.calls[t].pc).value !in s.idle
  {
    hide GateOk;
    hide Clean;
    hide Exchanging;
    hide IsAnswered;
    ReachableInv(s);
    var c := LinkOf(s.calls[t].pc).value;
    assert CallOk(s, t) && CallOk(s, u);
    assert Holds(s, t, c) && Holds(s, u, c);
    forall i | 0 <= i < |s.idle|
      ensures s.idle[i] != c
    {
      assert IdleOk(s, i);
    }
  }

  /** No call is ever stuck: it can proceed or, while it talks to the peer, be timed out. */
  lemma NeverStuck(s: State, t: nat)
    requires Reachable(s) && t < |s.calls| && !s.calls[t].pc.Done?
    ensures CanAct(s, t, Proceeds) || CanAct(s, t, Fails)
  {
    hide GateOk;
    hide Clean;
    hide Exchanging;
    hide IsAnswered;
    hide ReadReply;
    ReachableInv(s);
    assert CallOk(s, t);
    if s.idle != [] {
      assert IdleOk(s, |s.idle| - 1);
    }
  }

  /** A call that succeeds was answered, and returns what its own reply says, however late
      other calls' replies arrived and whatever was cut short. */
  lemma ReturnsItsOwnReply(s: State, t: nat, got: Answer)
    requires Reachable(s) && t < |s.calls| && s.calls[t].pc == Done(Some(got))
    ensures s.calls[t].answered.Some?
    ensures ReadReply(s.calls[t].command, s.calls[t].answered.value, false) == Got(got, "")
    ensures got.Some? ==> s.calls[t].command.GetOp?
    ensures got.Some? ==> exists flags :: IsHit(s.calls[t].command.key, flags, got.value, s.calls[t].answered.value)
  {
    hide Inv;
    hide ReadReply;
    ReachableInv(s);
    FinishedIsAnswered(s, t, got);
    if got.Some? {
      ValueMeansHit(s.calls[t].command, s.calls[t].answered.value, got.value);
    }
  }

  lemma FinishedIsAnswered(s: State, t: nat, got: Answer)
    requires Inv(s) && t < |s.calls| && s.calls[t].pc == Done(Some(got))
    ensures IsAnswered(s.calls[t], got)
  {
    hide IsAnswered;
    assert CallOk(s, t);
  }

  /** A command with an empty key, one of more than 250 bytes or one with a control byte, a
      space or DEL, and a set with a TTL of zero, never reach the peer. */
  lemma RefusedIsNeverSent(s: State, t: nat)
    requires Reachable(s) && t < |s.calls|
    requires var command := s.calls[t].command;
             || command.key == "" || |command.key| > 250
             || (exists i :: 0 <= i < |command.key| && (command.key[i] as int <= 32 || command.key[i] as int == 127))
             || (command.SetOp? && command.ttl == 0)
    ensures s.calls[t].pc == Done(None)
  {
    hide GateOk;
    ReachableInv(s);
    assert CallOk(s, t);
  }

  /// ## The skip window

  /** A call at the gate passes if and only if no failure was recorded or 30 s have passed
      since the stamp of the failure written last. */
  lemma GateIsExact(s: State, t: nat)
    requires Reachable(s) && t < |s.calls| && s.calls[t].pc.Gate?
    ensures PassGate(s, t).calls[t].pc == Popping
       <==> s.marks == [] || s.marks[|s.marks| - 1] + 30_000_000_000 <= s.clock
    ensures PassGate(s, t).calls[t].pc != Popping ==> PassGate(s, t) == Goto(s, t, Done(None))
  {
    hide CallOk;
    hide PoolOk;
    ReachableInv(s);
  }

  function After(s: State, elapsed: nat): State {
    s.(clock := s.clock + elapsed)
  }

  /** While the window of the `i`-th failure lasts and nothing else is written, every call at
      the gate is refused if and only if the failure written last is not an older one. */
  lemma WindowHoldsIff(s: State, t: nat, i: nat)
    requires Reachable(s) && t < |s.calls| && s.calls[t].pc.Gate? && i < |s.marks|
    requires s.clock < s.marks[i] + 30 * SECOND
    ensures s.marks[i] <= s.clock
    ensures (forall elapsed :: s.clock + elapsed < s.marks[i] + 30 * SECOND ==>
               PassGate(After(s, elapsed), t).calls[t].pc == Done(None))
       <==> s.marks[i] <= s.marks[|s.marks| - 1]
  {
    hide CallOk;
    hide PoolOk;
    ReachableInv(s);
    var last := s.marks[|s.marks| - 1];
    if last < s.marks[i] {
      var elapsed := if last + SKIP_FOR <= s.clock then 0 else last + SKIP_FOR - s.clock;
      assert PassGate(After(s, elapsed), t).calls[t].pc == Popping;
    }
  }

  lemma ReachableStep(s: State, step: Step)
    requires Reachable(s) && CanStep(s, step)
    ensures Reachable(ApplyStep(s, step))
  {
    var steps :| Run(Init, steps) == Some(s);
    var more := steps + [step];
    assert more[..|more| - 1] == steps;
    assert Run(Init, more) == Some(ApplyStep(s, step));
  }

  /** Calls for one key, none of which has a connection yet. */
  function Calls(pcs: seq<Pc>): seq<Call> {
    seq(|pcs|, i requires 0 <= i < |pcs| => Call(GetOp("k"), pcs[i], None))
  }

  function Unconnected(clock: nat, skipUntil: Option<nat>, pcs: seq<Pc>, marks: seq<nat>): State {
    State(clock, skipUntil, [], [], Calls(pcs), marks)
  }

  lemma Moved(s: State, pcs: seq<Pc>, t: nat, fate: Fate, s': State, pc: Pc)
    requires Reachable(s) && s == Unconnected(s.clock, s.skipUntil, pcs, s.marks) && t < |pcs|
    requires CanAct(s, t, fate) && ApplyAct(s, t, fate) == Goto(s, t, pc).(skipUntil := s'.skipUntil, marks := s'.marks)
    requires s' == Unconnected(s.clock, s'.skipUntil, pcs[t := pc], s'.marks)
    ensures Reachable(s')
  {
    hide ApplyAct;
    hide CanAct;
    ReachableStep(s, Act(t, fate));
    assert Calls(pcs)[t := Calls(pcs)[t].(pc := pc)] == Calls(pcs[t := pc]);
  }

  /** A call passes the gate, cannot connect and stamps its failure. */
  lemma CannotConnect(clock: nat, pcs: seq<Pc>, t: nat)
    requires t < |pcs| && pcs[t] == Gate && Reachable(Unconnected(clock, None, pcs, []))
    ensures Reachable(Unconnected(clock, None, pcs[t := Failing], []))
  {
    var s0 := Unconnected(clock, None, pcs, []);
    var s1 := Unconnected(clock, None, pcs[t := Popping], []);
    var s2 := Unconnected(clock, None, pcs[t := Connecting], []);
    var s3 := Unconnected(clock, None, pcs[t := Failing], []);
    Moved(s0, pcs, t, Proceeds, s1, Popping);
    Moved(s1, pcs[t := Popping], t, Proceeds, s2, Connecting);
    Moved(s2, pcs[t := Connecting], t, Fails, s3, Failing);
  }

  lemma Stamps(clock: nat, pcs: seq<Pc>, t: nat)
    requires t < |pcs| && pcs[t] == Failing && Reachable(Unconnected(clock, None, pcs, []))
    ensures Reachable(Unconnected(clock, None, pcs[t := Marking(clock)], []))
  {
    Moved(Unconnected(clock, None, pcs, []), pcs, t, Proceeds, Unconnected(clock, None, pcs[t := Marking(clock)], []), Marking(clock));
  }

  lemma Marks(s: State, pcs: seq<Pc>, t: nat, at: nat)
    requires Reachable(s) && s == Unconnected(s.clock, s.skipUntil, pcs, s.marks) && t < |pcs| && pcs[t] == Marking(at)
    ensures Reachable(Unconnected(s.clock, Some(at + SKIP_FOR), pcs[t := Done(None)], s.marks + [at]))
  {
    Moved(s, pcs, t, Proceeds, Unconnected(s.clock, Some(at + SKIP_FOR), pcs[t := Done(None)], s.marks + [at]), Done(None));
  }

  lemma ThreeCallsStart()
    ensures Reachable(Unconnected(0, None, [Gate, Gate, Gate], []))
  {
    assert Run(Init, []) == Some(Init);
    Utf8.AsciiValid("k");
    assert Accepted(GetOp("k"));
    var s := Init;
    ReachableStep(s, Start(GetOp("k")));
    s := ApplyStep(s, Start(GetOp("k")));
    ReachableStep(s, Start(GetOp("k")));
    s := ApplyStep(s, Start(GetOp("k")));
    ReachableStep(s, Start(GetOp("k")));
    s := ApplyStep(s, Start(GetOp("k")));
    assert s.calls == Calls([Gate, Gate, Gate]);
  }

  /** The stamp is read before the lock is taken, so of two racing failures the older may
      be written last: 1 s after a failure stamped at 29 s, a call passes. */
  lemma RacingFailuresCutTheWindow() returns (s: State)
    ensures Reachable(s) && |s.calls| == 3 && s.calls[2].pc.Gate?
    ensures s.marks == [29 * SECOND, 0] && s.clock == 30 * SECOND
    ensures PassGate(s, 2).calls[2].pc == Popping
  {
    hide Reachable;
    ThreeCallsStart();
    CannotConnect(0, [Gate, Gate, Gate], 0);
    assert [Gate, Gate, Gate][0 := Failing] == [Failing, Gate, Gate];
    CannotConnect(0, [Failing, Gate, Gate], 1);
    assert [Failing, Gate, Gate][1 := Failing] == [Failing, Failing, Gate];
    Stamps(0, [Failing, Failing, Gate], 0);
    var at := 29 * SECOND;
    var pcs := [Marking(0), Failing, Gate];
    assert [Failing, Failing, Gate][0 := Marking(0)] == pcs;
    ReachableStep(Unconnected(0, None, pcs, []), Tick(at));
    assert Reachable(Unconnected(at, None, pcs, []));
    Stamps(at, pcs, 1);
    pcs := [Marking(0), Marking(at), Gate];
    assert [Marking(0), Failing, Gate][1 := Marking(at)] == pcs;
    Marks(Unconnected(at, None, pcs, []), pcs, 1, at);
    pcs := [Marking(0), Done(None), Gate];
    assert [Marking(0), Marking(at), Gate][1 := Done(None)] == pcs && [] + [at] == [at];
    Marks(Unconnected(at, Some(at + SKIP_FOR), pcs, [at]), pcs, 0, 0);
    pcs := [Done(None), Done(None), Gate];
    assert [Marking(0), Done(None), Gate][0 := Done(None)] == pcs && [at] + [0] == [at, 0];
    s := Unconnected(at, Some(SKIP_FOR), pcs, [at, 0]);
    ReachableStep(s, Tick(SECOND));
    s := ApplyStep(s, Tick(SECOND));
  }
}

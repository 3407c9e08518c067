/** What every step of the pool keeps, and what follows for every reachable state. */
module MemcachedPoolProofs {
  import opened Wrappers
  import opened MemcachedWire
  import opened MemcachedPool
  import opened MemcachedReplies
  import Utf8

  /// ## Invariant

  /** Nothing to read, nothing on its way and no command unanswered. */
  ghost predicate Clean(link: Link) {
    link.inbox == "" && link.wire == "" && link.pending.None?
  }

  /** The peer has the command of call `t` and nothing else, or exactly one reply to it is
      under way. */
  ghost predicate Exchanging(link: Link, t: nat, call: Call) {
    if link.pending.Some? then
      link.pending == Some(t) && link.inbox == link.wire == link.lost == ""
    else
      && Conforms(call.command, link.inbox + (link.wire + link.lost))
      && call.answered == Some(link.inbox + (link.wire + link.lost))
      && (link.closed ==> link.wire == "") && (!link.closed ==> link.lost == "")
  }

  /** The call's result is what the peer's reply to this very call gives. */
  ghost predicate IsAnswered(call: Call, got: Answer) {
    call.answered.Some? && Conforms(call.command, call.answered.value) && Gives(call.command, call.answered.value, got)
  }

  ghost predicate Holds(s: State, t: nat, c: nat) {
    c < |s.links| && s.links[c].holder == Some(t)
  }

  ghost predicate CallOk(s: State, t: nat)
    requires t < |s.calls|
  {
    (s.calls[t].pc != Done(None) ==> Accepted(s.calls[t].command)) &&
    match s.calls[t].pc
    case Ready(c) => Holds(s, t, c) && Clean(s.links[c])
    case Awaiting(c) => Holds(s, t, c) && Exchanging(s.links[c], t, s.calls[t])
    case Returning(c, got) => Holds(s, t, c) && Clean(s.links[c]) && IsAnswered(s.calls[t], got)
    case Marking(at) => at <= s.clock
    case Done(Some(got)) => IsAnswered(s.calls[t], got)
    case _ => true
  }

  ghost predicate IdleOk(s: State, i: nat)
    requires i < |s.idle|
  {
    s.idle[i] < |s.links| && s.links[s.idle[i]].holder.None? && Clean(s.links[s.idle[i]])
  }

  ghost predicate PoolOk(s: State) {
    && |s.idle| <= POOL_SIZE
    && (forall i :: 0 <= i < |s.idle| ==> IdleOk(s, i))
    && (forall i, j :: 0 <= i < j < |s.idle| ==> s.idle[i] != s.idle[j])
  }

  /** The window is that of the failure written last, or over. */
  ghost predicate GateOk(s: State) {
    && (forall i :: 0 <= i < |s.marks| ==> s.marks[i] <= s.clock)
    && match s.skipUntil
       case Some(until) => s.marks != [] && until == s.marks[|s.marks| - 1] + SKIP_FOR
       case None => s.marks == [] || s.marks[|s.marks| - 1] + SKIP_FOR <= s.clock
  }

  /** A command still unanswered belongs to the call waiting on this connection, or to one
      that has given up. */
  ghost predicate LinkOk(s: State, c: nat)
    requires c < |s.links|
  {
    s.links[c].pending.Some? ==>
      var t := s.links[c].pending.value;
      && t < |s.calls|
      && (s.calls[t].pc == Awaiting(c) || GivenUp(s.calls[t].pc))
  }

  predicate GivenUp(pc: Pc) {
    pc.Failing? || pc.Marking? || pc == Done(None)
  }

  ghost predicate Inv(s: State) {
    && (forall t :: 0 <= t < |s.calls| ==> CallOk(s, t))
    && (forall c :: 0 <= c < |s.links| ==> LinkOk(s, c))
    && PoolOk(s)
    && GateOk(s)
  }

  /// ## Frames

  function LinkOf(pc: Pc): Option<nat> {
    match pc
    case Ready(c) => Some(c)
    case Awaiting(c) => Some(c)
    case Returning(c, _) => Some(c)
    case _ => None
  }

  /** Call `u` is untouched, and so is the connection it uses. */
  ghost predicate KeepsCall(s: State, s': State, u: nat) {
    && u < |s.calls| <= |s'.calls| && s'.calls[u] == s.calls[u] && s.clock <= s'.clock
    && (LinkOf(s.calls[u].pc).Some? ==>
          var c := LinkOf(s.calls[u].pc).value;
          c < |s.links| <= |s'.links| && s'.links[c] == s.links[c])
  }

  lemma KeptCallOk(s: State, s': State, u: nat)
    requires KeepsCall(s, s', u) && CallOk(s, u)
    ensures CallOk(s', u)
  {
    hide Clean;
    hide Exchanging;
    hide IsAnswered;
  }

  /** A step of call `t` may change the connection `c` only. */
  ghost predicate StepsAlone(s: State, s': State, t: nat, c: nat) {
    && t < |s.calls| == |s'.calls| && s.clock == s'.clock
    && (forall u :: 0 <= u < |s.calls| && u != t ==> s'.calls[u] == s.calls[u])
    && |s.links| <= |s'.links|
    && (forall d :: 0 <= d < |s.links| && d != c ==> s'.links[d] == s.links[d])
    && (c < |s.links| ==> s.links[c].holder.None? || s.links[c].holder == Some(t))
    && (forall d :: |s.links| <= d < |s'.links| ==> s'.links[d].pending.None?)
  }

  lemma OthersKept(s: State, s': State, t: nat, c: nat)
    requires Inv(s) && StepsAlone(s, s', t, c)
    ensures forall u :: 0 <= u < |s.calls| && u != t ==> CallOk(s', u)
  {
    hide Clean;
    hide Exchanging;
    hide IsAnswered;
    forall u | 0 <= u < |s.calls| && u != t
      ensures CallOk(s', u)
    {
      assert CallOk(s, u);
      KeptCallOk(s, s', u);
    }
  }

  lemma OtherLinksKept(s: State, s': State, t: nat, c: nat)
    requires Inv(s) && StepsAlone(s, s', t, c)
    requires !s.calls[t].pc.Awaiting? || GivenUp(s'.calls[t].pc) || s.calls[t].pc == Awaiting(c)
    requires GivenUp(s.calls[t].pc) ==> GivenUp(s'.calls[t].pc)
    ensures forall d :: 0 <= d < |s'.links| && d != c ==> LinkOk(s', d)
  {
    forall d | 0 <= d < |s'.links| && d != c
      ensures LinkOk(s', d)
    {
      if d < |s.links| {
        assert LinkOk(s, d);
      }
    }
  }

  /** Connections may be added, but none that is pooled is touched. */
  lemma PoolKept(s: State, s': State)
    requires PoolOk(s) && s'.idle == s.idle && s.links <= s'.links
    ensures PoolOk(s')
  {
    hide Clean;
    forall i | 0 <= i < |s.idle|
      ensures IdleOk(s', i)
    {
      assert IdleOk(s, i);
    }
  }

  /// ## Steps of a call

  lemma GateKeeps(s: State, t: nat)
    requires Inv(s) && t < |s.calls| && s.calls[t].pc.Gate?
    ensures Inv(PassGate(s, t))
  {
    hide Clean;
    hide Exchanging;
    hide IsAnswered;
    var s' := PassGate(s, t);
    assert CallOk(s, t);
    OthersKept(s, s', t, |s.links|);
    OtherLinksKept(s, s', t, |s.links|);
    PoolKept(s, s');
  }

  lemma PopKeeps(s: State, t: nat)
    requires Inv(s) && t < |s.calls| && s.calls[t].pc.Popping? && CanAct(s, t, Proceeds)
    ensures Inv(Pop(s, t))
  {
    hide Exchanging;
    hide IsAnswered;
    var s' := Pop(s, t);
    assert CallOk(s, t);
    var c := if s.idle == [] then |s.links| else s.idle[|s.idle| - 1];
    if s.idle != [] {
      assert IdleOk(s, |s.idle| - 1);
      assert LinkOk(s', c);
    }
    OthersKept(s, s', t, c);
    OtherLinksKept(s, s', t, c);
    forall i | 0 <= i < |s'.idle|
      ensures IdleOk(s', i)
    {
      assert IdleOk(s, i);
    }
  }

  lemma ConnectKeeps(s: State, t: nat)
    requires Inv(s) && t < |s.calls| && s.calls[t].pc.Connecting?
    ensures Inv(Connect(s, t))
  {
    hide Exchanging;
    hide IsAnswered;
    var s' := Connect(s, t);
    assert CallOk(s, t);
    OthersKept(s, s', t, |s'.links|);
    OtherLinksKept(s, s', t, |s'.links|);
    PoolKept(s, s');
  }

  /** An idle connection is not the one a call holds. */
  lemma IdleKept(s: State, s': State, t: nat, c: nat)
    requires Inv(s) && StepsAlone(s, s', t, c) && s'.idle == s.idle && Holds(s, t, c)
    ensures PoolOk(s')
  {
    hide Clean;
    forall i | 0 <= i < |s.idle|
      ensures IdleOk(s', i)
    {
      assert IdleOk(s, i);
    }
  }

  lemma WriteKeeps(s: State, t: nat, c: nat)
    requires Inv(s) && t < |s.calls| && s.calls[t].pc == Ready(c)
    ensures c < |s.links| && Inv(Write(s, t, c))
  {
    hide IsAnswered;
    assert CallOk(s, t);
    var s' := Write(s, t, c);
    OthersKept(s, s', t, c);
    OtherLinksKept(s, s', t, c);
    IdleKept(s, s', t, c);
  }

  /** A call only moves on with the whole of its own reply, and leaves nothing behind. */
  lemma GotMeansAnswered(link: Link, t: nat, call: Call)
    requires Exchanging(link, t, call) && ReadReply(call.command, link.inbox, link.closed).Got?
    ensures Clean(link.(inbox := ReadReply(call.command, link.inbox, link.closed).rest))
    ensures IsAnswered(call, ReadReply(call.command, link.inbox, link.closed).value)
  {
    hide Conforms;
    hide Gives;
    if link.pending.Some? {
      NothingGivesNothing(call.command, link.closed);
    } else {
      AnswerIsWhole(call.command, link.inbox, link.wire + link.lost, link.closed);
    }
  }

  lemma NothingGivesNothing(command: Command, closed: bool)
    ensures !ReadReply(command, "", closed).Got?
  {}

  lemma ReceiveKeeps(s: State, t: nat, c: nat)
    requires Inv(s) && t < |s.calls| && s.calls[t].pc == Awaiting(c)
    ensures c < |s.links| && Inv(Receive(s, t, c))
  {
    hide ReadReply;
    hide IsAnswered;
    hide Exchanging;
    assert CallOk(s, t);
    var s' := Receive(s, t, c);
    if ReadReply(s.calls[t].command, s.links[c].inbox, s.links[c].closed).Got? {
      GotMeansAnswered(s.links[c], t, s.calls[t]);
      StillAnswered(s.calls[t], s'.calls[t]);
    }
    assert LinkOk(s, c) && LinkOk(s', c);
    OthersKept(s, s', t, c);
    OtherLinksKept(s, s', t, c);
    IdleKept(s, s', t, c);
  }

  /** Only the command and the reply matter to what a call was answered. */
  lemma StillAnswered(call: Call, call': Call)
    requires call'.command == call.command && call'.answered == call.answered
    ensures forall got :: IsAnswered(call, got) ==> IsAnswered(call', got)
  {}

  lemma PushKeeps(s: State, t: nat, c: nat, got: Answer)
    requires Inv(s) && t < |s.calls| && s.calls[t].pc == Returning(c, got)
    ensures c < |s.links| && Inv(Push(s, t, c, got))
  {
    hide IsAnswered;
    hide Exchanging;
    assert CallOk(s, t);
    var s' := Push(s, t, c, got);
    StillAnswered(s.calls[t], s'.calls[t]);
    assert LinkOk(s', c);
    OthersKept(s, s', t, c);
    OtherLinksKept(s, s', t, c);
    forall i | 0 <= i < |s.idle|
      ensures IdleOk(s', i) && s.idle[i] != c
    {
      assert IdleOk(s, i);
    }
  }

  lemma GiveUpKeeps(s: State, t: nat)
    requires Inv(s) && t < |s.calls|
    requires s.calls[t].pc.Connecting? || s.calls[t].pc.Ready? || s.calls[t].pc.Awaiting?
    ensures Inv(Goto(s, t, Failing))
  {
    hide Clean;
    hide IsAnswered;
    hide Exchanging;
    var s' := Goto(s, t, Failing);
    assert CallOk(s, t);
    OthersKept(s, s', t, |s.links|);
    OtherLinksKept(s, s', t, |s.links|);
    PoolKept(s, s');
  }

  lemma StampKeeps(s: State, t: nat)
    requires Inv(s) && t < |s.calls| && s.calls[t].pc.Failing?
    ensures Inv(Goto(s, t, Marking(s.clock)))
  {
    hide Clean;
    hide IsAnswered;
    hide Exchanging;
    var s' := Goto(s, t, Marking(s.clock));
    assert CallOk(s, t);
    OthersKept(s, s', t, |s.links|);
    OtherLinksKept(s, s', t, |s.links|);
    PoolKept(s, s');
  }

  lemma MarkKeeps(s: State, t: nat, at: nat)
    requires Inv(s) && t < |s.calls| && s.calls[t].pc == Marking(at)
    ensures Inv(MarkFailed(s, t, at))
  {
    hide Clean;
    hide IsAnswered;
    hide Exchanging;
    var s' := MarkFailed(s, t, at);
    assert CallOk(s, t);
    OthersKept(s, s', t, |s.links|);
    OtherLinksKept(s, s', t, |s.links|);
    PoolKept(s, s');
  }

  lemma ActKeeps(s: State, t: nat, fate: Fate)
    requires Inv(s) && CanAct(s, t, fate)
    ensures Inv(ApplyAct(s, t, fate))
  {
    hide Inv;
    match s.calls[t].pc {
      case Gate => GateKeeps(s, t);
      case Popping => PopKeeps(s, t);
      case Connecting =>
        if fate.Proceeds? { ConnectKeeps(s, t); } else { GiveUpKeeps(s, t); }
      case Ready(c) =>
        if fate.Proceeds? { WriteKeeps(s, t, c); } else { GiveUpKeeps(s, t); }
      case Awaiting(c) =>
        if fate.Proceeds? { ReceiveKeeps(s, t, c); } else { GiveUpKeeps(s, t); }
      case Returning(c, got) => PushKeeps(s, t, c, got);
      case Failing => StampKeeps(s, t);
      case Marking(at) => MarkKeeps(s, t, at);
      case Done(_) =>
    }
  }

  /// ## Steps of the peer and the clock

  /** The peer or the network acts on connection `c`, perhaps answering call `r`. */
  ghost predicate PeerActs(s: State, s': State, c: nat) {
    && s' == s.(links := s'.links, calls := s'.calls)
    && c < |s.links| == |s'.links| && |s.calls| == |s'.calls|
    && s'.links[c].holder == s.links[c].holder
    && (forall d :: 0 <= d < |s.links| && d != c ==> s'.links[d] == s.links[d])
    && (Clean(s.links[c]) ==> Clean(s'.links[c]))
    && (s'.links[c].pending.Some? ==> s'.links[c].pending == s.links[c].pending)
    && forall u :: 0 <= u < |s.calls| ==>
         s'.calls[u] == s.calls[u]
         || (s.links[c].pending == Some(u) && s'.calls[u] == s.calls[u].(answered := s'.calls[u].answered))
  }

  lemma PeerKeeps(s: State, s': State, c: nat)
    requires Inv(s) && PeerActs(s, s', c)
    requires forall t :: 0 <= t < |s.calls| && Exchanging(s.links[c], t, s.calls[t]) ==> Exchanging(s'.links[c], t, s'.calls[t])
    ensures Inv(s')
  {
    hide Clean;
    hide Exchanging;
    hide IsAnswered;
    assert LinkOk(s, c);
    forall t | 0 <= t < |s.calls|
      ensures CallOk(s', t)
    {
      assert CallOk(s, t);
    }
    forall d | 0 <= d < |s.links|
      ensures LinkOk(s', d)
    {
      assert LinkOk(s, d);
    }
    forall i | 0 <= i < |s.idle|
      ensures IdleOk(s', i)
    {
      assert IdleOk(s, i);
    }
  }

  lemma ReplyKeeps(s: State, c: nat, reply: string)
    requires Inv(s) && CanStep(s, Reply(c, reply))
    ensures Inv(ApplyStep(s, Reply(c, reply)))
  {
    hide Conforms;
    hide Inv;
    var s' := ApplyStep(s, Reply(c, reply));
    assert "" + (reply + "") == reply && "" + reply == reply;
    PeerKeeps(s, s', c);
  }

  lemma DeliverKeeps(s: State, c: nat, n: nat)
    requires Inv(s) && CanStep(s, Deliver(c, n))
    ensures Inv(ApplyStep(s, Deliver(c, n)))
  {
    hide Conforms;
    hide Inv;
    var s' := ApplyStep(s, Deliver(c, n));
    var link := s.links[c];
    assert link.inbox + link.wire[..n] + (link.wire[n..] + link.lost) == link.inbox + (link.wire + link.lost);
    PeerKeeps(s, s', c);
  }

  lemma CloseKeeps(s: State, c: nat)
    requires Inv(s) && CanStep(s, Close(c))
    ensures Inv(ApplyStep(s, Close(c)))
  {
    hide Conforms;
    hide Inv;
    var s' := ApplyStep(s, Close(c));
    var link := s.links[c];
    assert link.wire + "" == "" + link.wire;
    PeerKeeps(s, s', c);
  }

  lemma StartKeeps(s: State, command: Command)
    requires Inv(s) && CanStep(s, Start(command))
    ensures Inv(ApplyStep(s, Start(command)))
  {
    hide Clean;
    hide Exchanging;
    hide IsAnswered;
    var s' := ApplyStep(s, Start(command));
    assert forall t :: 0 <= t < |s.calls| ==> CallOk(s, t) && CallOk(s', t);
    assert forall d :: 0 <= d < |s.links| ==> LinkOk(s, d) && LinkOk(s', d);
    PoolKept(s, s');
  }

  lemma TickKeeps(s: State, elapsed: nat)
    requires Inv(s)
    ensures Inv(ApplyStep(s, Tick(elapsed)))
  {
    hide Clean;
    hide Exchanging;
    hide IsAnswered;
    var s' := ApplyStep(s, Tick(elapsed));
    assert forall t :: 0 <= t < |s.calls| ==> CallOk(s, t) && CallOk(s', t);
    assert forall d :: 0 <= d < |s.links| ==> LinkOk(s, d) && LinkOk(s', d);
    PoolKept(s, s');
  }

  lemma StepKeeps(s: State, step: Step)
    requires Inv(s) && CanStep(s, step)
    ensures Inv(ApplyStep(s, step))
  {
    hide Inv;
    match step {
      case Start(command) => StartKeeps(s, command);
      case Tick(elapsed) => TickKeeps(s, elapsed);
      case Reply(c, reply) => ReplyKeeps(s, c, reply);
      case Deliver(c, n) => DeliverKeeps(s, c, n);
      case Close(c) => CloseKeeps(s, c);
      case Act(t, fate) => ActKeeps(s, t, fate);
    }
  }

  lemma {:induction false} RunKeeps(steps: seq<Step>)
    ensures Run(Init, steps).Some? ==> Inv(Run(Init, steps).value)
  {
    hide Inv;
    hide ApplyStep;
    hide CanStep;
    if steps == [] {
      InitInv();
    } else {
      RunKeeps(steps[..|steps| - 1]);
      var before := Run(Init, steps[..|steps| - 1]);
      if before.Some? && CanStep(before.value, steps[|steps| - 1]) {
        StepKeeps(before.value, steps[|steps| - 1]);
      }
    }
  }

  lemma InitInv()
    ensures Inv(Init)
  {}

  lemma ReachableInv(s: State)
    requires Reachable(s)
    ensures Inv(s)
  {
    var steps :| Run(Init, steps) == Some(s);
    RunKeeps(steps);
  }
}

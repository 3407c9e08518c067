/** The client's shared objects as its calls update them in place: the idle connections and
    the skip window, each behind its lock. Each method is one atomic step, and what it
    achieves holds in every state that calls, the peer and the clock can bring about. */
module MemcachedClient {
  import opened Wrappers
  import opened MemcachedConn
  import P = MemcachedPool
  import R = MemcachedReplies
  import I = MemcachedPoolProofs
  import T = MemcachedPoolTheorems
  import G = MemcachedPoolProgress
  import S = MemcachedPoolSteps
  import Utf8

  class Client {
    var clock: nat
    var skipUntil: Option<nat>
    var idle: seq<nat>
    var links: seq<P.Link>
    var calls: seq<P.Call>
    var marks: seq<nat>

    ghost function View(): P.State
      reads this
    {
      P.State(clock, skipUntil, idle, links, calls, marks)
    }

    /** Some run of the pool leads here. */
    ghost predicate Valid()
      reads this
    {
      P.Reachable(View())
    }

    constructor ()
      ensures Valid() && View() == P.Init
    {
      clock, skipUntil, idle, links, calls, marks := 0, None, [], [], [], [];
      new;
      assert P.Run(P.Init, []) == Some(P.Init);
    }

    /// ## The environment

    /** A new call; its index is its name. It starts at the gate if and only if its key is plain
        and a set has a positive TTL; other commands end at once. */
    method Start(command: P.Command) returns (t: nat)
      requires Valid() && Utf8.Valid(command.key)
      modifies this`calls
      ensures Valid() && t == old(|calls|)
      ensures |calls| == t + 1 && calls == old(calls) + [P.Call(command, calls[t].pc, None)]
      ensures calls[t].pc == if R.IsPlainKey(command.key) && (command.SetOp? ==> command.ttl >= 1) then P.Gate else P.Done(None)
    {
      hide P.Reachable;
      R.AcceptedIsPlain(command);
      T.ReachableStep(View(), P.Start(command));
      t := |calls|;
      calls := calls + [P.Call(command, if P.Accepted(command) then P.Gate else P.Done(None), None)];
    }

    method Tick(elapsed: nat)
      requires Valid()
      modifies this`clock
      ensures Valid() && clock == old(clock) + elapsed
    {
      hide P.Reachable;
      T.ReachableStep(View(), P.Tick(elapsed));
      clock := clock + elapsed;
    }

    /** The peer answers the command it has read. */
    method Reply(c: nat, reply: string)
      requires Valid() && P.CanStep(View(), P.Reply(c, reply))
      modifies this`links, this`calls
      ensures Valid() && View() == P.ApplyStep(old(View()), P.Reply(c, reply))
    {
      hide P.Reachable;
      hide P.Conforms;
      T.ReachableStep(View(), P.Reply(c, reply));
      var t := links[c].pending.value;
      calls := calls[t := calls[t].(answered := Some(reply))];
      links := links[c := links[c].(wire := links[c].wire + reply, pending := None)];
    }

    method Deliver(c: nat, n: nat)
      requires Valid() && c < |links| && n <= |links[c].wire|
      modifies this`links
      ensures Valid() && View() == P.ApplyStep(old(View()), P.Deliver(c, n))
    {
      hide P.Reachable;
      T.ReachableStep(View(), P.Deliver(c, n));
      links := links[c := links[c].(inbox := links[c].inbox + links[c].wire[..n], wire := links[c].wire[n..])];
    }

    method Close(c: nat)
      requires Valid() && c < |links| && !links[c].closed
      modifies this`links
      ensures Valid() && View() == P.ApplyStep(old(View()), P.Close(c))
    {
      hide P.Reachable;
      T.ReachableStep(View(), P.Close(c));
      links := links[c := links[c].(closed := true, lost := links[c].wire, wire := "")];
    }

    method Goto(t: nat, pc: P.Pc)
      requires t < |calls|
      modifies this`calls
      ensures View() == P.Goto(old(View()), t, pc)
    {
      calls := calls[t := calls[t].(pc := pc)];
    }

    /// ## One call

    /** The call passes if and only if no failure was recorded or 30 s have passed since the
        stamp of the failure written last. */
    method PassGate(t: nat)
      requires Valid() && t < |calls| && calls[t].pc.Gate?
      modifies this`calls, this`skipUntil
      ensures Valid() && View() == P.PassGate(old(View()), t)
      ensures calls[t].pc.Popping? <==> marks == [] || marks[|marks| - 1] + 30 * P.SECOND <= clock
      ensures !calls[t].pc.Popping? ==> calls[t].pc == P.Done(None) && skipUntil == old(skipUntil)
    {
      hide P.Reachable;
      T.GateIsExact(View(), t);
      T.ReachableStep(View(), P.Act(t, P.Proceeds));
      match skipUntil {
        case Some(until) =>
          if until > clock {
            Goto(t, P.Done(None));
            return;
          }
          skipUntil := None;
        case None =>
      }
      Goto(t, P.Popping);
    }

    /** A connection taken from the pool is in sync and this call's alone. */
    method Pop(t: nat)
      requires Valid() && t < |calls| && calls[t].pc.Popping?
      modifies this`calls, this`idle, this`links
      ensures old(idle != [] ==> idle[|idle| - 1] < |links|) && Valid() && View() == P.Pop(old(View()), t)
      ensures calls[t].pc.Connecting? <==> old(idle) == []
      ensures old(idle) != [] ==>
                calls[t].pc == P.Ready(old(idle)[|old(idle)| - 1]) && idle == old(idle)[..|old(idle)| - 1]
      ensures !calls[t].pc.Connecting? ==>
                calls[t].pc.Ready? && S.InSync(View(), calls[t].pc.link) && S.IsOwn(View(), t, calls[t].pc.link)
    {
      hide P.Reachable;
      S.PoolIsSound(View());
      T.ReachableStep(View(), P.Act(t, P.Proceeds));
      if idle == [] {
        Goto(t, P.Connecting);
        return;
      }
      var c := idle[|idle| - 1];
      idle := idle[..|idle| - 1];
      links := links[c := links[c].(holder := Some(t))];
      Goto(t, P.Ready(c));
      S.UsesItsOwn(View(), t, c);
    }

    method Connect(t: nat)
      requires Valid() && t < |calls| && calls[t].pc.Connecting?
      modifies this`calls, this`links
      ensures Valid() && View() == P.Connect(old(View()), t)
      ensures calls[t].pc.Ready? && S.InSync(View(), calls[t].pc.link) && S.IsOwn(View(), t, calls[t].pc.link)
    {
      hide P.Reachable;
      T.ReachableStep(View(), P.Act(t, P.Proceeds));
      Goto(t, P.Ready(|links|));
      links := links + [P.Link("", "", None, false, "", Some(t))];
      S.UsesItsOwn(View(), t, |links| - 1);
    }

    /** The peer has this call's command, and the connection nothing else. */
    method Write(t: nat, c: nat)
      requires Valid() && t < |calls| && calls[t].pc == P.Ready(c)
      modifies this`calls, this`links
      ensures c < |links| == old(|links|) && Valid() && View() == P.Write(old(View()), t, c)
      ensures links[c].pending == Some(t) && links[c].inbox == links[c].wire == "" && S.IsOwn(View(), t, c)
    {
      hide P.Reachable;
      S.UsesItsOwn(View(), t, c);
      T.ReachableStep(View(), P.Act(t, P.Proceeds));
      links := links[c := links[c].(pending := Some(t), lost := "")];
      Goto(t, P.Awaiting(c));
      S.UsesItsOwn(View(), t, c);
    }

    /** An answer accepted is what the peer's reply to this very call says, and leaves the
        connection in sync. */
    method Receive(t: nat, c: nat)
      requires Valid() && P.CanAct(View(), t, P.Proceeds) && calls[t].pc == P.Awaiting(c)
      modifies this`calls, this`links
      ensures Valid() && View() == P.Receive(old(View()), t, c)
      ensures calls[t].pc.Returning? || calls[t].pc.Failing?
      ensures calls[t].pc.Returning? ==> I.IsAnswered(calls[t], calls[t].pc.got) && S.InSync(View(), c)
    {
      hide P.Reachable;
      hide I.IsAnswered;
      T.ReachableStep(View(), P.Act(t, P.Proceeds));
      var conn := new Conn(links[c].inbox, links[c].closed);
      var got := ReadAnswer(conn, calls[t].command);
      if got.Finished? {
        links := links[c := links[c].(inbox := conn.inbox)];
        Goto(t, P.Returning(c, got.value));
        S.UsesItsOwn(View(), t, c);
        S.ReturningIsAnswered(View(), t);
      } else {
        Goto(t, P.Failing);
      }
    }

    method ReadAnswer(conn: Conn, command: P.Command) returns (r: Io<P.Answer>)
      modifies conn`inbox
      ensures match P.ReadReply(command, old(conn.inbox), conn.closed)
              case Got(got, rest) => r == Finished(got) && conn.inbox == rest
              case Starved => r.Waiting?
              case Broken(e) => r == Failed(e)
    {
      hide MemcachedWire.ReadGetReply;
      hide MemcachedWire.ReadSetReply;
      if command.GetOp? {
        r := conn.GetReply();
      } else {
        var stored := conn.SetReply();
        match stored
        case Finished(_) => r := Finished(None);
        case Waiting => r := Waiting;
        case Failed(e) => r := Failed(e);
      }
    }

    /** The call is over, and the pool holds at most eight connections, all in sync. */
    method Push(t: nat, c: nat, got: P.Answer)
      requires Valid() && t < |calls| && calls[t].pc == P.Returning(c, got)
      modifies this`calls, this`idle, this`links
      ensures c < |links| == old(|links|) && Valid() && View() == P.Push(old(View()), t, c, got)
      ensures calls[t].pc == P.Done(Some(got)) && S.IsSound(View())
      ensures c in idle <==> old(|idle|) < 8
    {
      hide P.Reachable;
      S.UsesItsOwn(View(), t, c);
      T.ReachableStep(View(), P.Act(t, P.Proceeds));
      if |idle| < P.POOL_SIZE {
        idle := idle + [c];
        links := links[c := links[c].(holder := None)];
      }
      Goto(t, P.Done(Some(got)));
      S.PoolIsSound(View());
    }

    /** An error, or the timeout: the connection, if any, is dropped; it is neither pooled nor
        in use by another call. */
    method GiveUp(t: nat)
      requires Valid() && P.CanAct(View(), t, P.Fails) && !calls[t].pc.Done?
      requires calls[t].pc.Connecting? || calls[t].pc.Ready? || calls[t].pc.Awaiting?
      modifies this`calls
      ensures Valid() && View() == P.Goto(old(View()), t, P.Failing)
      ensures match I.LinkOf(old(calls)[t].pc) case Some(c) => S.IsOwn(View(), t, c) case None => true
    {
      hide P.Reachable;
      if I.LinkOf(calls[t].pc).Some? {
        S.UsesItsOwn(View(), t, I.LinkOf(calls[t].pc).value);
      }
      T.ReachableStep(View(), P.Act(t, P.Fails));
      Goto(t, P.Failing);
    }

    method StampFailure(t: nat)
      requires Valid() && t < |calls| && calls[t].pc.Failing?
      modifies this`calls
      ensures Valid() && View() == P.Goto(old(View()), t, P.Marking(clock))
    {
      hide P.Reachable;
      T.ReachableStep(View(), P.Act(t, P.Proceeds));
      Goto(t, P.Marking(clock));
    }

    /** Until another failure is recorded, no call passes the gate before 30 s after this
        stamp, and any call does from then on. */
    method MarkFailed(t: nat, at: nat)
      requires Valid() && t < |calls| && calls[t].pc == P.Marking(at)
      modifies this`calls, this`skipUntil, this`marks
      ensures Valid() && View() == P.MarkFailed(old(View()), t, at)
      ensures forall u, elapsed :: 0 <= u < |calls| && calls[u].pc.Gate? ==>
                (P.PassGate(T.After(View(), elapsed), u).calls[u].pc.Popping? <==> at + 30 * P.SECOND <= clock + elapsed)
    {
      hide P.Reachable;
      T.ReachableStep(View(), P.Act(t, P.Proceeds));
      skipUntil := Some(at + P.SKIP_FOR);
      marks := marks + [at];
      Goto(t, P.Done(None));
    }

    /** The next step of call `t`, whatever it is, brings the calls closer to their return. */
    method Act(t: nat, fate: P.Fate)
      requires Valid() && P.CanAct(View(), t, fate)
      modifies this
      ensures Valid() && View() == P.ApplyAct(old(View()), t, fate)
      ensures G.Measure(calls) < old(G.Measure(calls))
    {
      hide P.Reachable;
      hide G.Measure;
      hide P.ReadReply;
      hide I.IsAnswered;
      G.MeasureFalls(View(), t, fate);
      if fate.Fails? {
        GiveUp(t);
        return;
      }
      match calls[t].pc
      case Gate => PassGate(t);
      case Popping => Pop(t);
      case Connecting => Connect(t);
      case Ready(c) => Write(t, c);
      case Awaiting(c) => Receive(t, c);
      case Returning(c, got) => Push(t, c, got);
      case Failing => StampFailure(t);
      case Marking(at) => MarkFailed(t, at);
    }

    /// ## Whole calls

    /** One call from its start to its end, with what the network and the peer do for it. A
        result is the one the peer's reply to this command gives. A plain key, and for a set a
        positive TTL, outside the window, over an open connection, always yields the answer of
        such a reply. Refused commands and calls within 30 s of the failure written last touch
        no connection; every other call without a result records a failure. */
    method Call(command: P.Command, connects: bool, reply: Option<string>) returns (r: Option<P.Answer>)
      requires Valid() && Utf8.Valid(command.key) && (reply.Some? ==> P.Conforms(command, reply.value))
      modifies this
      ensures Valid() && S.IsSound(View())
      ensures r.Some? ==> reply.Some? && R.Gives(command, reply.value, r.value) && marks == old(marks)
      ensures var goes := R.IsPlainKey(command.key) && (command.SetOp? ==> command.ttl >= 1)
                          && (old(marks) == [] || old(marks)[|old(marks)| - 1] + 30_000_000_000 <= clock);
              && (!goes ==> r.None? && links == old(links) && idle == old(idle) && marks == old(marks))
              && (goes && r.None? ==> marks == old(marks) + [clock])
              && (goes && old(S.NextIsOpen(View(), connects)) && reply.Some? ==>
                    forall got :: R.Gives(command, reply.value, got) ==> r == Some(got))
    {
      hide P.Reachable;
      hide P.Conforms;
      hide R.Gives;
      hide P.ReadReply;
      R.AnswerIsOne(command);
      var t := Start(command);
      if calls[t].pc.Gate? {
        PassGate(t);
        if calls[t].pc.Popping? {
          Exchange(t, connects, reply);
        }
      }
      r := calls[t].pc.result;
      S.PoolIsSound(View());
    }

    /** Lines 91-117, once the gate is passed. */
    method Exchange(t: nat, connects: bool, reply: Option<string>)
      requires Valid() && t < |calls| && calls[t].pc.Popping? && calls[t].answered.None?
      requires reply.Some? ==> P.Conforms(calls[t].command, reply.value)
      modifies this`calls, this`idle, this`links, this`skipUntil, this`marks
      ensures Valid() && t < |calls| && calls[t].pc.Done?
      ensures match calls[t].pc.result
              case Some(got) =>
                reply.Some? && R.Gives(old(calls)[t].command, reply.value, got) && marks == old(marks)
              case None =>
                && marks == old(marks) + [clock]
                && (old(S.NextIsOpen(View(), connects)) && reply.Some? ==>
                      forall got :: !R.Gives(old(calls)[t].command, reply.value, got))
    {
      hide P.Reachable;
      hide P.Conforms;
      hide R.Gives;
      hide P.ReadReply;
      R.AnswerIsOne(calls[t].command);
      Obtain(t, connects);
      if calls[t].pc.Done? {
        return;
      }
      var c := calls[t].pc.link;
      Write(t, c);
      if reply.Some? && !links[c].closed {
        Answer(t, c, reply.value);
      }
      Finish(t, c);
    }

    /** Lines 91-96: a pooled connection, a new one, or a failure. */
    method Obtain(t: nat, connects: bool)
      requires Valid() && t < |calls| && calls[t].pc.Popping?
      modifies this`calls, this`idle, this`links, this`skipUntil, this`marks
      ensures Valid() && t < |calls| && calls[t] == old(calls)[t].(pc := calls[t].pc)
      ensures (calls[t].pc.Ready? && marks == old(marks))
           || (calls[t].pc == P.Done(None) && marks == old(marks) + [clock])
      ensures old(S.NextIsOpen(View(), connects)) ==>
                calls[t].pc.Ready? && calls[t].pc.link < |links| && !links[calls[t].pc.link].closed
    {
      hide P.Reachable;
      Pop(t);
      if calls[t].pc.Connecting? {
        if connects {
          Connect(t);
        } else {
          Fail(t);
        }
      }
    }

    /** The peer answers the call and the network delivers all of it. */
    method Answer(t: nat, c: nat, reply: string)
      requires Valid() && t < |calls| && calls[t].pc == P.Awaiting(c)
      requires c < |links| && links[c].pending == Some(t) && !links[c].closed && P.Conforms(calls[t].command, reply)
      requires links[c].inbox == links[c].wire == ""
      modifies this`calls, this`links
      ensures Valid() && t < |calls| && calls[t] == old(calls)[t].(answered := Some(reply))
      ensures c < |links| && links[c].inbox == reply && !links[c].closed
    {
      hide P.Reachable;
      hide P.Conforms;
      Reply(c, reply);
      assert links[c].wire == reply;
      Deliver(c, |links[c].wire|);
    }

    /** Lines 97-117: what has arrived is accepted, refused or too little. */
    method Finish(t: nat, c: nat)
      requires Valid() && t < |calls| && calls[t].pc == P.Awaiting(c)
      modifies this`calls, this`idle, this`links, this`skipUntil, this`marks
      ensures Valid() && t < |calls| && calls[t].pc.Done?
      ensures calls[t] == old(calls)[t].(pc := calls[t].pc)
      ensures match calls[t].pc.result
              case Some(got) => I.IsAnswered(calls[t], got) && marks == old(marks)
              case None =>
                && marks == old(marks) + [clock]
                && c < |old(links)| && !P.ReadReply(calls[t].command, old(links)[c].inbox, old(links)[c].closed).Got?
    {
      hide P.Reachable;
      hide P.ReadReply;
      hide I.IsAnswered;
      S.UsesItsOwn(View(), t, c);
      if P.ReadReply(calls[t].command, links[c].inbox, links[c].closed).Starved? {
        Fail(t);
        return;
      }
      Receive(t, c);
      if calls[t].pc.Failing? {
        Record(t);
      } else {
        var got := calls[t].pc.got;
        I.StillAnswered(calls[t], calls[t].(pc := P.Done(Some(got))));
        Push(t, c, got);
      }
    }

    method Fail(t: nat)
      requires Valid() && P.CanAct(View(), t, P.Fails)
      requires calls[t].pc.Connecting? || calls[t].pc.Ready? || calls[t].pc.Awaiting?
      modifies this`calls, this`skipUntil, this`marks
      ensures Valid() && |calls| == old(|calls|) && marks == old(marks) + [clock]
      ensures calls[t] == old(calls)[t].(pc := P.Done(None))
    {
      hide P.Reachable;
      GiveUp(t);
      Record(t);
    }

    /** Lines 109 and 114. */
    method Record(t: nat)
      requires Valid() && t < |calls| && calls[t].pc.Failing?
      modifies this`calls, this`skipUntil, this`marks
      ensures Valid() && |calls| == old(|calls|) && marks == old(marks) + [clock]
      ensures calls[t] == old(calls)[t].(pc := P.Done(None))
    {
      hide P.Reachable;
      StampFailure(t);
      MarkFailed(t, clock);
    }
  }
}

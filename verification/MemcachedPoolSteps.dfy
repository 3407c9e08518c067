/** What single steps of the pool achieve, in every reachable state. */
module MemcachedPoolSteps {
  import opened Wrappers
  import opened MemcachedWire
  import opened MemcachedPool
  import opened MemcachedReplies
  import opened MemcachedPoolProofs
  import opened MemcachedPoolTheorems

  /** No unread byte, none on its way, no unanswered command. */
  ghost predicate InSync(s: State, c: nat) {
    c < |s.links| && s.links[c].inbox == "" && s.links[c].wire == "" && s.links[c].pending.None?
  }

  /** Connection `c` serves call `t` alone. */
  ghost predicate IsOwn(s: State, t: nat, c: nat) {
    && c !in s.idle
    && forall u :: 0 <= u < |s.calls| && u != t ==> LinkOf(s.calls[u].pc) != Some(c)
  }

  lemma UsesItsOwn(s: State, t: nat, c: nat)
    requires Reachable(s) && t < |s.calls| && LinkOf(s.calls[t].pc) == Some(c)
    ensures IsOwn(s, t, c) && c < |s.links|
    ensures s.calls[t].pc.Ready? || s.calls[t].pc.Returning? ==> InSync(s, c)
  {
    hide GateOk;
    hide Exchanging;
    hide IsAnswered;
    hide Reachable;
    ReachableInv(s);
    assert CallOk(s, t);
    forall u | 0 <= u < |s.calls| && u != t
      ensures LinkOf(s.calls[u].pc) != Some(c)
    {
      if LinkOf(s.calls[u].pc) == Some(c) {
        ExclusiveUse(s, t, u);
      }
    }
    ExclusiveUse(s, t, t);
  }

  /** At most eight idle connections, all different and all in sync. */
  ghost predicate IsSound(s: State) {
    && |s.idle| <= 8
    && (forall i, j :: 0 <= i < j < |s.idle| ==> s.idle[i] != s.idle[j])
    && forall i :: 0 <= i < |s.idle| ==> InSync(s, s.idle[i])
  }

  lemma PoolIsSound(s: State)
    requires Reachable(s)
    ensures IsSound(s)
  {
    hide Reachable;
    PoolIsBounded(s);
    forall i | 0 <= i < |s.idle|
      ensures InSync(s, s.idle[i])
    {
      IdleInSync(s, i);
    }
  }

  lemma ReturningIsAnswered(s: State, t: nat)
    requires Reachable(s) && t < |s.calls| && s.calls[t].pc.Returning?
    ensures IsAnswered(s.calls[t], s.calls[t].pc.got)
  {
    hide GateOk;
    hide IsAnswered;
    hide Clean;
    ReachableInv(s);
    assert CallOk(s, t);
  }

  /** The next call that passes the gate gets a connection, and the peer has not closed it. */
  predicate NextIsOpen(s: State, connects: bool) {
    if s.idle == [] then connects
    else s.idle[|s.idle| - 1] < |s.links| && !s.links[s.idle[|s.idle| - 1]].closed
  }
}

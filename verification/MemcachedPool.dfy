/** The connection pool and the skip window under overlapping calls. Calls interleave with
    each other, with the clock and with the peer, which answers, delivers and closes when it
    likes. Instants are nanoseconds.

    Fields marked "history" record the past for the theorems; no step reads them. */
module MemcachedPool {
  import opened Wrappers
  import opened MemcachedWire
  import Utf8

  const SECOND: nat := 1_000_000_000
  const SKIP_FOR: nat := 30 * SECOND
  const POOL_SIZE: nat := 8

  datatype Command = GetOp(key: string) | SetOp(key: string, value: string, ttl: nat)

  /** Lines 48-63: other commands return at once. */
  predicate Accepted(command: Command) {
    ValidKey(command.key) && (command.SetOp? ==> command.ttl > 0)
  }

  /** What one reply to a command says. */
  type Answer = Option<string>

  function ReadReply(command: Command, inbox: string, closed: bool): Read<Answer> {
    match command
    case GetOp(_) => ReadGetReply(inbox, closed)
    case SetOp(_, _, _) =>
      (match ReadSetReply(inbox, closed)
       case Got(_, rest) => Got(None, rest)
       case Starved => Starved
       case Broken(e) => Broken(e))
  }

  /** One complete reply to a command, as the protocol allows it: a hit for its key with any
      bytes for a value, a miss, STORED, or an error line. */
  ghost predicate Conforms(command: Command, reply: string) {
    || (exists line :: IsErrorReply(line, reply))
    || match command
       case GetOp(key) => reply == MISS_REPLY || exists flags, value :: IsHit(key, flags, value, reply)
       case SetOp(_, _, _) => reply == STORED_REPLY
  }

  ghost predicate IsErrorReply(line: string, reply: string) {
    IsLine(line) && reply == line + EOL && (line == "ERROR" || "CLIENT_ERROR " <= line || "SERVER_ERROR " <= line)
  }

  ghost predicate IsHit(key: string, flags: nat, value: string, reply: string) {
    ValidKey(key) && Utf8.Valid(key) && |value| < USIZE_BOUND && reply == HitReply(key, flags, value)
  }

  /** A connection: bytes delivered and not read, bytes sent by the peer and not delivered,
      the call whose command the peer has yet to answer. `lost` (bytes a closing peer never
      delivered) and `holder` (the call using the connection) are history. */
  datatype Link = Link(inbox: string, wire: string, pending: Option<nat>, closed: bool,
                       lost: string, holder: Option<nat>)

  datatype Pc =
    | Gate                               // about to check the skip window
    | Popping                            // about to take an idle connection
    | Connecting                         // awaits a new one
    | Ready(link: nat)                   // about to write its command
    | Awaiting(link: nat)                // awaits the reply
    | Returning(link: nat, got: Answer)  // about to give the connection back
    | Failing                            // about to read the clock for the failure
    | Marking(at: nat)                   // about to set the skip window
    | Done(result: Option<Answer>)       // None: refused, skipped or failed

  /** `answered` is history: the peer's reply to this very call. */
  datatype Call = Call(command: Command, pc: Pc, answered: Option<string>)

  /** `marks` is history: the stamps of the failures, in the order they were written. */
  datatype State = State(clock: nat, skipUntil: Option<nat>, idle: seq<nat>, links: seq<Link>, calls: seq<Call>,
                         marks: seq<nat>)

  const Init := State(0, None, [], [], [], [])

  /** A step of a call either goes as far as it can or is cut short by an error or by the
      timeout around it. */
  datatype Fate = Proceeds | Fails

  datatype Step =
    | Start(command: Command)
    | Tick(elapsed: nat)
    | Reply(link: nat, reply: string)
    | Deliver(link: nat, n: nat)
    | Close(link: nat)
    | Act(t: nat, fate: Fate)

  ghost predicate CanStep(s: State, step: Step) {
    match step
    case Start(command) => Utf8.Valid(command.key)
    case Tick(_) => true
    case Reply(c, reply) =>
      && c < |s.links| && !s.links[c].closed && s.links[c].pending.Some?
      && s.links[c].pending.value < |s.calls| && Conforms(s.calls[s.links[c].pending.value].command, reply)
    case Deliver(c, n) => c < |s.links| && n <= |s.links[c].wire|
    case Close(c) => c < |s.links| && !s.links[c].closed
    case Act(t, fate) => CanAct(s, t, fate)
  }

  predicate CanAct(s: State, t: nat, fate: Fate) {
    t < |s.calls| &&
    match s.calls[t].pc
    case Connecting => true
    case Ready(c) => c < |s.links|
    case Awaiting(c) =>
      c < |s.links|
      && (fate.Proceeds? ==> !ReadReply(s.calls[t].command, s.links[c].inbox, s.links[c].closed).Starved?)
    case Returning(c, _) => c < |s.links| && fate.Proceeds?
    case Popping => fate.Proceeds? && (s.idle != [] ==> s.idle[|s.idle| - 1] < |s.links|)
    case Done(_) => false
    case _ => fate.Proceeds?
  }

  function Goto(s: State, t: nat, pc: Pc): State
    requires t < |s.calls|
  {
    s.(calls := s.calls[t := s.calls[t].(pc := pc)])
  }

  /** `skipping`, lines 65-75. */
  function PassGate(s: State, t: nat): State
    requires t < |s.calls|
  {
    if s.skipUntil.Some? && s.skipUntil.value > s.clock then Goto(s, t, Done(None))
    else Goto(s, t, Popping).(skipUntil := None)
  }

  /** Line 91. */
  function Pop(s: State, t: nat): State
    requires t < |s.calls| && (s.idle != [] ==> s.idle[|s.idle| - 1] < |s.links|)
  {
    if s.idle == [] then Goto(s, t, Connecting)
    else
      var c := s.idle[|s.idle| - 1];
      Goto(s, t, Ready(c)).(idle := s.idle[..|s.idle| - 1], links := s.links[c := s.links[c].(holder := Some(t))])
  }

  /** Line 95. */
  function Connect(s: State, t: nat): State
    requires t < |s.calls|
  {
    Goto(s, t, Ready(|s.links|)).(links := s.links + [Link("", "", None, false, "", Some(t))])
  }

  /** The request is on its way to the peer, lines 156-158 and 181-184. */
  function Write(s: State, t: nat, c: nat): State
    requires t < |s.calls| && c < |s.links|
  {
    Goto(s, t, Awaiting(c)).(links := s.links[c := s.links[c].(pending := Some(t), lost := "")])
  }

  /** Reading the reply, lines 159-177 and 185-188. */
  function Receive(s: State, t: nat, c: nat): State
    requires t < |s.calls| && c < |s.links|
  {
    match ReadReply(s.calls[t].command, s.links[c].inbox, s.links[c].closed)
    case Got(got, rest) => Goto(s, t, Returning(c, got)).(links := s.links[c := s.links[c].(inbox := rest)])
    case _ => Goto(s, t, Failing)
  }

  /** Lines 99-103: kept while there is room, dropped otherwise. */
  function Push(s: State, t: nat, c: nat, got: Answer): State
    requires t < |s.calls| && c < |s.links|
  {
    var s' := Goto(s, t, Done(Some(got)));
    if |s.idle| < POOL_SIZE
    then s'.(idle := s.idle + [c], links := s.links[c := s.links[c].(holder := None)])
    else s'
  }

  /** Line 78: the stamp was read before the lock was taken. */
  function MarkFailed(s: State, t: nat, at: nat): State
    requires t < |s.calls|
  {
    Goto(s, t, Done(None)).(skipUntil := Some(at + SKIP_FOR), marks := s.marks + [at])
  }

  function ApplyAct(s: State, t: nat, fate: Fate): State
    requires CanAct(s, t, fate)
  {
    match s.calls[t].pc
    case Gate => PassGate(s, t)
    case Popping => Pop(s, t)
    case Connecting => if fate.Proceeds? then Connect(s, t) else Goto(s, t, Failing)
    case Ready(c) => if fate.Proceeds? then Write(s, t, c) else Goto(s, t, Failing)
    case Awaiting(c) => if fate.Proceeds? then Receive(s, t, c) else Goto(s, t, Failing)
    case Returning(c, got) => Push(s, t, c, got)
    case Failing => Goto(s, t, Marking(s.clock))
    case Marking(at) => MarkFailed(s, t, at)
    case Done(_) => s
  }

  function WithLink(s: State, c: nat, link: Link): State
    requires c < |s.links|
  {
    s.(links := s.links[c := link])
  }

  ghost function ApplyStep(s: State, step: Step): State
    requires CanStep(s, step)
  {
    match step
    case Start(command) => s.(calls := s.calls + [Call(command, if Accepted(command) then Gate else Done(None), None)])
    case Tick(elapsed) => s.(clock := s.clock + elapsed)
    case Reply(c, reply) =>
      var t := s.links[c].pending.value;
      WithLink(s, c, s.links[c].(wire := s.links[c].wire + reply, pending := None)).(
        calls := s.calls[t := s.calls[t].(answered := Some(reply))])
    case Deliver(c, n) =>
      WithLink(s, c, s.links[c].(inbox := s.links[c].inbox + s.links[c].wire[..n], wire := s.links[c].wire[n..]))
    case Close(c) => WithLink(s, c, s.links[c].(closed := true, lost := s.links[c].wire, wire := ""))
    case Act(t, fate) => ApplyAct(s, t, fate)
  }

  ghost function Run(s: State, steps: seq<Step>): Option<State> {
    if steps == [] then Some(s)
    else
      var before := Run(s, steps[..|steps| - 1]);
      var last := steps[|steps| - 1];
      if before.Some? && CanStep(before.value, last) then Some(ApplyStep(before.value, last)) else None
  }

  ghost predicate Reachable(s: State) {
    exists steps :: Run(Init, steps) == Some(s)
  }
}

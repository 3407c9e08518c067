/** Whole sessions over the wire: a client that writes requests and reads replies, and a
    peer that reads those bytes and writes these. Byte for byte, the client sees a map. */
module MemcachedSession {
  import opened Wrappers
  import opened MemcachedWire
  import Utf8

  datatype Item = Item(flags: nat, ttl: nat, value: string)

  type Shelf = map<string, Item>

  /** What the client does, and the peer dropping an entry of its own accord. */
  datatype Op = AskGet(key: string) | AskSet(key: string, value: string, ttl: nat) | Evict(key: string)

  ghost predicate ValidOp(op: Op) {
    match op
    case AskGet(key) => ValidKey(key) && Utf8.Valid(key)
    case AskSet(key, value, ttl) =>
      ValidKey(key) && Utf8.Valid(key) && Utf8.Valid(value) && |value| < USIZE_BOUND && 0 < ttl < USIZE_BOUND
    case Evict(_) => true
  }

  ghost predicate ValidShelf(shelf: Shelf) {
    forall k :: k in shelf ==> Utf8.Valid(shelf[k].value) && |shelf[k].value| < USIZE_BOUND
  }

  /// ## On the wire

  /** The peer's answer to a request, after "Retrieval command" and "Storage commands". */
  function Answer(shelf: Shelf, request: Request): (Shelf, string) {
    match request
    case Get(key) =>
      (shelf, if key in shelf then HitReply(key, shelf[key].flags, shelf[key].value) else MISS_REPLY)
    case Set(key, flags, ttl, value) => (shelf[key := Item(flags, ttl, value)], STORED_REPLY)
  }

  /** The peer takes bytes off the stream and replies; bytes it cannot read it answers ERROR. */
  function Serve(shelf: Shelf, bytes: string): (Shelf, string) {
    match ServerRead(bytes)
    case Some((request, _)) => Answer(shelf, request)
    case None => (shelf, "ERROR" + EOL)
  }

  /** What an operation returns and the bytes its reply leaves unread. */
  datatype Outcome = Outcome(shelf: Shelf, answer: Option<Option<string>>, unread: string)

  function Exchange(shelf: Shelf, op: Op): Outcome {
    match op
    case AskGet(key) =>
      var (shelf', reply) := Serve(shelf, GetRequest(key));
      (match ReadGetReply(reply, false)
       case Got(value, rest) => Outcome(shelf', Some(value), rest)
       case _ => Outcome(shelf', None, reply))
    case AskSet(key, value, ttl) =>
      var (shelf', reply) := Serve(shelf, SetRequest(key, value, ttl));
      (match ReadSetReply(reply, false)
       case Got(_, rest) => Outcome(shelf', Some(None), rest)
       case _ => Outcome(shelf', None, reply))
    case Evict(key) => Outcome(shelf - {key}, Some(None), "")
  }

  /// ## As a map

  function Ideal(shelf: Shelf, op: Op): Outcome {
    match op
    case AskGet(key) => Outcome(shelf, Some(if key in shelf then Some(shelf[key].value) else None), "")
    case AskSet(key, value, ttl) => Outcome(shelf[key := Item(0, ttl, value)], Some(None), "")
    case Evict(key) => Outcome(shelf - {key}, Some(None), "")
  }

  lemma ExchangeGetIsIdeal(shelf: Shelf, key: string)
    requires ValidShelf(shelf) && ValidOp(AskGet(key))
    ensures Exchange(shelf, AskGet(key)) == Ideal(shelf, AskGet(key))
  {
    hide ServerRead;
    hide ReadGetReply;
    hide HitReply;
    GetRequestReadsBack(key, "");
    assert GetRequest(key) + "" == GetRequest(key);
    if key in shelf {
      var reply := HitReply(key, shelf[key].flags, shelf[key].value);
      HitReadsBack(key, shelf[key].flags, shelf[key].value, "", false);
      assert reply + "" == reply;
    } else {
      MissReadsBack("", false);
      assert MISS_REPLY + "" == MISS_REPLY;
    }
  }

  lemma ExchangeSetIsIdeal(shelf: Shelf, key: string, value: string, ttl: nat)
    requires ValidOp(AskSet(key, value, ttl))
    ensures Exchange(shelf, AskSet(key, value, ttl)) == Ideal(shelf, AskSet(key, value, ttl))
  {
    hide ServerRead;
    hide ReadSetReply;
    hide SetRequest;
    SetRequestReadsBack(key, value, ttl, "");
    assert SetRequest(key, value, ttl) + "" == SetRequest(key, value, ttl);
    StoredReadsBack("", false);
    assert STORED_REPLY + "" == STORED_REPLY;
  }

  lemma ExchangeIsIdeal(shelf: Shelf, op: Op)
    requires ValidShelf(shelf) && ValidOp(op)
    ensures Exchange(shelf, op) == Ideal(shelf, op)
    ensures ValidShelf(Ideal(shelf, op).shelf)
  {
    hide Exchange;
    match op
    case AskGet(key) => ExchangeGetIsIdeal(shelf, key);
    case AskSet(key, value, ttl) => ExchangeSetIsIdeal(shelf, key, value, ttl);
    case Evict(key) => EvictIsIdeal(shelf, key);
  }

  lemma EvictIsIdeal(shelf: Shelf, key: string)
    ensures Exchange(shelf, Evict(key)) == Ideal(shelf, Evict(key))
  {}

  function Session(shelf: Shelf, ops: seq<Op>): (Shelf, seq<Outcome>) {
    if ops == [] then (shelf, [])
    else
      var (before, outcomes) := Session(shelf, ops[..|ops| - 1]);
      var last := Exchange(before, ops[|ops| - 1]);
      (last.shelf, outcomes + [last])
  }

  function IdealSession(shelf: Shelf, ops: seq<Op>): (Shelf, seq<Outcome>) {
    if ops == [] then (shelf, [])
    else
      var (before, outcomes) := IdealSession(shelf, ops[..|ops| - 1]);
      var last := Ideal(before, ops[|ops| - 1]);
      (last.shelf, outcomes + [last])
  }

  /** Over any session of valid operations the bytes carry exactly the operations of a map:
      every `get` returns what the last `set` of its key stored, unless that was evicted,
      no reply leaves a byte unread, and the peer holds each entry with its TTL. */
  lemma {:induction false} SessionIsMap(shelf: Shelf, ops: seq<Op>)
    requires ValidShelf(shelf) && forall i :: 0 <= i < |ops| ==> ValidOp(ops[i])
    ensures Session(shelf, ops) == IdealSession(shelf, ops)
    ensures ValidShelf(Session(shelf, ops).0)
  {
    hide Exchange;
    hide Ideal;
    if ops != [] {
      SessionIsMap(shelf, ops[..|ops| - 1]);
      ExchangeIsIdeal(Session(shelf, ops[..|ops| - 1]).0, ops[|ops| - 1]);
    }
  }
}

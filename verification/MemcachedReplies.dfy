/** What reading makes of a reply that conforms to the protocol, however much of it has
    arrived: nothing beyond it is taken, nothing of it is left, and nothing else is returned. */
module MemcachedReplies {
  import opened Wrappers
  import opened Text
  import opened MemcachedWire
  import opened MemcachedPool
  import Utf8

  /** The answer a complete reply gives to its command. */
  ghost predicate Gives(command: Command, reply: string, got: Answer) {
    ReadReply(command, reply, false) == Got(got, "")
  }

  lemma {:induction false} TrimEolKeepsPrefix(s: string)
    ensures TrimEol(s) <= s
  {
    if s != "" && (s[|s| - 1] == '\r' || s[|s| - 1] == '\n') {
      TrimEolKeepsPrefix(s[..|s| - 1]);
    }
  }

  lemma LineIsPrefix(inbox: string, closed: bool)
    requires ReadLine(inbox, closed).Got?
    ensures ReadLine(inbox, closed).value <= inbox
  {
    var i := FirstNewline(inbox);
    TrimEolKeepsPrefix(inbox[..if i < |inbox| then i + 1 else i]);
  }

  /** The lines a reader accepts first. */
  ghost predicate Promising(line: string) {
    line == "END" || line == "STORED" || "VALUE " <= line
  }

  lemma AcceptedLineIsPromising(command: Command, inbox: string, closed: bool)
    requires ReadReply(command, inbox, closed).Got?
    ensures ReadLine(inbox, closed).Got? && Promising(ReadLine(inbox, closed).value)
    ensures ReadLine(inbox, closed).value <= inbox
  {
    hide ReadLine;
    hide ReadData;
    LineIsPrefix(inbox, closed);
    var line := ReadLine(inbox, closed).value;
    if command.GetOp? && line != "END" {
      assert HeaderLength(line).Some?;
      assert |line| >= 6 && line[..6] == "VALUE ";
    }
  }

  lemma ErrorLineIsNotPromising(line: string, first: string, reply: string)
    requires IsErrorReply(line, reply) && first <= reply
    ensures !Promising(first)
  {
    hide IsLine;
    assert |line| >= 5 && |reply| >= 5;
    assert reply[0] == line[0] && reply[1] == line[1] && reply[2] == line[2];
    assert |first| >= 3 ==> first[0] == reply[0] && first[1] == reply[1] && first[2] == reply[2];
  }

  /** However an error reply is cut short, no call takes it for an answer. */
  lemma ErrorReplyIsRefused(command: Command, line: string, inbox: string, missing: string, closed: bool)
    requires IsErrorReply(line, inbox + missing)
    ensures !ReadReply(command, inbox, closed).Got?
  {
    hide ReadReply;
    hide ReadLine;
    hide IsLine;
    if ReadReply(command, inbox, closed).Got? {
      AcceptedLineIsPromising(command, inbox, closed);
      ErrorLineIsNotPromising(line, ReadLine(inbox, closed).value, inbox + missing);
    }
  }

  lemma MissIsTaken(key: string, inbox: string, missing: string, closed: bool)
    requires inbox + missing == MISS_REPLY && ReadReply(GetOp(key), inbox, closed).Got?
    ensures ReadReply(GetOp(key), inbox, closed) == Got(None, "") && (closed || missing == "")
    ensures Gives(GetOp(key), inbox + missing, None)
  {
    hide ReadLine;
    hide IsLine;
    hide ReadData;
    EndIsLine();
    MissReadsBack("", false);
    assert MISS_REPLY + "" == MISS_REPLY;
    AcceptedLineIsPromising(GetOp(key), inbox, closed);
    ShortReply(inbox, missing, closed, "END");
  }

  /** A cut single-line reply that still reads as a line is taken whole. */
  lemma ShortReply(inbox: string, missing: string, closed: bool, line: string)
    requires inbox + missing == line + EOL && IsLine(line) && ReadLine(inbox, closed).Got?
    ensures ReadLine(inbox, closed).rest == "" && (closed || missing == "")
  {
    hide Utf8.Valid;
    NewlineAfter(line, "");
    assert line + (EOL + "") == inbox + missing;
    NewlineStays(inbox, missing);
    assert FirstNewline(inbox) < |inbox| ==> FirstNewline(inbox) == |line| + 1 == |inbox| - 1;
  }

  lemma StoredIsTaken(command: Command, inbox: string, missing: string, closed: bool)
    requires command.SetOp? && inbox + missing == STORED_REPLY && ReadReply(command, inbox, closed).Got?
    ensures ReadReply(command, inbox, closed) == Got(None, "") && (closed || missing == "")
    ensures Gives(command, inbox + missing, None)
  {
    hide ReadLine;
    hide IsLine;
    EndIsLine();
    StoredReadsBack("", false);
    assert STORED_REPLY + "" == STORED_REPLY;
    AcceptedLineIsPromising(command, inbox, closed);
    ShortReply(inbox, missing, closed, "STORED");
  }

  lemma DataIsDecided(s: string, length: nat, missing: string)
    requires ReadData(s, length, true).Got?
    requires ReadData(s + missing, length, false).Got? || ReadData(s + missing, length, false) == Broken("value is not UTF-8")
    ensures ReadData(s + missing, length, false).Got?
    ensures ReadData(s + missing, length, false).value == ReadData(s, length, true).value
  {
    hide Utf8.Valid;
    assert (s + missing)[..length + 2] == s[..length + 2];
  }

  /** A hit cut short by a closing peer is refused or says the same. */
  lemma {:induction false} ClosedHitIsDecided(key: string, flags: nat, value: string, inbox: string, missing: string)
    requires IsHit(key, flags, value, inbox + missing) && ReadGetReply(inbox, true).Got?
    ensures Utf8.Valid(value) && ReadGetReply(inbox, true).value == Some(value)
  {
    hide ReadLine;
    hide ReadData;
    hide HeaderLength;
    hide Utf8.Valid;
    var reply := inbox + missing;
    HitReadsBack(key, flags, value, "", false);
    assert reply + "" == reply;
    AcceptedLineIsPromising(GetOp(key), inbox, true);
    ClosedLine(inbox);
    var line := ReadLine(inbox, true);
    assert line.value[0] == reply[0] == 'V';
    if ReadLine(inbox, false) == line {
      LineStays(inbox, missing);
      DataIsDecided(line.rest, HeaderLength(line.value).value, missing);
    } else {
      EmptyDataIsNothing(HeaderLength(line.value).value);
    }
  }

  lemma HitIsTaken(key: string, flags: nat, value: string, inbox: string, missing: string, closed: bool)
    requires IsHit(key, flags, value, inbox + missing) && ReadReply(GetOp(key), inbox, closed).Got?
    ensures ReadReply(GetOp(key), inbox, closed) == Got(Some(value), "") && (closed || missing == "")
    ensures Gives(GetOp(key), inbox + missing, Some(value))
  {
    hide ReadGetReply;
    hide HitReply;
    hide Utf8.Valid;
    var reply := inbox + missing;
    HitReadsBack(key, flags, value, "", false);
    assert reply + "" == reply;
    if closed {
      ClosedHitIsDecided(key, flags, value, inbox, missing);
      ClosedGetReply(inbox);
    }
    if ReadGetReply(inbox, false).Got? {
      GetReplyStays(inbox, missing);
    }
  }

  /** Whatever part of a conforming reply has arrived, reading it yields nothing or exactly
      the answer of the whole reply; unless the peer has closed, all of it was needed; and
      nothing is left unread. */
  lemma AnswerIsWhole(command: Command, inbox: string, missing: string, closed: bool)
    requires Conforms(command, inbox + missing) && ReadReply(command, inbox, closed).Got?
    ensures ReadReply(command, inbox, closed).rest == "" && (closed || missing == "")
    ensures Gives(command, inbox + missing, ReadReply(command, inbox, closed).value)
  {
    hide ReadReply;
    hide IsErrorReply;
    hide IsHit;
    var reply := inbox + missing;
    if line :| IsErrorReply(line, reply) {
      ErrorReplyIsRefused(command, line, inbox, missing, closed);
    } else if command.SetOp? {
      StoredIsTaken(command, inbox, missing, closed);
    } else if reply == MISS_REPLY {
      MissIsTaken(command.key, inbox, missing, closed);
    } else {
      var flags, value :| IsHit(command.key, flags, value, reply);
      HitIsTaken(command.key, flags, value, inbox, missing, closed);
    }
  }

  /** A value is only ever given by a hit for the command's own key. */
  lemma ValueMeansHit(command: Command, reply: string, value: string)
    requires Conforms(command, reply) && Gives(command, reply, Some(value))
    ensures command.GetOp? && exists flags :: IsHit(command.key, flags, value, reply)
  {
    hide IsErrorReply;
    hide IsHit;
    assert reply + "" == reply;
    if line :| IsErrorReply(line, reply) {
      ErrorReplyIsRefused(command, line, reply, "", false);
    } else if command.GetOp? {
      hide ReadReply;
      if reply == MISS_REPLY {
        MissIsTaken(command.key, reply, "", false);
      } else {
        var flags, v :| IsHit(command.key, flags, v, reply);
        HitIsTaken(command.key, flags, v, reply, "", false);
      }
    }
  }

  /** A reply gives one answer at most, and a whole reply that gives one is taken. */
  lemma AnswerIsOne(command: Command)
    ensures forall reply, got, other :: Gives(command, reply, got) && Gives(command, reply, other) ==> got == other
    ensures forall reply, got :: Gives(command, reply, got) ==> ReadReply(command, reply, false).Got?
  {
    hide ReadReply;
  }

  /// ## The replies of the protocol, spelled out

  /** What may be sent as a key: 1 to 250 bytes, none of them a control byte, a space or DEL. */
  predicate IsPlainKey(key: string) {
    1 <= |key| <= 250 && forall i :: 0 <= i < |key| ==> 32 < key[i] as int && key[i] as int != 127
  }

  function HitText(key: string, flags: nat, value: string): string {
    "VALUE " + (key + (" " + (Decimal(flags) + (" " + (Decimal(|value|) + ("\r\n" + (value + "\r\nEND\r\n")))))))
  }

  lemma HitIsText(key: string, flags: nat, value: string)
    ensures HitReply(key, flags, value) == HitText(key, flags, value)
  {
    hide Decimal;
    var a, b, c := key, Decimal(flags), Decimal(|value|);
    assert [a, b, c][1..] == [b, c] && [b, c][1..] == [c];
    assert Join([b, c], ' ') == b + [' '] + c;
    assert Words([a, b, c]) == a + [' '] + (b + [' '] + c);
    assert MISS_REPLY == "END\r\n";
  }

  /** A hit with a value of valid UTF-8 gives that value, a miss none, STORED success; each is
      what the protocol lets the peer reply. */
  lemma {:induction false} ExpectedReplies(key: string, flags: nat, value: string, ttl: nat)
    requires IsPlainKey(key) && Utf8.Valid(key) && |value| < 0x1_0000_0000_0000_0000
    ensures Conforms(GetOp(key), HitText(key, flags, value))
    ensures Utf8.Valid(value) ==> Gives(GetOp(key), HitText(key, flags, value), Some(value))
    ensures Conforms(GetOp(key), "END\r\n") && Gives(GetOp(key), "END\r\n", None)
    ensures Conforms(SetOp(key, value, ttl), "STORED\r\n") && Gives(SetOp(key, value, ttl), "STORED\r\n", None)
  {
    hide HitReply;
    hide HitText;
    hide ReadGetReply;
    hide ReadSetReply;
    hide Utf8.Valid;
    hide IsErrorReply;
    HitIsText(key, flags, value);
    assert IsHit(key, flags, value, HitReply(key, flags, value));
    HitReadsBack(key, flags, value, "", false);
    assert HitReply(key, flags, value) + "" == HitReply(key, flags, value);
    MissReadsBack("", false);
    assert MISS_REPLY + "" == MISS_REPLY == "END\r\n";
    StoredReadsBack("", false);
    assert STORED_REPLY + "" == STORED_REPLY == "STORED\r\n";
  }

  /** Exactly these commands are sent. */
  lemma AcceptedIsPlain(command: Command)
    ensures Accepted(command) <==> IsPlainKey(command.key) && (command.SetOp? ==> command.ttl >= 1)
  {}
}

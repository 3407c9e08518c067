/** One connection of the Memcached client. */
module MemcachedConn {
  import opened Wrappers
  import opened Text
  import opened MemcachedWire
  import Utf8

  /** What an operation on a connection comes to before its timeout. */
  datatype Io<T> = Finished(value: T) | Waiting | Failed(error: string)

  class Conn {
    /** What the peer delivers before the timeout and has not been read yet. */
    var inbox: string
    var sent: string
    /** The peer closes once the inbox is exhausted. */
    var closed: bool

    constructor (inbox: string, closed: bool)
      ensures this.inbox == inbox && sent == "" && this.closed == closed
    {
      this.inbox, sent, this.closed := inbox, "", closed;
    }

    method WriteAll(bytes: string)
      modifies this`sent
      ensures sent == old(sent) + bytes
    {
      sent := sent + bytes;
    }

    method ReadLine() returns (r: Io<string>)
      modifies this`inbox
      ensures match MemcachedWire.ReadLine(old(inbox), closed)
              case Got(line, rest) => r == Finished(line) && inbox == rest
              case Starved => r.Waiting?
              case Broken(e) => r == Failed(e)
    {
      var n := 0;
      while n < |inbox| && inbox[n] != '\n'
        invariant 0 <= n <= |inbox|
        invariant FirstNewline(inbox) == n + FirstNewline(inbox[n..])
      {
        n := n + 1;
      }
      if n == |inbox| && !closed {
        return Waiting;
      }
      if inbox == "" {
        return Failed("connection closed");
      }
      if n < |inbox| {
        n := n + 1;
      }
      var raw := inbox[..n];
      if !Utf8.Valid(raw) {
        return Failed("stream did not contain valid UTF-8");
      }
      inbox := inbox[n..];
      var end := |raw|;
      assert raw[..end] == raw;
      while end > 0 && (raw[end - 1] == '\r' || raw[end - 1] == '\n')
        invariant 0 <= end <= |raw|
        invariant TrimEol(raw[..end]) == TrimEol(raw)
      {
        assert raw[..end][..end - 1] == raw[..end - 1];
        end := end - 1;
      }
      r := Finished(raw[..end]);
    }

    method ReadExact(n: nat) returns (r: Io<string>)
      modifies this`inbox
      ensures match MemcachedWire.ReadExact(old(inbox), n, closed)
              case Got(data, rest) => r == Finished(data) && inbox == rest
              case Starved => r.Waiting?
              case Broken(e) => r == Failed(e)
    {
      if n > |inbox| {
        return if closed then Failed("early eof") else Waiting;
      }
      r := Finished(inbox[..n]);
      inbox := inbox[n..];
    }

    method GetOn(key: string) returns (r: Io<Option<string>>)
      modifies this`inbox, this`sent
      ensures sent == old(sent) + GetRequest(key)
      ensures match ReadGetReply(old(inbox), closed)
              case Got(value, rest) => r == Finished(value) && inbox == rest
              case Starved => r.Waiting?
              case Broken(e) => r == Failed(e)
    {
      hide ReadGetReply;
      hide GetRequest;
      WriteAll(GetRequest(key));
      r := GetReply();
    }

    /** Lines 159-177. */
    method GetReply() returns (r: Io<Option<string>>)
      modifies this`inbox
      ensures match ReadGetReply(old(inbox), closed)
              case Got(value, rest) => r == Finished(value) && inbox == rest
              case Starved => r.Waiting?
              case Broken(e) => r == Failed(e)
    {
      hide MemcachedWire.ReadLine;
      hide MemcachedWire.ReadExact;
      hide HeaderLength;
      var line := ReadLine();
      if !line.Finished? {
        return if line.Waiting? then Waiting else Failed(line.error);
      }
      var header := line.value;
      if header == "END" {
        return Finished(None);
      }
      var length := HeaderLength(header);
      if length.None? {
        return Failed(header);
      }
      var data := ReadExact(length.value + 2);
      if !data.Finished? {
        return if data.Waiting? then Waiting else Failed(data.error);
      }
      var value := data.value[..length.value];
      line := ReadLine();
      if !line.Finished? {
        return if line.Waiting? then Waiting else Failed(line.error);
      }
      if line.value != "END" {
        return Failed("missing END");
      }
      if !Utf8.Valid(value) {
        return Failed("value is not UTF-8");
      }
      r := Finished(Some(value));
    }

    method SetOn(key: string, value: string, ttl: nat) returns (r: Io<()>)
      modifies this`inbox, this`sent
      ensures sent == old(sent) + SetRequest(key, value, ttl)
      ensures match ReadSetReply(old(inbox), closed)
              case Got(_, rest) => r == Finished(()) && inbox == rest
              case Starved => r.Waiting?
              case Broken(e) => r == Failed(e)
    {
      hide ReadSetReply;
      hide SetRequest;
      WriteAll(SetRequest(key, value, ttl));
      r := SetReply();
    }

    /** Lines 185-188. */
    method SetReply() returns (r: Io<()>)
      modifies this`inbox
      ensures match ReadSetReply(old(inbox), closed)
              case Got(_, rest) => r == Finished(()) && inbox == rest
              case Starved => r.Waiting?
              case Broken(e) => r == Failed(e)
    {
      var line := ReadLine();
      match line
      case Waiting => r := Waiting;
      case Failed(e) => r := Failed(e);
      case Finished("STORED") => r := Finished(());
      case Finished(other) => r := Failed(other);
    }
  }
}

/** Which bytes the client takes for a reply, spelled out for any stream. */
module MemcachedGrammar {
  import opened Wrappers
  import opened Text
  import opened MemcachedWire
  import Utf8

  /// ## Lines

  /** The first `n` bytes are a line: up to the first newline or, once the peer has closed,
      all that is left. */
  predicate IsRaw(inbox: string, closed: bool, n: nat) {
    0 < n <= |inbox| && '\n' !in inbox[..n - 1] && (inbox[n - 1] == '\n' || (closed && n == |inbox|))
  }

  /** `raw` is `line` and line ends. */
  predicate Strips(raw: string, line: string) {
    && line <= raw
    && (forall i :: |line| <= i < |raw| ==> raw[i] == '\r' || raw[i] == '\n')
    && (line != "" ==> line[|line| - 1] != '\r' && line[|line| - 1] != '\n')
  }

  ghost predicate IsLineOf(inbox: string, closed: bool, line: string, rest: string) {
    exists n: nat :: IsRaw(inbox, closed, n) && Utf8.Valid(inbox[..n]) && Strips(inbox[..n], line) && rest == inbox[n..]
  }

  lemma {:induction false} TrimEolIs(raw: string, line: string)
    ensures TrimEol(raw) == line <==> Strips(raw, line)
  {
    if raw != "" && (raw[|raw| - 1] == '\r' || raw[|raw| - 1] == '\n') {
      TrimEolIs(raw[..|raw| - 1], line);
      if Strips(raw, line) {
        assert |line| < |raw|;
      }
    }
  }

  lemma RawIs(inbox: string, closed: bool, n: nat)
    ensures var i := FirstNewline(inbox);
            IsRaw(inbox, closed, n) <==>
            if i < |inbox| then n == i + 1 else closed && inbox != "" && n == |inbox|
  {
    var i := FirstNewline(inbox);
    assert i < n - 1 < |inbox| ==> inbox[..n - 1][i] == '\n';
    assert 0 < n <= i ==> inbox[..i][n - 1] == inbox[n - 1];
  }

  lemma LineIs(inbox: string, closed: bool, line: string, rest: string)
    ensures ReadLine(inbox, closed) == Got(line, rest) <==> IsLineOf(inbox, closed, line, rest)
    ensures ReadLine(inbox, closed).Starved? <==> !closed && '\n' !in inbox
  {
    hide FirstNewline;
    hide TrimEol;
    hide Utf8.Valid;
    hide IsRaw;
    hide Strips;
    var i := FirstNewline(inbox);
    var n := if i < |inbox| then i + 1 else i;
    RawIs(inbox, closed, n);
    TrimEolIs(inbox[..n], line);
    forall m: nat | IsRaw(inbox, closed, m)
      ensures m == n
    {
      RawIs(inbox, closed, m);
    }
    assert i < |inbox| ==> '\n' in inbox;
    assert i == |inbox| ==> inbox[..i] == inbox;
  }

  /// ## Headers

  /** A number as `usize` parses it: digits, perhaps behind a plus sign. */
  predicate IsCount(count: string, n: nat) {
    var digits := if "+" <= count then count[1..] else count;
    digits != "" && AllDigits(digits) && DecimalValue(digits) == n < 18_446_744_073_709_551_616
  }

  /** `VALUE`, two words, the length, and whatever follows a space. */
  ghost predicate IsHeader(header: string, length: nat) {
    exists key, flags, count, more :: HeaderIs(header, key, flags, count, more) && IsCount(count, length)
  }

  predicate HeaderIs(header: string, key: string, flags: string, count: string, more: string) {
    && header == "VALUE " + (key + (" " + (flags + (" " + (count + more)))))
    && ' ' !in key && ' ' !in flags && ' ' !in count && (more != "" ==> more[0] == ' ')
  }

  lemma FieldsOfHeader(header: string, key: string, flags: string, count: string, more: string)
    requires HeaderIs(header, key, flags, count, more)
    ensures |Split(header[6..], ' ')| >= 3 && Split(header[6..], ' ')[2] == count
  {
    hide Split;
    var rest := flags + (" " + (count + more));
    assert header[6..] == key + [' '] + rest;
    SplitConcat(key, rest, ' ');
    SplitWhole(key, ' ');
    assert rest == flags + [' '] + (count + more);
    SplitConcat(flags, count + more, ' ');
    SplitWhole(flags, ' ');
    SplitWhole(count, ' ');
    if more == "" {
      assert count + more == count;
    } else {
      assert count + more == count + [' '] + more[1..];
      SplitConcat(count, more[1..], ' ');
    }
  }

  lemma HeaderOfFields(header: string) returns (key: string, flags: string, count: string, more: string)
    requires "VALUE " <= header && |Split(header[6..], ' ')| >= 3
    ensures HeaderIs(header, key, flags, count, more) && count == Split(header[6..], ' ')[2]
  {
    hide Split;
    var fields := Split(header[6..], ' ');
    JoinSplit(header[6..], ' ');
    key, flags, count := fields[0], fields[1], fields[2];
    more := if |fields| == 3 then "" else " " + Join(fields[3..], ' ');
    assert Join(fields[2..], ' ') == count + more by {
      assert fields[2..][1..] == fields[3..];
    }
    assert Join(fields[1..], ' ') == flags + " " + Join(fields[2..], ' ') by {
      assert fields[1..][1..] == fields[2..];
    }
    assert header == "VALUE " + header[6..];
  }

  lemma HeaderLengthIs(header: string, length: nat)
    ensures HeaderLength(header) == Some(length) <==> IsHeader(header, length)
  {
    hide Split;
    if HeaderLength(header) == Some(length) {
      assert header[..6] == "VALUE ";
      assert "VALUE " <= header;
      var key, flags, count, more := HeaderOfFields(header);
      assert IsCount(count, length);
    }
    if IsHeader(header, length) {
      var key, flags, count, more :| HeaderIs(header, key, flags, count, more) && IsCount(count, length);
      FieldsOfHeader(header, key, flags, count, more);
      assert header[..6] == "VALUE ";
      assert ParseUsize(count) == Some(length);
    }
  }

  /// ## Replies

  /** A header, a value of that length, two bytes of any kind and a line END. */
  ghost predicate IsHitOf(inbox: string, closed: bool, value: string, rest: string) {
    exists header, data ::
      && IsLineOf(inbox, closed, header, data) && IsHeader(header, |value|) && Utf8.Valid(value)
      && value <= data && |value| + 2 <= |data| && IsLineOf(data[|value| + 2..], closed, "END", rest)
  }

  /** A line, a value or a line END has yet to arrive in full. */
  ghost predicate Awaits(inbox: string) {
    '\n' !in inbox
    || exists header, data, n: nat :: IsLineOf(inbox, false, header, data) && IsHeader(header, n) && header != "END"
                                     && (|data| < n + 2 || '\n' !in data[n + 2..])
  }

  /** There is at most one first line, and it is the one read. */
  lemma FirstLine(inbox: string, closed: bool)
    ensures forall line, rest :: IsLineOf(inbox, closed, line, rest) <==> ReadLine(inbox, closed) == Got(line, rest)
  {
    hide ReadLine;
    hide IsLineOf;
    forall line, rest
      ensures IsLineOf(inbox, closed, line, rest) <==> ReadLine(inbox, closed) == Got(line, rest)
    {
      LineIs(inbox, closed, line, rest);
    }
  }

  lemma OneLength(header: string)
    ensures forall n: nat :: IsHeader(header, n) <==> HeaderLength(header) == Some(n)
  {
    hide HeaderLength;
    hide IsHeader;
    forall n: nat
      ensures IsHeader(header, n) <==> HeaderLength(header) == Some(n)
    {
      HeaderLengthIs(header, n);
    }
  }

  lemma HitIs(inbox: string, closed: bool, value: string, rest: string)
    ensures ReadGetReply(inbox, closed) == Got(Some(value), rest) <==> IsHitOf(inbox, closed, value, rest)
  {
    hide ReadLine;
    hide IsLineOf;
    hide HeaderLength;
    hide IsHeader;
    hide Utf8.Valid;
    FirstLine(inbox, closed);
    var read := ReadLine(inbox, closed);
    if read.Got? {
      var data, n := read.rest, |value|;
      OneLength(read.value);
      EndIsNoHeader();
      if n + 2 <= |data| {
        FirstLine(data[n + 2..], closed);
        assert data[..n + 2][..n] == data[..n];
        assert value <= data <==> data[..n] == value;
      }
      if ReadGetReply(inbox, closed) == Got(Some(value), rest) {
        assert IsHeader(read.value, n) && IsLineOf(inbox, closed, read.value, data);
      }
    }
  }

  lemma EndIsNoHeader()
    ensures HeaderLength("END").None?
  {}

  lemma AwaitIs(inbox: string)
    ensures ReadGetReply(inbox, false).Starved? <==> Awaits(inbox)
  {
    hide ReadLine;
    hide IsLineOf;
    hide HeaderLength;
    hide IsHeader;
    hide Utf8.Valid;
    FirstLine(inbox, false);
    var read := ReadLine(inbox, false);
    LineIs(inbox, false, "", "");
    if read.Got? {
      OneLength(read.value);
      var length := HeaderLength(read.value);
      if length.Some? && length.value + 2 <= |read.rest| {
        LineIs(read.rest[length.value + 2..], false, "", "");
      }
    }
    EndIsNoHeader();
  }

  lemma ClosedNeverStarves(inbox: string)
    ensures !ReadGetReply(inbox, true).Starved?
  {
    hide HeaderLength;
  }

  /** On any stream: a miss, a hit and nothing else is accepted, and only what is cut short
      is waited for. */
  lemma GetReplyIs(inbox: string, closed: bool, value: string, rest: string)
    ensures ReadGetReply(inbox, closed) == Got(None, rest) <==> IsLineOf(inbox, closed, "END", rest)
    ensures ReadGetReply(inbox, closed) == Got(Some(value), rest) <==> IsHitOf(inbox, closed, value, rest)
    ensures ReadGetReply(inbox, closed).Starved? <==> !closed && Awaits(inbox)
  {
    hide IsLineOf;
    hide IsHitOf;
    hide Awaits;
    hide ReadLine;
    hide HeaderLength;
    hide Utf8.Valid;
    LineIs(inbox, closed, "END", rest);
    HitIs(inbox, closed, value, rest);
    AwaitIs(inbox);
    ClosedNeverStarves(inbox);
  }

  lemma SetReplyIs(inbox: string, closed: bool, rest: string)
    ensures ReadSetReply(inbox, closed) == Got((), rest) <==> IsLineOf(inbox, closed, "STORED", rest)
    ensures ReadSetReply(inbox, closed).Starved? <==> !closed && '\n' !in inbox
  {
    hide ReadLine;
    hide IsLineOf;
    var read := ReadLine(inbox, closed);
    LineIs(inbox, closed, "STORED", rest);
    if read.Got? {
      LineIs(inbox, closed, read.value, read.rest);
    }
  }
}

/** The Memcached text protocol as this client speaks it: `get` and `set` requests, their
    replies, and a peer that reads the one and writes the other (memcached's protocol.txt,
    "Storage commands" and "Retrieval command"). */
module MemcachedWire {
  import opened Wrappers
  import opened Text
  import Utf8

  const MAX_KEY_LEN: nat := 250
  const USIZE_BOUND: nat := 0x1_0000_0000_0000_0000

  predicate ValidKey(key: string) {
    key != "" && |key| <= MAX_KEY_LEN && forall i :: 0 <= i < |key| ==> key[i] > ' ' && key[i] as int != 0x7F
  }

  /// ## Requests

  const EOL := "\r\n"

  function Words(fields: seq<string>): string
    requires |fields| >= 1
  {
    Join(fields, ' ')
  }

  function GetRequest(key: string): string {
    Words(["get", key]) + EOL
  }

  function SetFields(key: string, ttl: nat, length: nat): (fields: seq<string>)
    ensures |fields| == 5
  {
    ["set", key, "0", Decimal(ttl), Decimal(length)]
  }

  function SetRequest(key: string, value: string, ttl: nat): string {
    Words(SetFields(key, ttl, |value|)) + EOL + (value + EOL)
  }

  /// ## Reading

  /** What reading from a connection comes to: a value and the bytes left, not enough bytes
      yet, or an error. */
  datatype Read<T> = Got(value: T, rest: string) | Starved | Broken(error: string)

  function FirstNewline(s: string): (i: nat)
    ensures i <= |s|
    ensures i < |s| ==> s[i] == '\n'
    ensures '\n' !in s[..i]
  {
    Index(s, '\n')
  }

  function TrimEol(line: string): string {
    if line != "" && (line[|line| - 1] == '\r' || line[|line| - 1] == '\n') then TrimEol(line[..|line| - 1]) else line
  }

  /** A line up to its newline, or, once the peer has closed, up to the end. */
  function ReadLine(inbox: string, closed: bool): Read<string> {
    var i := FirstNewline(inbox);
    if i == |inbox| && !closed then Starved
    else if inbox == "" then Broken("connection closed")
    else
      var n := if i < |inbox| then i + 1 else i;
      if Utf8.Valid(inbox[..n]) then Got(TrimEol(inbox[..n]), inbox[n..]) else Broken("stream did not contain valid UTF-8")
  }

  function ReadExact(inbox: string, n: nat, closed: bool): (r: Read<string>)
    ensures r.Got? ==> |r.value| == n
  {
    if n <= |inbox| then Got(inbox[..n], inbox[n..])
    else if closed then Broken("early eof")
    else Starved
  }

  /** `usize` parsing accepts a leading plus sign. */
  function ParseUsize(s: string): Option<nat> {
    if s != "" && s[0] == '+' then ParseBelow(s[1..], USIZE_BOUND) else ParseBelow(s, USIZE_BOUND)
  }

  /** The length in a `VALUE <key> <flags> <bytes>` header. */
  function HeaderLength(header: string): Option<nat> {
    if |header| < 6 || header[..6] != "VALUE " then None
    else
      var fields := Split(header[6..], ' ');
      if |fields| < 3 then None else ParseUsize(fields[2])
  }

  function ReadGetReply(inbox: string, closed: bool): Read<Option<string>> {
    match ReadLine(inbox, closed)
    case Starved => Starved
    case Broken(e) => Broken(e)
    case Got(header, rest) =>
      if header == "END" then Got(None, rest)
      else if HeaderLength(header).None? then Broken(header)
      else ReadData(rest, HeaderLength(header).value, closed)
  }

  /** The data block, its two trailing bytes and the closing END. */
  function ReadData(inbox: string, length: nat, closed: bool): Read<Option<string>> {
    match ReadExact(inbox, length + 2, closed)
    case Starved => Starved
    case Broken(e) => Broken(e)
    case Got(data, rest) =>
      match ReadLine(rest, closed)
      case Starved => Starved
      case Broken(e) => Broken(e)
      case Got(end, rest') =>
        if end != "END" then Broken("missing END")
        else if Utf8.Valid(data[..length]) then Got(Some(data[..length]), rest')
        else Broken("value is not UTF-8")
  }

  function ReadSetReply(inbox: string, closed: bool): Read<()> {
    match ReadLine(inbox, closed)
    case Starved => Starved
    case Broken(e) => Broken(e)
    case Got(line, rest) => if line == "STORED" then Got((), rest) else Broken(line)
  }

  /// ## The peer

  datatype Request = Get(key: string) | Set(key: string, flags: nat, ttl: nat, value: string)

  /** One request read off the stream, and what follows it. */
  function ServerRead(bytes: string): Option<(Request, string)> {
    var i := FirstNewline(bytes);
    if i == |bytes| then None
    else
      var fields := Split(TrimEol(bytes[..i + 1]), ' ');
      var rest := bytes[i + 1..];
      if |fields| == 2 && fields[0] == "get" && fields[1] != "" then Some((Get(fields[1]), rest))
      else if |fields| == 5 && fields[0] == "set" && fields[1] != "" then
        var flags, ttl, n := ParseUsize(fields[2]), ParseUsize(fields[3]), ParseUsize(fields[4]);
        if flags.Some? && ttl.Some? && n.Some? && n.value + 2 <= |rest| && rest[n.value..n.value + 2] == "\r\n"
        then Some((Set(fields[1], flags.value, ttl.value, rest[..n.value]), rest[n.value + 2..]))
        else None
      else None
  }

  function HitReply(key: string, flags: nat, value: string): string {
    "VALUE " + Words([key, Decimal(flags), Decimal(|value|)]) + EOL + (value + EOL + MISS_REPLY)
  }

  const MISS_REPLY := "END" + EOL
  const STORED_REPLY := "STORED" + EOL

  /// ## Framing round trips

  /** Valid UTF-8 within one line. */
  ghost predicate IsLine(s: string) {
    Utf8.Valid(s) && forall i :: 0 <= i < |s| ==> s[i] != '\r' && s[i] != '\n'
  }

  /** A line without spaces. */
  ghost predicate IsWord(s: string) {
    IsLine(s) && ' ' !in s
  }

  lemma NewlineAfter(line: string, rest: string)
    requires '\n' !in line
    ensures FirstNewline(line + (EOL + rest)) == |line| + 1
  {
    IndexAfter(line + "\r", '\n', rest);
    assert line + (EOL + rest) == line + "\r" + (['\n'] + rest);
  }

  lemma {:induction false} TrimEolAfter(line: string)
    requires line != "" ==> line[|line| - 1] != '\r' && line[|line| - 1] != '\n'
    ensures TrimEol(line + EOL) == line
  {
    var s := line + EOL;
    assert s[..|s| - 1] == line + "\r";
    assert (line + "\r")[..|line|] == line;
    assert TrimEol(line + "\r") == TrimEol(line);
  }

  /** A line written with its terminator reads back as itself and nothing more is taken. */
  lemma LineReadsBack(line: string, rest: string, closed: bool)
    requires IsLine(line)
    ensures ReadLine(line + (EOL + rest), closed) == Got(line, rest)
  {
    var inbox := line + (EOL + rest);
    NewlineAfter(line, rest);
    TrimEolAfter(line);
    assert inbox[..|line| + 2] == line + EOL && inbox[|line| + 2..] == rest;
    Utf8.AsciiValid(EOL);
    Utf8.ConcatValid(line, EOL);
  }

  lemma DecimalIsWord(n: nat)
    ensures IsWord(Decimal(n))
    ensures n < USIZE_BOUND ==> ParseUsize(Decimal(n)) == Some(n)
  {
    DecimalRoundTrip(n);
    Utf8.AsciiValid(Decimal(n));
  }

  lemma {:induction false} KeyIsWord(key: string)
    requires ValidKey(key) && Utf8.Valid(key)
    ensures IsWord(key)
  {}

  lemma {:induction false} WordsAreALine(fields: seq<string>)
    requires |fields| >= 1 && forall i :: 0 <= i < |fields| ==> IsLine(fields[i])
    ensures IsLine(Words(fields))
  {
    hide Utf8.Valid;
    if |fields| > 1 {
      WordsAreALine(fields[1..]);
      var rest := Words(fields[1..]);
      Utf8.AsciiValid(" ");
      Utf8.ConcatValid(" ", rest);
      assert fields[0] + [' '] + rest == fields[0] + (" " + rest);
      Utf8.ConcatValid(fields[0], " " + rest);
    }
  }

  lemma WordsReadBack(fields: seq<string>)
    requires |fields| >= 1 && forall i :: 0 <= i < |fields| ==> IsWord(fields[i])
    ensures IsLine(Words(fields)) && Split(Words(fields), ' ') == fields
  {
    hide IsLine;
    SplitJoin(fields, ' ');
    WordsAreALine(fields);
  }

  /** What can stand for a key in a request line. */
  predicate IsReadable(key: string) {
    key != "" && ' ' !in key && '\n' !in key && key[|key| - 1] != '\r'
  }

  lemma GetRequestReads(key: string, rest: string)
    requires IsReadable(key)
    ensures ServerRead(GetRequest(key) + rest) == Some((Get(key), rest))
  {
    hide FirstNewline;
    hide TrimEol;
    hide Split;
    var fields := ["get", key];
    SplitJoin(fields, ' ');
    assert fields[1..] == [key];
    assert Words(fields) == "get" + [' '] + key;
    LineTaken(Words(fields), rest);
    assert GetRequest(key) + rest == Words(fields) + (EOL + rest);
  }

  lemma {:induction false} TrimEolTakesEnds(s: string)
    ensures TrimEol(s) <= s && (TrimEol(s) != "" ==> TrimEol(s)[|TrimEol(s)| - 1] != '\r' && TrimEol(s)[|TrimEol(s)| - 1] != '\n')
  {
    if s != "" && (s[|s| - 1] == '\r' || s[|s| - 1] == '\n') {
      TrimEolTakesEnds(s[..|s| - 1]);
    }
  }

  /** No peer reads anything else as a key. */
  lemma ReadKeyIsReadable(bytes: string)
    requires ServerRead(bytes).Some? && ServerRead(bytes).value.0.Get?
    ensures IsReadable(ServerRead(bytes).value.0.key)
  {
    hide TrimEol;
    hide Split;
    var i := FirstNewline(bytes);
    var line := TrimEol(bytes[..i + 1]);
    TrimEolTakesEnds(bytes[..i + 1]);
    FieldsOfLine(line);
    assert '\n' !in line;
  }

  lemma {:induction false} FieldsOfLine(line: string)
    requires |Split(line, ' ')| == 2
    ensures line == Split(line, ' ')[0] + ([' '] + Split(line, ' ')[1])
    ensures ' ' !in Split(line, ' ')[1]
  {
    hide Split;
    var fields := Split(line, ' ');
    JoinSplit(line, ' ');
    assert fields[1..] == [fields[1]];
  }

  /** A `get` request reads back as its key if and only if the key is not empty, holds neither
      space nor newline and does not end with a carriage return. */
  lemma GetRequestReadsBack(key: string, rest: string)
    ensures ServerRead(GetRequest(key) + rest) == Some((Get(key), rest)) <==>
            key != "" && ' ' !in key && '\n' !in key && key[|key| - 1] != '\r'
  {
    hide ServerRead;
    hide GetRequest;
    if IsReadable(key) {
      GetRequestReads(key, rest);
    } else if ServerRead(GetRequest(key) + rest) == Some((Get(key), rest)) {
      ReadKeyIsReadable(GetRequest(key) + rest);
    }
  }

  lemma LineTaken(line: string, rest: string)
    requires '\n' !in line && (line != "" ==> line[|line| - 1] != '\r')
    ensures var s := line + (EOL + rest);
            var i := FirstNewline(s);
            i + 1 < |s| + 1 && i < |s| && TrimEol(s[..i + 1]) == line && s[i + 1..] == rest
  {
    var s := line + (EOL + rest);
    NewlineAfter(line, rest);
    TrimEolAfter(line);
    assert s[..|line| + 2] == line + EOL && s[|line| + 2..] == rest;
  }

  lemma {:induction false} SetIsRead(bytes: string, key: string, ttl: nat, value: string, rest: string)
    requires var i := FirstNewline(bytes);
             i < |bytes| && Split(TrimEol(bytes[..i + 1]), ' ') == SetFields(key, ttl, |value|)
             && bytes[i + 1..] == value + (EOL + rest)
    requires key != "" && ttl < USIZE_BOUND && |value| < USIZE_BOUND
    ensures ServerRead(bytes) == Some((Set(key, 0, ttl, value), rest))
  {
    hide FirstNewline;
    hide TrimEol;
    hide Split;
    hide ParseUsize;
    hide Decimal;
    NumbersReadBack(ttl);
    NumbersReadBack(|value|);
    BlockTaken(value, rest);
  }

  lemma NumbersReadBack(n: nat)
    ensures ParseUsize("0") == Some(0)
    ensures n < USIZE_BOUND ==> ParseUsize(Decimal(n)) == Some(n)
  {
    DecimalIsWord(0);
    DecimalIsWord(n);
    assert Decimal(0) == "0";
  }

  /** The server reads back a `set` request as exactly the key, TTL and value stored,
      whatever bytes the value holds. */
  lemma {:induction false} SetRequestReadsBack(key: string, value: string, ttl: nat, rest: string)
    requires ValidKey(key) && Utf8.Valid(key) && |value| < USIZE_BOUND && ttl < USIZE_BOUND
    ensures ServerRead(SetRequest(key, value, ttl) + rest) == Some((Set(key, 0, ttl, value), rest))
  {
    hide FirstNewline;
    hide TrimEol;
    hide Split;
    hide Words;
    hide Utf8.Valid;
    hide ServerRead;
    hide SetFields;
    var line := Words(SetFields(key, ttl, |value|));
    SetFieldsAreWords(key, ttl, |value|);
    WordsReadBack(SetFields(key, ttl, |value|));
    LineTaken(line, value + (EOL + rest));
    assert SetRequest(key, value, ttl) + rest == line + (EOL + (value + (EOL + rest)));
    SetIsRead(SetRequest(key, value, ttl) + rest, key, ttl, value, rest);
  }

  lemma {:induction false} SetFieldsAreWords(key: string, ttl: nat, length: nat)
    requires ValidKey(key) && Utf8.Valid(key)
    ensures forall i :: 0 <= i < |SetFields(key, ttl, length)| ==> IsWord(SetFields(key, ttl, length)[i])
  {
    hide Utf8.Valid;
    KeyIsWord(key);
    Utf8.AsciiValid("set");
    DecimalIsWord(0);
    DecimalIsWord(ttl);
    DecimalIsWord(length);
    assert Decimal(0) == "0";
  }

  lemma BlockTaken(value: string, rest: string)
    ensures var block := value + (EOL + rest);
            block[..|value|] == value && block[|value|..|value| + 2] == EOL && block[|value| + 2..] == rest
  {}

  /** `get_on` takes exactly a hit's reply. It returns exactly the value, or an error if
      the value is not text. */
  lemma {:induction false} HitReadsBack(key: string, flags: nat, value: string, rest: string, closed: bool)
    requires ValidKey(key) && Utf8.Valid(key) && |value| < USIZE_BOUND
    ensures ReadGetReply(HitReply(key, flags, value) + rest, closed) ==
            if Utf8.Valid(value) then Got(Some(value), rest) else Broken("value is not UTF-8")
  {
    hide ReadLine;
    hide ReadData;
    hide Split;
    hide Words;
    hide Utf8.Valid;
    hide ParseUsize;
    hide Decimal;
    var fields := [key, Decimal(flags), Decimal(|value|)];
    KeyIsWord(key);
    DecimalIsWord(flags);
    DecimalIsWord(|value|);
    WordsReadBack(fields);
    var header := "VALUE " + Words(fields);
    Utf8.AsciiValid("VALUE ");
    Utf8.ConcatValid("VALUE ", Words(fields));
    assert header[..6] == "VALUE " && header[6..] == Words(fields);
    var block := value + EOL + ("END" + (EOL + rest));
    assert HitReply(key, flags, value) + rest == header + (EOL + block);
    LineReadsBack(header, block, closed);
    DataReadsBack(value, rest, closed);
  }

  lemma ExactReadsBack(a: string, b: string, closed: bool)
    ensures ReadExact(a + b, |a|, closed) == Got(a, b)
  {}

  lemma DataReadsBack(value: string, rest: string, closed: bool)
    ensures ReadData(value + EOL + ("END" + (EOL + rest)), |value|, closed) ==
            if Utf8.Valid(value) then Got(Some(value), rest) else Broken("value is not UTF-8")
  {
    hide ReadLine;
    hide ReadExact;
    hide Utf8.Valid;
    var end := "END" + (EOL + rest);
    ExactReadsBack(value + EOL, end, closed);
    assert (value + EOL)[..|value|] == value;
    EndIsLine();
    LineReadsBack("END", rest, closed);
  }

  lemma EndIsLine()
    ensures IsLine("END") && IsLine("STORED")
  {
    hide Utf8.Valid;
    Utf8.AsciiValid("END");
    Utf8.AsciiValid("STORED");
  }

  lemma MissReadsBack(rest: string, closed: bool)
    ensures ReadGetReply(MISS_REPLY + rest, closed) == Got(None, rest)
  {
    hide ReadLine;
    hide IsLine;
    EndIsLine();
    LineReadsBack("END", rest, closed);
    assert MISS_REPLY + rest == "END" + (EOL + rest);
  }

  lemma StoredReadsBack(rest: string, closed: bool)
    ensures ReadSetReply(STORED_REPLY + rest, closed) == Got((), rest)
  {
    hide ReadLine;
    hide IsLine;
    EndIsLine();
    LineReadsBack("STORED", rest, closed);
    assert STORED_REPLY + rest == "STORED" + (EOL + rest);
  }

  /// ## Replies are self-delimiting

  lemma {:induction false} NewlineStays(s: string, more: string)
    ensures FirstNewline(s) < |s| ==> FirstNewline(s + more) == FirstNewline(s)
  {
    if s != "" && s[0] != '\n' {
      NewlineStays(s[1..], more);
      assert (s + more)[1..] == s[1..] + more;
    }
  }

  /** A line that is complete stays what it is when more bytes arrive. */
  lemma LineStays(s: string, more: string)
    requires ReadLine(s, false).Got?
    ensures ReadLine(s + more, false) == Got(ReadLine(s, false).value, ReadLine(s, false).rest + more)
  {
    NewlineStays(s, more);
    var n := FirstNewline(s) + 1;
    assert (s + more)[..n] == s[..n] && (s + more)[n..] == s[n..] + more;
  }

  lemma DataStays(s: string, length: nat, more: string)
    requires ReadData(s, length, false).Got?
    ensures ReadData(s + more, length, false) ==
            Got(ReadData(s, length, false).value, ReadData(s, length, false).rest + more)
  {
    hide ReadLine;
    var data := s[..length + 2];
    var rest := s[length + 2..];
    assert (s + more)[..length + 2] == data && (s + more)[length + 2..] == rest + more;
    LineStays(rest, more);
  }

  lemma GetReplyStays(s: string, more: string)
    requires ReadGetReply(s, false).Got?
    ensures ReadGetReply(s + more, false) == Got(ReadGetReply(s, false).value, ReadGetReply(s, false).rest + more)
  {
    hide ReadLine;
    hide ReadData;
    hide HeaderLength;
    LineStays(s, more);
    var line := ReadLine(s, false);
    if line.value != "END" {
      DataStays(line.rest, HeaderLength(line.value).value, more);
    }
  }

  /** What a reader accepts from a closed connection is either complete or takes all there is. */
  lemma ClosedLine(s: string)
    requires ReadLine(s, true).Got?
    ensures ReadLine(s, true).rest == "" || ReadLine(s, false) == ReadLine(s, true)
  {}

  lemma ClosedData(s: string, length: nat)
    requires ReadData(s, length, true).Got?
    ensures ReadData(s, length, true).rest == "" || ReadData(s, length, false) == ReadData(s, length, true)
  {
    hide ReadLine;
    ClosedLine(s[length + 2..]);
  }

  lemma ClosedGetReply(s: string)
    requires ReadGetReply(s, true).Got?
    ensures ReadGetReply(s, true).rest == "" || ReadGetReply(s, false) == ReadGetReply(s, true)
  {
    hide ReadLine;
    hide ReadData;
    hide HeaderLength;
    ClosedLine(s);
    var line := ReadLine(s, true);
    if line.value != "END" {
      ClosedData(line.rest, HeaderLength(line.value).value);
      if line.rest == "" {
        EmptyDataIsNothing(HeaderLength(line.value).value);
      }
    }
  }

  lemma EmptyDataIsNothing(length: nat)
    ensures !ReadData("", length, true).Got?
  {}
}

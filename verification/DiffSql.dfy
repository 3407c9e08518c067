/** The statements as SQL text, and a reader of that text with SQL's own quoting. */
module DiffSql {
  import opened Wrappers
  import opened Text
  import opened Diff

  /// ## Printing

  function Doubled(s: string): string {
    if s == "" then ""
    else (if s[0] == '\'' then "''" else [s[0]]) + Doubled(s[1..])
  }

  function Quote(value: string): string {
    "'" + (Doubled(value) + "'")
  }

  function Values(row: Row): string {
    "(" + (Quote(row.id) + ("," + (Quote(row.name) + ("," + (row.lat + ("," + (row.lon + ("," + (Quote(row.mode) + ")")))))))))
  }

  const INSERT := "INSERT" + " OR REPLACE INTO stations (id, name, lat, lon, mode) VALUES "
  const DELETE := "DELETE" + " FROM stations WHERE id IN ("

  function JoinRows(rows: seq<Row>): string
    requires rows != []
  {
    if |rows| == 1 then Values(rows[0]) else Values(rows[0]) + ("," + JoinRows(rows[1..]))
  }

  function JoinIds(ids: seq<string>): string
    requires ids != []
  {
    if |ids| == 1 then Quote(ids[0]) else Quote(ids[0]) + ("," + JoinIds(ids[1..]))
  }

  predicate IsStatement(st: Statement) {
    match st
    case Replace(rows) => rows != [] && forall i :: 0 <= i < |rows| ==> IsNumeral(rows[i].lat) && IsNumeral(rows[i].lon)
    case Delete(ids) => ids != []
  }

  function Print(st: Statement): string
    requires IsStatement(st)
  {
    match st
    case Replace(rows) => INSERT + (JoinRows(rows) + ";")
    case Delete(ids) => DELETE + (JoinIds(ids) + ");")
  }

  /** Each statement on its own line. */
  function Script(sts: seq<Statement>): string
    requires forall i :: 0 <= i < |sts| ==> IsStatement(sts[i])
  {
    if sts == [] then "" else Print(sts[0]) + ("\n" + Script(sts[1..]))
  }

  /** Decimal digits, signs, points and exponents. */
  predicate InNumeral(c: char) {
    IsDigit(c) || c == '-' || c == '+' || c == '.' || c == 'e'
  }

  predicate IsNumeral(s: string) {
    s != "" && forall i :: 0 <= i < |s| ==> InNumeral(s[i])
  }

  /// ## Reading

  function Expect(s: string, token: string): (r: Option<string>)
    ensures r.Some? ==> |r.value| == |s| - |token|
  {
    if token <= s then Some(s[|token|..]) else None
  }

  /** The rest of a string literal: a doubled quote is a quote, a single one ends it. */
  function ReadLiteral(s: string): (r: Option<(string, string)>)
    ensures r.Some? ==> |r.value.1| < |s|
    decreases |s|
  {
    if s == "" then None
    else if s[0] != '\'' then
      match ReadLiteral(s[1..])
      case Some((text, rest)) => Some(([s[0]] + text, rest))
      case None => None
    else if |s| > 1 && s[1] == '\'' then
      match ReadLiteral(s[2..])
      case Some((text, rest)) => Some((['\''] + text, rest))
      case None => None
    else Some(("", s[1..]))
  }

  function ReadQuoted(s: string): (r: Option<(string, string)>)
    ensures r.Some? ==> |r.value.1| < |s|
  {
    if s != "" && s[0] == '\'' then ReadLiteral(s[1..]) else None
  }

  function ReadNumeral(s: string): (r: Option<(string, string)>)
    ensures r.Some? ==> |r.value.1| < |s|
  {
    var n := Span(s, InNumeral);
    if n > 0 then Some((s[..n], s[n..])) else None
  }

  /** A value and the token that must follow it. */
  function Then(r: Option<(string, string)>, token: string): (r': Option<(string, string)>)
    ensures r'.Some? ==> r.Some? && |r'.value.1| <= |r.value.1|
  {
    match r
    case None => None
    case Some((value, rest)) =>
      match Expect(rest, token)
      case None => None
      case Some(rest') => Some((value, rest'))
  }

  function ReadValues(s: string): (r: Option<(Row, string)>)
    ensures r.Some? ==> |r.value.1| < |s|
  {
    match Expect(s, "(") case None => None case Some(s0) =>
    match Then(ReadQuoted(s0), ",") case None => None case Some((id, s1)) =>
    match Then(ReadQuoted(s1), ",") case None => None case Some((name, s2)) =>
    match Then(ReadNumeral(s2), ",") case None => None case Some((lat, s3)) =>
    match Then(ReadNumeral(s3), ",") case None => None case Some((lon, s4)) =>
    match Then(ReadQuoted(s4), ")") case None => None case Some((mode, s5)) =>
      Some((Row(id, name, lat, lon, mode), s5))
  }

  function ReadRows(s: string): (r: Option<(seq<Row>, string)>)
    ensures r.Some? ==> |r.value.1| < |s|
    decreases |s|
  {
    match ReadValues(s)
    case None => None
    case Some((row, rest)) =>
      match Expect(rest, ",")
      case None => Some(([row], rest))
      case Some(more) =>
        match ReadRows(more)
        case None => None
        case Some((rows, rest')) => Some(([row] + rows, rest'))
  }

  function ReadIds(s: string): (r: Option<(seq<string>, string)>)
    ensures r.Some? ==> |r.value.1| < |s|
    decreases |s|
  {
    match ReadQuoted(s)
    case None => None
    case Some((id, rest)) =>
      match Expect(rest, ",")
      case None => Some(([id], rest))
      case Some(more) =>
        match ReadIds(more)
        case None => None
        case Some((ids, rest')) => Some(([id] + ids, rest'))
  }

  function ReadReplace(s: string): (r: Option<(Statement, string)>)
    ensures r.Some? ==> |r.value.1| < |s|
  {
    match ReadRows(s) case None => None case Some((rows, rest)) =>
    match Expect(rest, ";") case None => None case Some(rest') => Some((Replace(rows), rest'))
  }

  function ReadDelete(s: string): (r: Option<(Statement, string)>)
    ensures r.Some? ==> |r.value.1| < |s|
  {
    match ReadIds(s) case None => None case Some((ids, rest)) =>
    match Expect(rest, ");") case None => None case Some(rest') => Some((Delete(ids), rest'))
  }

  function ReadStatement(s: string): (r: Option<(Statement, string)>)
    ensures r.Some? ==> |r.value.1| < |s|
  {
    // The statements of SQLite, apart from the writer's own constants.
    match Expect(s, "INSERT" + " OR REPLACE INTO stations (id, name, lat, lon, mode) VALUES ")
    case Some(rest) => ReadReplace(rest)
    case None =>
      match Expect(s, "DELETE" + " FROM stations WHERE id IN (")
      case Some(rest) => ReadDelete(rest)
      case None => None
  }

  function ReadScript(s: string): Option<seq<Statement>>
    decreases |s|
  {
    if s == "" then Some([])
    else
      match ReadStatement(s)
      case None => None
      case Some((st, rest)) =>
        match Expect(rest, "\n")
        case None => None
        case Some(more) =>
          match ReadScript(more)
          case None => None
          case Some(sts) => Some([st] + sts)
  }

  /// ## Reading back

  lemma {:induction false} LiteralReadsBack(value: string, rest: string)
    requires rest == "" || rest[0] != '\''
    ensures ReadLiteral(Doubled(value) + ("'" + rest)) == Some((value, rest))
  {
    var s := Doubled(value) + ("'" + rest);
    if value == "" {
      assert s == "'" + rest;
      assert s[1..] == rest;
    } else {
      var tail := Doubled(value[1..]) + ("'" + rest);
      LiteralReadsBack(value[1..], rest);
      assert [value[0]] + value[1..] == value;
      if value[0] == '\'' {
        assert s == "''" + tail && s[2..] == tail;
      } else {
        assert s == [value[0]] + tail && s[1..] == tail;
      }
    }
  }

  /** Every string survives quoting, whatever quotes it holds. */
  lemma QuoteReadsBack(value: string, rest: string)
    requires rest == "" || rest[0] != '\''
    ensures ReadQuoted(Quote(value) + rest) == Some((value, rest))
  {
    hide ReadLiteral;
    LiteralReadsBack(value, rest);
    assert (Quote(value) + rest)[1..] == Doubled(value) + ("'" + rest);
  }

  lemma NumeralReadsBack(s: string, rest: string)
    requires IsNumeral(s) && (rest == "" || !InNumeral(rest[0]))
    ensures ReadNumeral(s + rest) == Some((s, rest))
  {
    SpanIs(s + rest, InNumeral, |s|);
    assert (s + rest)[..|s|] == s && (s + rest)[|s|..] == rest;
  }

  lemma Expected(token: string, rest: string)
    ensures Expect(token + rest, token) == Some(rest)
  {}

  lemma QuotedThen(value: string, token: string, rest: string)
    requires token != "" && token[0] != '\''
    ensures Then(ReadQuoted(Quote(value) + (token + rest)), token) == Some((value, rest))
  {
    hide Quote;
    hide ReadQuoted;
    QuoteReadsBack(value, token + rest);
    Expected(token, rest);
  }

  lemma NumeralThen(s: string, rest: string)
    requires IsNumeral(s)
    ensures Then(ReadNumeral(s + ("," + rest)), ",") == Some((s, rest))
  {
    hide ReadNumeral;
    NumeralReadsBack(s, "," + rest);
    Expected(",", rest);
  }

  /** A row's text, read off in front of anything. */
  lemma ValuesReadBack(row: Row, rest: string)
    requires IsNumeral(row.lat) && IsNumeral(row.lon)
    ensures ReadValues(Values(row) + rest) == Some((row, rest))
  {
    hide Then;
    hide Expect;
    hide Quote;
    hide ReadQuoted;
    hide ReadNumeral;
    hide IsNumeral;
    var s5 := Quote(row.mode) + (")" + rest);
    var s4 := row.lon + ("," + s5);
    var s3 := row.lat + ("," + s4);
    var s2 := Quote(row.name) + ("," + s3);
    var s1 := Quote(row.id) + ("," + s2);
    ValuesRegroup(row, rest);
    Expected("(", s1);
    QuotedThen(row.id, ",", s2);
    QuotedThen(row.name, ",", s3);
    NumeralThen(row.lat, s4);
    NumeralThen(row.lon, s5);
    QuotedThen(row.mode, ")", rest);
  }

  lemma ValuesRegroup(row: Row, rest: string)
    ensures Values(row) + rest ==
            "(" + (Quote(row.id) + ("," + (Quote(row.name) + ("," + (row.lat + ("," + (row.lon + ("," + (Quote(row.mode) + (")" + rest))))))))))
  {
    hide Quote;
  }

  lemma {:induction false} RowsReadBack(rows: seq<Row>, rest: string)
    requires rows != [] && forall i :: 0 <= i < |rows| ==> IsNumeral(rows[i].lat) && IsNumeral(rows[i].lon)
    requires rest != "" && rest[0] != ','
    ensures ReadRows(JoinRows(rows) + rest) == Some((rows, rest))
  {
    hide ReadValues;
    hide Values;
    hide IsNumeral;
    if |rows| == 1 {
      ValuesReadBack(rows[0], rest);
      assert rows == [rows[0]];
    } else {
      var more := JoinRows(rows[1..]) + rest;
      RowsReadBack(rows[1..], rest);
      ValuesReadBack(rows[0], "," + more);
      assert [rows[0]] + rows[1..] == rows;
      assert JoinRows(rows) + rest == Values(rows[0]) + ("," + more);
      Expected(",", more);
    }
  }

  lemma {:induction false} IdsReadBack(ids: seq<string>, rest: string)
    requires ids != [] && rest != "" && rest[0] != ',' && rest[0] != '\''
    ensures ReadIds(JoinIds(ids) + rest) == Some((ids, rest))
  {
    hide ReadQuoted;
    hide Quote;
    if |ids| == 1 {
      QuoteReadsBack(ids[0], rest);
      assert ids == [ids[0]];
    } else {
      var more := JoinIds(ids[1..]) + rest;
      IdsReadBack(ids[1..], rest);
      QuoteReadsBack(ids[0], "," + more);
      assert [ids[0]] + ids[1..] == ids;
      assert JoinIds(ids) + rest == Quote(ids[0]) + ("," + more);
      Expected(",", more);
    }
  }

  lemma StatementReadsBack(st: Statement, rest: string)
    requires IsStatement(st)
    ensures ReadStatement(Print(st) + rest) == Some((st, rest))
  {
    hide JoinRows;
    hide JoinIds;
    hide ReadRows;
    hide ReadIds;
    hide Expect;
    hide IsNumeral;
    match st
    case Replace(rows) =>
      RowsReadBack(rows, ";" + rest);
      Expected(";", rest);
      Expected(INSERT, JoinRows(rows) + (";" + rest));
      assert Print(st) + rest == INSERT + (JoinRows(rows) + (";" + rest));
    case Delete(ids) =>
      IdsReadBack(ids, ");" + rest);
      Expected(");", rest);
      Expected(DELETE, JoinIds(ids) + (");" + rest));
      assert Print(st) + rest == DELETE + (JoinIds(ids) + (");" + rest));
      NotInsert(JoinIds(ids) + (");" + rest));
  }

  lemma NotInsert(rest: string)
    ensures Expect(DELETE + rest, INSERT) == None
  {
    assert "DELETE"[0] != "INSERT"[0];
    assert (DELETE + rest)[0] == "DELETE"[0] && INSERT[0] == "INSERT"[0];
  }

  lemma {:induction false} ScriptReadsBack(sts: seq<Statement>)
    requires forall i :: 0 <= i < |sts| ==> IsStatement(sts[i])
    ensures ReadScript(Script(sts)) == Some(sts)
  {
    hide ReadStatement;
    hide Print;
    hide IsStatement;
    if sts != [] {
      ScriptReadsBack(sts[1..]);
      StatementReadsBack(sts[0], "\n" + Script(sts[1..]));
      Expected("\n", Script(sts[1..]));
      assert [sts[0]] + sts[1..] == sts;
    }
  }

  /// ## The whole script

  ghost predicate AllNumeric(d: Dict) {
    forall i :: 0 <= i < |d| ==> IsNumeral(d[i].lat) && IsNumeral(d[i].lon)
  }

  lemma StatementsArePrintable(current: Dict, target: Dict)
    requires AllNumeric(target)
    ensures forall i :: 0 <= i < |Statements(current, target)| ==> IsStatement(Statements(current, target)[i])
  {
    hide IsNumeral;
    hide Upserts;
    hide Removed;
    hide Chunks;
    var upserts, removed := Upserts(current, target), Removed(current, target);
    AllReplaced(Chunks(upserts));
    AllDeleted(Chunks(removed));
    ChunksCover(upserts);
    forall i | 0 <= i < |Chunks(upserts)|
      ensures IsStatement(Replace(Chunks(upserts)[i]))
    {
      forall j | 0 <= j < |Chunks(upserts)[i]|
        ensures IsNumeral(Chunks(upserts)[i][j].lat) && IsNumeral(Chunks(upserts)[i][j].lon)
      {
        InFlat(Chunks(upserts), i, j);
        assert Chunks(upserts)[i][j] in target;
      }
    }
  }

  lemma {:induction false} InFlat<T>(batches: seq<seq<T>>, i: nat, j: nat)
    requires i < |batches| && j < |batches[i]|
    ensures batches[i][j] in Flat(batches)
  {
    if i > 0 {
      InFlat(batches[1..], i - 1, j);
    }
  }

  /** Reading the printed script and executing it on the current table gives the target. */
  lemma ScriptReachesTarget(current: Dict, target: Dict)
    requires Distinct(current) && Distinct(target) && AllNumeric(target)
    ensures forall i :: 0 <= i < |Statements(current, target)| ==> IsStatement(Statements(current, target)[i])
    ensures match ReadScript(Script(Statements(current, target)))
            case Some(sts) => ExecuteAll(TableOf(current), sts) == TableOf(target)
            case None => false
  {
    hide ReadScript;
    hide Script;
    hide IsStatement;
    StatementsArePrintable(current, target);
    ScriptReadsBack(Statements(current, target));
    DiffReachesTarget(current, target);
  }

  lemma {:induction false} LoadKeepsRows(rows: seq<Row>)
    ensures Distinct(Load(rows)) && forall r :: r in Load(rows) ==> r in rows
  {
    if rows != [] {
      LoadKeepsRows(rows[..|rows| - 1]);
      AssignIs(Load(rows[..|rows| - 1]), rows[|rows| - 1], "");
    }
  }

  /** The same from the two files as they are, even if an id occurs in one more than once. */
  lemma {:induction false} MainReachesTarget(currentRows: seq<Row>, targetRows: seq<Row>)
    requires AllNumeric(targetRows)
    ensures var current, target := Load(currentRows), Load(targetRows);
            && (forall i :: 0 <= i < |Statements(current, target)| ==> IsStatement(Statements(current, target)[i]))
            && match ReadScript(Script(Statements(current, target)))
               case Some(sts) => ExecuteAll(TableOf(current), sts) == TableOf(target)
               case None => false
  {
    hide IsNumeral;
    hide ReadScript;
    hide Script;
    hide Statements;
    hide IsStatement;
    LoadKeepsRows(currentRows);
    LoadKeepsRows(targetRows);
    forall i | 0 <= i < |Load(targetRows)|
      ensures IsNumeral(Load(targetRows)[i].lat) && IsNumeral(Load(targetRows)[i].lon)
    {
      assert Load(targetRows)[i] in targetRows;
    }
    ScriptReachesTarget(Load(currentRows), Load(targetRows));
  }
}

/** The difference between two station tables, as batched SQL, and a reader and executor of
    that SQL. */
module Diff {
  import opened Wrappers
  import opened Text

  const BATCH: nat := 500

  /** `lat` and `lon` are numerals, one for each number. */
  datatype Row = Row(id: string, name: string, lat: string, lon: string, mode: string)

  /** A dictionary by id, in insertion order. */
  type Dict = seq<Row>

  /// ## Dictionaries

  predicate Has(d: Dict, id: string) {
    exists i :: 0 <= i < |d| && d[i].id == id
  }

  function Get(d: Dict, id: string): (r: Option<Row>)
    ensures r.Some? <==> Has(d, id)
    ensures r.Some? ==> r.value.id == id && r.value in d
  {
    if d == [] then None else if d[0].id == id then Some(d[0]) else Get(d[1..], id)
  }

  /** Assigning a key keeps its place. */
  function Assign(d: Dict, row: Row): Dict {
    if d == [] then [row]
    else if d[0].id == row.id then [row] + d[1..]
    else [d[0]] + Assign(d[1..], row)
  }

  function Load(rows: seq<Row>): Dict {
    if rows == [] then [] else Assign(Load(rows[..|rows| - 1]), rows[|rows| - 1])
  }

  predicate Distinct(d: Dict) {
    forall i, j :: 0 <= i < j < |d| ==> d[i].id != d[j].id
  }

  lemma {:induction false} AssignIs(d: Dict, row: Row, id: string)
    requires Distinct(d)
    ensures Distinct(Assign(d, row))
    ensures forall r :: r in Assign(d, row) ==> r == row || r in d
    ensures Get(Assign(d, row), id) == if id == row.id then Some(row) else Get(d, id)
  {
    if d != [] && d[0].id != row.id {
      AssignIs(d[1..], row, id);
      forall j | 0 < j < |Assign(d, row)|
        ensures Assign(d, row)[j].id != d[0].id
      {
        assert Assign(d, row)[j] in Assign(d[1..], row);
      }
    }
  }

  ghost predicate IsLast(rows: seq<Row>, i: int, id: string) {
    0 <= i < |rows| && rows[i].id == id && forall j :: i < j < |rows| ==> rows[j].id != id
  }

  /** Loading keeps one row per id, the last one. */
  lemma {:induction false} LoadIsLast(rows: seq<Row>, id: string) returns (i: int)
    ensures Distinct(Load(rows))
    ensures Get(Load(rows), id).None? ==> !Has(rows, id)
    ensures Get(Load(rows), id).Some? ==> IsLast(rows, i, id) && Get(Load(rows), id) == Some(rows[i])
  {
    i := -1;
    if rows != [] {
      var n := |rows| - 1;
      i := LoadIsLast(rows[..n], id);
      AssignIs(Load(rows[..n]), rows[n], id);
      if rows[n].id == id {
        i := n;
      } else {
        assert forall j :: 0 <= j < n ==> rows[j] == rows[..n][j];
      }
    }
  }

  /// ## The difference

  function Upserts(current: Dict, target: Dict): (rows: seq<Row>)
    ensures forall r :: r in rows <==> r in target && Get(current, r.id) != Some(r)
  {
    if target == [] then []
    else (if Get(current, target[0].id) != Some(target[0]) then [target[0]] else []) + Upserts(current, target[1..])
  }

  function Removed(current: Dict, target: Dict): (ids: seq<string>)
    ensures forall id :: id in ids <==> Has(current, id) && !Has(target, id)
  {
    if current == [] then []
    else (if Has(target, current[0].id) then [] else [current[0].id]) + Removed(current[1..], target)
  }

  function Chunks<T>(items: seq<T>): (batches: seq<seq<T>>)
    ensures forall i :: 0 <= i < |batches| ==> 1 <= |batches[i]| <= BATCH
    ensures forall i :: 0 <= i < |batches| - 1 ==> |batches[i]| == BATCH
  {
    if |items| <= BATCH then (if items == [] then [] else [items])
    else [items[..BATCH]] + Chunks(items[BATCH..])
  }

  function Flat<T>(batches: seq<seq<T>>): seq<T> {
    if batches == [] then [] else batches[0] + Flat(batches[1..])
  }

  lemma {:induction false} ChunksCover<T>(items: seq<T>)
    ensures Flat(Chunks(items)) == items
  {
    if |items| > BATCH {
      ChunksCover(items[BATCH..]);
      assert items == items[..BATCH] + items[BATCH..];
    } else if items != [] {
      assert Flat([items]) == items;
    }
  }

  datatype Statement = Replace(rows: seq<Row>) | Delete(ids: seq<string>)

  function ReplaceAll(batches: seq<seq<Row>>): seq<Statement> {
    if batches == [] then [] else [Replace(batches[0])] + ReplaceAll(batches[1..])
  }

  function DeleteAll(batches: seq<seq<string>>): seq<Statement> {
    if batches == [] then [] else [Delete(batches[0])] + DeleteAll(batches[1..])
  }

  function Statements(current: Dict, target: Dict): seq<Statement> {
    ReplaceAll(Chunks(Upserts(current, target))) + DeleteAll(Chunks(Removed(current, target)))
  }

  /// ## Execution

  type Table = map<string, Row>

  function TableOf(d: Dict): Table {
    Put(map[], d)
  }

  function Put(t: Table, rows: seq<Row>): Table
    decreases rows
  {
    if rows == [] then t else Put(t[rows[0].id := rows[0]], rows[1..])
  }

  function Execute(t: Table, st: Statement): Table {
    match st
    case Replace(rows) => Put(t, rows)
    case Delete(ids) => map id | id in t && id !in ids :: t[id]
  }

  function ExecuteAll(t: Table, sts: seq<Statement>): Table
    decreases sts
  {
    if sts == [] then t else ExecuteAll(Execute(t, sts[0]), sts[1..])
  }

  function At(t: Table, id: string): Option<Row> {
    if id in t then Some(t[id]) else None
  }

  /// ## Executing the difference

  lemma {:induction false} DistinctTail(d: Dict, id: string)
    requires Distinct(d) && d != []
    ensures Distinct(d[1..])
    ensures d[0].id == id ==> Get(d[1..], id).None?
  {}

  lemma {:induction false} PutIs(t: Table, rows: seq<Row>, id: string)
    requires Distinct(rows)
    ensures At(Put(t, rows), id) == if Get(rows, id).Some? then Get(rows, id) else At(t, id)
    decreases rows
  {
    if rows != [] {
      DistinctTail(rows, id);
      PutIs(t[rows[0].id := rows[0]], rows[1..], id);
    }
  }

  lemma {:induction false} TableIs(d: Dict, id: string)
    requires Distinct(d)
    ensures At(TableOf(d), id) == Get(d, id)
  {
    PutIs(map[], d, id);
  }

  lemma {:induction false} PutConcat(t: Table, a: seq<Row>, b: seq<Row>)
    ensures Put(t, a + b) == Put(Put(t, a), b)
    decreases a
  {
    if a == [] {
      assert a + b == b;
    } else {
      PutConcat(t[a[0].id := a[0]], a[1..], b);
      assert (a + b)[1..] == a[1..] + b;
    }
  }

  lemma {:induction false} ExecuteConcat(t: Table, a: seq<Statement>, b: seq<Statement>)
    ensures ExecuteAll(t, a + b) == ExecuteAll(ExecuteAll(t, a), b)
    decreases a
  {
    hide Execute;
    if a == [] {
      assert a + b == b;
    } else {
      ExecuteConcat(Execute(t, a[0]), a[1..], b);
      assert (a + b)[1..] == a[1..] + b;
    }
  }

  lemma {:induction false} ReplacesArePuts(t: Table, batches: seq<seq<Row>>)
    ensures ExecuteAll(t, ReplaceAll(batches)) == Put(t, Flat(batches))
    decreases batches
  {
    hide Put;
    if batches == [] {
      assert Put(t, []) == t by { PutNothing(t); }
    } else {
      ReplacesArePuts(Put(t, batches[0]), batches[1..]);
      PutConcat(t, batches[0], Flat(batches[1..]));
      assert ReplaceAll(batches)[1..] == ReplaceAll(batches[1..]);
    }
  }

  lemma PutNothing(t: Table)
    ensures Put(t, []) == t
  {}

  lemma {:induction false} DeletesRemove(t: Table, batches: seq<seq<string>>, id: string)
    ensures At(ExecuteAll(t, DeleteAll(batches)), id) == if id in Flat(batches) then None else At(t, id)
    decreases batches
  {
    if batches != [] {
      DeletesRemove(Execute(t, Delete(batches[0])), batches[1..], id);
      assert DeleteAll(batches)[1..] == DeleteAll(batches[1..]);
    }
  }

  lemma {:induction false} UpsertsDistinct(current: Dict, target: Dict)
    requires Distinct(target)
    ensures Distinct(Upserts(current, target))
  {
    hide Get;
    if target != [] {
      var first, rest := target[0], Upserts(current, target[1..]);
      DistinctTail(target, first.id);
      UpsertsDistinct(current, target[1..]);
      forall j | 0 <= j < |rest|
        ensures rest[j].id != first.id
      {
        assert rest[j] in target[1..];
      }
    }
  }

  lemma {:induction false} UpsertsGet(current: Dict, target: Dict, id: string)
    requires Distinct(target)
    ensures Get(Upserts(current, target), id) ==
            if Get(target, id).Some? && Get(target, id) != Get(current, id) then Get(target, id) else None
  {
    hide Has;
    hide Get;
    if target == [] {
      GetNothing(id);
    } else {
      var first, rest := target[0], Upserts(current, target[1..]);
      DistinctTail(target, id);
      UpsertsGet(current, target[1..], id);
      GetCons(first, target[1..], id);
      GetCons(first, rest, id);
      assert [first] + target[1..] == target && [] + rest == rest;
    }
  }

  lemma GetCons(row: Row, d: Dict, id: string)
    ensures Get([row] + d, id) == if row.id == id then Some(row) else Get(d, id)
  {}

  lemma GetNothing(id: string)
    ensures Get([], id) == None
  {}

  /** Executed on the current table, the statements make it the target table. */
  lemma DiffReachesTarget(current: Dict, target: Dict)
    requires Distinct(current) && Distinct(target)
    ensures ExecuteAll(TableOf(current), Statements(current, target)) == TableOf(target)
  {
    hide ExecuteAll;
    hide Put;
    hide Chunks;
    hide Flat;
    hide Upserts;
    hide Removed;
    hide Get;
    hide Has;
    hide TableOf;
    var upserts, removed := Upserts(current, target), Removed(current, target);
    var t := Put(TableOf(current), upserts);
    UpsertsDistinct(current, target);
    ChunksCover(upserts);
    ChunksCover(removed);
    ReplacesArePuts(TableOf(current), Chunks(upserts));
    ExecuteConcat(TableOf(current), ReplaceAll(Chunks(upserts)), DeleteAll(Chunks(removed)));
    var result := ExecuteAll(t, DeleteAll(Chunks(removed)));
    forall id
      ensures At(result, id) == At(TableOf(target), id)
    {
      DeletesRemove(t, Chunks(removed), id);
      UpsertsGet(current, target, id);
      PutIs(TableOf(current), upserts, id);
      TableIs(current, id);
      TableIs(target, id);
    }
    SameTables(result, TableOf(target));
  }

  lemma SameTables(t: Table, u: Table)
    requires forall id :: At(t, id) == At(u, id)
    ensures t == u
  {
    assert forall id :: id in t ==> At(t, id).Some? && At(u, id).Some?;
    assert forall id :: id in u ==> At(u, id).Some? && At(t, id).Some?;
    assert forall id :: id in t ==> t[id] == At(t, id).value;
    assert forall id :: id in u ==> u[id] == At(u, id).value;
  }

  /// ## Only what changes is written

  function IdsOf(st: Statement): seq<string> {
    match st
    case Replace(rows) => seq(|rows|, i requires 0 <= i < |rows| => rows[i].id)
    case Delete(ids) => ids
  }

  /** Every id the statements write, in order. */
  function Written(sts: seq<Statement>): seq<string> {
    if sts == [] then [] else IdsOf(sts[0]) + Written(sts[1..])
  }

  lemma {:induction false} WrittenConcat(a: seq<Statement>, b: seq<Statement>)
    ensures Written(a + b) == Written(a) + Written(b)
  {
    hide IdsOf;
    if a == [] {
      assert a + b == b;
    } else {
      WrittenConcat(a[1..], b);
      assert (a + b)[1..] == a[1..] + b;
    }
  }

  lemma {:induction false} WrittenReplaces(batches: seq<seq<Row>>)
    ensures Written(ReplaceAll(batches)) == IdsOf(Replace(Flat(batches)))
  {
    if batches != [] {
      WrittenReplaces(batches[1..]);
      assert ReplaceAll(batches)[1..] == ReplaceAll(batches[1..]);
    }
  }

  lemma {:induction false} WrittenDeletes(batches: seq<seq<string>>)
    ensures Written(DeleteAll(batches)) == Flat(batches)
  {
    if batches != [] {
      WrittenDeletes(batches[1..]);
      assert DeleteAll(batches)[1..] == DeleteAll(batches[1..]);
    }
  }

  lemma {:induction false} RemovedDistinct(current: Dict, target: Dict)
    requires Distinct(current)
    ensures forall i, j :: 0 <= i < j < |Removed(current, target)| ==> Removed(current, target)[i] != Removed(current, target)[j]
  {
    if current != [] {
      DistinctTail(current, current[0].id);
      RemovedDistinct(current[1..], target);
      assert !Has(current[1..], current[0].id);
      assert forall id :: id in Removed(current[1..], target) ==> Has(current[1..], id);
    }
  }

  /** An id is written if and only if its row differs, and then exactly once. */
  lemma {:induction false} OnlyChangesAreWritten(current: Dict, target: Dict)
    requires Distinct(current) && Distinct(target)
    ensures var ids := Written(Statements(current, target));
            && (forall id :: id in ids <==> Get(current, id) != Get(target, id))
            && (forall i, j :: 0 <= i < j < |ids| ==> ids[i] != ids[j])
  {
    var upserts, removed := Upserts(current, target), Removed(current, target);
    var ids := Written(Statements(current, target));
    assert ids == IdsOf(Replace(upserts)) + removed by {
      WrittenConcat(ReplaceAll(Chunks(upserts)), DeleteAll(Chunks(removed)));
      WrittenReplaces(Chunks(upserts));
      WrittenDeletes(Chunks(removed));
      ChunksCover(upserts);
      ChunksCover(removed);
    }
    WrittenOnce(current, target);
  }

  lemma {:induction false} WrittenOnce(current: Dict, target: Dict)
    requires Distinct(current) && Distinct(target)
    ensures var ids := IdsOf(Replace(Upserts(current, target))) + Removed(current, target);
            && (forall id :: id in ids <==> Get(current, id) != Get(target, id))
            && (forall i, j :: 0 <= i < j < |ids| ==> ids[i] != ids[j])
  {
    hide Upserts;
    hide Removed;
    hide Get;
    hide Has;
    var upserts, removed := Upserts(current, target), Removed(current, target);
    var a := IdsOf(Replace(upserts));
    RemovedDistinct(current, target);
    forall id
      ensures id in a <==> Get(target, id).Some? && Get(current, id) != Get(target, id)
      ensures id in removed <==> Get(current, id).Some? && Get(target, id).None?
    {
      UpsertsGet(current, target, id);
      IdsAreKeys(upserts, id);
    }
    UpsertsDistinct(current, target);
    assert forall i, j :: 0 <= i < j < |a| ==> a[i] != a[j];
    assert forall id :: id in a + removed <==> id in a || id in removed;
  }

  lemma IdsAreKeys(rows: seq<Row>, id: string)
    ensures id in IdsOf(Replace(rows)) <==> Get(rows, id).Some?
  {
    var ids := IdsOf(Replace(rows));
    if Has(rows, id) {
      var i :| 0 <= i < |rows| && rows[i].id == id;
      assert ids[i] == id;
    }
  }

  /** Every statement writes between 1 and 500 rows, and exactly 500 unless it is the last of
      its kind. */
  lemma BatchesAreBounded(current: Dict, target: Dict, i: nat)
    requires i < |Statements(current, target)|
    ensures 1 <= |IdsOf(Statements(current, target)[i])| <= 500
    ensures i + 1 < |Statements(current, target)|
            && Statements(current, target)[i].Replace? == Statements(current, target)[i + 1].Replace? ==>
              |IdsOf(Statements(current, target)[i])| == 500
  {
    hide Chunks;
    var upserts, removed := Chunks(Upserts(current, target)), Chunks(Removed(current, target));
    AllReplaced(upserts);
    AllDeleted(removed);
  }

  lemma {:induction false} AllReplaced(batches: seq<seq<Row>>)
    ensures |ReplaceAll(batches)| == |batches|
    ensures forall i :: 0 <= i < |batches| ==> ReplaceAll(batches)[i] == Replace(batches[i])
  {
    if batches != [] {
      AllReplaced(batches[1..]);
    }
  }

  lemma {:induction false} AllDeleted(batches: seq<seq<string>>)
    ensures |DeleteAll(batches)| == |batches|
    ensures forall i :: 0 <= i < |batches| ==> DeleteAll(batches)[i] == Delete(batches[i])
  {
    if batches != [] {
      AllDeleted(batches[1..]);
    }
  }
}

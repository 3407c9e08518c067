/** What the rows of a board are, field by field, in terms of what the document says. */
module OjpBoards {
  import opened Wrappers
  import opened OjpXml
  import opened OjpItems
  import opened OjpTags
  import opened OjpTwins
  import opened OjpEvents
  import opened OjpNodes
  import opened OjpDocuments
  import opened OjpTheorem
  import opened OjpWritten

  /// ## Rows

  function OrNothing(text: Option<string>): string {
    if text.Some? then text.value else ""
  }

  /** A timestamp present and readable, in milliseconds. */
  function Known(text: Option<string>, clock: Clock): Option<int> {
    if text.Some? then clock(text.value) else None
  }

  /** The departure in whole seconds toward 1970, or 0 if there is no readable time. */
  predicate IsSecondOf(timetabled: Option<int>, departure: int) {
    match timetabled
    case None => departure == 0
    case Some(ms) =>
      if ms >= 0 then 1000 * departure <= ms < 1000 * departure + 1000
      else 1000 * departure - 1000 < ms <= 1000 * departure
  }

  /** Shown from half a minute on, and then the nearest number of minutes. */
  predicate IsDelay(timetabled: Option<int>, estimated: Option<int>, delay: Option<int>) {
    if timetabled.Some? && estimated.Some? && estimated.value - timetabled.value >= 30_000 then
      delay.Some? && -30_000 <= estimated.value - timetabled.value - 60_000 * delay.value < 30_000
    else delay.None?
  }

  /** Field by field what is said. */
  predicate IsRowOf(f: Fields, clock: Clock, row: FlatDeparture) {
    && row.to == (if f.destination.Some? then f.destination.value else "?")
    && row.category == OrNothing(f.category) && row.number == OrNothing(f.number)
    && IsSecondOf(Known(f.timetabled, clock), row.departure)
    && IsDelay(Known(f.timetabled, clock), Known(f.estimated, clock), row.delay)
    && row.platform == (if f.estimatedQuay.Some? then f.estimatedQuay.value else OrNothing(f.plannedQuay))
    && (row.platformChanged <==> f.estimatedQuay.Some? && f.estimatedQuay.value != OrNothing(f.plannedQuay))
    && row.trainNumber == f.trainNumber && row.operatorRef == f.operatorRef
  }

  /** The operating day counts: one journey on two days is two journeys. */
  predicate SameJourney(f: Fields, g: Fields) {
    && f.journey.Some? && g.journey.Some?
    && OrNothing(f.day) + ("|" + f.journey.value) == OrNothing(g.day) + ("|" + g.journey.value)
  }

  lemma RowSays(f: Fields, clock: Clock)
    ensures IsRowOf(f, clock, Row(f, clock).1)
  {
    if Known(f.timetabled, clock).Some? {
      DepartureMeans(f, clock, Known(f.timetabled, clock).value);
      if Known(f.estimated, clock).Some? {
        DelayMeans(f, clock, Known(f.timetabled, clock).value, Known(f.estimated, clock).value);
      }
    }
  }

  lemma KeySays(f: Fields, g: Fields, clock: Clock)
    ensures Row(f, clock).0.Some? <==> f.journey.Some?
    ensures f.journey.Some? ==> (Row(f, clock).0 == Row(g, clock).0 <==> SameJourney(f, g))
  {
    hide Departure;
    hide Delay;
    if f.journey.Some? && g.journey.Some? {
      var a, b := OrNothing(f.day), OrNothing(g.day);
      assert a + "|" + f.journey.value == a + ("|" + f.journey.value);
      assert b + "|" + g.journey.value == b + ("|" + g.journey.value);
    }
  }

  /// ## Boards

  /** What the results say, in order; a result that says nothing has no row. */
  function Spoken(fields: seq<Option<Fields>>): seq<Fields> {
    if fields == [] then []
    else
      var last := fields[|fields| - 1];
      Spoken(fields[..|fields| - 1]) + if last.Some? then [last.value] else []
  }

  lemma {:induction false} RowsAreSpoken(fields: seq<Option<Fields>>, clock: Clock)
    ensures |RowsOf(fields, clock)| == |Spoken(fields)|
    ensures forall i :: 0 <= i < |Spoken(fields)| ==> RowsOf(fields, clock)[i] == Row(Spoken(fields)[i], clock)
  {
    hide Row;
    if fields != [] {
      RowsAreSpoken(fields[..|fields| - 1], clock);
    }
  }

  /** Two events stand for one row: they are the same, or runs of one journey on one day. */
  predicate Shares(fs: seq<Fields>, i: nat, j: nat)
    requires i < |fs| && j < |fs|
  {
    i == j || SameJourney(fs[i], fs[j])
  }

  ghost predicate IsShown(fs: seq<Fields>, firsts: seq<nat>, i: nat)
    requires i < |fs| && forall j :: 0 <= j < |firsts| ==> firsts[j] < |fs|
  {
    exists j :: 0 <= j < |firsts| && Shares(fs, firsts[j], i)
  }

  /** Row `row` shows event `best` of those that share a journey with event `first`, the first
      of them: of the latest to depart the first. */
  ghost predicate Shows(fs: seq<Fields>, clock: Clock, first: nat, best: nat, row: FlatDeparture) {
    && first <= best < |fs|
    && Shares(fs, first, best) && IsRowOf(fs[best], clock, row)
    && forall i :: 0 <= i < |fs| && Shares(fs, first, i) ==>
         && first <= i
         && Departure(fs[i], clock) <= row.departure
         && (i < best ==> Departure(fs[i], clock) < row.departure)
  }

  /** `firsts[j]` is the first event that row `j` stands for and `best[j]` the one it shows. */
  ghost predicate IsBoard(fs: seq<Fields>, clock: Clock, rows: seq<FlatDeparture>, firsts: seq<nat>, best: seq<nat>) {
    && |firsts| == |best| == |rows|
    && (forall j :: 0 <= j < |rows| ==> Shows(fs, clock, firsts[j], best[j], rows[j]))
    // Every event is in exactly one row.
    && (forall i :: 0 <= i < |fs| ==> IsShown(fs, firsts, i))
    && (forall j, k :: 0 <= j < k < |rows| ==> !Shares(fs, firsts[j], firsts[k]))
    // Rows are sorted by departure, and by the first of their events if they depart together.
    && (forall j, k :: 0 <= j < k < |rows| ==>
          rows[j].departure < rows[k].departure || (rows[j].departure == rows[k].departure && firsts[j] < firsts[k]))
  }

  function Bests(es: seq<Event>): (best: seq<nat>)
    ensures |best| == |Collapsed(es)|
    ensures forall j :: 0 <= j < |best| ==> best[j] == Best(es, Origins(es)[j])
  {
    seq(|Collapsed(es)|, j requires 0 <= j < |Collapsed(es)| => Best(es, Origins(es)[j]))
  }

  ghost predicate AreRows(es: seq<Event>, fs: seq<Fields>, clock: Clock) {
    |es| == |fs| && forall i :: 0 <= i < |fs| ==> es[i] == Row(fs[i], clock)
  }

  lemma SharesIsRivals(es: seq<Event>, fs: seq<Fields>, clock: Clock, i: nat, j: nat)
    requires AreRows(es, fs, clock) && i < |fs| && j < |fs|
    ensures Rivals(es, i, j) <==> Shares(fs, i, j)
    ensures es[i].0.Some? ==> (es[j].0 == es[i].0 <==> SameJourney(fs[i], fs[j]))
    ensures SameJourney(fs[i], fs[j]) <==> SameJourney(fs[j], fs[i])
    ensures es[i].1.departure == Departure(fs[i], clock)
  {
    hide Departure;
    KeySays(fs[i], fs[j], clock);
  }

  /** The first event of the same key. */
  lemma HeadOf(es: seq<Event>, i: nat) returns (h: nat)
    requires i < |es|
    ensures h <= i && IsHead(es, h) && Rivals(es, h, i)
  {
    h := i;
    if es[i].0.Some? {
      h := 0;
      while es[h].0 != es[i].0
        invariant h <= i && forall j :: 0 <= j < h ==> es[j].0 != es[i].0
        decreases i - h
      {
        h := h + 1;
      }
    }
  }

  lemma {:induction false} RowShows(es: seq<Event>, fs: seq<Fields>, clock: Clock, j: nat)
    requires AreRows(es, fs, clock) && j < |Collapsed(es)|
    ensures Shows(fs, clock, Origins(es)[j], Best(es, Origins(es)[j]), Collapsed(es)[j])
  {
    hide Collapsed;
    hide Origins;
    hide Departure;
    hide IsRowOf;
    hide SameJourney;
    hide Best;
    hide Row;
    RowIsBest(es, j);
    var first := Origins(es)[j];
    var best := Best(es, first);
    RowSays(fs[best], clock);
    SharesIsRivals(es, fs, clock, first, best);
    SharesIsRivals(es, fs, clock, best, best);
    forall i | 0 <= i < |fs| && Shares(fs, first, i)
      ensures first <= i
      ensures Departure(fs[i], clock) <= Collapsed(es)[j].departure
      ensures i < best ==> Departure(fs[i], clock) < Collapsed(es)[j].departure
    {
      SharesIsRivals(es, fs, clock, first, i);
      SharesIsRivals(es, fs, clock, i, first);
    }
  }

  lemma EventIsShown(es: seq<Event>, fs: seq<Fields>, clock: Clock, i: nat)
    requires AreRows(es, fs, clock) && i < |fs|
    ensures IsShown(fs, Origins(es), i)
  {
    hide Origins;
    hide SameJourney;
    hide Row;
    var h := HeadOf(es, i);
    SharesIsRivals(es, fs, clock, h, i);
    OneRowEach(es, h);
    var j :| 0 <= j < |Origins(es)| && Origins(es)[j] == h;
    assert Shares(fs, Origins(es)[j], i);
  }

  lemma RowsDiffer(es: seq<Event>, fs: seq<Fields>, clock: Clock, j: nat, k: nat)
    requires AreRows(es, fs, clock) && j < k < |Origins(es)|
    ensures !Shares(fs, Origins(es)[j], Origins(es)[k])
  {
    hide Origins;
    hide SameJourney;
    hide Row;
    hide Collapsed;
    RowIsBest(es, j);
    OneRowEach(es, Origins(es)[j]);
    SharesIsRivals(es, fs, clock, Origins(es)[j], Origins(es)[k]);
    if es[Origins(es)[j]].0.Some? {
      KeysAreDistinct(es, j, k);
    }
  }

  /** The board of whatever the results of a text say. */
  lemma BoardMeans(xml: string, fields: seq<Option<Fields>>, clock: Clock) returns (firsts: seq<nat>, best: seq<nat>)
    requires AllFields(Blocks(Block(StopEventResult), xml)) == fields
    ensures IsBoard(Spoken(fields), clock, Board(xml, clock), firsts, best)
  {
    hide Blocks;
    hide AllFields;
    hide Collapsed;
    hide Shows;
    hide Shares;
    hide IsShown;
    hide RowsOf;
    hide Row;
    hide Spoken;
    var es, fs := RowsOf(fields, clock), Spoken(fields);
    RowsAreSpoken(fields, clock);
    assert AreRows(es, fs, clock);
    firsts, best := Origins(es), Bests(es);
    forall j | 0 <= j < |Collapsed(es)|
      ensures Shows(fs, clock, firsts[j], best[j], Collapsed(es)[j])
    {
      RowShows(es, fs, clock, j);
    }
    forall i | 0 <= i < |fs|
      ensures IsShown(fs, firsts, i)
    {
      EventIsShown(es, fs, clock, i);
    }
    forall j, k | 0 <= j < k < |Collapsed(es)|
      ensures !Shares(fs, firsts[j], firsts[k])
      ensures Collapsed(es)[j].departure < Collapsed(es)[k].departure
           || (Collapsed(es)[j].departure == Collapsed(es)[k].departure && firsts[j] < firsts[k])
    {
      RowsDiffer(es, fs, clock, j, k);
      RowsAreSorted(es, j, k);
    }
  }

  /** The board of a document is that of what its results say, in order. */
  lemma DocumentBoard(doc: seq<Node>, clock: Clock) returns (firsts: seq<nat>, best: seq<nat>)
    requires IsDocument(doc)
    ensures IsBoard(Spoken(AllSaid(Results(doc))), clock, Board(Render(ItemsOf(doc)), clock), firsts, best)
  {
    hide IsBoard;
    hide Board;
    hide Blocks;
    hide AllFields;
    hide IsDocument;
    hide Render;
    hide ItemsOf;
    hide AllSaid;
    hide Results;
    DocumentIsRead(doc);
    firsts, best := BoardMeans(Render(ItemsOf(doc)), AllSaid(Results(doc)), clock);
  }
}

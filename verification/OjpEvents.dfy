/** Reading the rows of a board out of an OJP response. */
module OjpEvents {
  import opened Wrappers
  import opened OjpXml
  import opened OjpTags
  import opened OjpTwins

  /** The caller's timestamp parser: milliseconds, or not a number. */
  type Clock = string -> Option<int>

  /** The texts one result carries. */
  datatype Fields = Fields(destination: Option<string>, category: Option<string>, number: Option<string>,
                           trainNumber: Option<string>, operatorRef: Option<string>,
                           journey: Option<string>, day: Option<string>,
                           timetabled: Option<string>, estimated: Option<string>,
                           plannedQuay: Option<string>, estimatedQuay: Option<string>)

  /// ## Rows

  function OrElse(text: Option<string>, default: string): string {
    match text case Some(s) => s case None => default
  }

  /** Integer division as a cast from a float makes it: toward zero. */
  function Truncated(n: int, d: nat): int
    requires d > 0
  {
    if n >= 0 then n / d else -(-n / d)
  }

  /** Rounding to the nearest integer, halves away from zero. */
  function Rounded(n: int, d: nat): int
    requires d > 0
  {
    Truncated(if n >= 0 then 2 * n + d else 2 * n - d, 2 * d)
  }

  function Departure(f: Fields, clock: Clock): int {
    if f.timetabled.Some? && clock(f.timetabled.value).Some? then Truncated(clock(f.timetabled.value).value, 1000) else 0
  }

  function Delay(f: Fields, clock: Clock): Option<int> {
    if f.estimated.Some? && f.timetabled.Some? && clock(f.estimated.value).Some? && clock(f.timetabled.value).Some? then
      var minutes := Rounded(clock(f.estimated.value).value - clock(f.timetabled.value).value, 60_000);
      if minutes > 0 then Some(minutes) else None
    else None
  }

  function Row(f: Fields, clock: Clock): Event {
    (if f.journey.Some? then Some(OrElse(f.day, "") + "|" + f.journey.value) else None,
     FlatDeparture(OrElse(f.destination, "?"), OrElse(f.category, ""), OrElse(f.number, ""),
                   Departure(f, clock), Delay(f, clock),
                   OrElse(f.estimatedQuay, OrElse(f.plannedQuay, "")),
                   f.estimatedQuay.Some? && f.estimatedQuay.value != OrElse(f.plannedQuay, ""),
                   f.trainNumber, f.operatorRef))
  }

  /** A delay is shown if and only if the estimate is half a minute late or more, and is
      then the nearest number of minutes. */
  lemma DelayMeans(f: Fields, clock: Clock, timetabled: int, estimated: int)
    requires f.timetabled.Some? && clock(f.timetabled.value) == Some(timetabled)
    requires f.estimated.Some? && clock(f.estimated.value) == Some(estimated)
    ensures Delay(f, clock).Some? <==> estimated - timetabled >= 30_000
    ensures Delay(f, clock).Some? ==>
              var late := estimated - timetabled - 60_000 * Delay(f, clock).value;
              -30_000 <= late < 30_000 && Delay(f, clock).value > 0
  {}

  /** The departure is the timetabled second; before 1970 it is rounded up. */
  lemma DepartureMeans(f: Fields, clock: Clock, timetabled: int)
    requires f.timetabled.Some? && clock(f.timetabled.value) == Some(timetabled)
    ensures var off := timetabled - 1000 * Departure(f, clock);
            if timetabled >= 0 then 0 <= off < 1000 else -1000 < off <= 0
  {}

  /// ## One result

  function First(t: Tag, xml: string): Option<string> {
    var blocks := Blocks(Block(t), xml);
    if blocks == [] then None else Some(blocks[0])
  }

  function LangText(block: Option<string>): Option<string> {
    match block case Some(b) => LeafText(LANG, b) case None => None
  }

  /** ThisCall > CallAtStop, or as much of that as there is. */
  function CallOf(event: string): string {
    match First(ThisCall, event)
    case Some(call) => OrElse(First(CallAtStop, call), call)
    case None => event
  }

  function CategoryOf(service: string): Option<string> {
    match First(Mode, service)
    case Some(mode) => LangText(First(ShortName, mode))
    case None => None
  }

  function TextsOf(service: string, call: string, departure: string): Fields {
    Fields(LangText(First(DestinationText, service)), CategoryOf(service),
           LangText(First(PublishedServiceName, service)),
           LeafText(Leaf(TrainNumber), service), LeafText(Leaf(OperatorRef), service),
           LeafText(Leaf(JourneyRef), service), LeafText(Leaf(OperatingDayRef), service),
           LeafText(Leaf(TimetabledTime), departure), LeafText(Leaf(EstimatedTime), departure),
           LangText(First(PlannedQuay, call)), LangText(First(EstimatedQuay, call)))
  }

  /** None if the result holds no stop event or that no service. */
  function FieldsOf(result: string): Option<Fields> {
    match First(StopEvent, result)
    case None => None
    case Some(event) =>
      match First(Service, event)
      case None => None
      case Some(service) =>
        var call := CallOf(event);
        Some(TextsOf(service, call, OrElse(First(ServiceDeparture, call), call)))
  }

  function RowsOf(fields: seq<Option<Fields>>, clock: Clock): seq<Event> {
    if fields == [] then []
    else
      var last := fields[|fields| - 1];
      RowsOf(fields[..|fields| - 1], clock) + (if last.Some? then [Row(last.value, clock)] else [])
  }

  function AllFields(results: seq<string>): seq<Option<Fields>> {
    seq(|results|, i requires 0 <= i < |results| => FieldsOf(results[i]))
  }

  /// ## The whole response

  function Board(xml: string, clock: Clock): seq<FlatDeparture> {
    Collapsed(RowsOf(AllFields(Blocks(Block(StopEventResult), xml)), clock))
  }

  method ParseStopEvents(xml: string, clock: Clock) returns (rows: seq<FlatDeparture>)
    ensures rows == Board(xml, clock)
  {
    hide FieldsOf;
    hide Collapsed;
    hide Blocks;
    hide Row;
    var events: seq<Event> := [];
    var results := XmlBlocks(Block(StopEventResult), xml);
    ghost var fields := AllFields(results);
    for i := 0 to |results|
      invariant events == RowsOf(fields[..i], clock)
    {
      assert fields[..i + 1][..i] == fields[..i];
      var texts := ReadFields(results[i]);
      if texts.Some? {
        events := events + [Row(texts.value, clock)];
      }
    }
    assert fields[..|results|] == fields;
    rows := KeepLatestPerJourney(events);
  }

  method FirstBlock(t: Tag, xml: string) returns (block: Option<string>)
    ensures block == First(t, xml)
  {
    var blocks := XmlBlocks(Block(t), xml);
    block := if blocks == [] then None else Some(blocks[0]);
  }

  method ReadFields(result: string) returns (texts: Option<Fields>)
    ensures texts == FieldsOf(result)
  {
    hide First;
    hide TextsOf;
    var event := FirstBlock(StopEvent, result);
    if event.None? {
      return None;
    }
    var service := FirstBlock(Service, event.value);
    if service.None? {
      return None;
    }
    var call := FirstBlock(ThisCall, event.value);
    if call.Some? {
      var atStop := FirstBlock(CallAtStop, call.value);
      call := if atStop.Some? then atStop else call;
    } else {
      call := event;
    }
    var departure := FirstBlock(ServiceDeparture, call.value);
    texts := Some(TextsOf(service.value, call.value, OrElse(departure, call.value)));
  }
}

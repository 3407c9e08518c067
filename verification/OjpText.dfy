/** Stop events as text with the names spelled out, and the board such a text yields. */
module OjpText {
  import opened Wrappers
  import opened OjpXml
  import opened OjpItems
  import opened OjpTags
  import opened OjpTwins
  import opened OjpEvents
  import opened OjpNodes
  import opened OjpDocuments
  import opened OjpTheorem
  import opened OjpWritten
  import opened OjpBoards

  /// ## The text

  function Tagged(name: string, body: string): string {
    "<" + (name + (">" + (body + ("</" + (name + ">")))))
  }

  function Texted(name: string, text: Option<string>): string {
    if text.Some? then Tagged(name, text.value) else ""
  }

  function Titled(name: string, text: Option<string>): string {
    if text.Some? then Tagged(name, Tagged("Text", text.value)) else ""
  }

  function ServiceXml(f: Fields): string {
    Tagged("Service",
      Texted("OperatingDayRef", f.day) + (Texted("JourneyRef", f.journey)
      + ((if f.category.Some? then Tagged("Mode", Titled("ShortName", f.category)) else "")
      + (Titled("PublishedServiceName", f.number) + (Titled("DestinationText", f.destination)
      + (Texted("TrainNumber", f.trainNumber) + Texted("OperatorRef", f.operatorRef)))))))
  }

  function CallXml(f: Fields): string {
    Tagged("ThisCall", Tagged("CallAtStop",
      Tagged("ServiceDeparture", Texted("TimetabledTime", f.timetabled) + Texted("EstimatedTime", f.estimated))
      + (Titled("PlannedQuay", f.plannedQuay) + Titled("EstimatedQuay", f.estimatedQuay))))
  }

  function EventXml(f: Fields, callFirst: bool): string {
    Tagged("StopEventResult",
      Tagged("StopEvent", if callFirst then CallXml(f) + ServiceXml(f) else ServiceXml(f) + CallXml(f)))
  }

  function EventsXml(fs: seq<(Fields, bool)>): string {
    if fs == [] then "" else EventXml(fs[0].0, fs[0].1) + EventsXml(fs[1..])
  }

  /// ## It is what the writer writes

  function TextOfNodes(ns: seq<Node>): string {
    Render(ItemsOf(ns))
  }

  lemma NamesAreLiteral()
    ensures Name(StopEventResult) == "StopEventResult" && Name(StopEvent) == "StopEvent" && Name(Service) == "Service"
    ensures Name(DestinationText) == "DestinationText" && Name(Mode) == "Mode" && Name(ShortName) == "ShortName"
    ensures Name(PublishedServiceName) == "PublishedServiceName" && Name(TrainNumber) == "TrainNumber"
    ensures Name(OperatorRef) == "OperatorRef" && Name(JourneyRef) == "JourneyRef"
    ensures Name(OperatingDayRef) == "OperatingDayRef" && Name(ThisCall) == "ThisCall" && Name(CallAtStop) == "CallAtStop"
    ensures Name(ServiceDeparture) == "ServiceDeparture" && Name(TimetabledTime) == "TimetabledTime"
    ensures Name(EstimatedTime) == "EstimatedTime" && Name(PlannedQuay) == "PlannedQuay"
    ensures Name(EstimatedQuay) == "EstimatedQuay" && Name(Caption) == "Text"
  {}

  lemma NodesConcat(a: seq<Node>, b: seq<Node>)
    ensures TextOfNodes(a + b) == TextOfNodes(a) + TextOfNodes(b)
  {
    hide Render;
    hide ItemsOf;
    ItemsConcat(a, b);
    RenderConcat(ItemsOf(a), ItemsOf(b));
  }

  lemma NoNodes()
    ensures TextOfNodes([]) == ""
  {}

  lemma ElementText(t: Tag, kids: seq<Node>)
    ensures TextOfNodes([Element(t, kids)]) == Tagged(Name(t), TextOfNodes(kids))
  {
    hide Name;
    var open, close := Open(Name(t)), Close(Name(t));
    var items := [open] + ItemsOf(kids) + [close];
    assert [Element(t, kids)][1..] == [];
    assert ItemsOf([Element(t, kids)]) == items;
    RenderConcat([open] + ItemsOf(kids), [close]);
    RenderConcat([open], ItemsOf(kids));
    OneItem(open);
    OneItem(close);
  }

  lemma OneItem(item: Item)
    ensures Render([item]) == Show(item)
  {
    assert [item][1..] == [];
  }

  lemma PlainNodeText(t: Tag, text: string)
    ensures TextOfNodes([Plain(t, Name(t), text, Name(t))]) == Tagged(Name(t), text)
  {
    hide Name;
    var n := Plain(t, Name(t), text, Name(t));
    assert [n][1..] == [];
    assert ItemsOf([n]) == NodeItems(n);
    PlainParts(n);
    RenderConcat([Open(n.open)], [Words(text)] + [Close(n.close)]);
    RenderConcat([Words(text)], [Close(n.close)]);
    OneItem(Open(n.open));
    OneItem(Words(text));
    OneItem(Close(n.close));
  }

  lemma TextsAreWritten(t: Tag, text: Option<string>)
    ensures TextOfNodes(TextOf(t, text)) == Texted(Name(t), text)
    ensures TextOfNodes(TitleOf(t, text)) == (if text.Some? then Tagged(Name(t), Tagged(Name(Caption), text.value)) else "")
  {
    hide Name;
    hide TextOfNodes;
    hide Tagged;
    NoNodes();
    if text.Some? {
      PlainNodeText(t, text.value);
      PlainNodeText(Caption, text.value);
      ElementText(t, TextOf(Caption, text));
    }
  }

  lemma ServiceIsWritten(f: Fields)
    ensures TextOfNodes([ServiceOf(f)]) == ServiceXml(f)
  {
    hide Name;
    hide TextOfNodes;
    hide Tagged;
    NamesAreLiteral();
    NoNodes();
    TextsAreWritten(OperatingDayRef, f.day);
    TextsAreWritten(JourneyRef, f.journey);
    TextsAreWritten(ShortName, f.category);
    ElementText(Mode, TitleOf(ShortName, f.category));
    TextsAreWritten(PublishedServiceName, f.number);
    TextsAreWritten(DestinationText, f.destination);
    TextsAreWritten(TrainNumber, f.trainNumber);
    TextsAreWritten(OperatorRef, f.operatorRef);
    var g := TextOf(TrainNumber, f.trainNumber) + TextOf(OperatorRef, f.operatorRef);
    NodesConcat(TextOf(TrainNumber, f.trainNumber), TextOf(OperatorRef, f.operatorRef));
    NodesConcat(TitleOf(DestinationText, f.destination), g);
    g := TitleOf(DestinationText, f.destination) + g;
    NodesConcat(TitleOf(PublishedServiceName, f.number), g);
    g := TitleOf(PublishedServiceName, f.number) + g;
    NodesConcat(ModeOf(f.category), g);
    g := ModeOf(f.category) + g;
    NodesConcat(TextOf(JourneyRef, f.journey), g);
    g := TextOf(JourneyRef, f.journey) + g;
    NodesConcat(TextOf(OperatingDayRef, f.day), g);
    ElementText(Service, ServiceKidsOf(f));
  }

  lemma CallIsWritten(f: Fields)
    ensures TextOfNodes([CallNode(f)]) == CallXml(f)
  {
    hide Name;
    hide TextOfNodes;
    hide Tagged;
    NamesAreLiteral();
    TextsAreWritten(TimetabledTime, f.timetabled);
    TextsAreWritten(EstimatedTime, f.estimated);
    NodesConcat(TextOf(TimetabledTime, f.timetabled), TextOf(EstimatedTime, f.estimated));
    ElementText(ServiceDeparture, TextOf(TimetabledTime, f.timetabled) + TextOf(EstimatedTime, f.estimated));
    TextsAreWritten(PlannedQuay, f.plannedQuay);
    TextsAreWritten(EstimatedQuay, f.estimatedQuay);
    var quays := TitleOf(PlannedQuay, f.plannedQuay) + TitleOf(EstimatedQuay, f.estimatedQuay);
    NodesConcat(TitleOf(PlannedQuay, f.plannedQuay), TitleOf(EstimatedQuay, f.estimatedQuay));
    NodesConcat([DepartureOf(f)], quays);
    ElementText(CallAtStop, StopKidsOf(f));
    ElementText(ThisCall, [Element(CallAtStop, StopKidsOf(f))]);
  }

  lemma EventIsWritten(f: Fields, callFirst: bool)
    ensures TextOfNodes([Written(f, callFirst)]) == EventXml(f, callFirst)
  {
    hide Name;
    hide TextOfNodes;
    hide Tagged;
    hide ServiceXml;
    hide CallXml;
    hide ServiceOf;
    hide CallNode;
    NamesAreLiteral();
    ServiceIsWritten(f);
    CallIsWritten(f);
    NodesConcat([CallNode(f)], [ServiceOf(f)]);
    NodesConcat([ServiceOf(f)], [CallNode(f)]);
    var kids := if callFirst then [CallNode(f)] + [ServiceOf(f)] else [ServiceOf(f)] + [CallNode(f)];
    assert kids == if callFirst then [CallNode(f), ServiceOf(f)] else [ServiceOf(f), CallNode(f)];
    ElementText(StopEvent, kids);
    ElementText(StopEventResult, [Element(StopEvent, kids)]);
  }

  lemma {:induction false} TextIsWritten(fs: seq<(Fields, bool)>)
    ensures TextOfNodes(Document(fs)) == EventsXml(fs)
  {
    hide TextOfNodes;
    hide EventXml;
    hide Written;
    if fs == [] {
      NoNodes();
    } else {
      TextIsWritten(fs[1..]);
      EventIsWritten(fs[0].0, fs[0].1);
      NodesConcat([Written(fs[0].0, fs[0].1)], Document(fs[1..]));
    }
  }

  /// ## Its board

  function BareAll(fs: seq<(Fields, bool)>): (bare: seq<Fields>)
    ensures |bare| == |fs| && forall i :: 0 <= i < |fs| ==> bare[i] == BareFields(fs[i].0)
  {
    seq(|fs|, i requires 0 <= i < |fs| => BareFields(fs[i].0))
  }

  lemma {:induction false} AllIsSpoken(fields: seq<Option<Fields>>)
    requires forall i :: 0 <= i < |fields| ==> fields[i].Some?
    ensures |Spoken(fields)| == |fields| && forall i :: 0 <= i < |fields| ==> Some(Spoken(fields)[i]) == fields[i]
  {
    if fields != [] {
      AllIsSpoken(fields[..|fields| - 1]);
    }
  }

  /** Whatever events are written, with the call or the service first and blanks around their
      texts, the board parsed from that text is the board of those events. */
  lemma TextBoard(fs: seq<(Fields, bool)>, clock: Clock) returns (firsts: seq<nat>, best: seq<nat>)
    requires forall i :: 0 <= i < |fs| ==> Writable(fs[i].0)
    ensures IsBoard(BareAll(fs), clock, Board(EventsXml(fs), clock), firsts, best)
  {
    hide IsBoard;
    hide Board;
    hide Blocks;
    hide AllFields;
    hide EventsXml;
    hide Document;
    hide Render;
    hide ItemsOf;
    hide BareFields;
    hide Writable;
    WrittenIsRead(fs);
    TextIsWritten(fs);
    AllIsSpoken(Given(fs));
    assert Spoken(Given(fs)) == BareAll(fs);
    firsts, best := BoardMeans(EventsXml(fs), Given(fs), clock);
  }
}

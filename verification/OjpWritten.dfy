/** Writing stop events and reading them back: every field survives, whichever of the call
    and the service comes first. */
module OjpWritten {
  import opened Wrappers
  import opened Text
  import opened OjpXml
  import opened OjpItems
  import opened OjpTags
  import opened OjpTwins
  import opened OjpEvents
  import opened OjpNodes
  import opened OjpFinding
  import opened OjpDocuments
  import opened OjpReading
  import opened OjpLookups
  import opened OjpTheorem

  /// ## The writer

  function Element(t: Tag, kids: seq<Node>): Node {
    Elem(t, Name(t), kids, Name(t))
  }

  function TextOf(t: Tag, text: Option<string>): seq<Node> {
    match text case Some(s) => [Plain(t, Name(t), s, Name(t))] case None => []
  }

  function TitleOf(t: Tag, text: Option<string>): seq<Node> {
    if text.Some? then [Element(t, TextOf(Caption, text))] else []
  }

  function ModeOf(category: Option<string>): seq<Node> {
    if category.Some? then [Element(Mode, TitleOf(ShortName, category))] else []
  }

  function ServiceKidsOf(f: Fields): seq<Node> {
    TextOf(OperatingDayRef, f.day) + (TextOf(JourneyRef, f.journey) + (ModeOf(f.category)
      + (TitleOf(PublishedServiceName, f.number) + (TitleOf(DestinationText, f.destination)
         + (TextOf(TrainNumber, f.trainNumber) + TextOf(OperatorRef, f.operatorRef))))))
  }

  function ServiceOf(f: Fields): Node {
    Element(Service, ServiceKidsOf(f))
  }

  function DepartureOf(f: Fields): Node {
    Element(ServiceDeparture, TextOf(TimetabledTime, f.timetabled) + TextOf(EstimatedTime, f.estimated))
  }

  function StopKidsOf(f: Fields): seq<Node> {
    [DepartureOf(f)] + (TitleOf(PlannedQuay, f.plannedQuay) + TitleOf(EstimatedQuay, f.estimatedQuay))
  }

  function CallNode(f: Fields): Node {
    Element(ThisCall, [Element(CallAtStop, StopKidsOf(f))])
  }

  function Written(f: Fields, callFirst: bool): Node {
    Element(StopEventResult,
      [Element(StopEvent, if callFirst then [CallNode(f), ServiceOf(f)] else [ServiceOf(f), CallNode(f)])])
  }

  function Document(fs: seq<(Fields, bool)>): seq<Node> {
    if fs == [] then [] else [Written(fs[0].0, fs[0].1)] + Document(fs[1..])
  }

  /// ## What may be written

  predicate IsText(text: Option<string>) {
    text.Some? ==> '<' !in text.value
  }

  predicate Writable(f: Fields) {
    && IsText(f.destination) && IsText(f.category) && IsText(f.number) && IsText(f.trainNumber)
    && IsText(f.operatorRef) && IsText(f.journey) && IsText(f.day) && IsText(f.timetabled)
    && IsText(f.estimated) && IsText(f.plannedQuay) && IsText(f.estimatedQuay)
  }

  /// ## What is read back

  /** Blanks around a text are not part of it. */
  function Bare(text: Option<string>): Option<string> {
    match text case Some(s) => Some(Trim(s)) case None => None
  }

  function BareFields(f: Fields): Fields {
    Fields(Bare(f.destination), Bare(f.category), Bare(f.number), Bare(f.trainNumber), Bare(f.operatorRef),
           Bare(f.journey), Bare(f.day), Bare(f.timetabled), Bare(f.estimated), Bare(f.plannedQuay), Bare(f.estimatedQuay))
  }

  /// ## It is a document

  /** Tidy and without gaps. */
  ghost predicate Neat(ns: seq<Node>) {
    Tidy(ns) && Gapless(ns)
  }

  ghost predicate NeatNode(n: Node) {
    TidyNode(n) && GaplessNode(n)
  }

  lemma NeatConcat(a: seq<Node>, b: seq<Node>)
    ensures Neat(a + b) <==> Neat(a) && Neat(b)
  {
    hide Tidy;
    hide Gapless;
    TidyConcat(a, b);
    GaplessConcat(a, b);
  }

  lemma {:induction false} NeatIsQuiet(ns: seq<Node>)
    requires Neat(ns)
    ensures forall t :: Hushed(t, ns) && Unclosed(t, ns)
  {
    hide Tidy;
    hide Gapless;
    hide Hushed;
    hide Unclosed;
    forall t: Tag
      ensures Hushed(t, ns) && Unclosed(t, ns)
    {
      GaplessIsQuiet(ns, t);
    }
  }

  lemma {:induction false} ElementIsTidy(t: Tag, kids: seq<Node>)
    requires Neat(kids)
    ensures NeatNode(Element(t, kids))
    ensures forall u :: Hushed(u, kids) && Unclosed(u, kids)
  {
    hide Tidy;
    hide Gapless;
    hide Hushed;
    hide Unclosed;
    NeatIsQuiet(kids);
    hide IsOpen;
    hide IsClose;
    NameOpens(t, "");
    NameCloses(t);
    assert Name(t) + "" == Name(t);
  }

  lemma TextIsTidy(t: Tag, text: Option<string>)
    requires IsText(text)
    ensures Neat(TextOf(t, text))
  {
    hide IsOpen;
    hide IsClose;
    hide Trim;
    NameOpens(t, "");
    NameCloses(t);
    assert Name(t) + "" == Name(t);
    if text.Some? {
      OneIsTidy(TextOf(t, text)[0]);
    }
  }

  lemma OneIsTidy(n: Node)
    requires NeatNode(n)
    ensures Neat([n])
  {
    assert [n][1..] == [];
  }

  lemma TitleIsTitle(t: Tag, text: Option<string>)
    requires IsText(text)
    ensures Neat(TitleOf(t, text))
    ensures text.Some? ==> IsTitle(TitleOf(t, text)[0], t)
  {
    hide IsOpen;
    hide IsClose;
    hide Trim;
    hide NeatNode;
    hide Hushed;
    hide Unclosed;
    NameOpens(Caption, "");
    NameCloses(Caption);
    assert Name(Caption) + "" == Name(Caption);
    if text.Some? {
      TextIsTidy(Caption, text);
      ElementIsTidy(t, TextOf(Caption, text));
      OneIsTidy(TitleOf(t, text)[0]);
    }
  }

  lemma ModeIsMode(category: Option<string>)
    requires IsText(category)
    ensures Neat(ModeOf(category))
    ensures category.Some? ==> IsMode(ModeOf(category)[0])
  {
    hide IsText;
    hide NeatNode;
    hide Hushed;
    hide Unclosed;
    hide IsTitle;
    if category.Some? {
      TitleIsTitle(ShortName, category);
      ElementIsTidy(Mode, TitleOf(ShortName, category));
      OneIsTidy(ModeOf(category)[0]);
      assert ModeKid(TitleOf(ShortName, category)[0]);
    }
  }

  ghost predicate AllService(ns: seq<Node>) {
    Neat(ns) && forall i :: 0 <= i < |ns| ==> ServiceKid(ns[i])
  }

  lemma ServiceConcat(a: seq<Node>, b: seq<Node>)
    requires AllService(a) && AllService(b)
    ensures AllService(a + b)
  {
    hide Neat;
    hide ServiceKid;
    NeatConcat(a, b);
  }

  lemma ServiceKids(t: Tag, text: Option<string>)
    requires IsText(text)
    ensures t in ServiceTexts ==> AllService(TextOf(t, text))
    ensures t in {DestinationText, PublishedServiceName} ==> AllService(TitleOf(t, text))
    ensures AllService(ModeOf(text))
  {
    hide IsText;
    hide Neat;
    hide IsTitle;
    hide IsMode;
    TextIsTidy(t, text);
    TitleIsTitle(t, text);
    ModeIsMode(text);
  }

  lemma ServiceIsService(f: Fields)
    requires Writable(f)
    ensures NeatNode(ServiceOf(f)) && IsService(ServiceOf(f))
  {
    hide IsText;
    hide TextOf;
    hide TitleOf;
    hide ModeOf;
    hide NeatNode;
    hide Hushed;
    hide Unclosed;
    hide AllService;
    ServiceKids(OperatingDayRef, f.day);
    ServiceKids(JourneyRef, f.journey);
    ServiceKids(Mode, f.category);
    ServiceKids(PublishedServiceName, f.number);
    ServiceKids(DestinationText, f.destination);
    ServiceKids(TrainNumber, f.trainNumber);
    ServiceKids(OperatorRef, f.operatorRef);
    var g := TextOf(TrainNumber, f.trainNumber) + TextOf(OperatorRef, f.operatorRef);
    ServiceConcat(TextOf(TrainNumber, f.trainNumber), TextOf(OperatorRef, f.operatorRef));
    ServiceConcat(TitleOf(DestinationText, f.destination), g);
    g := TitleOf(DestinationText, f.destination) + g;
    ServiceConcat(TitleOf(PublishedServiceName, f.number), g);
    g := TitleOf(PublishedServiceName, f.number) + g;
    ServiceConcat(ModeOf(f.category), g);
    g := ModeOf(f.category) + g;
    ServiceConcat(TextOf(JourneyRef, f.journey), g);
    g := TextOf(JourneyRef, f.journey) + g;
    ServiceConcat(TextOf(OperatingDayRef, f.day), g);
    AllServiceIsService(TextOf(OperatingDayRef, f.day) + g);
  }

  lemma AllServiceIsService(kids: seq<Node>)
    requires AllService(kids)
    ensures NeatNode(Element(Service, kids)) && IsService(Element(Service, kids))
  {
    hide NeatNode;
    hide Hushed;
    hide Unclosed;
    ElementIsTidy(Service, kids);
  }

  lemma CallIsTidy(f: Fields)
    requires Writable(f)
    ensures NeatNode(CallNode(f)) && IsCall(CallNode(f))
  {
    hide IsText;
    hide Neat;
    hide NeatNode;
    hide Hushed;
    hide Unclosed;
    hide IsTitle;
    DepartureIsDeparture(f);
    OneIsTidy(DepartureOf(f));
    TitleIsTitle(PlannedQuay, f.plannedQuay);
    TitleIsTitle(EstimatedQuay, f.estimatedQuay);
    var quays := TitleOf(PlannedQuay, f.plannedQuay) + TitleOf(EstimatedQuay, f.estimatedQuay);
    NeatConcat(TitleOf(PlannedQuay, f.plannedQuay), TitleOf(EstimatedQuay, f.estimatedQuay));
    NeatConcat([DepartureOf(f)], quays);
    ElementIsTidy(CallAtStop, StopKidsOf(f));
    OneIsTidy(Element(CallAtStop, StopKidsOf(f)));
    ElementIsTidy(ThisCall, [Element(CallAtStop, StopKidsOf(f))]);
    assert IsStop(Element(CallAtStop, StopKidsOf(f)));
  }

  lemma DepartureIsDeparture(f: Fields)
    requires Writable(f)
    ensures NeatNode(DepartureOf(f)) && IsDeparture(DepartureOf(f))
  {
    hide IsText;
    hide Neat;
    hide NeatNode;
    hide Hushed;
    hide Unclosed;
    TextIsTidy(TimetabledTime, f.timetabled);
    TextIsTidy(EstimatedTime, f.estimated);
    NeatConcat(TextOf(TimetabledTime, f.timetabled), TextOf(EstimatedTime, f.estimated));
    ElementIsTidy(ServiceDeparture, TextOf(TimetabledTime, f.timetabled) + TextOf(EstimatedTime, f.estimated));
  }

  lemma WrittenIsResult(f: Fields, callFirst: bool)
    requires Writable(f)
    ensures NeatNode(Written(f, callFirst)) && IsResult(Written(f, callFirst))
  {
    hide Writable;
    hide Neat;
    hide NeatNode;
    hide Hushed;
    hide Unclosed;
    hide ServiceOf;
    hide CallNode;
    hide IsService;
    hide IsCall;
    ServiceIsService(f);
    CallIsTidy(f);
    OneIsTidy(ServiceOf(f));
    OneIsTidy(CallNode(f));
    NeatConcat([CallNode(f)], [ServiceOf(f)]);
    NeatConcat([ServiceOf(f)], [CallNode(f)]);
    var kids := if callFirst then [CallNode(f)] + [ServiceOf(f)] else [ServiceOf(f)] + [CallNode(f)];
    assert kids == if callFirst then [CallNode(f), ServiceOf(f)] else [ServiceOf(f), CallNode(f)];
    assert Written(f, callFirst) == Element(StopEventResult, [Element(StopEvent, kids)]);
    ElementIsTidy(StopEvent, kids);
    FrontIsHushed(kids, Service);
    assert IsEvent(Element(StopEvent, kids));
    OneIsTidy(Element(StopEvent, kids));
    ElementIsTidy(StopEventResult, [Element(StopEvent, kids)]);
    FrontIsHushed([Element(StopEvent, kids)], StopEvent);
  }

  lemma {:induction false} FrontIsHushed(ns: seq<Node>, t: Tag)
    requires Neat(ns)
    ensures forall u :: Hushed(u, Front(ns, t)) && Unclosed(u, Front(ns, t))
  {
    hide Hushed;
    hide Unclosed;
    NeatIsQuiet(ns);
    FrontIsTidy(ns, |Front(ns, t)|);
  }

  /// ## It says what was written

  lemma {:induction false} ChildConcat(a: seq<Node>, b: seq<Node>, t: Tag)
    ensures Child(a + b, t) == if Child(a, t).Some? then Child(a, t) else Child(b, t)
    ensures TextIn(a + b, t) == if TextIn(a, t).Some? then TextIn(a, t) else TextIn(b, t)
  {
    if a == [] {
      assert a + b == b;
    } else {
      ChildConcat(a[1..], b, t);
      assert (a + b)[1..] == a[1..] + b;
    }
  }

  function Either<T>(a: Option<T>, b: Option<T>): Option<T> {
    if a.Some? then a else b
  }

  lemma {:induction false} TextPiece(t: Tag, text: Option<string>, u: Tag)
    requires IsText(text)
    ensures TextIn(TextOf(t, text), u) == (if t == u then Bare(text) else None)
    ensures Child(TextOf(t, text), u) == None
  {
    hide Trim;
    if text.Some? {
      assert TextOf(t, text)[1..] == [];
    }
  }

  lemma OnlyChild(t: Tag, kids: seq<Node>, u: Tag)
    ensures Child([Element(t, kids)], u) == if t == u then Some(Element(t, kids)) else None
    ensures TextIn([Element(t, kids)], u) == None
  {
    hide Name;
    assert [Element(t, kids)][1..] == [];
  }

  lemma NoKids(u: Tag)
    ensures Child([], u) == None && TextIn([], u) == None && Title([], u) == None
  {}

  lemma {:induction false} TitlePiece(t: Tag, text: Option<string>, u: Tag)
    requires IsText(text)
    ensures TextIn(TitleOf(t, text), u) == None
    ensures Title(TitleOf(t, text), u) == (if t == u then Bare(text) else None)
    ensures Child(TitleOf(t, text), u).Some? <==> t == u && text.Some?
  {
    hide IsText;
    hide TextOf;
    hide Child;
    hide TextIn;
    hide Name;
    TextPiece(Caption, text, Caption);
    NoKids(u);
    NoKids(Caption);
    OnlyChild(t, TextOf(Caption, text), u);
  }

  lemma {:induction false} ModePiece(text: Option<string>, u: Tag)
    requires IsText(text)
    ensures TextIn(ModeOf(text), u) == None
    ensures Child(ModeOf(text), u).Some? <==> u == Mode && text.Some?
    ensures Title(KidsOf(Child(ModeOf(text), Mode)), ShortName) == Bare(text)
  {
    hide TitleOf;
    hide IsText;
    hide Child;
    hide TextIn;
    hide Name;
    TitlePiece(ShortName, text, ShortName);
    NoKids(u);
    NoKids(Mode);
    NoKids(ShortName);
    OnlyChild(Mode, TitleOf(ShortName, text), u);
    OnlyChild(Mode, TitleOf(ShortName, text), Mode);
  }

  /** What is looked up in a written service. */
  lemma {:induction false} ServiceLookup(f: Fields, t: Tag)
    requires Writable(f)
    ensures TextIn(ServiceKidsOf(f), t) ==
            Either(TextIn(TextOf(OperatingDayRef, f.day), t), Either(TextIn(TextOf(JourneyRef, f.journey), t),
              Either(TextIn(TextOf(TrainNumber, f.trainNumber), t), TextIn(TextOf(OperatorRef, f.operatorRef), t))))
    ensures Child(ServiceKidsOf(f), t) ==
            Either(Child(ModeOf(f.category), t), Either(Child(TitleOf(PublishedServiceName, f.number), t),
              Child(TitleOf(DestinationText, f.destination), t)))
  {
    hide TextOf;
    hide TitleOf;
    hide ModeOf;
    hide IsText;
    hide Child;
    hide TextIn;
    TextPiece(OperatingDayRef, f.day, t);
    TextPiece(JourneyRef, f.journey, t);
    ModePiece(f.category, t);
    TitlePiece(PublishedServiceName, f.number, t);
    TitlePiece(DestinationText, f.destination, t);
    TextPiece(TrainNumber, f.trainNumber, t);
    TextPiece(OperatorRef, f.operatorRef, t);
    var g := TextOf(TrainNumber, f.trainNumber) + TextOf(OperatorRef, f.operatorRef);
    ChildConcat(TextOf(TrainNumber, f.trainNumber), TextOf(OperatorRef, f.operatorRef), t);
    ChildConcat(TitleOf(DestinationText, f.destination), g, t);
    g := TitleOf(DestinationText, f.destination) + g;
    ChildConcat(TitleOf(PublishedServiceName, f.number), g, t);
    g := TitleOf(PublishedServiceName, f.number) + g;
    ChildConcat(ModeOf(f.category), g, t);
    g := ModeOf(f.category) + g;
    ChildConcat(TextOf(JourneyRef, f.journey), g, t);
    g := TextOf(JourneyRef, f.journey) + g;
    ChildConcat(TextOf(OperatingDayRef, f.day), g, t);
  }

  lemma ServiceTextsSaid(f: Fields)
    requires Writable(f)
    ensures var kids := ServiceKidsOf(f);
            && TextIn(kids, TrainNumber) == Bare(f.trainNumber) && TextIn(kids, OperatorRef) == Bare(f.operatorRef)
            && TextIn(kids, JourneyRef) == Bare(f.journey) && TextIn(kids, OperatingDayRef) == Bare(f.day)
  {
    hide ServiceKidsOf;
    hide TextOf;
    hide TextIn;
    hide IsText;
    forall t: Tag | t in ServiceTexts
      ensures TextIn(ServiceKidsOf(f), t) ==
              if t == OperatingDayRef then Bare(f.day) else if t == JourneyRef then Bare(f.journey)
              else if t == TrainNumber then Bare(f.trainNumber) else Bare(f.operatorRef)
    {
      ServiceLookup(f, t);
      TextPiece(OperatingDayRef, f.day, t);
      TextPiece(JourneyRef, f.journey, t);
      TextPiece(TrainNumber, f.trainNumber, t);
      TextPiece(OperatorRef, f.operatorRef, t);
    }
    assert TrainNumber in ServiceTexts && OperatorRef in ServiceTexts && JourneyRef in ServiceTexts && OperatingDayRef in ServiceTexts;
  }

  lemma {:induction false} ServiceTitleSaid(f: Fields, t: Tag)
    requires Writable(f)
    ensures t == PublishedServiceName ==> Title(ServiceKidsOf(f), t) == Bare(f.number)
    ensures t == DestinationText ==> Title(ServiceKidsOf(f), t) == Bare(f.destination)
    ensures t == Mode ==> Title(KidsOf(Child(ServiceKidsOf(f), t)), ShortName) == Bare(f.category)
  {
    hide ServiceKidsOf;
    hide TitleOf;
    hide ModeOf;
    hide Child;
    hide TextIn;
    hide IsText;
    ServiceLookup(f, t);
    ModePiece(f.category, t);
    TitlePiece(PublishedServiceName, f.number, t);
    TitlePiece(DestinationText, f.destination, t);
  }

  lemma StopSaid(f: Fields)
    requires Writable(f)
    ensures Title(StopKidsOf(f), PlannedQuay) == Bare(f.plannedQuay) && Title(StopKidsOf(f), EstimatedQuay) == Bare(f.estimatedQuay)
    ensures TextIn(TimesOf(StopKidsOf(f)), TimetabledTime) == Bare(f.timetabled)
    ensures TextIn(TimesOf(StopKidsOf(f)), EstimatedTime) == Bare(f.estimated)
  {
    hide TextOf;
    hide TitleOf;
    hide TextIn;
    hide IsText;
    var kids := StopKidsOf(f);
    assert kids[0] == DepartureOf(f) && kids[1..] == TitleOf(PlannedQuay, f.plannedQuay) + TitleOf(EstimatedQuay, f.estimatedQuay);
    assert Child(kids, ServiceDeparture) == Some(DepartureOf(f));
    forall t | t in {PlannedQuay, EstimatedQuay}
      ensures Title(kids, t) == if t == PlannedQuay then Bare(f.plannedQuay) else Bare(f.estimatedQuay)
    {
      ChildConcat(TitleOf(PlannedQuay, f.plannedQuay), TitleOf(EstimatedQuay, f.estimatedQuay), t);
      TitlePiece(PlannedQuay, f.plannedQuay, t);
      TitlePiece(EstimatedQuay, f.estimatedQuay, t);
    }
    forall t | t in {TimetabledTime, EstimatedTime}
      ensures TextIn(DepartureOf(f).kids, t) == if t == TimetabledTime then Bare(f.timetabled) else Bare(f.estimated)
    {
      ChildConcat(TextOf(TimetabledTime, f.timetabled), TextOf(EstimatedTime, f.estimated), t);
      TextPiece(TimetabledTime, f.timetabled, t);
      TextPiece(EstimatedTime, f.estimated, t);
    }
  }

  lemma WrittenSays(f: Fields, callFirst: bool)
    requires Writable(f)
    ensures SaidBy(Written(f, callFirst)) == Some(BareFields(f))
  {
    hide Writable;
    hide Title;
    hide TextIn;
    hide TimesOf;
    ServiceTextsSaid(f);
    ServiceTitleSaid(f, PublishedServiceName);
    ServiceTitleSaid(f, DestinationText);
    ServiceTitleSaid(f, Mode);
    StopSaid(f);
    EventLookup(f, callFirst);
  }

  lemma EventLookup(f: Fields, callFirst: bool)
    ensures var kids := if callFirst then [CallNode(f), ServiceOf(f)] else [ServiceOf(f), CallNode(f)];
            && Child(Written(f, callFirst).kids, StopEvent) == Some(Element(StopEvent, kids))
            && Child(kids, Service) == Some(ServiceOf(f)) && StopOf(kids) == StopKidsOf(f)
  {
    hide Name;
    hide StopKidsOf;
    hide ServiceKidsOf;
    var kids := if callFirst then [CallNode(f), ServiceOf(f)] else [ServiceOf(f), CallNode(f)];
    assert kids[1..] == [kids[1]];
    assert Child(kids, ThisCall) == Some(CallNode(f));
  }

  lemma {:induction false} ResultsCons(n: Node, rest: seq<Node>)
    requires n.Elem?
    ensures Results([n] + rest) == [n] + Results(rest)
    ensures IsDocument([n] + rest) <==> TidyNode(n) && IsResult(n) && IsDocument(rest)
  {
    hide IsResult;
    hide TidyNode;
    var all := [n] + rest;
    assert all[1..] == rest;
    assert forall i :: 0 <= i < |rest| ==> all[i + 1] == rest[i];
  }

  lemma {:induction false} DocumentSays(fs: seq<(Fields, bool)>)
    requires forall i :: 0 <= i < |fs| ==> Writable(fs[i].0)
    ensures IsDocument(Document(fs)) && |Results(Document(fs))| == |fs|
    ensures forall i :: 0 <= i < |fs| ==> SaidBy(Results(Document(fs))[i]) == Some(BareFields(fs[i].0))
  {
    hide Writable;
    hide SaidBy;
    hide IsResult;
    hide TidyNode;
    hide Written;
    hide IsDocument;
    hide Results;
    if fs == [] {
      EmptyDocument();
    } else {
      var first, rest := Written(fs[0].0, fs[0].1), Document(fs[1..]);
      DocumentSays(fs[1..]);
      WrittenSays(fs[0].0, fs[0].1);
      WrittenIsResult(fs[0].0, fs[0].1);
      WrittenIsElem(fs[0].0, fs[0].1);
      ResultsCons(first, rest);
      forall i | 0 <= i < |fs|
        ensures SaidBy(Results([first] + rest)[i]) == Some(BareFields(fs[i].0))
      {
        if i > 0 {
          assert Results([first] + rest)[i] == Results(rest)[i - 1];
          assert fs[i] == fs[1..][i - 1];
        }
      }
    }
  }

  lemma EmptyDocument()
    ensures IsDocument([]) && Results([]) == []
  {}

  lemma WrittenIsElem(f: Fields, callFirst: bool)
    ensures Written(f, callFirst).Elem?
  {}

  function Given(fs: seq<(Fields, bool)>): (given: seq<Option<Fields>>)
    ensures |given| == |fs| && forall i :: 0 <= i < |fs| ==> given[i] == Some(BareFields(fs[i].0))
  {
    seq(|fs|, i requires 0 <= i < |fs| => Some(BareFields(fs[i].0)))
  }

  /** The parser reads any list of written events back to exactly their fields, without the
      blanks around them. */
  lemma {:induction false} WrittenIsRead(fs: seq<(Fields, bool)>)
    requires forall i :: 0 <= i < |fs| ==> Writable(fs[i].0)
    ensures AllFields(Blocks(Block(StopEventResult), Render(ItemsOf(Document(fs))))) == Given(fs)
  {
    hide Writable;
    hide SaidBy;
    hide Document;
    hide Render;
    hide Blocks;
    hide IsDocument;
    DocumentSays(fs);
    DocumentIsRead(Document(fs));
  }
}

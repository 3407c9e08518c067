/** Documents of stop events, and what they say: in every place the searches find the
    element of that name, although the first Service block may start at a ServiceDeparture
    and the first StopEvent block at its StopEventResult. */
module OjpDocuments {
  import opened Wrappers
  import opened Text
  import opened OjpXml
  import opened OjpItems
  import opened OjpTags
  import opened OjpTwins
  import opened OjpEvents
  import opened OjpNodes
  import opened OjpFinding

  /// ## Names looked up

  const ServiceTexts: set<Tag> := {OperatingDayRef, JourneyRef, TrainNumber, OperatorRef}
  const ServiceSought: set<Tag> := {DestinationText, PublishedServiceName, Mode} + ServiceTexts
  const StopSought: set<Tag> := {ServiceDeparture, PlannedQuay, EstimatedQuay, TimetabledTime, EstimatedTime}

  /// ## Shapes
  ///
  /// Gaps may hold any other markup, as long as it does not open like, or close, a name where
  /// that is what the parser looks for.

  /** Text elements without a namespace among other markup. */
  ghost predicate TitleKid(n: Node) {
    match n
    case Gap(items) => NothingOpens(LANG, items)
    case Plain(t, open, _, close) => t == Caption && OpensAs(LANG, open) && ClosesAs(LANG, close)
    case Elem(_, _, _, _) => false
  }

  ghost predicate IsTitle(n: Node, t: Tag) {
    n.Elem? && n.tag == t && Unclosed(t, n.kids) && forall i :: 0 <= i < |n.kids| ==> TitleKid(n.kids[i])
  }

  ghost predicate ModeKid(n: Node) {
    match n
    case Gap(items) => NoOpen(ShortName, items)
    case _ => IsTitle(n, ShortName)
  }

  ghost predicate IsMode(n: Node) {
    n.Elem? && n.tag == Mode && Unclosed(Mode, n.kids) && forall i :: 0 <= i < |n.kids| ==> ModeKid(n.kids[i])
  }

  ghost predicate ServiceKid(n: Node) {
    match n
    case Gap(_) => true
    case Plain(t, _, _, _) => t in ServiceTexts
    case Elem(_, _, _, _) => IsTitle(n, DestinationText) || IsTitle(n, PublishedServiceName) || IsMode(n)
  }

  ghost predicate IsService(n: Node) {
    && n.Elem? && n.tag == Service
    && (forall i :: 0 <= i < |n.kids| ==> ServiceKid(n.kids[i]))
    && forall t :: t in ServiceSought ==> Hushed(t, n.kids)
  }

  predicate TimeKid(n: Node) {
    match n
    case Gap(_) => true
    case Plain(t, _, _, _) => t in {TimetabledTime, EstimatedTime}
    case Elem(_, _, _, _) => false
  }

  ghost predicate HushesTimes(ns: seq<Node>) {
    Hushed(TimetabledTime, ns) && Hushed(EstimatedTime, ns)
  }

  ghost predicate IsDeparture(n: Node) {
    && n.Elem? && n.tag == ServiceDeparture && Unclosed(ServiceDeparture, n.kids) && HushesTimes(n.kids)
    && forall i :: 0 <= i < |n.kids| ==> TimeKid(n.kids[i])
  }

  ghost predicate StopKid(n: Node) {
    TimeKid(n) || IsDeparture(n) || IsTitle(n, PlannedQuay) || IsTitle(n, EstimatedQuay)
  }

  /** Where the departure and the quays are looked up, and without a departure the times. */
  ghost predicate AreStopKids(ns: seq<Node>) {
    && (forall i :: 0 <= i < |ns| ==> StopKid(ns[i]))
    && Hushed(ServiceDeparture, ns) && Hushed(PlannedQuay, ns) && Hushed(EstimatedQuay, ns)
    && (Child(ns, ServiceDeparture).None? ==> HushesTimes(ns))
  }

  ghost predicate IsStop(n: Node) {
    n.Elem? && n.tag == CallAtStop && Unclosed(CallAtStop, n.kids) && AreStopKids(n.kids)
  }

  ghost predicate IsCall(n: Node) {
    && n.Elem? && n.tag == ThisCall && Unclosed(ThisCall, n.kids) && Hushed(CallAtStop, n.kids)
    && (forall i :: 0 <= i < |n.kids| ==> StopKid(n.kids[i]) || IsStop(n.kids[i]))
    && (Child(n.kids, CallAtStop).None? ==> AreStopKids(n.kids))
  }

  /** Calls and services in any number and order. In front of the service no gap opens what is
      looked up in it; without a call none opens what would be looked up there. */
  ghost predicate IsEvent(n: Node) {
    && n.Elem? && n.tag == StopEvent
    && (forall i :: 0 <= i < |n.kids| ==> n.kids[i].Gap? || IsService(n.kids[i]) || IsCall(n.kids[i]))
    && Unclosed(StopEvent, n.kids) && Unclosed(Service, n.kids) && Hushed(ThisCall, n.kids)
    && (forall t :: t in ServiceSought ==> Hushed(t, Front(n.kids, Service)))
    && (Child(n.kids, ThisCall).None? ==> forall t :: t in StopSought ==> Hushed(t, n.kids))
  }

  /** What is looked up in the text from a result's start to its event's end. */
  function SoughtAhead(event: seq<Node>): set<Tag> {
    ServiceSought + {ThisCall} + if Child(event, ThisCall).None? then StopSought else {}
  }

  /** In front of the event the same holds as in front of the service. */
  ghost predicate IsResult(n: Node) {
    && n.Elem? && n.tag == StopEventResult
    && (forall i :: 0 <= i < |n.kids| ==> n.kids[i].Gap? || IsEvent(n.kids[i]))
    && Hushed(StopEventResult, n.kids) && Unclosed(StopEventResult, n.kids) && Unclosed(StopEvent, n.kids)
    && (Child(n.kids, StopEvent).Some? ==>
          var front, event := Front(n.kids, StopEvent), Child(n.kids, StopEvent).value.kids;
          Unclosed(Service, front) && forall t :: t in SoughtAhead(event) ==> Hushed(t, front))
  }

  /** Between the results anything that does not open like one. */
  ghost predicate IsDocument(ns: seq<Node>) {
    Tidy(ns) && forall i :: 0 <= i < |ns| ==> (ns[i].Gap? && NoOpen(StopEventResult, ns[i].items)) || IsResult(ns[i])
  }

  /// ## What a document says

  function KidsOf(n: Option<Node>): seq<Node>
    requires n.Some? ==> n.value.Elem?
  {
    match n case Some(e) => e.kids case None => []
  }

  function Title(ns: seq<Node>, t: Tag): Option<string> {
    TextIn(KidsOf(Child(ns, t)), Caption)
  }

  /** Where the departure and the quays are looked up. */
  function StopOf(event: seq<Node>): seq<Node> {
    var call := KidsOf(Child(event, ThisCall));
    if Child(call, CallAtStop).Some? then KidsOf(Child(call, CallAtStop)) else call
  }

  function TimesOf(stop: seq<Node>): seq<Node> {
    if Child(stop, ServiceDeparture).Some? then KidsOf(Child(stop, ServiceDeparture)) else stop
  }

  function Said(service: seq<Node>, stop: seq<Node>, times: seq<Node>): Fields {
    Fields(Title(service, DestinationText), Title(KidsOf(Child(service, Mode)), ShortName),
           Title(service, PublishedServiceName),
           TextIn(service, TrainNumber), TextIn(service, OperatorRef),
           TextIn(service, JourneyRef), TextIn(service, OperatingDayRef),
           TextIn(times, TimetabledTime), TextIn(times, EstimatedTime),
           Title(stop, PlannedQuay), Title(stop, EstimatedQuay))
  }

  /** A result without an event, or an event without a service, says nothing. */
  function SaidBy(result: Node): Option<Fields>
    requires result.Elem?
  {
    var event := KidsOf(Child(result.kids, StopEvent));
    match Child(event, Service)
    case None => None
    case Some(service) => Some(Said(service.kids, StopOf(event), TimesOf(StopOf(event))))
  }

  /// ## The names inside each shape

  lemma {:induction false} TitleTags(n: Node, t: Tag)
    requires IsTitle(n, t)
    ensures Tags(n.kids) <= {Caption} && NodeTags(n) <= {t, Caption}
  {
    forall i | 0 <= i < |n.kids|
      ensures NodeTags(n.kids[i]) <= {Caption}
    {
      assert TitleKid(n.kids[i]);
    }
    TagsWithin(n.kids, {Caption});
  }

  lemma {:induction false} ModeTags(n: Node)
    requires IsMode(n)
    ensures Tags(n.kids) <= {ShortName, Caption} && NodeTags(n) <= {Mode, ShortName, Caption}
  {
    forall i | 0 <= i < |n.kids|
      ensures NodeTags(n.kids[i]) <= {ShortName, Caption}
    {
      assert ModeKid(n.kids[i]);
      if n.kids[i].Elem? {
        TitleTags(n.kids[i], ShortName);
      }
    }
    TagsWithin(n.kids, {ShortName, Caption});
  }

  const ServiceNames: set<Tag> :=
    {OperatingDayRef, JourneyRef, TrainNumber, OperatorRef, DestinationText, PublishedServiceName, Mode, ShortName, Caption}
  const StopNames: set<Tag> := {TimetabledTime, EstimatedTime, ServiceDeparture, PlannedQuay, EstimatedQuay, Caption}
  const CallNames: set<Tag> :=
    {ThisCall, CallAtStop, TimetabledTime, EstimatedTime, ServiceDeparture, PlannedQuay, EstimatedQuay, Caption}

  lemma {:induction false} ServiceKidTags(n: Node)
    requires ServiceKid(n)
    ensures NodeTags(n) <= ServiceNames
    ensures n.Elem? ==> n.tag in {DestinationText, PublishedServiceName, Mode} && Tags(n.kids) <= {ShortName, Caption}
    ensures n.Elem? ==> Unclosed(n.tag, n.kids)
    ensures n.Elem? && n.tag != Mode ==> NodeTags(n) <= {n.tag, Caption}
    ensures n.Elem? && n.tag == Mode ==> NodeTags(n) <= {Mode, ShortName, Caption}
  {
    if n.Elem? {
      if IsMode(n) {
        ModeTags(n);
      } else {
        TitleTags(n, n.tag);
      }
    }
  }

  lemma ServiceTags(n: Node)
    requires IsService(n)
    ensures Tags(n.kids) <= ServiceNames
  {
    hide NodeTags;
    forall i | 0 <= i < |n.kids|
      ensures NodeTags(n.kids[i]) <= ServiceNames
    {
      ServiceKidTags(n.kids[i]);
    }
    TagsWithin(n.kids, ServiceNames);
  }

  lemma {:induction false} TimeTags(ns: seq<Node>)
    requires forall i :: 0 <= i < |ns| ==> TimeKid(ns[i])
    ensures Tags(ns) <= {TimetabledTime, EstimatedTime}
  {
    TagsWithin(ns, {TimetabledTime, EstimatedTime});
  }

  lemma {:induction false} StopKidTags(n: Node)
    requires StopKid(n)
    ensures NodeTags(n) <= StopNames
    ensures n.Elem? ==> n.tag in {ServiceDeparture, PlannedQuay, EstimatedQuay} && Unclosed(n.tag, n.kids)
    ensures n.Elem? ==> Tags(n.kids) <= if n.tag == ServiceDeparture then {TimetabledTime, EstimatedTime} else {Caption}
  {
    if IsDeparture(n) {
      TimeTags(n.kids);
    } else if n.Elem? {
      TitleTags(n, n.tag);
    }
  }

  lemma {:induction false} StopTags(ns: seq<Node>)
    requires forall i :: 0 <= i < |ns| ==> StopKid(ns[i])
    ensures Tags(ns) <= StopNames
  {
    hide NodeTags;
    forall i | 0 <= i < |ns|
      ensures NodeTags(ns[i]) <= StopNames
    {
      StopKidTags(ns[i]);
    }
    TagsWithin(ns, StopNames);
  }

  lemma {:induction false} CallKidTags(n: Node)
    requires StopKid(n) || IsStop(n)
    ensures NodeTags(n) <= {CallAtStop} + StopNames
    ensures n.Elem? && n.tag == CallAtStop ==> Tags(n.kids) <= StopNames && Unclosed(CallAtStop, n.kids)
    ensures !(n.Elem? && n.tag == CallAtStop) ==> NodeTags(n) <= StopNames
  {
    if IsStop(n) {
      StopTags(n.kids);
    } else {
      StopKidTags(n);
    }
  }

  lemma {:induction false} CallTags(n: Node)
    requires IsCall(n)
    ensures Tags(n.kids) <= {CallAtStop} + StopNames && NodeTags(n) <= CallNames
  {
    forall i | 0 <= i < |n.kids|
      ensures NodeTags(n.kids[i]) <= {CallAtStop} + StopNames
    {
      CallKidTags(n.kids[i]);
    }
    TagsWithin(n.kids, {CallAtStop} + StopNames);
  }
}

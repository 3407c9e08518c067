/** Parsing a document of stop events yields exactly what the document says. */
module OjpTheorem {
  import opened Wrappers
  import opened Text
  import opened OjpXml
  import opened OjpItems
  import opened OjpTags
  import opened OjpTwins
  import opened OjpEvents
  import opened OjpNodes
  import opened OjpFinding
  import opened OjpDocuments
  import opened OjpReading
  import opened OjpLookups

  /// ## Blocks that start early

  /** By names alone: `t` closes a direct child only. */
  predicate ClosesItself(t: Tag, n: Node) {
    if n.Elem? && n.tag == t then t !in Tags(n.kids) else t !in NodeTags(n)
  }

  lemma {:induction false} FrontCloses(t: Tag, ns: seq<Node>)
    requires Tidy(ns) && Unclosed(t, ns)
    requires forall i :: 0 <= i < |ns| ==> !(ns[i].Elem? && ns[i].tag == t) && ClosesItself(t, ns[i])
    ensures NoClose(t, ItemsOf(ns))
  {
    hide NoClose;
    hide NodeItems;
    hide NodeTags;
    hide TidyNode;
    hide UnclosedNode;
    if ns == [] {
      NothingInNothing(t);
    } else {
      FrontCloses(t, ns[1..]);
      SilentNodeCloses(ns[0], t);
      ClosesSplit(t, NodeItems(ns[0]), ItemsOf(ns[1..]));
    }
  }

  lemma {:induction false} FrontIsTidy(ns: seq<Node>, k: nat)
    requires Tidy(ns) && k <= |ns|
    ensures Tidy(ns[..k]) && Tidy(ns[k..])
    ensures forall t :: Unclosed(t, ns) ==> Unclosed(t, ns[..k])
    ensures forall t :: Hushed(t, ns) ==> Hushed(t, ns[..k])
  {
    hide Tidy;
    hide Hushed;
    hide Unclosed;
    var front, back := ns[..k], ns[k..];
    assert front + back == ns;
    TidyConcat(front, back);
    forall t: Tag
      ensures Unclosed(t, ns) ==> Unclosed(t, front)
      ensures Hushed(t, ns) ==> Hushed(t, front)
    {
      QuietConcat(t, front, back);
    }
  }

  /** The items of a text up to its first child named `t`. */
  function LeadIn(s: Scope, t: Tag): seq<Item> {
    s.pre + ItemsOf(Front(s.ns, t))
  }

  lemma {:induction false} ScopeSplit(s: Scope, t: Tag)
    requires Child(s.ns, t).Some?
    ensures var c := Child(s.ns, t).value;
            s.pre + (ItemsOf(s.ns) + s.post) ==
            LeadIn(s, t) + ([Open(c.open)] + ItemsOf(c.kids) + [Close(c.close)]
                            + (ItemsOf(s.ns[|Front(s.ns, t)| + 1..]) + s.post))
  {
    var c, k := Child(s.ns, t).value, |Front(s.ns, t)|;
    ItemsConcat(s.ns[..k], s.ns[k..]);
    assert s.ns[..k] + s.ns[k..] == s.ns;
    assert s.ns[k..][1..] == s.ns[k + 1..];
    assert NodeItems(c) == [Open(c.open)] + ItemsOf(c.kids) + [Close(c.close)];
    Regroup(s.pre, ItemsOf(s.ns[..k]), NodeItems(c), ItemsOf(s.ns[k + 1..]), s.post);
  }

  lemma Regroup(a: seq<Item>, b: seq<Item>, c: seq<Item>, d: seq<Item>, e: seq<Item>)
    ensures a + ((b + (c + d)) + e) == (a + b) + (c + (d + e))
  {}

  lemma {:induction false} LeadInCloses(s: Scope, t: Tag)
    requires IsScope(s) && NoClose(t, s.pre) && Unclosed(t, s.ns)
    requires forall i :: 0 <= i < |s.ns| ==> ClosesItself(t, s.ns[i])
    ensures NoClose(t, LeadIn(s, t))
  {
    hide NoClose;
    hide ClosesItself;
    hide TidyNode;
    var front := Front(s.ns, t);
    FrontIsTidy(s.ns, |front|);
    FrontCloses(t, front);
    ClosesSplit(t, s.pre, ItemsOf(front));
  }

  /** The first block of that name ends with the first child of that name, wherever it starts. */
  lemma EarlyBlock(s: Scope, t: Tag) returns (n: nat)
    requires IsScope(s) && NoClose(t, s.pre) && NoClose(t, s.post) && Unclosed(t, s.ns)
    requires forall i :: 0 <= i < |s.ns| ==> ClosesItself(t, s.ns[i])
    ensures Child(s.ns, t).None? ==> First(t, ScopeText(s)) == None
    ensures Child(s.ns, t).Some? ==>
              n <= |LeadIn(s, t)| && First(t, ScopeText(s)) == Some(Render(LeadIn(s, t)[n..] + NodeItems(Child(s.ns, t).value)))
  {
    hide First;
    hide Render;
    hide BlocksOf;
    hide NoClose;
    hide ClosesItself;
    hide TidyNode;
    hide ItemsOf;
    hide Unclosed;
    hide Front;
    hide Tidy;
    var items := s.pre + (ItemsOf(s.ns) + s.post);
    ScopeIsLexical(s);
    FirstOfItems(t, items);
    LeadInCloses(s, t);
    n := 0;
    if Child(s.ns, t).None? {
      ClosesSplit(t, LeadIn(s, t), s.post);
      assert items == LeadIn(s, t) + s.post;
      NothingClosesNoBlocks(t, items);
    } else {
      var c, k := Child(s.ns, t).value, |Front(s.ns, t)|;
      ScopeSplit(s, t);
      ChildIsTidy(s.ns, t);
      assert ClosesItself(t, s.ns[k]);
      UnclosedEach(t, s.ns, k);
      n := EarlyElement(t, LeadIn(s, t), c, ItemsOf(s.ns[k + 1..]) + s.post);
    }
  }

  lemma ScopeIsLexical(s: Scope)
    requires IsScope(s)
    ensures AllLexical(s.pre + (ItemsOf(s.ns) + s.post))
  {
    hide AllLexical;
    TidyIsLexical(s.ns);
    LexicalSplit(ItemsOf(s.ns), s.post);
    LexicalSplit(s.pre, ItemsOf(s.ns) + s.post);
  }

  lemma {:induction false} NothingClosesNoBlocks(t: Tag, items: seq<Item>)
    requires NoClose(t, items)
    ensures BlocksOf(Block(t), items) == []
  {
    NoBlocks(Block(t), items);
  }

  lemma EarlyElement(t: Tag, before: seq<Item>, c: Node, rest: seq<Item>) returns (n: nat)
    requires c.Elem? && c.tag == t && TidyNode(c) && Unclosed(t, c.kids) && ClosesItself(t, c) && NoClose(t, before)
    ensures n <= |before|
    ensures var blocks := BlocksOf(Block(t), before + ([Open(c.open)] + ItemsOf(c.kids) + [Close(c.close)] + rest));
            blocks != [] && blocks[0] == before[n..] + NodeItems(c)
  {
    hide BlocksOf;
    hide Opens;
    hide Closes;
    SilentCloses(c.kids, t);
    OwnTags(c);
    n := BlocksStartEarly(Block(t), before, Open(c.open), ItemsOf(c.kids), Close(c.close), rest);
  }

  lemma {:induction false} OwnTags(c: Node)
    requires c.Elem? && TidyNode(c)
    ensures Opens(Block(c.tag), Open(c.open)) && Closes(Block(c.tag), Close(c.close))
  {}

  /// ## From the result to its event

  const Sought: set<Tag> := ServiceSought + StopSought + {ThisCall}

  /** What may stand between a result's opening tag and its event. */
  ghost predicate IsPreamble(x: seq<Item>, event: seq<Node>) {
    AllLexical(x) && NoClose(Service, x) && forall t :: t in SoughtAhead(event) ==> NoOpen(t, x)
  }

  lemma SoughtAheadIsSought(event: seq<Node>)
    ensures SoughtAhead(event) <= Sought && ServiceSought <= SoughtAhead(event) && ThisCall in SoughtAhead(event)
    ensures Child(event, ThisCall).None? ==> StopSought <= SoughtAhead(event)
  {}

  lemma Suffix(x: seq<Item>, n: nat)
    requires n <= |x|
    ensures AllLexical(x) ==> AllLexical(x[n..])
    ensures forall t :: NoOpen(t, x) ==> NoOpen(t, x[n..])
    ensures forall t :: NoClose(t, x) ==> NoClose(t, x[n..])
  {
    hide Lexical;
    hide Opens;
    hide Closes;
  }

  const EventNames: set<Tag> := {Service} + ServiceNames + CallNames

  lemma {:induction false} EventKidTags(n: Node)
    requires n.Gap? || IsService(n) || IsCall(n)
    ensures NodeTags(n) <= EventNames
    ensures !(n.Elem? && n.tag == Service) ==> NodeTags(n) <= CallNames
    ensures !(n.Elem? && n.tag == ThisCall) ==> NodeTags(n) <= {Service} + ServiceNames
    ensures ClosesItself(Service, n)
  {
    hide NodeTags;
    PlainTags(n);
    ElemTags(n);
    if IsService(n) {
      ServiceTags(n);
    } else if IsCall(n) {
      CallTags(n);
    }
  }

  lemma EventTags(e: Node)
    requires IsEvent(e)
    ensures Tags(e.kids) <= EventNames
  {
    hide NodeTags;
    hide IsService;
    hide IsCall;
    forall i | 0 <= i < |e.kids|
      ensures NodeTags(e.kids[i]) <= EventNames
    {
      EventKidTags(e.kids[i]);
    }
    TagsWithin(e.kids, EventNames);
  }

  lemma {:induction false} GapsAreSilent(ns: seq<Node>, t: Tag)
    requires Tidy(ns) && Hushed(t, ns) && forall i :: 0 <= i < |ns| ==> ns[i].Gap?
    ensures NoOpen(t, ItemsOf(ns))
  {
    hide Tidy;
    TagsWithin(ns, {});
    SilentOpens(ns, t);
  }

  lemma {:induction false} GapsClose(ns: seq<Node>, t: Tag)
    requires Tidy(ns) && Unclosed(t, ns) && forall i :: 0 <= i < |ns| ==> ns[i].Gap?
    ensures NoClose(t, ItemsOf(ns))
  {
    hide Tidy;
    TagsWithin(ns, {});
    SilentCloses(ns, t);
  }

  lemma ResultKidsClose(r: Node)
    requires IsResult(r)
    ensures forall i :: 0 <= i < |r.kids| ==> ClosesItself(StopEvent, r.kids[i])
    ensures forall i :: 0 <= i < |Front(r.kids, StopEvent)| ==> Front(r.kids, StopEvent)[i].Gap?
  {
    hide IsEvent;
    forall i | 0 <= i < |r.kids|
      ensures ClosesItself(StopEvent, r.kids[i])
      ensures r.kids[i].Gap? || (r.kids[i].Elem? && r.kids[i].tag == StopEvent)
    {
      if !r.kids[i].Gap? {
        EventTags(r.kids[i]);
        EventIs(r.kids[i]);
      }
    }
  }

  lemma EventIs(n: Node)
    requires IsEvent(n)
    ensures n.Elem? && n.tag == StopEvent
  {}

  lemma NotResult(t: Tag)
    requires t in Sought
    ensures !Starts(StopEventResult, t) && !Starts(StopEvent, t)
  {}

  lemma PreambleOf(r: Node, n: nat) returns (x: seq<Item>)
    requires TidyNode(r) && IsResult(r) && Child(r.kids, StopEvent).Some? && n <= |LeadIn(Within([], r), StopEvent)|
    ensures x == LeadIn(Within([], r), StopEvent)[n..] && IsPreamble(x, Child(r.kids, StopEvent).value.kids)
  {
    hide NoOpen;
    hide NoClose;
    hide AllLexical;
    hide IsOpen;
    hide IsClose;
    hide Starts;
    hide IsEvent;
    hide Tidy;
    var front := Front(r.kids, StopEvent);
    var all := LeadIn(Within([], r), StopEvent);
    assert all == [Open(r.open)] + ItemsOf(front);
    ResultKidsClose(r);
    FrontIsTidy(r.kids, |front|);
    TidyIsLexical(front);
    OneOpen(r.tag, r.open, Service);
    LexicalSplit([Open(r.open)], ItemsOf(front));
    GapsClose(front, Service);
    ClosesSplit(Service, [Open(r.open)], ItemsOf(front));
    var event := Child(r.kids, StopEvent).value.kids;
    SoughtAheadIsSought(event);
    forall t | t in SoughtAhead(event)
      ensures NoOpen(t, all)
    {
      NotResult(t);
      OneOpen(r.tag, r.open, t);
      GapsAreSilent(front, t);
      OpensSplit(t, [Open(r.open)], ItemsOf(front));
    }
    x := all[n..];
    Suffix(all, n);
  }

  lemma EventBlock(r: Node) returns (x: seq<Item>)
    requires TidyNode(r) && IsResult(r)
    ensures Child(r.kids, StopEvent).None? ==> First(StopEvent, Render(NodeItems(r))) == None
    ensures Child(r.kids, StopEvent).Some? ==>
              First(StopEvent, Render(NodeItems(r))) == Some(Render(x + NodeItems(Child(r.kids, StopEvent).value)))
    ensures Child(r.kids, StopEvent).Some? ==> IsPreamble(x, Child(r.kids, StopEvent).value.kids)
  {
    hide First;
    hide Render;
    hide NoClose;
    hide ClosesItself;
    hide IsOpen;
    hide IsClose;
    hide IsPreamble;
    NothingBefore(r);
    var s := Within([], r);
    ResultKidsClose(r);
    OneOpen(r.tag, r.open, StopEvent);
    OneClose(r.tag, r.close, StopEvent);
    assert s.pre == [Open(r.open)];
    var n := EarlyBlock(s, StopEvent);
    x := [];
    if Child(r.kids, StopEvent).Some? {
      x := PreambleOf(r, n);
    }
  }

  /// ## From the event to its service

  lemma EventLeadIn(x: seq<Item>, e: Node, n: nat) returns (y: seq<Item>)
    requires TidyNode(e) && IsEvent(e) && IsPreamble(x, e.kids) && n <= |LeadIn(Within(x, e), Service)|
    ensures y == LeadIn(Within(x, e), Service)[n..] && IsLeadIn(y)
  {
    hide NoOpen;
    hide NoClose;
    hide AllLexical;
    hide IsOpen;
    hide IsClose;
    hide Starts;
    hide IsService;
    hide IsCall;
    hide Tidy;
    hide NodeTags;
    var front := Front(e.kids, Service);
    var all := LeadIn(Within(x, e), Service);
    assert all == (x + [Open(e.open)]) + ItemsOf(front);
    FrontIsTidy(e.kids, |front|);
    TidyIsLexical(front);
    OneOpen(e.tag, e.open, Service);
    LexicalSplit(x, [Open(e.open)]);
    LexicalSplit(x + [Open(e.open)], ItemsOf(front));
    forall i | 0 <= i < |front|
      ensures NodeTags(front[i]) <= CallNames
    {
      assert front[i] == e.kids[i];
      EventKidTags(e.kids[i]);
    }
    TagsWithin(front, CallNames);
    SoughtAheadIsSought(e.kids);
    forall t | t in ServiceSought
      ensures NoOpen(t, all)
    {
      SoughtInService(t);
      NotResult(t);
      OneOpen(e.tag, e.open, t);
      SilentOpens(front, t);
      OpensSplit(t, x, [Open(e.open)]);
      OpensSplit(t, x + [Open(e.open)], ItemsOf(front));
    }
    y := all[n..];
    Suffix(all, n);
  }

  /** No name of a call starts like a name looked up in a service, and conversely. */
  lemma SoughtInService(t: Tag)
    requires t in ServiceSought
    ensures t in Sought && forall u :: u in CallNames ==> !Starts(u, t)
  {}

  lemma SoughtInStop(t: Tag)
    requires t in StopSought
    ensures t in Sought && forall u :: u in {Service} + ServiceNames ==> !Starts(u, t)
  {}

  lemma ServiceBlock(x: seq<Item>, e: Node) returns (y: seq<Item>)
    requires TidyNode(e) && IsEvent(e) && IsPreamble(x, e.kids)
    ensures Child(e.kids, Service).None? ==> First(Service, Render(x + NodeItems(e))) == None
    ensures Child(e.kids, Service).Some? ==>
              First(Service, Render(x + NodeItems(e))) == Some(Render(y + NodeItems(Child(e.kids, Service).value)))
    ensures Child(e.kids, Service).Some? ==> IsLeadIn(y)
  {
    hide First;
    hide Render;
    hide NoClose;
    hide NoOpen;
    hide ClosesItself;
    hide IsOpen;
    hide IsClose;
    hide IsLeadIn;
    hide IsService;
    hide IsCall;
    hide Starts;
    hide Clear;
    var s := Within(x, e);
    WithinText(x, e);
    WithinIsScope(x, e);
    OneOpen(e.tag, e.open, Service);
    OneClose(e.tag, e.close, Service);
    ClosesSplit(Service, x, [Open(e.open)]);
    forall i | 0 <= i < |e.kids|
      ensures ClosesItself(Service, e.kids[i])
    {
      EventKidTags(e.kids[i]);
    }
    var n := EarlyBlock(s, Service);
    y := [];
    if Child(e.kids, Service).Some? {
      y := EventLeadIn(x, e, n);
    }
  }

  /// ## From the event to its call

  lemma {:induction false} ClearOfStops(x: seq<Item>, e: Node)
    requires TidyNode(e) && IsEvent(e) && IsPreamble(x, e.kids)
    ensures IsScope(Within(x, e)) && Clear(Within(x, e), ThisCall)
    ensures Child(e.kids, ThisCall).None? ==> IsStopScope(Scope(x + NodeItems(e), [], []))
  {
    hide NoOpen;
    hide NoClose;
    hide AllLexical;
    hide IsOpen;
    hide IsClose;
    hide Starts;
    hide IsService;
    hide IsCall;
    WithinIsScope(x, e);
    SoughtAheadIsSought(e.kids);
    NotResult(ThisCall);
    if Child(e.kids, ThisCall).None? {
      NoCallNoStop(x, e);
    }
  }

  lemma {:induction false} NoCallNoStop(x: seq<Item>, e: Node)
    requires TidyNode(e) && IsEvent(e) && IsPreamble(x, e.kids) && Child(e.kids, ThisCall).None?
    ensures IsStopScope(Scope(x + NodeItems(e), [], []))
  {
    hide NoOpen;
    hide NoClose;
    hide AllLexical;
    hide IsOpen;
    hide IsClose;
    hide Starts;
    hide IsService;
    hide IsCall;
    hide NodeTags;
    TidyNodeIsLexical(e);
    LexicalSplit(x, NodeItems(e));
    forall i | 0 <= i < |e.kids|
      ensures NodeTags(e.kids[i]) <= {Service} + ServiceNames
    {
      EventKidTags(e.kids[i]);
      NoChild(e.kids, ThisCall, i);
    }
    TagsWithin(e.kids, {Service} + ServiceNames);
    ElemTags(e);
    SoughtAheadIsSought(e.kids);
    forall t | t in StopSought
      ensures NoOpen(t, x + NodeItems(e)) && NoOpen(t, [])
    {
      SoughtInStop(t);
      NotResult(t);
      NothingInNothing(t);
      SilentNodeOpens(e, t);
      OpensSplit(t, x, NodeItems(e));
    }
    NothingIsLexical();
  }

  lemma NothingIsLexical()
    ensures AllLexical([])
  {}

  lemma NotStop(t: Tag)
    requires t in StopSought
    ensures !Starts(ThisCall, t) && !Starts(CallAtStop, t) && !Starts(ThisCall, CallAtStop)
  {}

  /** A call that holds its own stop, or a stop. */
  lemma {:induction false} StopScopeWithin(n: Node)
    requires TidyNode(n) && n.Elem? && n.tag in {ThisCall, CallAtStop}
    requires AreStopKids(n.kids)
    ensures IsStopScope(Within([], n)) && ScopeText(Within([], n)) == Render(NodeItems(n))
  {
    hide Starts;
    hide Clear;
    hide Render;
    hide AreStopKids;
    hide TidyNode;
    NothingBefore(n);
    forall t | t in StopSought
      ensures Clear(Within([], n), t)
    {
      NotStop(t);
    }
  }

  lemma CallBlock(c: Node) returns (s: Scope)
    requires TidyNode(c) && IsCall(c)
    ensures IsStopScope(s) && s.ns == (if Child(c.kids, CallAtStop).Some? then KidsOf(Child(c.kids, CallAtStop)) else c.kids)
    ensures OrElse(First(CallAtStop, Render(NodeItems(c))), Render(NodeItems(c))) == ScopeText(s)
  {
    hide Starts;
    hide Clear;
    hide Render;
    hide StopKid;
    hide First;
    hide IsStopScope;
    hide ScopeText;
    NothingBefore(c);
    CallFindable(c);
    NotStop(PlannedQuay);
    ChildInScope(Within([], c), CallAtStop);
    KidsAreTidy(c);
    ChildIsTidy(c.kids, CallAtStop);
    if stop :| Child(c.kids, CallAtStop) == Some(stop) {
      var i :| 0 <= i < |c.kids| && c.kids[i] == stop;
      StopIsStop(c.kids[i]);
      StopScopeWithin(stop);
      s := Within([], stop);
    } else {
      StopScopeWithin(c);
      s := Within([], c);
    }
  }

  lemma StopIsStop(n: Node)
    requires (StopKid(n) || IsStop(n)) && n.Elem? && n.tag == CallAtStop
    ensures IsStop(n)
  {}

  lemma CallScope(x: seq<Item>, e: Node) returns (s: Scope)
    requires TidyNode(e) && IsEvent(e) && IsPreamble(x, e.kids)
    ensures IsStopScope(s) && s.ns == StopOf(e.kids) && CallOf(Render(x + NodeItems(e))) == ScopeText(s)
  {
    hide Starts;
    hide Clear;
    hide Render;
    hide StopKid;
    hide First;
    hide IsStopScope;
    hide IsPreamble;
    hide IsService;
    ClearOfStops(x, e);
    WithinText(x, e);
    EventFindable(e);
    ChildInScope(Within(x, e), ThisCall);
    KidsAreTidy(e);
    ChildIsTidy(e.kids, ThisCall);
    if c :| Child(e.kids, ThisCall) == Some(c) {
      var i :| 0 <= i < |e.kids| && e.kids[i] == c;
      CallIsCall(e.kids[i]);
      s := CallBlock(c);
    } else {
      s := Scope(x + NodeItems(e), [], []);
      assert s.pre + (ItemsOf([]) + []) == x + NodeItems(e);
    }
  }

  lemma CallIsCall(n: Node)
    requires (n.Gap? || IsService(n) || IsCall(n)) && n.Elem?
    ensures n.tag == ThisCall ==> IsCall(n)
    ensures n.tag == Service ==> IsService(n)
  {}

  /// ## Main theorem

  lemma {:induction false} TextsAreSaid(y: seq<Item>, service: Node, s: Scope)
    requires IsLeadIn(y) && TidyNode(service) && IsService(service) && IsStopScope(s)
    ensures TextsOf(Render(y + NodeItems(service)), ScopeText(s), OrElse(First(ServiceDeparture, ScopeText(s)), ScopeText(s)))
         == Said(service.kids, s.ns, TimesOf(s.ns))
  {
    hide IsLeadIn;
    hide TidyNode;
    hide IsService;
    hide IsStopScope;
    hide First;
    hide Render;
    hide ScopeText;
    hide LeafText;
    hide LangText;
    hide CategoryOf;
    hide Title;
    hide TextIn;
    hide TimesOf;
    hide Child;
    ServiceTitle(y, service, DestinationText);
    ServiceCategory(y, service);
    ServiceTitle(y, service, PublishedServiceName);
    ServiceText(y, service, TrainNumber);
    ServiceText(y, service, OperatorRef);
    ServiceText(y, service, JourneyRef);
    ServiceText(y, service, OperatingDayRef);
    StopTime(s, TimetabledTime);
    StopTime(s, EstimatedTime);
    StopTitle(s, PlannedQuay);
    StopTitle(s, EstimatedQuay);
  }

  /** Reading one result yields what it says. */
  lemma {:induction false} ResultIsRead(r: Node)
    requires TidyNode(r) && IsResult(r)
    ensures FieldsOf(Render(NodeItems(r))) == SaidBy(r)
  {
    hide First;
    hide Render;
    hide IsEvent;
    hide IsPreamble;
    hide TextsOf;
    hide Said;
    var x := EventBlock(r);
    KidsAreTidy(r);
    ChildIsTidy(r.kids, StopEvent);
    if e :| Child(r.kids, StopEvent) == Some(e) {
      var i :| 0 <= i < |r.kids| && r.kids[i] == e;
      assert IsEvent(r.kids[i]);
      EventIsRead(x, e);
    } else {
      assert Child([], Service) == None;
    }
  }

  lemma {:induction false} EventIsRead(x: seq<Item>, e: Node)
    requires TidyNode(e) && IsEvent(e) && IsPreamble(x, e.kids)
    ensures var text := Render(x + NodeItems(e));
            match First(Service, text)
            case None => Child(e.kids, Service).None?
            case Some(service) =>
              && Child(e.kids, Service).Some?
              && TextsOf(service, CallOf(text), OrElse(First(ServiceDeparture, CallOf(text)), CallOf(text)))
                 == Said(Child(e.kids, Service).value.kids, StopOf(e.kids), TimesOf(StopOf(e.kids)))
  {
    hide First;
    hide Render;
    hide IsPreamble;
    hide TextsOf;
    hide Said;
    hide IsService;
    hide IsCall;
    hide IsStopScope;
    hide ScopeText;
    hide StopOf;
    hide TimesOf;
    hide CallOf;
    var y := ServiceBlock(x, e);
    var s := CallScope(x, e);
    KidsAreTidy(e);
    ChildIsTidy(e.kids, Service);
    if service :| Child(e.kids, Service) == Some(service) {
      var i :| 0 <= i < |e.kids| && e.kids[i] == service;
      CallIsCall(e.kids[i]);
      TextsAreSaid(y, service, s);
    }
  }

  /// ## Whole documents

  function Results(ns: seq<Node>): (rs: seq<Node>)
    ensures forall i :: 0 <= i < |rs| ==> rs[i].Elem? && rs[i] in ns
  {
    if ns == [] then []
    else (if ns[0].Elem? then [ns[0]] else []) + Results(ns[1..])
  }

  function AllItems(rs: seq<Node>): (blocks: seq<seq<Item>>)
    ensures |blocks| == |rs| && forall i :: 0 <= i < |rs| ==> blocks[i] == NodeItems(rs[i])
  {
    if rs == [] then [] else [NodeItems(rs[0])] + AllItems(rs[1..])
  }

  lemma {:induction false} ResultTags(r: Node)
    requires IsResult(r)
    ensures Tags(r.kids) <= {StopEvent} + EventNames
  {
    hide NodeTags;
    hide IsEvent;
    forall i | 0 <= i < |r.kids|
      ensures NodeTags(r.kids[i]) <= {StopEvent} + EventNames
    {
      PlainTags(r.kids[i]);
      if !r.kids[i].Gap? {
        EventTags(r.kids[i]);
        EventIs(r.kids[i]);
        ElemTags(r.kids[i]);
      }
    }
    TagsWithin(r.kids, {StopEvent} + EventNames);
  }

  lemma {:induction false} ResultIsABlock(r: Node, rest: seq<Item>)
    requires TidyNode(r) && IsResult(r)
    ensures BlocksOf(Block(StopEventResult), NodeItems(r) + rest) == [NodeItems(r)] + BlocksOf(Block(StopEventResult), rest)
  {
    hide BlocksOf;
    hide Opens;
    hide Closes;
    hide NodeTags;
    hide IsOpen;
    hide IsClose;
    var t, p := StopEventResult, Block(StopEventResult);
    ResultTags(r);
    NoResultInside();
    SilentOpens(r.kids, t);
    SilentCloses(r.kids, t);
    OwnTags(r);
    OneClose(r.tag, r.close, t);
    BlocksTake(p, Open(r.open), ItemsOf(r.kids), Close(r.close), rest);
    BlocksSkip(p, ItemsOf(r.kids), [Close(r.close)] + rest);
    BlocksSkip(p, [Close(r.close)], rest);
  }

  lemma NoResultInside()
    ensures forall u :: u in {StopEvent} + EventNames ==> !Starts(u, StopEventResult)
  {}

  lemma {:induction false} DocumentBlocks(doc: seq<Node>)
    requires IsDocument(doc)
    ensures BlocksOf(Block(StopEventResult), ItemsOf(doc)) == AllItems(Results(doc))
  {
    hide IsResult;
    hide NodeItems;
    hide TidyNode;
    if doc != [] {
      var p := Block(StopEventResult);
      DocumentBlocks(doc[1..]);
      if doc[0].Gap? {
        SilentGap(doc[0]);
        BlocksSkip(p, NodeItems(doc[0]), ItemsOf(doc[1..]));
      } else {
        ResultIs(doc[0]);
        ResultIsABlock(doc[0], ItemsOf(doc[1..]));
      }
    }
  }

  lemma {:induction false} SilentGap(n: Node)
    requires n.Gap? && (NoOpen(StopEventResult, n.items) || IsResult(n))
    ensures NoOpen(StopEventResult, NodeItems(n))
  {}

  lemma ResultIs(n: Node)
    requires IsResult(n)
    ensures n.Elem?
  {}

  lemma {:induction false} RenderEach(blocks: seq<seq<Item>>, i: nat)
    requires i < |blocks|
    ensures |RenderAll(blocks)| == |blocks| && RenderAll(blocks)[i] == Render(blocks[i])
  {
    hide Render;
    if i > 0 {
      RenderEach(blocks[1..], i - 1);
    } else if |blocks| > 1 {
      RenderEach(blocks[1..], 0);
    }
  }

  function AllSaid(rs: seq<Node>): seq<Option<Fields>>
    requires forall i :: 0 <= i < |rs| ==> rs[i].Elem?
  {
    seq(|rs|, i requires 0 <= i < |rs| => SaidBy(rs[i]))
  }

  /** Every result of a document is found, in order, and read for what it says; the rows of
      the board are therefore those of what the document says. */
  lemma {:induction false} DocumentIsRead(doc: seq<Node>)
    requires IsDocument(doc)
    ensures AllFields(Blocks(Block(StopEventResult), Render(ItemsOf(doc)))) == AllSaid(Results(doc))
  {
    hide Render;
    hide Blocks;
    hide BlocksOf;
    hide FieldsOf;
    hide SaidBy;
    hide IsResult;
    hide TidyNode;
    hide NodeItems;
    hide ItemsOf;
    hide Name;
    DocumentBlocks(doc);
    TidyIsLexical(doc);
    BlockIsTagPattern(StopEventResult);
    LexBlocks(Block(StopEventResult), ItemsOf(doc));
    var rs := Results(doc);
    var texts := Blocks(Block(StopEventResult), Render(ItemsOf(doc)));
    if rs != [] {
      RenderEach(AllItems(rs), 0);
    }
    forall i | 0 <= i < |rs|
      ensures |texts| == |rs| && FieldsOf(texts[i]) == SaidBy(rs[i])
    {
      RenderEach(AllItems(rs), i);
      var k :| 0 <= k < |doc| && doc[k] == rs[i];
      TidyEach(doc, k);
      ResultIsRead(rs[i]);
    }
  }

  /// ## What gaps may hold

  /** Other calls, with stops, departures and quays of their own, may stand in an event in front
      of, between and after the call and the service. */
  lemma {:induction false} OtherCallsAreAllowed(ns: seq<Node>)
    requires Tidy(ns) && Gapless(ns) && Tags(ns) <= {CallAtStop} + StopNames
    ensures Tidy([Gap(ItemsOf(ns))])
    ensures forall t :: t in ServiceSought + {ThisCall, StopEventResult} ==> Hushed(t, [Gap(ItemsOf(ns))])
    ensures forall t :: t in {Service, StopEvent, StopEventResult} ==> Unclosed(t, [Gap(ItemsOf(ns))])
  {
    hide Tidy;
    hide Gapless;
    hide Hushed;
    hide Unclosed;
    hide Tags;
    forall t: Tag
      ensures t in ServiceSought + {ThisCall, StopEventResult} ==> Hushed(t, [Gap(ItemsOf(ns))])
      ensures t in {Service, StopEvent, StopEventResult} ==> Unclosed(t, [Gap(ItemsOf(ns))])
    {
      GaplessIsQuiet(ns, t);
      OneGap(ItemsOf(ns), t);
      if t in ServiceSought + {ThisCall, StopEventResult} {
        NotInCalls(t);
        SilentOpens(ns, t);
      }
      if t in {Service, StopEvent, StopEventResult} {
        SilentCloses(ns, t);
      }
    }
    TidyIsLexical(ns);
    OneGap(ItemsOf(ns), Service);
  }

  lemma OneGap(items: seq<Item>, t: Tag)
    ensures Hushed(t, [Gap(items)]) <==> NoOpen(t, items)
    ensures Unclosed(t, [Gap(items)]) <==> NoClose(t, items)
    ensures Tidy([Gap(items)]) <==> AllLexical(items)
  {
    hide NoOpen;
    hide NoClose;
    hide AllLexical;
    assert [Gap(items)][1..] == [];
  }

  lemma NotInCalls(t: Tag)
    requires t in ServiceSought + {ThisCall, StopEventResult}
    ensures forall u :: u in {CallAtStop} + StopNames ==> !Starts(u, t)
  {}
}

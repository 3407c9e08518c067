/** What is looked up in a service and in a call, whatever stands in front of them. */
module OjpLookups {
  import opened Wrappers
  import opened Text
  import opened OjpXml
  import opened OjpItems
  import opened OjpTags
  import opened OjpTwins
  import opened OjpEvents
  import opened OjpNodes
  import opened OjpFinding
  import opened OjpDocuments
  import opened OjpReading

  /// ## Plain texts

  lemma {:induction false} ReadableByNames(t: Tag, ns: seq<Node>)
    requires Tidy(ns) && Hushed(t, ns)
    requires forall i :: 0 <= i < |ns| ==> (ns[i].Plain? && ns[i].tag == t) || forall u :: u in NodeTags(ns[i]) ==> !Starts(u, t)
    ensures Readable(Leaf(t), t, ns)
  {
    hide NodeItems;
    hide NodeTags;
    forall i | 0 <= i < |ns|
      ensures ReadableIn(Leaf(t), t, ns[i])
    {
      TidyEach(ns, i);
      HushedEach(t, ns, i);
      if ns[i].Plain? && ns[i].tag == t {
        assert Starts(t, t);
      } else {
        SilentNodeOpens(ns[i], t);
        NoOpenNoText(t, NodeItems(ns[i]));
      }
    }
  }

  lemma {:induction false} TextInScope(s: Scope, t: Tag)
    requires IsScope(s) && Clear(s, t) && Readable(Leaf(t), t, s.ns)
    ensures LeafText(Leaf(t), ScopeText(s)) == TextIn(s.ns, t)
  {
    hide LeafText;
    hide Render;
    BlockIsTagPattern(t);
    NoOpenNoText(t, s.pre);
    NoOpenNoText(t, s.post);
    FindText(Leaf(t), t, s.pre, s.ns, s.post);
  }

  /// ## The service block, whatever stands in front of it

  lemma {:induction false} ServiceReadable(n: Node, t: Tag)
    requires TidyNode(n) && IsService(n) && t in ServiceTexts
    ensures Readable(Leaf(t), t, n.kids)
  {
    hide TidyNode;
    hide NodeTags;
    forall i | 0 <= i < |n.kids|
      ensures (n.kids[i].Plain? && n.kids[i].tag == t) || forall u :: u in NodeTags(n.kids[i]) ==> !Starts(u, t)
    {
      assert ServiceKid(n.kids[i]);
      PlainTags(n.kids[i]);
      ServiceKidTags(n.kids[i]);
    }
    KidsAreTidy(n);
    ReadableByNames(t, n.kids);
  }

  /** Before a service: nothing that opens like one of the names looked up in it. */
  ghost predicate IsLeadIn(pre: seq<Item>) {
    AllLexical(pre) && forall t :: t in ServiceSought ==> NoOpen(t, pre)
  }

  lemma {:induction false} ServiceScope(pre: seq<Item>, n: Node, t: Tag)
    requires IsLeadIn(pre) && TidyNode(n) && IsService(n) && t in ServiceSought
    ensures IsScope(Within(pre, n)) && Clear(Within(pre, n), t)
  {
    hide NoOpen;
    hide Clear;
    hide Starts;
    hide TidyNode;
    hide Within;
    hide AllLexical;
    hide ServiceKid;
    NotService(t);
    WithinIsScope(pre, n);
    assert NoOpen(t, pre) && !Starts(n.tag, t);
  }

  lemma NotService(t: Tag)
    requires t in ServiceSought
    ensures !Starts(Service, t)
  {}

  lemma {:induction false} ServiceTitle(pre: seq<Item>, n: Node, t: Tag)
    requires IsLeadIn(pre) && TidyNode(n) && IsService(n) && t in {DestinationText, PublishedServiceName}
    ensures LangText(First(t, Render(pre + NodeItems(n)))) == Title(n.kids, t)
  {
    hide IsLeadIn;
    hide TidyNode;
    hide IsTitle;
    hide First;
    hide Clear;
    hide LangText;
    hide Render;
    hide Title;
    WithinText(pre, n);
    ServiceScope(pre, n, t);
    ServiceFindable(n, t);
    forall i | 0 <= i < |n.kids| && n.kids[i].Elem? && n.kids[i].tag == t
      ensures IsTitle(n.kids[i], t)
    {
      assert ServiceKid(n.kids[i]);
      TitlesOwnTag(n.kids[i], t);
    }
    TitleInScope(Within(pre, n), t);
  }

  lemma TitlesOwnTag(n: Node, t: Tag)
    requires ServiceKid(n) && n.Elem? && n.tag == t && t in {DestinationText, PublishedServiceName}
    ensures IsTitle(n, t)
  {}

  lemma {:induction false} ServiceCategory(pre: seq<Item>, n: Node)
    requires IsLeadIn(pre) && TidyNode(n) && IsService(n)
    ensures CategoryOf(Render(pre + NodeItems(n))) == Title(KidsOf(Child(n.kids, Mode)), ShortName)
  {
    hide IsLeadIn;
    hide TidyNode;
    hide First;
    hide Clear;
    hide LangText;
    hide Render;
    WithinText(pre, n);
    ServiceScope(pre, n, Mode);
    ServiceFindable(n, Mode);
    ChildInScope(Within(pre, n), Mode);
    KidsAreTidy(n);
    ChildIsTidy(n.kids, Mode);
    if m :| Child(n.kids, Mode) == Some(m) {
      var i :| 0 <= i < |n.kids| && n.kids[i] == m;
      assert ServiceKid(n.kids[i]);
      ModeTitle(m);
    } else {
      NoTitle(ShortName);
    }
  }

  lemma NoTitle(t: Tag)
    ensures Title([], t) == None
  {}

  lemma {:induction false} ModeTitle(m: Node)
    requires TidyNode(m) && IsMode(m)
    ensures LangText(First(ShortName, Render(NodeItems(m)))) == Title(m.kids, ShortName)
  {
    hide TidyNode;
    hide First;
    hide Clear;
    hide LangText;
    hide Render;
    hide IsTitle;
    hide Title;
    NothingBefore(m);
    ModeFindable(m);
    assert !Starts(Mode, ShortName);
    forall i | 0 <= i < |m.kids| && m.kids[i].Elem? && m.kids[i].tag == ShortName
      ensures IsTitle(m.kids[i], ShortName)
    {
      assert ModeKid(m.kids[i]);
    }
    TitleInScope(Within([], m), ShortName);
  }

  lemma {:induction false} ServiceText(pre: seq<Item>, n: Node, t: Tag)
    requires IsLeadIn(pre) && TidyNode(n) && IsService(n) && t in ServiceTexts
    ensures LeafText(Leaf(t), Render(pre + NodeItems(n))) == TextIn(n.kids, t)
  {
    hide IsLeadIn;
    hide TidyNode;
    hide Clear;
    hide LeafText;
    hide Render;
    WithinText(pre, n);
    ServiceScope(pre, n, t);
    ServiceReadable(n, t);
    TextInScope(Within(pre, n), t);
  }

  /// ## The call

  /** A text in which the departure and the quays of `s.ns` are looked up. */
  ghost predicate IsStopScope(s: Scope) {
    && IsScope(s)
    && (forall t :: t in StopSought ==> Clear(s, t))
    && AreStopKids(s.ns)
  }

  lemma StopTitle(s: Scope, t: Tag)
    requires IsStopScope(s) && t in {PlannedQuay, EstimatedQuay}
    ensures LangText(First(t, ScopeText(s))) == Title(s.ns, t)
  {
    hide First;
    hide Clear;
    hide LangText;
    hide Title;
    hide ScopeText;
    hide IsTitle;
    hide Tidy;
    StopFindable(s.ns, t);
    forall i | 0 <= i < |s.ns| && s.ns[i].Elem? && s.ns[i].tag == t
      ensures IsTitle(s.ns[i], t)
    {
      assert StopKid(s.ns[i]);
      QuaysOwnTag(s.ns[i], t);
    }
    TitleInScope(s, t);
  }

  lemma QuaysOwnTag(n: Node, t: Tag)
    requires StopKid(n) && n.Elem? && n.tag == t && t in {PlannedQuay, EstimatedQuay}
    ensures IsTitle(n, t)
  {}

  lemma {:induction false} TimesReadable(ns: seq<Node>, t: Tag)
    requires Tidy(ns) && HushesTimes(ns) && Child(ns, ServiceDeparture).None? && t in {TimetabledTime, EstimatedTime}
    requires forall i :: 0 <= i < |ns| ==> StopKid(ns[i])
    ensures Readable(Leaf(t), t, ns)
  {
    hide NodeTags;
    hide Tidy;
    forall i | 0 <= i < |ns|
      ensures (ns[i].Plain? && ns[i].tag == t) || forall u :: u in NodeTags(ns[i]) ==> !Starts(u, t)
    {
      assert StopKid(ns[i]);
      PlainTags(ns[i]);
      ElemTags(ns[i]);
      NoChild(ns, ServiceDeparture, i);
      StopKidTags(ns[i]);
    }
    ReadableByNames(t, ns);
  }

  lemma {:induction false} NoChild(ns: seq<Node>, t: Tag, i: nat)
    requires Child(ns, t).None? && i < |ns|
    ensures !(ns[i].Elem? && ns[i].tag == t)
  {
    if i > 0 {
      NoChild(ns[1..], t, i - 1);
    }
  }

  lemma {:induction false} DepartureTimes(n: Node, t: Tag)
    requires TidyNode(n) && IsDeparture(n) && t in {TimetabledTime, EstimatedTime}
    ensures LeafText(Leaf(t), Render(NodeItems(n))) == TextIn(n.kids, t)
  {
    hide TidyNode;
    hide Clear;
    hide LeafText;
    hide Render;
    NothingBefore(n);
    KidsAreTidy(n);
    assert forall i :: 0 <= i < |n.kids| ==> TimeKid(n.kids[i]) && StopKid(n.kids[i]);
    NoDeparture(n.kids);
    TimesReadable(n.kids, t);
    assert !Starts(ServiceDeparture, t);
    TextInScope(Within([], n), t);
  }

  lemma {:induction false} NoDeparture(ns: seq<Node>)
    requires forall i :: 0 <= i < |ns| ==> TimeKid(ns[i])
    ensures Child(ns, ServiceDeparture).None?
  {
    if ns != [] {
      assert TimeKid(ns[0]);
      NoDeparture(ns[1..]);
    }
  }

  lemma {:induction false} StopTime(s: Scope, t: Tag)
    requires IsStopScope(s) && t in {TimetabledTime, EstimatedTime}
    ensures LeafText(Leaf(t), OrElse(First(ServiceDeparture, ScopeText(s)), ScopeText(s))) == TextIn(TimesOf(s.ns), t)
  {
    hide LeafText;
    hide First;
    hide Render;
    hide Clear;
    hide ScopeText;
    StopFindable(s.ns, ServiceDeparture);
    ChildInScope(s, ServiceDeparture);
    ChildIsTidy(s.ns, ServiceDeparture);
    if d :| Child(s.ns, ServiceDeparture) == Some(d) {
      var i :| 0 <= i < |s.ns| && s.ns[i] == d;
      assert StopKid(s.ns[i]);
      DepartureTimes(d, t);
    } else {
      TimesReadable(s.ns, t);
      TextInScope(s, t);
    }
  }
}

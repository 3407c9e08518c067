/** The parser reads every document for what it says. */
module OjpReading {
  import opened Wrappers
  import opened Text
  import opened OjpXml
  import opened OjpItems
  import opened OjpTags
  import opened OjpTwins
  import opened OjpEvents
  import opened OjpNodes
  import opened OjpFinding
  import opened OjpDocuments

  /// ## Scopes

  /** A text searched for children: nodes, and what stands before and after them. */
  datatype Scope = Scope(pre: seq<Item>, ns: seq<Node>, post: seq<Item>)

  function ScopeText(s: Scope): string {
    Render(s.pre + (ItemsOf(s.ns) + s.post))
  }

  ghost predicate IsScope(s: Scope) {
    AllLexical(s.pre) && AllLexical(s.post) && Tidy(s.ns)
  }

  ghost predicate Clear(s: Scope, t: Tag) {
    NoOpen(t, s.pre) && NoOpen(t, s.post)
  }

  function Within(pre: seq<Item>, n: Node): Scope
    requires n.Elem?
  {
    Scope(pre + [Open(n.open)], n.kids, [Close(n.close)])
  }

  lemma {:induction false} WithinText(pre: seq<Item>, n: Node)
    requires n.Elem?
    ensures ScopeText(Within(pre, n)) == Render(pre + NodeItems(n))
  {
    var s := Within(pre, n);
    assert s.pre + (ItemsOf(s.ns) + s.post) == pre + NodeItems(n);
  }

  lemma {:induction false} WithinIsScope(pre: seq<Item>, n: Node)
    requires AllLexical(pre) && TidyNode(n) && n.Elem?
    ensures IsScope(Within(pre, n))
    ensures forall t :: NoOpen(t, pre) && !Starts(n.tag, t) ==> Clear(Within(pre, n), t)
  {
    hide NoOpen;
    hide AllLexical;
    hide IsOpen;
    hide IsClose;
    OneOpen(n.tag, n.open, n.tag);
    OneClose(n.tag, n.close, n.tag);
    LexicalSplit(pre, [Open(n.open)]);
    forall t | NoOpen(t, pre) && !Starts(n.tag, t)
      ensures Clear(Within(pre, n), t)
    {
      OneOpen(n.tag, n.open, t);
      OneClose(n.tag, n.close, t);
      OpensSplit(t, pre, [Open(n.open)]);
    }
  }

  lemma {:induction false} NothingBefore(n: Node)
    requires TidyNode(n) && n.Elem?
    ensures ScopeText(Within([], n)) == Render(NodeItems(n)) && IsScope(Within([], n))
    ensures forall t :: !Starts(n.tag, t) ==> Clear(Within([], n), t)
  {
    hide IsOpen;
    hide IsClose;
    hide Starts;
    WithinText([], n);
    assert [] + NodeItems(n) == NodeItems(n);
    WithinIsScope([], n);
  }

  lemma {:induction false} ChildInScope(s: Scope, t: Tag)
    requires IsScope(s) && Clear(s, t) && Findable(t, s.ns)
    ensures First(t, ScopeText(s)) == ChildText(Child(s.ns, t))
  {
    FindChild(t, s.pre, s.ns, s.post);
  }

  lemma {:induction false} ChildIsTidy(ns: seq<Node>, t: Tag)
    requires Tidy(ns)
    ensures Child(ns, t).Some? ==> TidyNode(Child(ns, t).value) && exists i :: 0 <= i < |ns| && ns[i] == Child(ns, t).value
  {
    if c :| Child(ns, t) == Some(c) {
      var i :| 0 <= i < |ns| && ns[i] == c;
      TidyEach(ns, i);
    }
  }

  /// ## Which names can be found where

  /** By names: `t` is a direct child that closes at its end only, or nothing named starts
      like it. */
  ghost predicate IsFindable(t: Tag, n: Node) {
    if n.Elem? && n.tag == t then t !in Tags(n.kids) && Unclosed(t, n.kids) else forall u :: u in NodeTags(n) ==> !Starts(u, t)
  }

  lemma {:induction false} FindableByNames(t: Tag, ns: seq<Node>)
    requires Tidy(ns) && Hushed(t, ns) && forall i :: 0 <= i < |ns| ==> IsFindable(t, ns[i])
    ensures Findable(t, ns)
  {
    hide NodeItems;
    forall i | 0 <= i < |ns|
      ensures FindableIn(t, ns[i])
    {
      TidyEach(ns, i);
      HushedEach(t, ns, i);
      assert IsFindable(t, ns[i]);
      if ns[i].Elem? && ns[i].tag == t {
        SilentCloses(ns[i].kids, t);
      } else {
        SilentNodeOpens(ns[i], t);
      }
    }
  }

  lemma {:induction false} ServiceFindable(n: Node, t: Tag)
    requires TidyNode(n) && IsService(n) && t in {DestinationText, PublishedServiceName, Mode}
    ensures Findable(t, n.kids)
  {
    hide TidyNode;
    hide NodeTags;
    forall i | 0 <= i < |n.kids|
      ensures IsFindable(t, n.kids[i])
    {
      ServiceKidTags(n.kids[i]);
      PlainTags(n.kids[i]);
    }
    assert Tidy(n.kids) by { KidsAreTidy(n); }
    FindableByNames(t, n.kids);
  }

  lemma {:induction false} KidsAreTidy(n: Node)
    requires TidyNode(n) && n.Elem?
    ensures Tidy(n.kids)
  {}

  lemma PlainTags(n: Node)
    ensures n.Gap? ==> NodeTags(n) == {}
    ensures n.Plain? ==> NodeTags(n) == {n.tag}
  {}

  lemma StopKidFindable(n: Node, t: Tag)
    requires StopKid(n) && t in {CallAtStop, ServiceDeparture, PlannedQuay, EstimatedQuay}
    ensures IsFindable(t, n)
  {
    hide NodeTags;
    StopKidTags(n);
    PlainTags(n);
    ElemTags(n);
  }

  lemma ElemTags(n: Node)
    ensures n.Elem? ==> NodeTags(n) == {n.tag} + Tags(n.kids)
  {}

  lemma {:induction false} StopFindable(ns: seq<Node>, t: Tag)
    requires Tidy(ns) && AreStopKids(ns) && t in {ServiceDeparture, PlannedQuay, EstimatedQuay}
    ensures Findable(t, ns)
  {
    hide TidyNode;
    hide StopKid;
    forall i | 0 <= i < |ns|
      ensures IsFindable(t, ns[i])
    {
      StopKidFindable(ns[i], t);
    }
    FindableByNames(t, ns);
  }

  lemma {:induction false} CallFindable(n: Node)
    requires TidyNode(n) && IsCall(n)
    ensures Findable(CallAtStop, n.kids)
  {
    hide TidyNode;
    hide StopKid;
    forall i | 0 <= i < |n.kids|
      ensures IsFindable(CallAtStop, n.kids[i])
    {
      if StopKid(n.kids[i]) {
        StopKidFindable(n.kids[i], CallAtStop);
      } else {
        CallKidTags(n.kids[i]);
      }
    }
    KidsAreTidy(n);
    FindableByNames(CallAtStop, n.kids);
  }

  lemma {:induction false} EventFindable(n: Node)
    requires TidyNode(n) && IsEvent(n)
    ensures Findable(ThisCall, n.kids)
  {
    hide TidyNode;
    hide IsCall;
    hide IsService;
    forall i | 0 <= i < |n.kids|
      ensures IsFindable(ThisCall, n.kids[i])
    {
      EventKidFindable(n.kids[i]);
    }
    KidsAreTidy(n);
    FindableByNames(ThisCall, n.kids);
  }

  lemma EventKidFindable(n: Node)
    requires n.Gap? || IsService(n) || IsCall(n)
    ensures IsFindable(ThisCall, n)
  {
    hide NodeTags;
    PlainTags(n);
    ElemTags(n);
    if IsService(n) {
      ServiceTags(n);
    } else if IsCall(n) {
      CallTags(n);
    }
  }

  /// ## Titles

  lemma {:induction false} ModeFindable(n: Node)
    requires TidyNode(n) && IsMode(n)
    ensures Findable(ShortName, n.kids)
  {
    hide NoOpen;
    hide NoClose;
    hide TitleKid;
    forall i | 0 <= i < |n.kids|
      ensures FindableIn(ShortName, n.kids[i])
    {
      TidyEach(n.kids, i);
      assert ModeKid(n.kids[i]);
      if n.kids[i].Elem? {
        TitleTags(n.kids[i], ShortName);
        SilentCloses(n.kids[i].kids, ShortName);
      }
    }
  }

  lemma {:induction false} TitleReadable(n: Node, t: Tag)
    requires TidyNode(n) && IsTitle(n, t)
    ensures Readable(LANG, Caption, n.kids)
  {
    forall i | 0 <= i < |n.kids|
      ensures ReadableIn(LANG, Caption, n.kids[i])
    {
      assert TitleKid(n.kids[i]);
    }
  }

  /** `xml_lang_text` of a title's block is its text. */
  lemma {:induction false} TitleText(n: Node, t: Tag)
    requires TidyNode(n) && IsTitle(n, t) && t != Caption
    ensures LangText(Some(Render(NodeItems(n)))) == TextIn(n.kids, Caption)
  {
    hide LeafText;
    hide Render;
    hide Starts;
    hide TitleKid;
    NothingBefore(n);
    TitleReadable(n, t);
    BlockIsTagPattern(Caption);
    CaptionOnly(t);
    var s := Within([], n);
    NoOpenNoText(Caption, s.pre);
    NoOpenNoText(Caption, s.post);
    FindText(LANG, Caption, s.pre, n.kids, s.post);
  }

  /** The text of the first titled child, found through its block. */
  lemma TitleInScope(s: Scope, t: Tag)
    requires IsScope(s) && Clear(s, t) && Findable(t, s.ns) && t != Caption
    requires forall i :: 0 <= i < |s.ns| && s.ns[i].Elem? && s.ns[i].tag == t ==> IsTitle(s.ns[i], t)
    ensures LangText(First(t, ScopeText(s))) == Title(s.ns, t)
  {
    hide LeafText;
    hide First;
    hide Render;
    hide IsTitle;
    ChildInScope(s, t);
    ChildIsTidy(s.ns, t);
    if Child(s.ns, t).Some? {
      TitleText(Child(s.ns, t).value, t);
    } else {
      assert TextIn([], Caption) == None;
    }
  }
}

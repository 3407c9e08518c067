/** XML as nested nodes with arbitrary other markup in between, and what the searches find
    among the children of a node. */
module OjpNodes {
  import opened Wrappers
  import opened Text
  import opened OjpXml
  import opened OjpItems
  import opened OjpTags
  import opened OjpEvents

  /** A gap is any run of other items; a plain element holds text without tags. `open` and
      `close` are what stands between the angle brackets. */
  datatype Node =
    | Gap(items: seq<Item>)
    | Plain(tag: Tag, open: string, text: string, close: string)
    | Elem(tag: Tag, open: string, kids: seq<Node>, close: string)

  function ItemsOf(ns: seq<Node>): seq<Item> {
    if ns == [] then [] else NodeItems(ns[0]) + ItemsOf(ns[1..])
  }

  function NodeItems(n: Node): seq<Item> {
    match n
    case Gap(items) => items
    case Plain(_, open, text, close) => [Open(open), Words(text), Close(close)]
    case Elem(_, open, kids, close) => [Open(open)] + ItemsOf(kids) + [Close(close)]
  }

  function Tags(ns: seq<Node>): set<Tag> {
    if ns == [] then {} else NodeTags(ns[0]) + Tags(ns[1..])
  }

  function NodeTags(n: Node): set<Tag> {
    match n
    case Gap(_) => {}
    case Plain(t, _, _, _) => {t}
    case Elem(t, _, kids, _) => {t} + Tags(kids)
  }

  /// ## Tidy nodes

  ghost predicate NoOpen(t: Tag, items: seq<Item>) {
    NothingOpens(Block(t), items)
  }

  ghost predicate NoClose(t: Tag, items: seq<Item>) {
    NothingCloses(Block(t), items)
  }

  ghost predicate Tidy(ns: seq<Node>) {
    ns == [] || (TidyNode(ns[0]) && Tidy(ns[1..]))
  }

  ghost predicate TidyNode(n: Node) {
    match n
    case Gap(items) => AllLexical(items)
    case Plain(t, open, text, close) => IsOpen(t, open) && IsClose(t, close) && '<' !in text
    case Elem(t, open, kids, close) => IsOpen(t, open) && IsClose(t, close) && Tidy(kids)
  }

  /** No gap, at whatever depth, opens like `t`. */
  ghost predicate Hushed(t: Tag, ns: seq<Node>)
    decreases ns
  {
    ns == [] || (HushedNode(t, ns[0]) && Hushed(t, ns[1..]))
  }

  ghost predicate HushedNode(t: Tag, n: Node)
    decreases n
  {
    match n
    case Gap(items) => NoOpen(t, items)
    case Plain(_, _, _, _) => true
    case Elem(_, _, kids, _) => Hushed(t, kids)
  }

  /** No gap, at whatever depth, closes `t`. */
  ghost predicate Unclosed(t: Tag, ns: seq<Node>)
    decreases ns
  {
    ns == [] || (UnclosedNode(t, ns[0]) && Unclosed(t, ns[1..]))
  }

  ghost predicate UnclosedNode(t: Tag, n: Node)
    decreases n
  {
    match n
    case Gap(items) => NoClose(t, items)
    case Plain(_, _, _, _) => true
    case Elem(_, _, kids, _) => Unclosed(t, kids)
  }

  lemma {:induction false} TidyEach(ns: seq<Node>, i: nat)
    requires Tidy(ns) && i < |ns|
    ensures TidyNode(ns[i])
  {
    if i > 0 {
      TidyEach(ns[1..], i - 1);
    }
  }

  lemma {:induction false} HushedEach(t: Tag, ns: seq<Node>, i: nat)
    requires Hushed(t, ns) && i < |ns|
    ensures HushedNode(t, ns[i])
  {
    if i > 0 {
      HushedEach(t, ns[1..], i - 1);
    }
  }

  lemma {:induction false} UnclosedEach(t: Tag, ns: seq<Node>, i: nat)
    requires Unclosed(t, ns) && i < |ns|
    ensures UnclosedNode(t, ns[i])
  {
    if i > 0 {
      UnclosedEach(t, ns[1..], i - 1);
    }
  }

  /// ## Concatenation

  lemma {:induction false} ItemsConcat(a: seq<Node>, b: seq<Node>)
    ensures ItemsOf(a + b) == ItemsOf(a) + ItemsOf(b)
  {
    hide NodeItems;
    if a == [] {
      assert a + b == b;
    } else {
      ItemsConcat(a[1..], b);
      assert (a + b)[1..] == a[1..] + b;
    }
  }

  lemma {:induction false} TidyConcat(a: seq<Node>, b: seq<Node>)
    ensures Tidy(a + b) <==> Tidy(a) && Tidy(b)
  {
    hide TidyNode;
    if a == [] {
      assert a + b == b;
    } else {
      TidyConcat(a[1..], b);
      assert (a + b)[1..] == a[1..] + b;
    }
  }

  lemma {:induction false} QuietConcat(t: Tag, a: seq<Node>, b: seq<Node>)
    ensures Hushed(t, a + b) <==> Hushed(t, a) && Hushed(t, b)
    ensures Unclosed(t, a + b) <==> Unclosed(t, a) && Unclosed(t, b)
  {
    hide HushedNode;
    hide UnclosedNode;
    if a == [] {
      assert a + b == b;
    } else {
      QuietConcat(t, a[1..], b);
      assert (a + b)[1..] == a[1..] + b;
    }
  }

  lemma {:induction false} TagsWithin(ns: seq<Node>, within: set<Tag>)
    requires forall i :: 0 <= i < |ns| ==> NodeTags(ns[i]) <= within
    ensures Tags(ns) <= within
  {
    hide NodeTags;
    if ns != [] {
      TagsWithin(ns[1..], within);
    }
  }

  /// ## Nodes without gaps

  ghost predicate Gapless(ns: seq<Node>)
    decreases ns
  {
    ns == [] || (GaplessNode(ns[0]) && Gapless(ns[1..]))
  }

  ghost predicate GaplessNode(n: Node)
    decreases n
  {
    !n.Gap? && (n.Elem? ==> Gapless(n.kids))
  }

  lemma {:induction false} GaplessIsQuiet(ns: seq<Node>, t: Tag)
    requires Gapless(ns)
    ensures Hushed(t, ns) && Unclosed(t, ns)
    decreases ns
  {
    if ns != [] {
      if ns[0].Elem? {
        GaplessIsQuiet(ns[0].kids, t);
      }
      GaplessIsQuiet(ns[1..], t);
    }
  }

  lemma {:induction false} GaplessConcat(a: seq<Node>, b: seq<Node>)
    ensures Gapless(a + b) <==> Gapless(a) && Gapless(b)
  {
    hide GaplessNode;
    if a == [] {
      assert a + b == b;
    } else {
      GaplessConcat(a[1..], b);
      assert (a + b)[1..] == a[1..] + b;
    }
  }

  /// ## Silence

  lemma OpensSplit(t: Tag, a: seq<Item>, b: seq<Item>)
    ensures NoOpen(t, a + b) <==> NoOpen(t, a) && NoOpen(t, b)
  {
    hide Opens;
    assert forall i :: 0 <= i < |a| ==> (a + b)[i] == a[i];
    assert forall i :: 0 <= i < |b| ==> (a + b)[|a| + i] == b[i];
  }

  lemma ClosesSplit(t: Tag, a: seq<Item>, b: seq<Item>)
    ensures NoClose(t, a + b) <==> NoClose(t, a) && NoClose(t, b)
  {
    hide Closes;
    assert forall i :: 0 <= i < |a| ==> (a + b)[i] == a[i];
    assert forall i :: 0 <= i < |b| ==> (a + b)[|a| + i] == b[i];
  }

  lemma LexicalSplit(a: seq<Item>, b: seq<Item>)
    ensures AllLexical(a + b) <==> AllLexical(a) && AllLexical(b)
  {
    hide Lexical;
    assert forall i :: 0 <= i < |a| ==> (a + b)[i] == a[i];
    assert forall i :: 0 <= i < |b| ==> (a + b)[|a| + i] == b[i];
  }

  lemma OneOpen(t: Tag, head: string, sought: Tag)
    requires IsOpen(t, head)
    ensures NoOpen(sought, [Open(head)]) <==> !Starts(t, sought)
    ensures NoClose(sought, [Open(head)]) && AllLexical([Open(head)])
  {
    hide OpensAs;
    assert Opens(Block(sought), [Open(head)][0]) <==> Starts(t, sought);
  }

  lemma OneClose(t: Tag, head: string, sought: Tag)
    requires IsClose(t, head)
    ensures NoClose(sought, [Close(head)]) <==> t != sought
    ensures NoOpen(sought, [Close(head)]) && AllLexical([Close(head)])
  {
    hide ClosesAs;
    assert Closes(Block(sought), [Close(head)][0]) <==> t == sought;
  }

  lemma OneWords(text: string, sought: Tag)
    requires '<' !in text
    ensures NoOpen(sought, [Words(text)]) && NoClose(sought, [Words(text)]) && AllLexical([Words(text)])
  {}

  /** No node opens what its names do not start with. */
  lemma {:induction false} SilentOpens(ns: seq<Node>, t: Tag)
    requires Tidy(ns) && Hushed(t, ns) && forall u :: u in Tags(ns) ==> !Starts(u, t)
    ensures NoOpen(t, ItemsOf(ns))
    decreases ns
  {
    hide NoOpen;
    hide NodeItems;
    hide NodeTags;
    hide TidyNode;
    hide HushedNode;
    if ns == [] {
      NothingInNothing(t);
    } else {
      SilentOpens(ns[1..], t);
      SilentNodeOpens(ns[0], t);
      OpensSplit(t, NodeItems(ns[0]), ItemsOf(ns[1..]));
    }
  }

  lemma {:induction false} SilentNodeOpens(n: Node, t: Tag)
    requires TidyNode(n) && HushedNode(t, n) && forall u :: u in NodeTags(n) ==> !Starts(u, t)
    ensures NoOpen(t, NodeItems(n))
    decreases n
  {
    hide NoOpen;
    hide IsOpen;
    hide IsClose;
    match n
    case Gap(_) =>
    case Plain(u, open, text, close) =>
      assert u in NodeTags(n);
      OneOpen(u, open, t);
      OneClose(u, close, t);
      OneWords(text, t);
      PlainParts(n);
      OpensSplit(t, [Words(text)], [Close(close)]);
      OpensSplit(t, [Open(open)], [Words(text)] + [Close(close)]);
    case Elem(u, open, kids, close) =>
      assert u in NodeTags(n);
      OneOpen(u, open, t);
      OneClose(u, close, t);
      SilentOpens(kids, t);
      OpensSplit(t, [Open(open)], ItemsOf(kids));
      OpensSplit(t, [Open(open)] + ItemsOf(kids), [Close(close)]);
  }

  lemma {:induction false} PlainParts(n: Node)
    requires n.Plain?
    ensures NodeItems(n) == [Open(n.open)] + ([Words(n.text)] + [Close(n.close)])
  {}

  lemma NothingInNothing(t: Tag)
    ensures NoOpen(t, []) && NoClose(t, [])
  {}

  lemma {:induction false} SilentCloses(ns: seq<Node>, t: Tag)
    requires Tidy(ns) && Unclosed(t, ns) && t !in Tags(ns)
    ensures NoClose(t, ItemsOf(ns))
    decreases ns
  {
    hide NoClose;
    hide NodeItems;
    hide NodeTags;
    hide TidyNode;
    hide UnclosedNode;
    if ns == [] {
      NothingInNothing(t);
    } else {
      SilentCloses(ns[1..], t);
      SilentNodeCloses(ns[0], t);
      ClosesSplit(t, NodeItems(ns[0]), ItemsOf(ns[1..]));
    }
  }

  lemma {:induction false} SilentNodeCloses(n: Node, t: Tag)
    requires TidyNode(n) && UnclosedNode(t, n) && t !in NodeTags(n)
    ensures NoClose(t, NodeItems(n))
    decreases n
  {
    hide NoClose;
    hide IsOpen;
    hide IsClose;
    match n
    case Gap(_) =>
    case Plain(u, open, text, close) =>
      OneOpen(u, open, t);
      OneClose(u, close, t);
      OneWords(text, t);
      PlainParts(n);
      ClosesSplit(t, [Words(text)], [Close(close)]);
      ClosesSplit(t, [Open(open)], [Words(text)] + [Close(close)]);
    case Elem(u, open, kids, close) =>
      OneOpen(u, open, t);
      OneClose(u, close, t);
      SilentCloses(kids, t);
      ClosesSplit(t, [Open(open)], ItemsOf(kids));
      ClosesSplit(t, [Open(open)] + ItemsOf(kids), [Close(close)]);
  }

  lemma {:induction false} TidyIsLexical(ns: seq<Node>)
    requires Tidy(ns)
    ensures AllLexical(ItemsOf(ns))
    decreases ns
  {
    hide Lexical;
    hide NodeItems;
    hide TidyNode;
    if ns != [] {
      TidyIsLexical(ns[1..]);
      TidyNodeIsLexical(ns[0]);
      LexicalSplit(NodeItems(ns[0]), ItemsOf(ns[1..]));
    }
  }

  lemma {:induction false} TidyNodeIsLexical(n: Node)
    requires TidyNode(n)
    ensures AllLexical(NodeItems(n))
    decreases n
  {
    hide IsOpen;
    hide IsClose;
    hide AllLexical;
    match n
    case Gap(_) =>
    case Plain(u, open, text, close) =>
      OneOpen(u, open, u);
      OneClose(u, close, u);
      OneWords(text, u);
      PlainParts(n);
      LexicalSplit([Words(text)], [Close(close)]);
      LexicalSplit([Open(open)], [Words(text)] + [Close(close)]);
    case Elem(u, open, kids, close) =>
      OneOpen(u, open, u);
      OneClose(u, close, u);
      TidyIsLexical(kids);
      LexicalSplit([Open(open)], ItemsOf(kids));
      LexicalSplit([Open(open)] + ItemsOf(kids), [Close(close)]);
  }
}

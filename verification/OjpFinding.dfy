/** What the searches find among the children of a node: the child of that name, provided
    nothing else in sight opens like it. */
module OjpFinding {
  import opened Wrappers
  import opened Text
  import opened OjpXml
  import opened OjpItems
  import opened OjpTags
  import opened OjpEvents
  import opened OjpNodes

  /** The first child element of that name. */
  function Child(ns: seq<Node>, t: Tag): (c: Option<Node>)
    ensures c.Some? ==> c.value.Elem? && c.value.tag == t && c.value in ns
  {
    if ns == [] then None
    else if ns[0].Elem? && ns[0].tag == t then Some(ns[0])
    else Child(ns[1..], t)
  }

  /** The nodes before the first child of that name. */
  function Front(ns: seq<Node>, t: Tag): (front: seq<Node>)
    ensures |front| <= |ns| && front == ns[..|front|]
    ensures forall i :: 0 <= i < |front| ==> !(front[i].Elem? && front[i].tag == t)
    ensures match Child(ns, t) case Some(c) => |front| < |ns| && ns[|front|] == c case None => front == ns
  {
    if ns == [] || (ns[0].Elem? && ns[0].tag == t) then []
    else
      var rest := Front(ns[1..], t);
      assert ns == [ns[0]] + ns[1..];
      [ns[0]] + rest
  }

  /** The trimmed text of the first plain child of that name. */
  function TextIn(ns: seq<Node>, t: Tag): Option<string> {
    if ns == [] then None
    else if ns[0].Plain? && ns[0].tag == t then Some(Trim(ns[0].text))
    else TextIn(ns[1..], t)
  }

  function ChildText(c: Option<Node>): Option<string> {
    match c case Some(n) => Some(Render(NodeItems(n))) case None => None
  }

  /** `t` opens a direct child, whose name does not close inside it, or nothing at all. */
  ghost predicate Findable(t: Tag, ns: seq<Node>) {
    forall i :: 0 <= i < |ns| ==> FindableIn(t, ns[i])
  }

  ghost predicate FindableIn(t: Tag, n: Node) {
    if n.Elem? && n.tag == t then NoClose(t, ItemsOf(n.kids)) else NoOpen(t, NodeItems(n))
  }

  lemma {:induction false} ChildIsFirst(t: Tag, ns: seq<Node>, post: seq<Item>)
    requires Tidy(ns) && Findable(t, ns) && NoOpen(t, post)
    ensures var blocks := BlocksOf(Block(t), ItemsOf(ns) + post);
            match Child(ns, t)
            case Some(c) => blocks != [] && blocks[0] == NodeItems(c)
            case None => blocks == []
  {
    hide NodeItems;
    hide TidyNode;
    hide Block;
    if ns == [] {
      assert ItemsOf(ns) + post == post;
      NoBlocks(Block(t), post);
    } else {
      var rest := ItemsOf(ns[1..]) + post;
      assert ItemsOf(ns) + post == NodeItems(ns[0]) + rest;
      assert FindableIn(t, ns[0]);
      if ns[0].Elem? && ns[0].tag == t {
        ElementIsTaken(t, ns[0], rest);
      } else {
        ChildIsFirst(t, ns[1..], post);
        BlocksSkip(Block(t), NodeItems(ns[0]), rest);
      }
    }
  }

  lemma {:induction false} ElementIsTaken(t: Tag, n: Node, rest: seq<Item>)
    requires n.Elem? && n.tag == t && TidyNode(n) && NoClose(t, ItemsOf(n.kids))
    ensures BlocksOf(Block(t), NodeItems(n) + rest) != []
    ensures BlocksOf(Block(t), NodeItems(n) + rest)[0] == NodeItems(n)
  {
    hide BlocksOf;
    assert OpensAs(Block(t), n.open) && ClosesAs(Block(t), n.close);
    BlocksTake(Block(t), Open(n.open), ItemsOf(n.kids), Close(n.close), rest);
  }

  lemma BlockIsTagPattern(t: Tag)
    ensures IsTagPattern(Block(t)) && IsTagPattern(Leaf(t)) && IsTagPattern(LANG)
  {
    hide Name;
    NamesAreLetters(t);
    NamesAreLetters(Caption);
    CaptionIsText();
  }

  lemma {:induction false} FirstOfItems(t: Tag, items: seq<Item>)
    requires AllLexical(items)
    ensures First(t, Render(items)) ==
            if BlocksOf(Block(t), items) == [] then None else Some(Render(BlocksOf(Block(t), items)[0]))
  {
    hide Name;
    hide Render;
    hide Blocks;
    hide BlocksOf;
    hide AllLexical;
    BlockIsTagPattern(t);
    LexBlocks(Block(t), items);
  }

  /** `xml_blocks` finds the child. */
  lemma {:induction false} FindChild(t: Tag, pre: seq<Item>, ns: seq<Node>, post: seq<Item>)
    requires AllLexical(pre) && NoOpen(t, pre) && AllLexical(post) && NoOpen(t, post)
    requires Tidy(ns) && Findable(t, ns)
    ensures First(t, Render(pre + (ItemsOf(ns) + post))) == ChildText(Child(ns, t))
  {
    hide Render;
    hide First;
    hide BlocksOf;
    hide Tidy;
    hide Findable;
    hide AllLexical;
    var items := pre + (ItemsOf(ns) + post);
    TidyIsLexical(ns);
    LexicalSplit(ItemsOf(ns), post);
    LexicalSplit(pre, ItemsOf(ns) + post);
    FirstOfItems(t, items);
    BlocksSkip(Block(t), pre, ItemsOf(ns) + post);
    ChildIsFirst(t, ns, post);
  }

  /// ## Texts

  /** `p` opens plain children named `t` and nothing else. */
  ghost predicate Readable(p: Pattern, t: Tag, ns: seq<Node>) {
    forall i :: 0 <= i < |ns| ==> ReadableIn(p, t, ns[i])
  }

  ghost predicate ReadableIn(p: Pattern, t: Tag, n: Node) {
    if n.Plain? && n.tag == t then OpensAs(p, n.open) && ClosesAs(p, n.close) else NothingOpens(p, NodeItems(n))
  }

  lemma {:induction false} TextIsFirst(p: Pattern, t: Tag, ns: seq<Node>, post: seq<Item>)
    requires IsTagPattern(p) && Tidy(ns) && Readable(p, t, ns) && AllLexical(post) && NothingOpens(p, post)
    ensures LeafText(p, Render(ItemsOf(ns) + post)) == TextIn(ns, t)
  {
    hide NodeItems;
    hide TidyNode;
    hide LeafText;
    hide Trim;
    hide IsTagPattern;
    hide ReadableIn;
    hide NothingOpens;
    if ns == [] {
      assert ItemsOf(ns) + post == post;
      NoText(p, post);
    } else {
      var rest := ItemsOf(ns[1..]) + post;
      assert ItemsOf(ns) + post == NodeItems(ns[0]) + rest;
      TextIsFirst(p, t, ns[1..], post);
      assert ReadableIn(p, t, ns[0]);
      TidyNodeIsLexical(ns[0]);
      if ns[0].Plain? && ns[0].tag == t {
        PlainIsTaken(p, t, ns[0], rest);
      } else {
        assert NothingOpens(p, NodeItems(ns[0])) by { NotReadable(p, t, ns[0]); }
        LeafSkips(p, NodeItems(ns[0]), rest);
      }
    }
  }

  lemma {:induction false} NotReadable(p: Pattern, t: Tag, n: Node)
    requires ReadableIn(p, t, n) && !(n.Plain? && n.tag == t)
    ensures NothingOpens(p, NodeItems(n))
  {}

  lemma {:induction false} PlainIsTaken(p: Pattern, t: Tag, n: Node, rest: seq<Item>)
    requires IsTagPattern(p) && n.Plain? && n.tag == t && TidyNode(n) && ReadableIn(p, t, n)
    ensures LeafText(p, Render(NodeItems(n) + rest)) == Some(Trim(n.text))
  {
    hide LeafText;
    hide Trim;
    hide IsTagPattern;
    LeafTakes(p, n.open, n.text, n.close, rest);
  }

  lemma {:induction false} NoText(p: Pattern, items: seq<Item>)
    requires IsTagPattern(p) && AllLexical(items) && NothingOpens(p, items)
    ensures LeafText(p, Render(items)) == None
  {
    LeafSkips(p, items, []);
    assert items + [] == items;
  }

  lemma {:induction false} FindText(p: Pattern, t: Tag, pre: seq<Item>, ns: seq<Node>, post: seq<Item>)
    requires AllLexical(pre) && NothingOpens(p, pre) && AllLexical(post) && NothingOpens(p, post)
    requires IsTagPattern(p) && Tidy(ns) && Readable(p, t, ns)
    ensures LeafText(p, Render(pre + (ItemsOf(ns) + post))) == TextIn(ns, t)
  {
    hide LeafText;
    hide Render;
    LeafSkips(p, pre, ItemsOf(ns) + post);
    TextIsFirst(p, t, ns, post);
  }

  /** What opens no block of that name opens no text of that name. */
  lemma NoOpenNoText(t: Tag, items: seq<Item>)
    requires NoOpen(t, items)
    ensures NothingOpens(Leaf(t), items)
    ensures t == Caption ==> NothingOpens(LANG, items)
  {
    hide OpensAs;
    forall i | 0 <= i < |items|
      ensures !Opens(Leaf(t), items[i]) && (t == Caption ==> !Opens(LANG, items[i]))
    {
      if items[i].Open? {
        BlockIsWidest(t, items[i].head);
        assert !Opens(Block(t), items[i]);
      }
    }
  }
}

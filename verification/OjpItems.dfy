/** XML text as a sequence of tags and words, and the pattern searches seen at that level. */
module OjpItems {
  import opened Wrappers
  import opened Text
  import opened OjpXml

  datatype Item = Open(head: string) | Close(head: string) | Words(text: string)

  function Show(item: Item): string {
    match item
    case Open(head) => "<" + (head + ">")
    case Close(head) => "</" + (head + ">")
    case Words(text) => text
  }

  function Render(items: seq<Item>): string {
    if items == [] then "" else Show(items[0]) + Render(items[1..])
  }

  /** Anything but angle brackets; what opens does not start with a slash. */
  predicate Lexical(item: Item) {
    match item
    case Open(head) => '<' !in head && '>' !in head && (head != "" ==> head[0] != '/')
    case Close(head) => '<' !in head && '>' !in head
    case Words(text) => '<' !in text
  }

  predicate AllLexical(items: seq<Item>) {
    forall i :: 0 <= i < |items| ==> Lexical(items[i])
  }

  predicate IsTagPattern(p: Pattern) {
    p.tag != "" && forall i :: 0 <= i < |p.tag| ==> IsAlpha(p.tag[i])
  }

  predicate Opens(p: Pattern, item: Item) {
    item.Open? && OpensAs(p, item.head)
  }

  predicate Closes(p: Pattern, item: Item) {
    item.Close? && ClosesAs(p, item.head)
  }

  /// ## Searches over items

  /** How many items a search for the closing tag takes, including it. */
  function CloseAfter(p: Pattern, items: seq<Item>): (n: Option<nat>)
    ensures n.Some? ==> 0 < n.value <= |items|
  {
    if items == [] then None
    else if Closes(p, items[0]) then Some(1)
    else
      match CloseAfter(p, items[1..])
      case Some(n) => Some(n + 1)
      case None => None
  }

  function BlocksOf(p: Pattern, items: seq<Item>): seq<seq<Item>> {
    if items == [] then []
    else if !Opens(p, items[0]) then BlocksOf(p, items[1..])
    else FirstOf(p, items) + BlocksOf(p, items[1..])
  }

  /** The block of the opening tag in front. */
  function FirstOf(p: Pattern, items: seq<Item>): seq<seq<Item>>
    requires items != []
  {
    match CloseAfter(p, items[1..])
    case Some(n) => [items[..n + 1]]
    case None => []
  }

  function RenderAll(blocks: seq<seq<Item>>): seq<string> {
    if blocks == [] then [] else [Render(blocks[0])] + RenderAll(blocks[1..])
  }

  /// ## They are the searches over the text

  lemma {:induction false} RenderConcat(a: seq<Item>, b: seq<Item>)
    ensures Render(a + b) == Render(a) + Render(b)
  {
    hide Show;
    if a == [] {
      assert a + b == b;
    } else {
      RenderConcat(a[1..], b);
      assert (a + b)[1..] == a[1..] + b && (a + b)[0] == a[0];
      assert Render(a + b) == Show(a[0]) + (Render(a[1..]) + Render(b));
    }
  }

  /** What an item's text means to the searches: a tag, or nothing. */
  lemma TagOpens(p: Pattern, item: Item, rest: string)
    requires IsTagPattern(p) && Lexical(item) && !item.Words?
    ensures OpenLength(p, Show(item) + rest) == if Opens(p, item) then |Show(item)| else 0
  {
    hide OpensAs;
    hide Index;
    TagEnds(item, rest);
    if item.Close? {
      SlashOpensNothing(p, item.head);
    }
  }

  lemma TagCloses(p: Pattern, item: Item, rest: string)
    requires Lexical(item) && !item.Words?
    ensures CloseLength(p, Show(item) + rest) == if Closes(p, item) then |Show(item)| else 0
  {
    hide ClosesAs;
    hide Index;
    TagEnds(item, rest);
  }

  lemma TagEnds(item: Item, rest: string)
    requires Lexical(item) && !item.Words?
    ensures var s := Show(item) + rest;
            var end := Index(s, '>');
            && end + 1 == |Show(item)| <= |s| && s[0] == '<'
            && s[1..end] == (if item.Open? then item.head else "/" + item.head)
            && (item.Open? && end >= 2 ==> s[..2] != "</")
            && (item.Close? ==> end >= 2 && s[..2] == "</" && s[2..end] == item.head)
  {
    match item
    case Open(head) => BracketEnds("<", head, rest);
    case Close(head) => BracketEnds("</", head, rest);
  }

  lemma BracketEnds(front: string, head: string, rest: string)
    requires '>' !in head && (front == "<" || front == "</")
    ensures var s := front + (head + ">") + rest;
            Index(s, '>') == |front| + |head| && s[..|front|] == front && s[|front|..|front| + |head|] == head
    ensures front == "</" ==> (front + (head + ">") + rest)[1..|front| + |head|] == "/" + head
    ensures front == "<" && head != "" ==> (front + (head + ">") + rest)[1] == head[0]
  {
    var s := front + (head + ">") + rest;
    IndexAfter(front + head, '>', rest);
    assert s == front + head + (['>'] + rest);
  }

  lemma SlashOpensNothing(p: Pattern, head: string)
    requires IsTagPattern(p)
    ensures !OpensAs(p, "/" + head)
  {
    var h := "/" + head;
    assert h[0] == '/' && !IsAlpha(h[0]) && !IsLower(h[0]);
    assert PrefixLength(p, h) == 0;
    assert |p.tag| <= |h| ==> h[..|p.tag|][0] == '/';
  }

  lemma NoBracketNoTag(p: Pattern, s: string)
    requires s == "" || s[0] != '<'
    ensures OpenLength(p, s) == 0 && CloseLength(p, s) == 0
  {}

  /** Text without an opening bracket is passed over by every search. */
  lemma {:induction false} BlocksPass(p: Pattern, t: string, rest: string)
    requires '<' !in t
    ensures Blocks(p, t + rest) == Blocks(p, rest)
  {
    hide OpenLength;
    hide BlockAt;
    if t == "" {
      assert t + rest == rest;
    } else {
      BlocksPass(p, t[1..], rest);
      assert (t + rest)[1..] == t[1..] + rest;
      NoBracketNoTag(p, t + rest);
    }
  }

  lemma {:induction false} LeafPasses(p: Pattern, t: string, rest: string)
    requires '<' !in t
    ensures LeafText(p, t + rest) == LeafText(p, rest)
  {
    hide OpenLength;
    hide CloseLength;
    hide Index;
    hide Trim;
    if t == "" {
      assert t + rest == rest;
    } else {
      LeafPasses(p, t[1..], rest);
      assert (t + rest)[1..] == t[1..] + rest;
      NoBracketNoTag(p, t + rest);
    }
  }

  function Later(end: Option<nat>, n: nat): Option<nat> {
    match end case Some(e) => Some(n + e) case None => None
  }

  lemma {:induction false} ClosePasses(p: Pattern, t: string, rest: string)
    requires '<' !in t
    ensures CloseEnd(p, t + rest) == Later(CloseEnd(p, rest), |t|)
  {
    hide CloseLength;
    if t == "" {
      assert t + rest == rest;
    } else {
      ClosePasses(p, t[1..], rest);
      assert (t + rest)[1..] == t[1..] + rest;
      NoBracketNoTag(p, t + rest);
    }
  }

  lemma TailHasNoBracket(item: Item, rest: string)
    requires Lexical(item) && !item.Words?
    ensures |Show(item)| > 0 && '<' !in Show(item)[1..] && (Show(item) + rest)[1..] == Show(item)[1..] + rest
  {}

  /** An item that is not what is searched for is passed over. */
  lemma {:induction false} BlocksPassItem(p: Pattern, item: Item, rest: string)
    requires IsTagPattern(p) && Lexical(item) && !Opens(p, item)
    ensures Blocks(p, Show(item) + rest) == Blocks(p, rest)
  {
    hide OpenLength;
    hide BlockAt;
    if item.Words? {
      BlocksPass(p, item.text, rest);
    } else {
      TagOpens(p, item, rest);
      TailHasNoBracket(item, rest);
      BlocksPass(p, Show(item)[1..], rest);
    }
  }

  lemma {:induction false} LeafPassesItem(p: Pattern, item: Item, rest: string)
    requires IsTagPattern(p) && Lexical(item) && !Opens(p, item)
    ensures LeafText(p, Show(item) + rest) == LeafText(p, rest)
  {
    hide OpenLength;
    hide CloseLength;
    hide Index;
    hide Trim;
    if item.Words? {
      LeafPasses(p, item.text, rest);
    } else {
      TagOpens(p, item, rest);
      TailHasNoBracket(item, rest);
      LeafPasses(p, Show(item)[1..], rest);
    }
  }

  lemma {:induction false} ClosePassesItem(p: Pattern, item: Item, rest: string)
    requires Lexical(item) && !Closes(p, item)
    ensures CloseEnd(p, Show(item) + rest) == Later(CloseEnd(p, rest), |Show(item)|)
  {
    hide CloseLength;
    if item.Words? {
      ClosePasses(p, item.text, rest);
    } else {
      TagCloses(p, item, rest);
      TailHasNoBracket(item, rest);
      ClosePasses(p, Show(item)[1..], rest);
    }
  }

  lemma {:induction false} LexClose(p: Pattern, items: seq<Item>)
    requires AllLexical(items)
    ensures CloseEnd(p, Render(items)) ==
            match CloseAfter(p, items) case Some(n) => Some(|Render(items[..n])|) case None => None
  {
    hide CloseLength;
    hide Show;
    if items != [] {
      LexClose(p, items[1..]);
      if Closes(p, items[0]) {
        TagCloses(p, items[0], Render(items[1..]));
        TailHasNoBracket(items[0], Render(items[1..]));
        assert items[..1] == [items[0]];
      } else {
        ClosePassesItem(p, items[0], Render(items[1..]));
        if CloseAfter(p, items[1..]).Some? {
          var n := CloseAfter(p, items[1..]).value;
          assert items[..n + 1][1..] == items[1..][..n];
        }
      }
    }
  }

  lemma {:induction false} RenderAllConcat(a: seq<seq<Item>>, b: seq<seq<Item>>)
    ensures RenderAll(a + b) == RenderAll(a) + RenderAll(b)
  {
    hide Render;
    if a == [] {
      assert a + b == b;
    } else {
      RenderAllConcat(a[1..], b);
      assert (a + b)[1..] == a[1..] + b;
    }
  }

  /** The blocks of the text are the texts of the blocks. */
  lemma {:induction false} LexBlocks(p: Pattern, items: seq<Item>)
    requires IsTagPattern(p) && AllLexical(items)
    ensures Blocks(p, Render(items)) == RenderAll(BlocksOf(p, items))
  {
    hide OpenLength;
    hide Show;
    hide BlockAt;
    if items != [] {
      var rest := Render(items[1..]);
      LexBlocks(p, items[1..]);
      if Opens(p, items[0]) {
        TagOpens(p, items[0], rest);
        TailHasNoBracket(items[0], rest);
        assert (Show(items[0]) + rest)[|Show(items[0])|..] == rest;
        LexFirst(p, items);
        RenderAllConcat(FirstOf(p, items), BlocksOf(p, items[1..]));
      } else {
        BlocksPassItem(p, items[0], rest);
      }
    }
  }

  lemma {:induction false} LexFirst(p: Pattern, items: seq<Item>)
    requires IsTagPattern(p) && AllLexical(items) && items != [] && Opens(p, items[0])
    ensures BlockAt(p, Render(items)) == RenderAll(FirstOf(p, items))
  {
    hide OpenLength;
    hide Show;
    hide CloseEnd;
    hide OpensAs;
    hide Render;
    hide Lexical;
    RenderSplit(items);
    TagOpens(p, items[0], Render(items[1..]));
    TailHasNoBracket(items[0], Render(items[1..]));
    LexClose(p, items[1..]);
    if CloseAfter(p, items[1..]).Some? {
      FrontRendered(items, CloseAfter(p, items[1..]).value);
    }
  }

  lemma {:induction false} RenderSplit(items: seq<Item>)
    requires items != []
    ensures Render(items) == Show(items[0]) + Render(items[1..])
    ensures Render(items)[|Show(items[0])|..] == Render(items[1..])
  {}

  lemma {:induction false} FrontRendered(items: seq<Item>, n: nat)
    requires items != [] && n <= |items[1..]|
    ensures var end := |Show(items[0])| + |Render(items[1..][..n])|;
            end <= |Render(items)| && RenderAll([items[..n + 1]]) == [Render(items)[..end]]
  {
    hide Show;
    var front, back := items[..n + 1], items[n + 1..];
    assert Render(front) == Show(items[0]) + Render(items[1..][..n]) by {
      assert front[1..] == items[1..][..n];
    }
    RenderConcat(front, back);
    assert front + back == items;
    Alone(front);
  }

  lemma Alone(block: seq<Item>)
    ensures RenderAll([block]) == [Render(block)]
  {
    assert [block][1..] == [];
  }

  /// ## Where the searches stop

  predicate NothingOpens(p: Pattern, items: seq<Item>) {
    forall i :: 0 <= i < |items| ==> !Opens(p, items[i])
  }

  predicate NothingCloses(p: Pattern, items: seq<Item>) {
    forall i :: 0 <= i < |items| ==> !Closes(p, items[i])
  }

  lemma {:induction false} LeafSkips(p: Pattern, a: seq<Item>, b: seq<Item>)
    requires IsTagPattern(p) && AllLexical(a) && NothingOpens(p, a)
    ensures LeafText(p, Render(a + b)) == LeafText(p, Render(b))
  {
    hide LeafText;
    hide Lexical;
    hide Opens;
    hide Show;
    if a == [] {
      assert a + b == b;
    } else {
      LeafSkips(p, a[1..], b);
      RenderSplit(a + b);
      assert (a + b)[1..] == a[1..] + b;
      LeafPassesItem(p, a[0], Render(a[1..] + b));
    }
  }

  lemma {:induction false} LeafTakes(p: Pattern, open: string, text: string, close: string, b: seq<Item>)
    requires IsTagPattern(p) && Lexical(Open(open)) && '<' !in text && Lexical(Close(close))
    requires OpensAs(p, open) && ClosesAs(p, close)
    ensures LeafText(p, Render([Open(open), Words(text), Close(close)] + b)) == Some(Trim(text))
  {
    hide OpensAs;
    hide ClosesAs;
    hide OpenLength;
    hide CloseLength;
    hide Trim;
    var all := [Open(open), Words(text), Close(close)] + b;
    var tail := Show(Close(close)) + Render(b);
    LeafRendered(open, text, close, b);
    TagOpens(p, Open(open), text + tail);
    TagCloses(p, Close(close), Render(b));
    TextEnds(text, tail);
    LeafIs(p, Show(Open(open)), text, tail);
  }

  lemma LeafRendered(open: string, text: string, close: string, b: seq<Item>)
    ensures Render([Open(open), Words(text), Close(close)] + b) == Show(Open(open)) + (text + (Show(Close(close)) + Render(b)))
  {
    hide Show;
    var all := [Open(open), Words(text), Close(close)] + b;
    RenderSplit(all);
    assert all[1..] == [Words(text), Close(close)] + b;
    RenderSplit(all[1..]);
    assert all[1..][1..] == [Close(close)] + b;
    RenderSplit(all[1..][1..]);
    assert all[1..][1..][1..] == b;
    assert Show(Words(text)) == text by { WordsShow(text); }
  }

  lemma WordsShow(text: string)
    ensures Show(Words(text)) == text
  {}

  lemma {:induction false} TextEnds(text: string, tail: string)
    requires '<' !in text && tail != "" && tail[0] == '<'
    ensures Index(text + tail, '<') == |text|
  {
    IndexAfter(text, '<', tail[1..]);
    assert tail == ['<'] + tail[1..];
  }

  lemma {:induction false} LeafIs(p: Pattern, front: string, text: string, tail: string)
    requires front != "" && OpenLength(p, front + (text + tail)) == |front|
    requires Index(text + tail, '<') == |text| && CloseLength(p, tail) > 0
    ensures LeafText(p, front + (text + tail)) == Some(Trim(text))
  {
    hide OpenLength;
    hide CloseLength;
    hide Trim;
    hide Index;
    var s := front + (text + tail);
    assert s[|front|..] == text + tail;
    assert s[|front| + |text|..] == tail && s[|front|..|front| + |text|] == text;
  }

  lemma {:induction false} CloseSkips(p: Pattern, a: seq<Item>, b: seq<Item>)
    requires NothingCloses(p, a)
    ensures CloseAfter(p, a + b) == match CloseAfter(p, b) case Some(n) => Some(|a| + n) case None => None
  {
    hide Closes;
    if a == [] {
      assert a + b == b;
    } else {
      CloseSkips(p, a[1..], b);
      assert (a + b)[1..] == a[1..] + b;
    }
  }

  lemma {:induction false} BlocksSkip(p: Pattern, a: seq<Item>, b: seq<Item>)
    requires NothingOpens(p, a)
    ensures BlocksOf(p, a + b) == BlocksOf(p, b)
  {
    hide Opens;
    if a == [] {
      assert a + b == b;
    } else {
      BlocksSkip(p, a[1..], b);
      assert (a + b)[1..] == a[1..] + b;
    }
  }

  /** An element whose name does not end inside is a block, and the search goes on in it. */
  lemma {:induction false} BlocksTake(p: Pattern, open: Item, body: seq<Item>, close: Item, rest: seq<Item>)
    requires Opens(p, open) && NothingCloses(p, body) && Closes(p, close)
    ensures BlocksOf(p, [open] + body + [close] + rest) == [[open] + body + [close]] + BlocksOf(p, body + ([close] + rest))
  {
    hide Opens;
    hide Closes;
    var items := [open] + body + [close] + rest;
    var after := body + ([close] + rest);
    assert items[1..] == after;
    CloseSkips(p, body, [close] + rest);
    assert CloseAfter(p, [close] + rest) == Some(1);
    assert items[..|body| + 2] == [open] + body + [close];
  }

  /** If some name in front of an element merely starts like its own, the first block starts
      there, and ends with the element. */
  lemma {:induction false} BlocksStartEarly(p: Pattern, before: seq<Item>, open: Item, body: seq<Item>, close: Item,
                                            rest: seq<Item>) returns (n: nat)
    requires NothingCloses(p, before)
    requires Opens(p, open) && NothingCloses(p, body) && Closes(p, close)
    ensures n <= |before|
    ensures var blocks := BlocksOf(p, before + ([open] + body + [close] + rest));
            blocks != [] && blocks[0] == before[n..] + ([open] + body + [close])
  {
    hide Closes;
    hide Opens;
    var element := [open] + body + [close];
    if before == [] {
      n := 0;
      BlocksTake(p, open, body, close, rest);
      assert before + (element + rest) == element + rest;
      assert before[n..] + element == element;
    } else if Opens(p, before[0]) {
      n := 0;
      var inner := before[1..] + [open] + body;
      OpenClosesNothing(p, open);
      assert forall i :: 0 <= i < |before| - 1 ==> inner[i] == before[i + 1];
      assert NothingCloses(p, inner);
      BlocksTake(p, before[0], inner, close, rest);
      assert before + (element + rest) == [before[0]] + inner + [close] + rest;
      assert before[n..] + element == [before[0]] + inner + [close];
    } else {
      n := BlocksStartEarly(p, before[1..], open, body, close, rest);
      assert (before + (element + rest))[1..] == before[1..] + (element + rest);
      assert before[1..][n..] == before[n + 1..];
      n := n + 1;
    }
  }

  lemma OpenClosesNothing(p: Pattern, open: Item)
    requires Opens(p, open)
    ensures !Closes(p, open)
  {}

  lemma {:induction false} NoBlocks(p: Pattern, items: seq<Item>)
    requires NothingOpens(p, items) || NothingCloses(p, items)
    ensures BlocksOf(p, items) == []
  {
    hide Opens;
    hide Closes;
    if items != [] {
      NoBlocks(p, items[1..]);
      if NothingCloses(p, items) {
        CloseSkips(p, items[1..], []);
        assert items[1..] + [] == items[1..];
      }
    }
  }
}

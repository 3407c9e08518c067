/** The patterns `core/src/ojp.rs` searches XML text with, for ASCII letters. All of them
    match a tag's name at its front only: opening tags by prefix, closing tags exactly. */
module OjpXml {
  import opened Wrappers
  import opened Text

  /** `tag` with or without case folding and an optional lower-case namespace prefix. */
  datatype Pattern = Pattern(tag: string, folds: bool, prefixed: bool)

  predicate Same(p: Pattern, a: string, b: string) {
    if p.folds then UpperAll(a) == UpperAll(b) else a == b
  }

  predicate StartsWithTag(p: Pattern, head: string) {
    |p.tag| <= |head| && Same(p, head[..|p.tag|], p.tag)
  }

  /** The length of a leading `[a-z]+:`, or 0. */
  function PrefixLength(p: Pattern, head: string): (n: nat)
    ensures n <= |head|
  {
    var n := Span(head, if p.folds then IsAlpha else IsLower);
    if p.prefixed && 0 < n < |head| && head[n] == ':' then n + 1 else 0
  }

  /** Whether the pattern's opening tag matches `<head>`. */
  predicate OpensAs(p: Pattern, head: string) {
    StartsWithTag(p, head) || StartsWithTag(p, head[PrefixLength(p, head)..])
  }

  /** Whether the pattern's closing tag matches `</head>`. */
  predicate ClosesAs(p: Pattern, head: string) {
    Same(p, head, p.tag) || Same(p, head[PrefixLength(p, head)..], p.tag)
  }

  /** The length of the opening tag `s` starts with, or 0. A match always ends at the first
      closing angle bracket, since neither names nor prefixes hold one. */
  function OpenLength(p: Pattern, s: string): (n: nat)
    ensures n <= |s|
  {
    var end := Index(s, '>');
    if 1 <= end < |s| && s[0] == '<' && OpensAs(p, s[1..end]) then end + 1 else 0
  }

  function CloseLength(p: Pattern, s: string): (n: nat)
    ensures n <= |s|
  {
    var end := Index(s, '>');
    if 2 <= end < |s| && s[..2] == "</" && ClosesAs(p, s[2..end]) then end + 1 else 0
  }

  /** Where the leftmost closing tag ends. */
  function CloseEnd(p: Pattern, s: string): (end: Option<nat>)
    ensures end.Some? ==> end.value <= |s|
  {
    if s == "" then None
    else if CloseLength(p, s) > 0 then Some(CloseLength(p, s))
    else
      match CloseEnd(p, s[1..])
      case Some(end) => Some(end + 1)
      case None => None
  }

  /** For every opening tag, left to right and not overlapping, the text up to the first
      closing tag after it. */
  function Blocks(p: Pattern, s: string): seq<string>
    decreases |s|
  {
    if s == "" then []
    else
      var n := OpenLength(p, s);
      if n == 0 then Blocks(p, s[1..])
      else BlockAt(p, s) + Blocks(p, s[n..])
  }

  function BlockAt(p: Pattern, s: string): seq<string> {
    var n := OpenLength(p, s);
    match CloseEnd(p, s[n..])
    case Some(end) => [s[..n + end]]
    case None => []
  }

  /** The trimmed text of the leftmost opening tag, text without tags and closing tag. */
  function LeafText(p: Pattern, s: string): Option<string> {
    if s == "" then None
    else
      var n := OpenLength(p, s);
      var end := n + Index(s[n..], '<');
      if n > 0 && CloseLength(p, s[end..]) > 0 then Some(Trim(s[n..end])) else LeafText(p, s[1..])
  }

  /// ## What is found

  predicate IsTag(tag: string, front: string, head: string) {
    tag == front + (head + ">") && '>' !in head
  }

  ghost predicate IsOpening(p: Pattern, tag: string) {
    exists head :: IsTag(tag, "<", head) && OpensAs(p, head)
  }

  ghost predicate IsClosing(p: Pattern, tag: string) {
    exists head :: IsTag(tag, "</", head) && ClosesAs(p, head)
  }

  /** A tag's head lies between its front and its first closing angle bracket. */
  lemma {:induction false} HeadIs(s: string, front: string, n: nat, head: string)
    requires 0 < n <= |s| && '>' !in front && IsTag(s[..n], front, head)
    ensures |front| <= Index(s, '>') == n - 1 && s[..|front|] == front && head == s[|front|..n - 1]
  {
    IndexAfter(front + head, '>', s[n..]);
    assert s == s[..n] + s[n..];
    assert s == (front + head) + (['>'] + s[n..]);
  }

  lemma {:induction false} HeadStands(s: string, front: string)
    requires front <= s && |front| <= Index(s, '>') < |s|
    ensures IsTag(s[..Index(s, '>') + 1], front, s[|front|..Index(s, '>')])
  {
    var end, k := Index(s, '>'), |front|;
    assert s[k..end] == s[..end][k..];
    assert s[..end + 1] == front + (s[k..end] + [s[end]]);
  }

  lemma {:induction false} OpenLengthIs(p: Pattern, s: string, n: nat)
    requires 0 < n <= |s|
    ensures OpenLength(p, s) == n <==> IsOpening(p, s[..n])
  {
    hide OpensAs;
    hide IsTag;
    if OpenLength(p, s) == n {
      HeadStands(s, "<");
    }
    if IsOpening(p, s[..n]) {
      var head :| IsTag(s[..n], "<", head) && OpensAs(p, head);
      HeadIs(s, "<", n, head);
    }
  }

  lemma {:induction false} CloseLengthIs(p: Pattern, s: string, n: nat)
    requires 0 < n <= |s|
    ensures CloseLength(p, s) == n <==> IsClosing(p, s[..n])
  {
    hide ClosesAs;
    hide IsTag;
    if CloseLength(p, s) == n {
      HeadStands(s, "</");
    }
    if IsClosing(p, s[..n]) {
      var head :| IsTag(s[..n], "</", head) && ClosesAs(p, head);
      HeadIs(s, "</", n, head);
    }
  }

  /** An opening tag, text without tags and right after it the closing tag. */
  ghost predicate IsLeaf(p: Pattern, s: string, open: string, text: string, close: string) {
    open + (text + close) <= s && IsOpening(p, open) && '<' !in text && IsClosing(p, close)
  }

  lemma {:induction false} LeafHere(p: Pattern, s: string)
    requires s != ""
    ensures var n := OpenLength(p, s); var end := n + Index(s[n..], '<');
            if n > 0 && CloseLength(p, s[end..]) > 0
            then IsLeaf(p, s, s[..n], s[n..end], s[end..][..CloseLength(p, s[end..])])
            else forall open, text, close :: !IsLeaf(p, s, open, text, close)
  {
    hide OpenLength;
    hide CloseLength;
    hide IsOpening;
    hide IsClosing;
    var n := OpenLength(p, s);
    var end := n + Index(s[n..], '<');
    var m := CloseLength(p, s[end..]);
    if n > 0 && m > 0 {
      OpenLengthIs(p, s, n);
      CloseLengthIs(p, s[end..], m);
      assert s[..n] + (s[n..end] + s[end..][..m]) == s[..end + m];
    } else {
      forall open, text, close | IsLeaf(p, s, open, text, close)
        ensures false
      {
        LeafIsTaken(p, s, open, text, close);
      }
    }
  }

  lemma {:induction false} LeafIsTaken(p: Pattern, s: string, open: string, text: string, close: string)
    requires IsLeaf(p, s, open, text, close)
    ensures var n := OpenLength(p, s); var end := n + Index(s[n..], '<');
            n == |open| > 0 && end == n + |text| && CloseLength(p, s[end..]) == |close| > 0
  {
    hide OpensAs;
    hide ClosesAs;
    hide OpenLength;
    hide CloseLength;
    var n := |open|;
    assert s[..n] == open;
    OpenLengthIs(p, s, n);
    var rest := s[n + |text|..];
    assert close[0] == '<' && rest[..|close|] == close;
    assert s[n..] == text + (['<'] + rest[1..]);
    IndexAfter(text, '<', rest[1..]);
    CloseLengthIs(p, rest, |close|);
  }

  /** The text of a leaf is that of the leftmost such place, trimmed, and there is none only
      if there is no such place. */
  lemma {:induction false} LeafTextIs(p: Pattern, s: string) returns (at: nat, open: string, text: string, close: string)
    ensures at <= |s|
    ensures forall i, o, t, c :: 0 <= i < at ==> !IsLeaf(p, s[i..], o, t, c)
    ensures LeafText(p, s).None? ==> at == |s|
    ensures LeafText(p, s).Some? ==> IsLeaf(p, s[at..], open, text, close) && LeafText(p, s) == Some(Trim(text))
  {
    hide IsLeaf;
    hide OpenLength;
    hide CloseLength;
    at, open, text, close := 0, "", "", "";
    if s != "" {
      LeafHere(p, s);
      assert s[0..] == s;
      var n := OpenLength(p, s);
      var end := n + Index(s[n..], '<');
      if n > 0 && CloseLength(p, s[end..]) > 0 {
        open, text, close := s[..n], s[n..end], s[end..][..CloseLength(p, s[end..])];
      } else {
        var before;
        before, open, text, close := LeafTextIs(p, s[1..]);
        at := before + 1;
        assert s[at..] == s[1..][before..];
        forall i, o, t, c | 0 < i < at
          ensures !IsLeaf(p, s[i..], o, t, c)
        {
          assert s[i..] == s[1..][i - 1..];
        }
      }
    }
  }

  /** The end is that of the leftmost closing tag, if there is one at all. */
  lemma {:induction false} CloseEndIs(p: Pattern, s: string) returns (at: nat)
    ensures at <= |s|
    ensures forall i, close :: 0 <= i < at && close <= s[i..] ==> !IsClosing(p, close)
    ensures CloseEnd(p, s).None? ==> at == |s|
    ensures CloseEnd(p, s).Some? ==> at < CloseEnd(p, s).value && IsClosing(p, s[at..CloseEnd(p, s).value])
  {
    hide CloseLength;
    hide IsClosing;
    at := 0;
    if s != "" {
      var n := CloseLength(p, s);
      if n > 0 {
        CloseLengthIs(p, s, n);
      } else {
        var before := CloseEndIs(p, s[1..]);
        at := before + 1;
        assert CloseEnd(p, s).Some? ==> s[at..CloseEnd(p, s).value] == s[1..][before..CloseEnd(p, s).value - 1];
        forall i, close | 0 <= i < at && close <= s[i..]
          ensures !IsClosing(p, close)
        {
          if i == 0 {
            NoTagIsEmpty(p);
            assert s[0..] == s && s[..|close|] == close;
            if close != "" {
              CloseLengthIs(p, s, |close|);
            }
          } else {
            assert s[i..] == s[1..][i - 1..];
          }
        }
      }
    }
  }

  lemma NoTagIsEmpty(p: Pattern)
    ensures !IsClosing(p, "")
  {}

  /** No tag left open: every `<` is followed by a `>`. */
  predicate TagsEnd(s: string) {
    forall i :: 0 <= i < |s| && s[i] == '<' ==> '>' in s[i..]
  }

  /** Then no tag of `a` reaches beyond it. */
  lemma TagStaysInside(p: Pattern, a: string, s: string)
    requires TagsEnd(a) && a != ""
    ensures OpenLength(p, a + s) <= |a|
    ensures OpenLength(p, a + s) > 0 ==> a[0] == '<'
  {
    hide OpensAs;
    if a[0] == '<' {
      assert '>' in a[0..];
      var k :| 0 <= k < |a| && a[k] == '>';
      assert (a + s)[k] == '>';
      assert forall i :: 0 <= i < Index(a + s, '>') ==> (a + s)[..Index(a + s, '>')][i] == (a + s)[i];
    }
  }

  lemma TagsEndAfter(a: string, m: nat)
    requires TagsEnd(a) && m <= |a|
    ensures TagsEnd(a[m..])
  {
    assert forall i :: m <= i < |a| ==> a[i..] == a[m..][i - m..];
  }

  /** Every opening tag outside another tag has its block, also inside a block of the same
      name, and blocks come in the order of their tags. */
  lemma {:induction false} BlocksAfter(p: Pattern, a: string, s: string) returns (before: seq<string>)
    requires TagsEnd(a)
    ensures Blocks(p, a + s) == before + Blocks(p, s)
    decreases |a|
  {
    hide OpenLength;
    hide TagsEnd;
    hide BlockAt;
    if a == "" {
      before := [];
      assert a + s == s;
    } else {
      var n := OpenLength(p, a + s);
      var m := if n == 0 then 1 else n;
      TagStaysInside(p, a, s);
      TagsEndAfter(a, m);
      assert (a + s)[m..] == a[m..] + s;
      var later := BlocksAfter(p, a[m..], s);
      before := (if n == 0 then [] else BlockAt(p, a + s)) + later;
    }
  }

  lemma EveryTagHasItsBlock(p: Pattern, a: string, s: string) returns (k: nat)
    requires TagsEnd(a) && OpenLength(p, s) > 0 && CloseEnd(p, s[OpenLength(p, s)..]).Some?
    ensures k < |Blocks(p, a + s)|
    ensures Blocks(p, a + s)[k] == s[..OpenLength(p, s) + CloseEnd(p, s[OpenLength(p, s)..]).value]
  {
    hide OpenLength;
    hide CloseEnd;
    var before := BlocksAfter(p, a, s);
    k := |before|;
    assert Blocks(p, s) == BlockAt(p, s) + Blocks(p, s[OpenLength(p, s)..]);
  }

  /// ## The search as a loop

  method XmlBlocks(p: Pattern, xml: string) returns (blocks: seq<string>)
    ensures blocks == Blocks(p, xml)
  {
    hide OpenLength;
    hide CloseEnd;
    blocks := [];
    var at := 0;
    while at < |xml|
      invariant 0 <= at <= |xml|
      invariant blocks + Blocks(p, xml[at..]) == Blocks(p, xml)
    {
      var s := xml[at..];
      var n := OpenLength(p, s);
      if n == 0 {
        assert s[1..] == xml[at + 1..];
        at := at + 1;
      } else {
        var end := FindClose(p, s[n..]);
        if end.Some? {
          blocks := blocks + [s[..n + end.value]];
        }
        assert s[n..] == xml[at + n..];
        assert Blocks(p, s) == BlockAt(p, s) + Blocks(p, xml[at + n..]);
        at := at + n;
      }
    }
  }

  method FindClose(p: Pattern, s: string) returns (end: Option<nat>)
    ensures end == CloseEnd(p, s)
  {
    hide CloseLength;
    var at := 0;
    while at < |s|
      invariant 0 <= at <= |s|
      invariant CloseEnd(p, s) == match CloseEnd(p, s[at..]) case Some(e) => Some(at + e) case None => None
    {
      if CloseLength(p, s[at..]) > 0 {
        return Some(at + CloseLength(p, s[at..]));
      }
      assert s[at..][1..] == s[at + 1..];
      at := at + 1;
    }
    end := None;
  }
}

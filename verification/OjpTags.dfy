/** The tag names the stop-event parser looks for, and which of them start like another. */
module OjpTags {
  import opened Wrappers
  import opened Text
  import opened OjpXml
  import opened OjpItems

  datatype Tag =
    | StopEventResult | StopEvent | Service | DestinationText | Mode | ShortName | PublishedServiceName
    | TrainNumber | OperatorRef | JourneyRef | OperatingDayRef | ThisCall | CallAtStop | ServiceDeparture
    | TimetabledTime | EstimatedTime | PlannedQuay | EstimatedQuay | Caption

  function Name(t: Tag): string {
    match t
    case StopEventResult => "StopEventResult"
    case StopEvent => "StopEvent"
    case Service => "Service"
    case DestinationText => "DestinationText"
    case Mode => "Mode"
    case ShortName => "ShortName"
    case PublishedServiceName => "PublishedServiceName"
    case TrainNumber => "TrainNumber"
    case OperatorRef => "OperatorRef"
    case JourneyRef => "JourneyRef"
    case OperatingDayRef => "OperatingDayRef"
    case ThisCall => "ThisCall"
    case CallAtStop => "CallAtStop"
    case ServiceDeparture => "ServiceDeparture"
    case TimetabledTime => "TimetabledTime"
    case EstimatedTime => "EstimatedTime"
    case PlannedQuay => "PlannedQuay"
    case EstimatedQuay => "EstimatedQuay"
    case Caption => "Text"
  }

  /** The pattern of `xml_blocks`, of `xml_text` and of `xml_lang_text`. */
  function Block(t: Tag): Pattern {
    Pattern(Name(t), true, true)
  }

  function Leaf(t: Tag): Pattern {
    Pattern(Name(t), false, true)
  }

  const LANG := Pattern("Text", true, false)

  /** Tag `t` opens whatever is searched for as `sought`. */
  predicate Starts(t: Tag, sought: Tag) {
    t == sought || (t == StopEventResult && sought == StopEvent) || (t == ServiceDeparture && sought == Service)
  }

  /// ## The table of names

  /** The first letters, in upper case. */
  function Initials(t: Tag): (char, char) {
    match t
    case StopEventResult => ('S', 'T')
    case StopEvent => ('S', 'T')
    case Service => ('S', 'E')
    case DestinationText => ('D', 'E')
    case Mode => ('M', 'O')
    case ShortName => ('S', 'H')
    case PublishedServiceName => ('P', 'U')
    case TrainNumber => ('T', 'R')
    case OperatorRef => ('O', 'P')
    case JourneyRef => ('J', 'O')
    case OperatingDayRef => ('O', 'P')
    case ThisCall => ('T', 'H')
    case CallAtStop => ('C', 'A')
    case ServiceDeparture => ('S', 'E')
    case TimetabledTime => ('T', 'I')
    case EstimatedTime => ('E', 'S')
    case PlannedQuay => ('P', 'L')
    case EstimatedQuay => ('E', 'S')
    case Caption => ('T', 'E')
  }

  /** Letters only, starting upper case, and long enough for two initials. */
  predicate WellNamed(t: Tag) {
    var name := Name(t);
    && |name| >= 4 && IsUpper(name[0]) && (Upper(name[0]), Upper(name[1])) == Initials(t)
    && forall i :: 0 <= i < |name| ==> IsAlpha(name[i])
  }

  lemma Names1(t: Tag)
    requires t in {StopEventResult, StopEvent, Service, ServiceDeparture}
    ensures WellNamed(t)
  {}

  lemma Names2(t: Tag)
    requires t in {DestinationText, Mode, ShortName, PublishedServiceName}
    ensures WellNamed(t)
  {}

  lemma Names3(t: Tag)
    requires t in {TrainNumber, OperatorRef, JourneyRef, OperatingDayRef}
    ensures WellNamed(t)
  {}

  lemma Names4(t: Tag)
    requires t in {ThisCall, CallAtStop, TimetabledTime, EstimatedTime}
    ensures WellNamed(t)
  {}

  lemma Names5(t: Tag)
    requires t in {PlannedQuay, EstimatedQuay, Caption}
    ensures WellNamed(t)
  {}

  lemma NamesAreLetters(t: Tag)
    ensures WellNamed(t)
  {
    hide Name;
    hide WellNamed;
    match t
    case StopEventResult | StopEvent | Service | ServiceDeparture => Names1(t);
    case DestinationText | Mode | ShortName | PublishedServiceName => Names2(t);
    case TrainNumber | OperatorRef | JourneyRef | OperatingDayRef => Names3(t);
    case ThisCall | CallAtStop | TimetabledTime | EstimatedTime => Names4(t);
    case PlannedQuay | EstimatedQuay | Caption => Names5(t);
  }

  lemma SameInitials(t: Tag, u: Tag)
    requires Initials(t) == Initials(u)
    ensures Starts(t, u) || Starts(u, t)
         || (t in {OperatorRef, OperatingDayRef} && u in {OperatorRef, OperatingDayRef})
         || (t in {EstimatedTime, EstimatedQuay} && u in {EstimatedTime, EstimatedQuay})
  {}

  lemma Longer(t: Tag, sought: Tag)
    requires Starts(t, sought)
    ensures Name(sought) <= Name(t) && (t != sought ==> |Name(sought)| < |Name(t)|)
  {}

  lemma TwinsDiffer(t: Tag, sought: Tag)
    requires t != sought
    requires {t, sought} == {OperatorRef, OperatingDayRef} || {t, sought} == {EstimatedTime, EstimatedQuay}
    ensures |Name(t)| >= 10 && |Name(sought)| >= 10
    ensures exists i :: 0 <= i < 10 && Upper(Name(t)[i]) != Upper(Name(sought)[i])
  {
    var i := if t in {OperatorRef, OperatingDayRef} then 6 else 9;
    assert t in {t, sought} && sought in {t, sought};
    assert Upper(Name(t)[i]) != Upper(Name(sought)[i]);
  }

  lemma NameStarts(t: Tag, sought: Tag)
    ensures |Name(sought)| <= |Name(t)| && UpperAll(Name(t)[..|Name(sought)|]) == UpperAll(Name(sought))
       <==> Starts(t, sought)
    ensures Starts(t, sought) ==> Name(sought) <= Name(t)
  {
    hide Name;
    hide Upper;
    NamesAreLetters(t);
    NamesAreLetters(sought);
    var n := |Name(sought)|;
    if Starts(t, sought) {
      Longer(t, sought);
    } else if n <= |Name(t)| && UpperAll(Name(t)[..n]) == UpperAll(Name(sought)) {
      assert forall i :: 0 <= i < n ==> UpperAll(Name(t)[..n])[i] == Upper(Name(t)[i]);
      assert forall i :: 0 <= i < n ==> Upper(Name(t)[i]) == Upper(Name(sought)[i]);
      SameInitials(t, sought);
      if Starts(sought, t) {
        Longer(sought, t);
      } else {
        TwinsDiffer(t, sought);
      }
    }
  }

  /// ## Tags as they appear: with a namespace, with attributes

  predicate IsAttributes(attrs: string) {
    '<' !in attrs && '>' !in attrs && (attrs != "" ==> IsWhitespace(attrs[0]))
  }

  /** Lower-case letters that do not spell the start of a sought name. */
  ghost predicate IsNamespace(ns: string) {
    ns != "" && (forall i :: 0 <= i < |ns| ==> IsLower(ns[i])) && forall t :: !StartsWithTag(Block(t), ns)
  }

  /** Opens as its own name, and as what that starts with. */
  ghost predicate IsOpen(t: Tag, head: string) {
    && Lexical(Open(head))
    && (forall sought :: OpensAs(Block(sought), head) <==> Starts(t, sought))
    && (forall sought :: OpensAs(Leaf(sought), head) <==> Starts(t, sought))
    && (OpensAs(LANG, head) ==> t == Caption)
  }

  /** Closes its own name only. */
  ghost predicate IsClose(t: Tag, head: string) {
    && Lexical(Close(head))
    && (forall sought :: ClosesAs(Block(sought), head) <==> t == sought)
    && (forall sought :: ClosesAs(Leaf(sought), head) <==> t == sought)
  }

  /** What the stricter patterns open, the block pattern opens. */
  lemma BlockIsWidest(t: Tag, head: string)
    ensures OpensAs(Leaf(t), head) ==> OpensAs(Block(t), head)
    ensures ClosesAs(Leaf(t), head) ==> ClosesAs(Block(t), head)
    ensures OpensAs(LANG, head) ==> OpensAs(Block(Caption), head)
    ensures ClosesAs(LANG, head) ==> ClosesAs(Block(Caption), head)
  {
    hide Name;
    var n := Span(head, IsLower);
    if 0 < n < |head| && head[n] == ':' {
      SpanIs(head, IsAlpha, n);
    }
    assert PrefixLength(Leaf(t), head) in {0, PrefixLength(Block(t), head)};
    assert Name(Caption) == "Text" by { CaptionIsText(); }
  }

  lemma CaptionIsText()
    ensures Name(Caption) == "Text"
  {}

  lemma NameWithAttributes(t: Tag, attrs: string, sought: Tag)
    requires IsAttributes(attrs)
    ensures StartsWithTag(Block(sought), Name(t) + attrs) <==> Starts(t, sought)
    ensures StartsWithTag(Leaf(sought), Name(t) + attrs) <==> Starts(t, sought)
  {
    hide Name;
    hide Starts;
    NamesAreLetters(t);
    NamesAreLetters(sought);
    NameStarts(t, sought);
    var head, n := Name(t) + attrs, |Name(sought)|;
    if n <= |Name(t)| {
      assert head[..n] == Name(t)[..n];
    } else if n <= |head| {
      var i := |Name(t)|;
      assert UpperAll(head[..n])[i] == Upper(attrs[0]);
      assert UpperAll(Name(sought))[i] == Upper(Name(sought)[i]);
      assert head[..n][i] != Name(sought)[i];
    }
  }

  lemma NoPrefixInName(t: Tag, attrs: string, sought: Tag)
    requires IsAttributes(attrs)
    ensures PrefixLength(Block(sought), Name(t) + attrs) == PrefixLength(Leaf(sought), Name(t) + attrs) == 0
  {
    hide Name;
    NamesAreLetters(t);
    var head := Name(t) + attrs;
    SpanIs(head, IsAlpha, |Name(t)|);
    assert !IsLower(head[0]);
  }

  lemma PrefixIsNamespace(ns: string, rest: string, sought: Tag)
    requires IsNamespace(ns)
    ensures PrefixLength(Block(sought), ns + ":" + rest) == PrefixLength(Leaf(sought), ns + ":" + rest) == |ns| + 1
    ensures (ns + ":" + rest)[|ns| + 1..] == rest
    ensures !StartsWithTag(Block(sought), ns + ":" + rest) && !StartsWithTag(Leaf(sought), ns + ":" + rest)
  {
    hide Name;
    NamesAreLetters(sought);
    var head, n := ns + ":" + rest, |Name(sought)|;
    SpanIs(head, IsAlpha, |ns|);
    SpanIs(head, IsLower, |ns|);
    assert !StartsWithTag(Block(sought), ns);
    if n <= |ns| {
      assert head[..n] == ns[..n];
    } else if n <= |head| {
      assert head[..n][|ns|] == ':';
      assert UpperAll(head[..n])[|ns|] == ':';
      assert UpperAll(Name(sought))[|ns|] == Upper(Name(sought)[|ns|]);
    }
  }

  lemma NameOpensAs(t: Tag, attrs: string, sought: Tag)
    requires IsAttributes(attrs)
    ensures OpensAs(Block(sought), Name(t) + attrs) <==> Starts(t, sought)
    ensures OpensAs(Leaf(sought), Name(t) + attrs) <==> Starts(t, sought)
    ensures StartsWithTag(Block(sought), Name(t) + attrs) <==> Starts(t, sought)
  {
    hide Name;
    hide StartsWithTag;
    hide PrefixLength;
    hide Starts;
    var head := Name(t) + attrs;
    NameWithAttributes(t, attrs, sought);
    NoPrefixInName(t, attrs, sought);
    assert head[0..] == head;
  }

  lemma CaptionOnly(t: Tag)
    ensures Starts(t, Caption) <==> t == Caption
  {}

  /** Every opening tag with a name, and attributes or none. */
  lemma NameOpens(t: Tag, attrs: string)
    requires IsAttributes(attrs)
    ensures IsOpen(t, Name(t) + attrs)
    ensures t == Caption ==> OpensAs(LANG, Name(t) + attrs)
  {
    hide Name;
    hide OpensAs;
    hide StartsWithTag;
    hide Starts;
    hide Lexical;
    var head := Name(t) + attrs;
    forall sought: Tag
      ensures OpensAs(Block(sought), head) <==> Starts(t, sought)
      ensures OpensAs(Leaf(sought), head) <==> Starts(t, sought)
    {
      NameOpensAs(t, attrs, sought);
    }
    BlockIsWidest(t, head);
    CaptionOnly(t);
    NameIsLexical(t, attrs);
    if t == Caption {
      NameOpensAs(t, attrs, Caption);
      LangOpens(head);
    }
  }

  lemma LangOpens(head: string)
    requires StartsWithTag(Block(Caption), head)
    ensures OpensAs(LANG, head)
  {}

  lemma NameIsLexical(t: Tag, attrs: string)
    requires IsAttributes(attrs)
    ensures Lexical(Open(Name(t) + attrs)) && Lexical(Close(Name(t)))
  {
    hide Name;
    NamesAreLetters(t);
  }

  lemma NamespacedOpensAs(t: Tag, ns: string, attrs: string, sought: Tag)
    requires IsNamespace(ns) && IsAttributes(attrs)
    ensures OpensAs(Block(sought), ns + ":" + (Name(t) + attrs)) <==> Starts(t, sought)
    ensures OpensAs(Leaf(sought), ns + ":" + (Name(t) + attrs)) <==> Starts(t, sought)
  {
    hide Name;
    hide StartsWithTag;
    hide PrefixLength;
    hide Starts;
    NameWithAttributes(t, attrs, sought);
    PrefixIsNamespace(ns, Name(t) + attrs, sought);
  }

  /** The same behind a namespace. */
  lemma NamespacedOpens(t: Tag, ns: string, attrs: string)
    requires IsNamespace(ns) && IsAttributes(attrs)
    ensures IsOpen(t, ns + ":" + (Name(t) + attrs))
  {
    hide Name;
    hide OpensAs;
    hide StartsWithTag;
    hide Starts;
    hide Lexical;
    var head := ns + ":" + (Name(t) + attrs);
    forall sought: Tag
      ensures OpensAs(Block(sought), head) <==> Starts(t, sought)
      ensures OpensAs(Leaf(sought), head) <==> Starts(t, sought)
    {
      NamespacedOpensAs(t, ns, attrs, sought);
    }
    BlockIsWidest(t, head);
    CaptionOnly(t);
    NameIsLexical(t, attrs);
    NamespacedIsLexical(ns, Name(t) + attrs);
  }

  lemma NamespacedIsLexical(ns: string, rest: string)
    requires IsNamespace(ns) && Lexical(Open(rest))
    ensures Lexical(Open(ns + ":" + rest)) && Lexical(Close(ns + ":" + rest))
  {
    hide Name;
    hide StartsWithTag;
  }

  lemma NamesAreDistinct(t: Tag, sought: Tag)
    ensures Same(Block(sought), Name(t), Name(sought)) <==> t == sought
    ensures Same(Leaf(sought), Name(t), Name(sought)) <==> t == sought
  {
    hide Name;
    NameStarts(t, sought);
    NameStarts(sought, t);
    if UpperAll(Name(t)) == UpperAll(Name(sought)) {
      assert |UpperAll(Name(t))| == |UpperAll(Name(sought))|;
      assert Name(t)[..|Name(sought)|] == Name(t);
    }
  }

  lemma NameCloses(t: Tag)
    ensures IsClose(t, Name(t))
    ensures t == Caption ==> ClosesAs(LANG, Name(t))
  {
    hide Name;
    hide Same;
    hide PrefixLength;
    forall sought: Tag
      ensures ClosesAs(Block(sought), Name(t)) <==> t == sought
      ensures ClosesAs(Leaf(sought), Name(t)) <==> t == sought
    {
      NamesAreDistinct(t, sought);
      NoPrefixInName(t, "", sought);
      assert Name(t) + "" == Name(t) && Name(t)[0..] == Name(t);
    }
    NameIsLexical(t, "");
    if t == Caption {
      LangCloses();
    }
  }

  lemma LangCloses()
    ensures ClosesAs(LANG, Name(Caption))
  {}

  lemma NamespacedCloses(t: Tag, ns: string)
    requires IsNamespace(ns)
    ensures IsClose(t, ns + ":" + Name(t))
  {
    hide Name;
    hide PrefixLength;
    hide Same;
    hide StartsWithTag;
    var head := ns + ":" + Name(t);
    forall sought: Tag
      ensures ClosesAs(Block(sought), head) <==> t == sought
      ensures ClosesAs(Leaf(sought), head) <==> t == sought
    {
      NamesAreDistinct(t, sought);
      PrefixIsNamespace(ns, Name(t), sought);
      ColonIsNoName(ns, t, sought);
    }
    NameIsLexical(t, "");
    assert Name(t) + "" == Name(t);
    NamespacedIsLexical(ns, Name(t));
  }

  lemma ColonIsNoName(ns: string, t: Tag, sought: Tag)
    ensures !Same(Block(sought), ns + ":" + Name(t), Name(sought))
    ensures !Same(Leaf(sought), ns + ":" + Name(t), Name(sought))
  {
    hide Name;
    NamesAreLetters(sought);
    var head := ns + ":" + Name(t);
    assert head[|ns|] == ':';
    assert UpperAll(head)[|ns|] == ':';
    if |Name(sought)| == |head| {
      assert UpperAll(Name(sought))[|ns|] == Upper(Name(sought)[|ns|]);
    }
  }

  /// ## The languages of the patterns

  /** `head` has a namespace of `n` letters, lower-case ones unless case is folded. */
  predicate HasPrefix(head: string, n: nat, folds: bool) {
    0 < n < |head| && head[n] == ':' && forall i :: 0 <= i < n ==> IsLower(head[i]) || (folds && IsUpper(head[i]))
  }

  lemma PrefixIsSpan(p: Pattern, head: string, n: nat)
    requires p.prefixed && HasPrefix(head, n, p.folds)
    ensures PrefixLength(p, head) == n + 1
  {
    SpanIs(head, if p.folds then IsAlpha else IsLower, n);
  }

  lemma SpanIsPrefix(p: Pattern, head: string)
    requires PrefixLength(p, head) > 0
    ensures p.prefixed && HasPrefix(head, PrefixLength(p, head) - 1, p.folds)
  {}

  /** `xml_text` opens at the exact name, `xml_blocks` at the name in any case, both with or
      without a namespace; `xml_lang_text` at Text in any case without one. */
  lemma OpeningsAre(t: Tag, head: string)
    ensures OpensAs(Leaf(t), head) <==>
            Name(t) <= head || exists n :: HasPrefix(head, n, false) && Name(t) <= head[n + 1..]
    ensures OpensAs(Block(t), head) <==>
            UpperAll(Name(t)) <= UpperAll(head) || exists n :: HasPrefix(head, n, true) && UpperAll(Name(t)) <= UpperAll(head[n + 1..])
    ensures OpensAs(LANG, head) <==> UpperAll("Text") <= UpperAll(head)
  {
    hide Name;
    OpeningIs(Leaf(t), head);
    OpeningIs(Block(t), head);
    OpeningIs(LANG, head);
  }

  ghost predicate StartsLike(p: Pattern, head: string) {
    if p.folds then UpperAll(p.tag) <= UpperAll(head) else p.tag <= head
  }

  lemma StartsAre(p: Pattern, head: string)
    ensures StartsWithTag(p, head) <==> StartsLike(p, head)
  {
    var n := |p.tag|;
    if n <= |head| {
      assert UpperAll(head[..n]) == UpperAll(head)[..n];
    }
  }

  lemma OpeningIs(p: Pattern, head: string)
    ensures OpensAs(p, head) <==>
            StartsLike(p, head) || (p.prefixed && exists n: nat :: HasPrefix(head, n, p.folds) && StartsLike(p, head[n + 1..]))
  {
    hide StartsLike;
    hide StartsWithTag;
    hide PrefixLength;
    StartsAre(p, head);
    var k := PrefixLength(p, head);
    StartsAre(p, head[k..]);
    if k > 0 {
      SpanIsPrefix(p, head);
      assert head[k..] == head[k - 1 + 1..];
    } else {
      assert head[k..] == head;
    }
    if p.prefixed {
      forall n: nat | HasPrefix(head, n, p.folds)
        ensures k == n + 1
      {
        PrefixIsSpan(p, head, n);
      }
    }
  }

  /** Closing tags match the whole name, in the same cases and with the same namespaces. */
  lemma ClosingsAre(t: Tag, head: string)
    ensures ClosesAs(Leaf(t), head) <==> head == Name(t) || exists n: nat :: HasPrefix(head, n, false) && head[n + 1..] == Name(t)
    ensures ClosesAs(Block(t), head) <==>
            UpperAll(head) == UpperAll(Name(t))
            || exists n: nat :: HasPrefix(head, n, true) && UpperAll(head[n + 1..]) == UpperAll(Name(t))
    ensures ClosesAs(LANG, head) <==> UpperAll(head) == UpperAll("Text")
  {
    hide Name;
    ClosingIs(Leaf(t), head);
    ClosingIs(Block(t), head);
    ClosingIs(LANG, head);
  }

  lemma ClosingIs(p: Pattern, head: string)
    ensures ClosesAs(p, head) <==>
            Same(p, head, p.tag) || (p.prefixed && exists n: nat :: HasPrefix(head, n, p.folds) && Same(p, head[n + 1..], p.tag))
  {
    hide Same;
    hide PrefixLength;
    var k := PrefixLength(p, head);
    if k > 0 {
      SpanIsPrefix(p, head);
      assert head[k..] == head[k - 1 + 1..];
    } else {
      assert head[k..] == head;
    }
    if p.prefixed {
      forall n: nat | HasPrefix(head, n, p.folds)
        ensures k == n + 1
      {
        PrefixIsSpan(p, head, n);
      }
    }
  }
}

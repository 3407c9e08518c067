/** One vehicle token of a formationShortString:
    `[(][status][(]TYPE[)][:NUMBER][#OFFER;OFFER]`, as the source's regular expression
    captures it. */
module FormationToken {
  import opened Wrappers
  import opened Text

  datatype Kind = LK | CC | FA | WL | WR | W1 | W2 | Mixed | First | Second | D | F | K | X

  function KindText(k: Kind): (s: string)
    ensures 1 <= |s| <= 2
  {
    match k
    case LK => "LK" case CC => "CC" case FA => "FA" case WL => "WL" case WR => "WR"
    case W1 => "W1" case W2 => "W2" case Mixed => "12" case First => "1" case Second => "2"
    case D => "D" case F => "F" case K => "K" case X => "X"
  }

  lemma KindsAreLiteral()
    ensures KindText(LK) == "LK" && KindText(CC) == "CC" && KindText(FA) == "FA" && KindText(WL) == "WL"
    ensures KindText(WR) == "WR" && KindText(W1) == "W1" && KindText(W2) == "W2" && KindText(Mixed) == "12"
    ensures KindText(First) == "1" && KindText(Second) == "2" && KindText(D) == "D" && KindText(F) == "F"
    ensures KindText(K) == "K" && KindText(X) == "X"
  {}

  /** The capture groups: both places an opening parenthesis may stand, the status marks
      between them, the type, the closing parenthesis, the digits and the offers. */
  datatype Captures = Captures(paren: bool, status: string, innerParen: bool, kind: Kind, closing: bool,
                               number: Option<string>, offers: Option<string>)

  predicate IsStatus(c: char) {
    c == '-' || c == '%' || c == '>' || c == '='
  }

  predicate IsOffer(c: char) {
    IsAlpha(c) || IsDigit(c) || c == ';'
  }

  ghost predicate WellFormed(c: Captures) {
    && (forall i :: 0 <= i < |c.status| ==> IsStatus(c.status[i]))
    && (c.number.Some? ==> c.number.value != "" && AllDigits(c.number.value))
    && (c.offers.Some? ==> c.offers.value != "" && forall i :: 0 <= i < |c.offers.value| ==> IsOffer(c.offers.value[i]))
  }

  /** With no status marks in between, a lone parenthesis belongs to the first group. */
  predicate Canonical(c: Captures) {
    c.innerParen ==> c.paren || c.status != ""
  }

  function Mark(present: bool, c: char): string {
    if present then [c] else ""
  }

  function Tagged(tag: char, s: Option<string>): string {
    if s.Some? then [tag] + s.value else ""
  }

  /** What follows the type. */
  function RenderTail(c: Captures): string {
    Mark(c.closing, ')') + (Tagged(':', c.number) + Tagged('#', c.offers))
  }

  function Render(c: Captures): string {
    Mark(c.paren, '(') + (c.status + (Mark(c.innerParen, '(') + (KindText(c.kind) + RenderTail(c))))
  }

  /// ## The matcher

  function Strip(c: char, s: string): (r: (bool, string))
    ensures s == Mark(r.0, c) + r.1
    ensures !r.0 ==> r.1 == "" || r.1[0] != c
  {
    if s != "" && s[0] == c then (true, s[1..]) else (false, s)
  }

  /** An optional `tag` followed by at least one character of the class. */
  function TakeTagged(tag: char, s: string, inClass: char -> bool): (r: (Option<string>, string))
    ensures s == Tagged(tag, r.0) + r.1
    ensures r.0.Some? ==> r.0.value != "" && forall i :: 0 <= i < |r.0.value| ==> inClass(r.0.value[i])
  {
    if s != "" && s[0] == tag && Span(s[1..], inClass) > 0
    then var n := 1 + Span(s[1..], inClass); (Some(s[1..n]), s[n..])
    else (None, s)
  }

  predicate StartsWith(s: string, prefix: string) {
    |prefix| <= |s| && s[..|prefix|] == prefix
  }

  /** The first alternative that fits, in the order the source lists them. */
  function FirstKind(s: string): (k: Option<Kind>)
    ensures k.Some? ==> StartsWith(s, KindText(k.value))
  {
    if StartsWith(s, "LK") then Some(LK) else if StartsWith(s, "CC") then Some(CC)
    else if StartsWith(s, "FA") then Some(FA) else if StartsWith(s, "WL") then Some(WL)
    else if StartsWith(s, "WR") then Some(WR) else if StartsWith(s, "W1") then Some(W1)
    else if StartsWith(s, "W2") then Some(W2) else if StartsWith(s, "12") then Some(Mixed)
    else if StartsWith(s, "1") then Some(First) else if StartsWith(s, "2") then Some(Second)
    else if StartsWith(s, "D") then Some(D) else if StartsWith(s, "F") then Some(F)
    else if StartsWith(s, "K") then Some(K) else if StartsWith(s, "X") then Some(X)
    else None
  }

  /** Everything from the type on. */
  function MatchRest(s: string, paren: bool, status: string, innerParen: bool): Option<Captures> {
    match FirstKind(s)
    case None => None
    case Some(kind) =>
      var (closing, s1) := Strip(')', s[|KindText(kind)|..]);
      var (number, s2) := TakeTagged(':', s1, IsDigit);
      var (offers, s3) := TakeTagged('#', s2, IsOffer);
      if s3 == "" then Some(Captures(paren, status, innerParen, kind, closing, number, offers)) else None
  }

  function Match(token: string): Option<Captures> {
    var (paren, s1) := Strip('(', token);
    var n := Span(s1, IsStatus);
    var (innerParen, s2) := Strip('(', s1[n..]);
    MatchRest(s2, paren, s1[..n], innerParen)
  }

  /// ## The matcher accepts exactly the grammar

  lemma MatchIsSound(token: string)
    requires Match(token).Some?
    ensures var c := Match(token).value; WellFormed(c) && Canonical(c) && Render(c) == token
  {
    hide MatchRest;
    hide Strip;
    hide Span;
    hide RenderTail;
    hide KindText;
    var (paren, s1) := Strip('(', token);
    var n := Span(s1, IsStatus);
    assert s1 == s1[..n] + s1[n..];
    var (innerParen, s2) := Strip('(', s1[n..]);
    MatchRestIsSound(s2, paren, s1[..n], innerParen);
    if n == 0 {
      assert s1[n..] == s1;
    }
  }

  lemma MatchRestIsSound(s: string, paren: bool, status: string, innerParen: bool)
    requires MatchRest(s, paren, status, innerParen).Some?
    ensures var c := MatchRest(s, paren, status, innerParen).value;
            && c == Captures(paren, status, innerParen, c.kind, c.closing, c.number, c.offers)
            && (c.number.Some? ==> c.number.value != "" && AllDigits(c.number.value))
            && (c.offers.Some? ==> c.offers.value != "" && forall i :: 0 <= i < |c.offers.value| ==> IsOffer(c.offers.value[i]))
            && KindText(c.kind) + RenderTail(c) == s
  {
    var kind := FirstKind(s).value;
    var (closing, s1) := Strip(')', s[|KindText(kind)|..]);
    var (number, s2) := TakeTagged(':', s1, IsDigit);
    var (offers, s3) := TakeTagged('#', s2, IsOffer);
    assert s == KindText(kind) + s[|KindText(kind)|..];
    assert Tagged('#', offers) + s3 == Tagged('#', offers);
  }

  predicate StartsTail(s: string) {
    s == "" || s[0] == ')' || s[0] == ':' || s[0] == '#'
  }

  /** Overlapping type names do not confuse the matcher: what follows a type is never a
      letter or a digit. */
  lemma FirstKindIsUnique(k: Kind, tail: string)
    requires StartsTail(tail)
    ensures FirstKind(KindText(k) + tail) == Some(k)
  {
    var s := KindText(k) + tail;
    assert StartsWith(s, KindText(k));
    assert |s| == |KindText(k)| + |tail|;
    assert forall j :: 0 <= j < |s| ==> s[j] == if j < |KindText(k)| then KindText(k)[j] else tail[j - |KindText(k)|];
  }

  lemma StripRendered(c: char, present: bool, rest: string)
    requires present || rest == "" || rest[0] != c
    ensures Strip(c, Mark(present, c) + rest) == (present, rest)
  {
    assert Mark(false, c) + rest == rest;
  }

  lemma TakeRendered(tag: char, s: Option<string>, rest: string, inClass: char -> bool)
    requires s.Some? ==> s.value != "" && forall i :: 0 <= i < |s.value| ==> inClass(s.value[i])
    requires rest == "" || (!inClass(rest[0]) && rest[0] != tag)
    ensures TakeTagged(tag, Tagged(tag, s) + rest, inClass) == (s, rest)
  {
    if s.Some? {
      var text := Tagged(tag, s) + rest;
      assert text[1..] == s.value + rest;
      SpanIs(text[1..], inClass, |s.value|);
    } else {
      assert Tagged(tag, s) + rest == rest;
    }
  }

  lemma MatchRestIsComplete(c: Captures)
    requires WellFormed(c)
    ensures MatchRest(KindText(c.kind) + RenderTail(c), c.paren, c.status, c.innerParen) == Some(c)
  {
    var numberText, offersText := Tagged(':', c.number), Tagged('#', c.offers);
    var tail := RenderTail(c);
    FirstKindIsUnique(c.kind, tail);
    assert (KindText(c.kind) + tail)[|KindText(c.kind)|..] == tail;
    StripRendered(')', c.closing, numberText + offersText);
    TakeRendered(':', c.number, offersText, IsDigit);
    TakeRendered('#', c.offers, "", IsOffer);
    assert offersText + "" == offersText;
  }

  lemma MatchIsComplete(c: Captures)
    requires WellFormed(c) && Canonical(c)
    ensures Match(Render(c)) == Some(c)
  {
    var rest := KindText(c.kind) + RenderTail(c);
    var inner := Mark(c.innerParen, '(') + rest;
    StripRendered('(', c.innerParen, rest);
    var s1 := c.status + inner;
    SpanIs(s1, IsStatus, |c.status|);
    assert s1[..|c.status|] == c.status && s1[|c.status|..] == inner;
    StripRendered('(', c.paren, s1);
    MatchRestIsComplete(c);
  }

  /** The token language, both ways. */
  lemma MatchIffRendered(token: string, c: Captures)
    ensures Match(token) == Some(c) <==> WellFormed(c) && Canonical(c) && Render(c) == token
  {
    if Match(token) == Some(c) {
      MatchIsSound(token);
    }
    if WellFormed(c) && Canonical(c) {
      MatchIsComplete(c);
    }
  }

  /** A parenthesis in the second place with nothing before it reads as the first. */
  function Canonicalise(c: Captures): (d: Captures)
    ensures Canonical(d) && (d.paren || d.innerParen <==> c.paren || c.innerParen)
    ensures WellFormed(c) ==> WellFormed(d)
  {
    if Canonical(c) then c else c.(paren := true, innerParen := false)
  }

  lemma MatchRendered(c: Captures)
    requires WellFormed(c)
    ensures Match(Render(c)) == Some(Canonicalise(c))
  {
    MatchIsComplete(Canonicalise(c));
    if !Canonical(c) {
      var rest := KindText(c.kind) + RenderTail(c);
      assert RenderTail(Canonicalise(c)) == RenderTail(c);
      assert Render(c) == "(" + rest;
      assert Render(Canonicalise(c)) == "(" + rest;
    }
  }
}

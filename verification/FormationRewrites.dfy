/** Rewrites of a formationShortString that leave sectors and wagons as they were, and the
    mirror image of a formation. */
module FormationRewrites {
  import opened Wrappers
  import opened Text
  import opened FormationToken
  import opened Formation

  lemma {:induction false} ScanConcat(s: Scan, a: seq<string>, b: seq<string>)
    ensures ScanAll(s, a + b) == ScanAll(ScanAll(s, a), b)
  {
    hide ScanToken;
    hide ReadToken;
    if b == [] {
      assert a + b == a;
    } else {
      ScanConcat(s, a, b[..|b| - 1]);
      assert (a + b)[..|a + b| - 1] == a + b[..|b| - 1];
    }
  }

  /// ## Dropping the brackets

  lemma {:induction false} SplitUnbracketed(s: string)
    ensures Split(Unbracket(s), ',') == UnbracketAll(Split(s, ','))
  {
    if s != "" {
      SplitUnbracketed(s[1..]);
      var rest := Split(s[1..], ',');
      UnbracketPrepended(s[0], rest);
      assert s == [s[0]] + s[1..];
      UnbracketOne(s[0], s[1..]);
      if s[0] != '[' && s[0] != ']' {
        assert Unbracket(s)[1..] == Unbracket(s[1..]);
      }
    }
  }

  lemma UnbracketPrepended(c: char, parts: seq<string>)
    requires |parts| >= 1
    ensures UnbracketAll(Prepend(c, parts, ','))
         == if c == '[' || c == ']' then UnbracketAll(parts) else Prepend(c, UnbracketAll(parts), ',')
  {
    UnbracketOne(c, parts[0]);
    var left := UnbracketAll(Prepend(c, parts, ','));
    var right := if c == '[' || c == ']' then UnbracketAll(parts) else Prepend(c, UnbracketAll(parts), ',');
    assert |left| == |right|;
    forall i | 0 <= i < |left| ensures left[i] == right[i] {}
  }

  lemma UnbracketOne(c: char, s: string)
    ensures Unbracket([c] + s) == if c == '[' || c == ']' then Unbracket(s) else [c] + Unbracket(s)
  {
    assert ([c] + s)[1..] == s;
    assert "" + Unbracket(s) == Unbracket(s);
  }

  function UnbracketAll(parts: seq<string>): (r: seq<string>)
    ensures |r| == |parts|
    ensures forall i :: 0 <= i < |parts| ==> r[i] == Unbracket(parts[i])
  {
    seq(|parts|, i requires 0 <= i < |parts| => Unbracket(parts[i]))
  }

  lemma {:induction false} UnbracketTwice(s: string)
    ensures Unbracket(Unbracket(s)) == Unbracket(s)
  {
    if s != "" {
      UnbracketTwice(s[1..]);
      assert s == [s[0]] + s[1..];
      UnbracketOne(s[0], s[1..]);
      UnbracketOne(s[0], Unbracket(s[1..]));
    }
  }

  lemma {:induction false} UnbracketNoBlanks(s: string)
    requires NoBlanks(s)
    ensures NoBlanks(Unbracket(s))
  {
    if s != "" {
      UnbracketNoBlanks(s[1..]);
    }
  }

  lemma {:induction false} SplitNoBlanks(s: string)
    requires NoBlanks(s)
    ensures forall i :: 0 <= i < |Split(s, ',')| ==> NoBlanks(Split(s, ',')[i])
  {
    if s != "" {
      SplitNoBlanks(s[1..]);
    }
  }

  /** Without whitespace a token reads the same with and without its brackets. */
  lemma {:induction false} ReadUnbracketed(s: string)
    requires NoBlanks(s)
    ensures ReadToken(Unbracket(s)) == ReadToken(s)
  {
    UnbracketTwice(s);
    UnbracketNoBlanks(s);
    TrimNoBlanks(s);
    TrimNoBlanks(Unbracket(s));
  }

  lemma {:induction false} ScanUnbracketed(scan: Scan, raws: seq<string>)
    requires forall i :: 0 <= i < |raws| ==> NoBlanks(raws[i])
    ensures ScanAll(scan, UnbracketAll(raws)) == ScanAll(scan, raws)
  {
    hide ScanToken;
    hide ReadToken;
    if raws != [] {
      var before := raws[..|raws| - 1];
      ScanUnbracketed(scan, before);
      ReadUnbracketed(raws[|raws| - 1]);
      assert UnbracketAll(raws)[..|raws| - 1] == UnbracketAll(before);
    }
  }

  lemma {:induction false} BracketsAreIdle(short: string)
    requires NoBlanks(short)
    ensures Parse(Unbracket(short)) == Parse(short)
  {
    SplitUnbracketed(short);
    SplitNoBlanks(short);
    ScanUnbracketed(Start, Split(short, ','));
  }

  /// ## Inserting a vehicle that is no passenger car and shuts nothing

  /** A token that only pads the platform: no marks, no parentheses, not a passenger car. */
  predicate IsFiller(raw: string) {
    var token := ReadToken(raw);
    && token.lead.None? && token.trail.None? && token.body != ""
    && Match(token.body).Some?
    && var c := Match(token.body).value;
       !IsPassenger(c.kind) && !c.paren && !c.innerParen && !c.closing
  }

  predicate IsPadding(v: Vehicle) {
    !IsPassenger(v.kind) && !v.opens && !v.closes
  }

  /** Earlier vehicles do not influence how later tokens are scanned. */
  lemma {:induction false} ScanShifts(s: Scan, raws: seq<string>)
    ensures var bare := ScanAll(s.(vehicles := []), raws);
            ScanAll(s, raws) == bare.(vehicles := s.vehicles + bare.vehicles)
  {
    hide ReadToken;
    if raws != [] {
      ScanShifts(s, raws[..|raws| - 1]);
      var before := ScanAll(s.(vehicles := []), raws[..|raws| - 1]);
      StepShifts(before, s.vehicles, ReadToken(raws[|raws| - 1]));
    }
  }

  lemma StepShifts(s: Scan, earlier: seq<Vehicle>, token: Token)
    ensures var step := ScanToken(s, token);
            ScanToken(s.(vehicles := earlier + s.vehicles), token) == step.(vehicles := earlier + step.vehicles)
  {
    hide Match;
    hide VehicleOf;
  }

  lemma FillerScans(s: Scan, raw: string) returns (v: Vehicle)
    requires IsFiller(raw)
    ensures IsPadding(v) && ScanAll(s, [raw]) == s.(vehicles := s.vehicles + [v])
  {
    hide Match;
    v := VehicleOf(Match(ReadToken(raw).body).value, s.sector);
    assert [raw][..0] == [];
  }

  /// ### On vehicles

  function Insert(vs: seq<Vehicle>, k: nat, v: Vehicle): seq<Vehicle>
    requires k <= |vs|
  {
    vs[..k] + [v] + vs[k..]
  }

  function Shift(k: nat, i: nat): nat {
    if i < k then i else i + 1
  }

  lemma PassengersSnoc(vs: seq<Vehicle>, v: Vehicle)
    ensures Passengers(vs + [v]) == Passengers(vs) + if IsPassenger(v.kind) then [|vs|] else []
  {
    assert (vs + [v])[..|vs|] == vs;
  }

  lemma {:induction false} PassengersConcat(a: seq<Vehicle>, b: seq<Vehicle>)
    ensures Passengers(a + b) == Passengers(a) + Offset(Passengers(b), |a|)
  {
    hide IsPassenger;
    hide Passengers;
    if b == [] {
      NoWagons([]);
      assert a + b == a;
    } else {
      var last := |b| - 1;
      var init, v := b[..last], b[last];
      PassengersConcat(a, init);
      PassengersSnoc(init, v);
      PassengersSnoc(a + init, v);
      assert init + [v] == b && (a + init) + [v] == a + b;
    }
  }

  function Offset(ps: seq<nat>, n: nat): (r: seq<nat>)
    ensures |r| == |ps|
    ensures forall i :: 0 <= i < |ps| ==> r[i] == ps[i] + n
  {
    seq(|ps|, i requires 0 <= i < |ps| => ps[i] + n)
  }

  lemma {:induction false} PassengersInserted(vs: seq<Vehicle>, k: nat, v: Vehicle)
    requires k <= |vs| && IsPadding(v)
    ensures var ps, ps' := Passengers(vs), Passengers(Insert(vs, k, v));
            |ps'| == |ps| && forall i :: 0 <= i < |ps| ==> ps'[i] == Shift(k, ps[i])
  {
    assert [v][..0] == [];
    assert Passengers([v]) == [];
    PassengersConcat(vs[..k], vs[k..]);
    assert vs == vs[..k] + vs[k..];
    PassengersConcat(vs[..k], [v]);
    PassengersConcat(vs[..k] + [v], vs[k..]);
  }

  lemma {:induction false} BlockedInserted(vs: seq<Vehicle>, k: nat, v: Vehicle, p: nat, q: nat)
    requires k <= |vs| && IsPadding(v) && p <= q < |vs|
    ensures Blocked(Insert(vs, k, v), Shift(k, p), Shift(k, q)) == Blocked(vs, p, q)
  {
    hide Blocked;
    hide Insert;
    InsertedAt(vs, k, v, p);
    var vs', p' := Insert(vs, k, v), Shift(k, p);
    if p == q {
      BlockedStep(vs, p, p);
      BlockedStep(vs', p', p');
    } else {
      BlockedInserted(vs, k, v, p, q - 1);
      BlockedStep(vs, p, q - 1);
      InsertedAt(vs, k, v, q);
      InsertedAt(vs, k, v, q - 1);
      if q == k {
        BlockedOverPadding(vs', p', k);
      } else {
        BlockedStep(vs', p', Shift(k, q - 1));
      }
    }
  }

  lemma InsertedAt(vs: seq<Vehicle>, k: nat, v: Vehicle, i: nat)
    requires k <= |vs| && i < |vs|
    ensures |Insert(vs, k, v)| == |vs| + 1
    ensures Insert(vs, k, v)[k] == v && Insert(vs, k, v)[Shift(k, i)] == vs[i]
  {}

  lemma BlockedOverPadding(vs: seq<Vehicle>, p: nat, k: nat)
    requires p < k && k + 1 < |vs| && IsPadding(vs[k])
    ensures Blocked(vs, p, k + 1) <==> Blocked(vs, p, k - 1) || vs[k - 1].closes || vs[k + 1].opens
  {
    BlockedStep(vs, p, k - 1);
    BlockedStep(vs, p, k);
  }

  lemma PaddingIsIdle(vs: seq<Vehicle>, k: nat, v: Vehicle)
    requires k <= |vs| && IsPadding(v)
    ensures WagonsOf(Insert(vs, k, v)) == WagonsOf(vs)
  {
    var vs' := Insert(vs, k, v);
    var ps, ps' := Passengers(vs), Passengers(vs');
    PassengersInserted(vs, k, v);
    forall i | 0 <= i < |ps| ensures WagonAt(vs', i) == WagonAt(vs, i) {
      assert vs'[ps'[i]] == vs[ps[i]];
      if i + 1 < |ps| {
        BlockedInserted(vs, k, v, ps[i], ps[i + 1]);
      }
    }
  }

  /** Inserting a filler token anywhere between two others changes nothing. */
  lemma {:induction false} FillerIsIdle(before: seq<string>, filler: string, after: seq<string>)
    requires IsFiller(filler)
    ensures var s, s' := ScanAll(Start, before + after), ScanAll(Start, before + [filler] + after);
            s'.sectors == s.sectors && WagonsOf(s'.vehicles) == WagonsOf(s.vehicles)
  {
    hide IsFiller;
    hide IsPadding;
    ScanConcat(Start, before, after);
    ScanConcat(Start, before + [filler], after);
    ScanConcat(Start, before, [filler]);
    var s := ScanAll(Start, before);
    var v := FillerScans(s, filler);
    ScanShifts(s, after);
    ScanShifts(s.(vehicles := s.vehicles + [v]), after);
    var rest := ScanAll(s.(vehicles := []), after).vehicles;
    var vs := s.vehicles + rest;
    assert Insert(vs, |s.vehicles|, v) == s.vehicles + [v] + rest;
    PaddingIsIdle(vs, |s.vehicles|, v);
  }

  lemma InsertedFillerParses(a: string, filler: string, b: string)
    requires IsFiller(filler) && ',' !in filler
    ensures Parse(a + [','] + (filler + [','] + b)) == Parse(a + [','] + b)
  {
    hide IsFiller;
    hide ScanAll;
    SplitWhole(filler, ',');
    SplitConcat(a, b, ',');
    SplitConcat(filler, b, ',');
    SplitConcat(a, filler + [','] + b, ',');
    var sa, sb := Split(a, ','), Split(b, ',');
    assert sa + ([filler] + sb) == sa + [filler] + sb;
    FillerIsIdle(sa, filler, sb);
  }

  lemma LeadingFillerParses(filler: string, b: string)
    requires IsFiller(filler) && ',' !in filler
    ensures Parse(filler + [','] + b) == Parse(b)
  {
    hide IsFiller;
    hide ScanAll;
    SplitWhole(filler, ',');
    SplitConcat(filler, b, ',');
    var sb := Split(b, ',');
    assert [] + [filler] + sb == [filler] + sb && [] + sb == sb;
    FillerIsIdle([], filler, sb);
  }

  lemma TrailingFillerParses(a: string, filler: string)
    requires IsFiller(filler) && ',' !in filler
    ensures Parse(a + [','] + filler) == Parse(a)
  {
    hide IsFiller;
    hide ScanAll;
    SplitWhole(filler, ',');
    SplitConcat(a, filler, ',');
    var sa := Split(a, ',');
    assert sa + [filler] + [] == sa + [filler] && sa + [] == sa;
    FillerIsIdle(sa, filler, []);
  }

  /** No marks, and no vehicle of the grammar. */
  ghost predicate IsUnknown(raw: string) {
    var token := ReadToken(raw);
    token.lead.None? && token.trail.None? && !exists c :: WellFormed(c) && Canonical(c) && Render(c) == token.body
  }

  /** A token that is nothing the grammar knows is passed over. */
  lemma UnknownTokenIsIdle(a: string, raw: string, b: string)
    requires IsUnknown(raw) && ',' !in raw
    ensures Parse(a + [','] + (raw + [','] + b)) == Parse(a + [','] + b)
  {
    hide ScanAll;
    hide WagonsOf;
    hide Render;
    SplitWhole(raw, ',');
    SplitConcat(a, b, ',');
    SplitConcat(raw, b, ',');
    SplitConcat(a, raw + [','] + b, ',');
    var sa, sb := Split(a, ','), Split(b, ',');
    assert sa + ([raw] + sb) == sa + [raw] + sb;
    ScanConcat(Start, sa, sb);
    ScanConcat(Start, sa + [raw], sb);
    ScanConcat(Start, sa, [raw]);
    UnknownScans(ScanAll(Start, sa), raw);
  }

  lemma {:induction false} UnknownScans(s: Scan, raw: string)
    requires IsUnknown(raw)
    ensures ScanAll(s, [raw]) == s
  {
    hide ReadToken;
    hide Match;
    hide WellFormed;
    hide Canonical;
    hide Render;
    assert [raw][..0] == [];
    assert ScanAll(s, [raw]) == ScanToken(s, ReadToken(raw));
    if Match(ReadToken(raw).body).Some? {
      MatchIsSound(ReadToken(raw).body);
    }
  }

  /** The four types the format pads with, written on their own, are fillers. */
  lemma PlainTypesAreFillers(k: Kind)
    requires !IsPassenger(k)
    ensures IsFiller(KindText(k)) && ',' !in KindText(k)
  {
    hide Match;
    hide ReadToken;
    var c := Captures(false, "", false, k, false, None, None);
    PlainKindRenders(c);
    MatchIsComplete(c);
    PlainTextReads(KindText(k));
  }

  lemma PlainKindRenders(c: Captures)
    requires c == Captures(false, "", false, c.kind, false, None, None)
    ensures Render(c) == KindText(c.kind)
  {}

  lemma PlainTextReads(s: string)
    requires forall i :: 0 <= i < |s| ==> IsUpper(s[i]) || IsDigit(s[i])
    ensures ReadToken(s) == Token(None, s, None)
  {
    TrimNoBlanks(s);
    UnbracketAfter(s, "");
    assert s + "" == s;
  }

  /// ## Moving a trailing mark onto the next token

  lemma {:induction false} TrimStartKeepsEnd(s: string)
    requires s != "" && !IsWhitespace(s[|s| - 1])
    ensures TrimStart(s) != "" && TrimStart(s)[|TrimStart(s)| - 1] == s[|s| - 1]
  {
    if IsWhitespace(s[0]) {
      TrimStartKeepsEnd(s[1..]);
    }
  }

  lemma MarkAfterReads(x: string, mark: char)
    requires IsAlpha(mark) && (x != "" ==> !IsWhitespace(x[|x| - 1])) && ReadToken(x).trail.None?
    ensures ReadToken(x + ['@', mark]) ==
            if ReadToken(x) == Token(None, "", None) then Token(Some(Upper(mark)), "", None)
            else ReadToken(x).(trail := Some(Upper(mark)))
  {
    var text := ['@', mark];
    TrimStartBefore(x, text);
    TrimEndAfter(TrimStart(x) + text, "");
    assert TrimStart(x) + text + "" == TrimStart(x) + text;
    if x != "" {
      TrimStartKeepsEnd(x);
    }
    assert Trim(x) == TrimStart(x);
    UnbracketBefore(Trim(x), text);
    MarkAfterMarks(Unbracket(Trim(x)), mark);
  }

  lemma {:induction false} UnbracketBefore(a: string, b: string)
    requires forall i :: 0 <= i < |b| ==> b[i] != '[' && b[i] != ']'
    ensures Unbracket(a + b) == Unbracket(a) + b
  {
    if a == "" {
      assert a + b == b;
      UnbracketAfter(b, "");
      assert b + "" == b;
    } else {
      UnbracketBefore(a[1..], b);
      assert a + b == [a[0]] + (a[1..] + b) && a == [a[0]] + a[1..];
      UnbracketOne(a[0], a[1..] + b);
      UnbracketOne(a[0], a[1..]);
    }
  }

  lemma MarkAfterMarks(s: string, mark: char)
    requires IsAlpha(mark) && MarksOf(s).trail.None?
    ensures MarksOf(s + ['@', mark]) ==
            if s == "" then Token(Some(Upper(mark)), "", None) else MarksOf(s).(trail := Some(Upper(mark)))
    ensures MarksOf(s) == Token(None, "", None) <==> s == ""
  {
    var t := s + ['@', mark];
    if |s| >= 2 && s[0] == '@' && IsAlpha(s[1]) {
      assert t[2..] == s[2..] + ['@', mark];
      assert t[2..][..|t[2..]| - 2] == s[2..];
    } else if s != "" {
      assert t[..|t| - 2] == s;
    }
  }

  lemma MarkBeforeReads(y: string, mark: char)
    requires IsAlpha(mark) && (y != "" ==> !IsWhitespace(y[0])) && ReadToken(y).lead.None?
    ensures ReadToken(['@', mark] + y) == ReadToken(y).(lead := Some(Upper(mark)))
  {
    var text := ['@', mark];
    TrimEndAfter(text, y);
    UnbracketAfter(text, Unbracket(TrimEnd(y)));
    UnbracketAfter(text, TrimEnd(y));
    var bare := Unbracket(Trim(y));
    assert (text + bare)[2..] == bare;
  }

  lemma {:induction false} MarkMoves(s: Scan, x: string, y: string, mark: char)
    requires IsAlpha(mark)
    requires (x != "" ==> !IsWhitespace(x[|x| - 1])) && ReadToken(x).trail.None?
    requires (y != "" ==> !IsWhitespace(y[0])) && ReadToken(y).lead.None?
    ensures ScanAll(s, [x + ['@', mark], y]) == ScanAll(s, [x, ['@', mark] + y])
  {
    hide ReadToken;
    hide Match;
    MarkAfterReads(x, mark);
    MarkBeforeReads(y, mark);
    ScanPair(s, x + ['@', mark], y);
    ScanPair(s, x, ['@', mark] + y);
  }

  lemma ScanPair(s: Scan, x: string, y: string)
    ensures ScanAll(s, [x, y]) == ScanToken(ScanToken(s, ReadToken(x)), ReadToken(y))
  {
    hide ReadToken;
    hide ScanToken;
    var one, two := [x], [x, y];
    assert one[..|one| - 1] == [] && two[..|two| - 1] == one;
    assert ScanAll(s, one) == ScanToken(ScanAll(s, []), ReadToken(x));
  }

  predicate NoCommas(raws: seq<string>) {
    forall i :: 0 <= i < |raws| ==> ',' !in raws[i]
  }

  /** A trailing `@S` may as well lead the next token, when that has no leading mark. */
  lemma {:induction false} TrailingMarkMoves(before: seq<string>, x: string, y: string, mark: char, after: seq<string>)
    requires IsAlpha(mark)
    requires (x != "" ==> !IsWhitespace(x[|x| - 1])) && ReadToken(x).trail.None?
    requires (y != "" ==> !IsWhitespace(y[0])) && ReadToken(y).lead.None?
    requires ',' !in x && ',' !in y && NoCommas(before) && NoCommas(after)
    ensures Parse(Join(before + [x + ['@', mark], y] + after, ',')) == Parse(Join(before + [x, ['@', mark] + y] + after, ','))
  {
    var trailing, leading := [x + ['@', mark], y], [x, ['@', mark] + y];
    assert NoCommas(trailing) && NoCommas(leading);
    ParseJoined(before, trailing, after);
    ParseJoined(before, leading, after);
    MarkMoves(ScanAll(Start, before), x, y, mark);
  }

  lemma {:induction false} ParseJoined(before: seq<string>, middle: seq<string>, after: seq<string>)
    requires middle != [] && NoCommas(before) && NoCommas(middle) && NoCommas(after)
    ensures var scan := ScanAll(ScanAll(ScanAll(Start, before), middle), after);
            Parse(Join(before + middle + after, ',')) == (scan.sectors, WagonsOf(scan.vehicles))
  {
    hide ScanAll;
    hide WagonsOf;
    SplitJoin(before + middle + after, ',');
    ScanConcat(Start, before + middle, after);
    ScanConcat(Start, before, middle);
  }

  /// ## The mirror image

  function Flip(v: Vehicle): Vehicle {
    v.(opens := v.closes, closes := v.opens)
  }

  /** The same train seen from its other end. */
  function Mirror(vs: seq<Vehicle>): (r: seq<Vehicle>)
    ensures |r| == |vs|
    ensures forall i :: 0 <= i < |vs| ==> r[i] == Flip(vs[|vs| - 1 - i])
  {
    seq(|vs|, i requires 0 <= i < |vs| => Flip(vs[|vs| - 1 - i]))
  }

  /** `rs` is `ps` counted from the other end of `n` places. */
  predicate CountedBack(ps: seq<nat>, rs: seq<nat>, n: nat) {
    |rs| == |ps| && forall j :: 0 <= j < |ps| ==> rs[j] + ps[|ps| - 1 - j] + 1 == n
  }

  lemma CountedBackStep(ps: seq<nat>, rs: seq<nat>, n: nat, last: bool)
    requires CountedBack(ps, rs, n)
    ensures CountedBack(ps + if last then [n] else [], (if last then [0] else []) + Offset(rs, 1), n + 1)
  {}

  lemma {:induction false} PassengersMirrored(vs: seq<Vehicle>)
    ensures CountedBack(Passengers(vs), Passengers(Mirror(vs)), |vs|)
  {
    if vs != [] {
      var n := |vs| - 1;
      var init, first := vs[..n], [Flip(vs[n])];
      PassengersMirrored(init);
      CountedBackStep(Passengers(init), Passengers(Mirror(init)), n, IsPassenger(vs[n].kind));
      assert Mirror(vs) == first + Mirror(init);
      PassengersConcat(first, Mirror(init));
      assert first[..0] == [];
      assert Passengers(first) == if IsPassenger(vs[n].kind) then [0] else [];
    }
  }

  lemma BlockedMirrored(vs: seq<Vehicle>, p: nat, q: nat)
    requires p <= q < |vs|
    ensures Blocked(Mirror(vs), |vs| - 1 - q, |vs| - 1 - p) == Blocked(vs, p, q)
  {
    hide Blocked;
    var n := |vs| - 1;
    BlockedMeans(vs, p, q);
    BlockedMeans(Mirror(vs), n - q, n - p);
    if Blocked(vs, p, q) {
      var r :| p <= r <= q && ((r < q && vs[r].closes) || (p < r && vs[r].opens));
      assert Mirror(vs)[n - r] == Flip(vs[r]);
    }
    if Blocked(Mirror(vs), n - q, n - p) {
      var r :| n - q <= r <= n - p && ((r < n - p && Mirror(vs)[r].closes) || (n - q < r && Mirror(vs)[r].opens));
      assert Mirror(vs)[r] == Flip(vs[n - r]);
    }
  }

  predicate SameCar(w: Wagon, w': Wagon) {
    && w'.sector == w.sector && w'.features == w.features && w'.closed == w.closed && w'.firstClass == w.firstClass
    && w'.mixedClass == w.mixedClass && w'.bikeReservation == w.bikeReservation
    && w'.numberUnknown == w.numberUnknown && (!w.numberUnknown ==> w'.number == w.number)
  }

  /** Seen from the other end the same cars follow in reverse. */
  lemma MirrorReversesCars(vs: seq<Vehicle>, i: nat)
    requires i < |WagonsOf(vs)|
    ensures |WagonsOf(Mirror(vs))| == |WagonsOf(vs)|
    ensures SameCar(WagonsOf(vs)[i], WagonsOf(Mirror(vs))[|WagonsOf(vs)| - 1 - i])
  {
    hide Blocked;
    hide FeatureNames;
    PassengersMirrored(vs);
    var j := |Passengers(vs)| - 1 - i;
    var p := Passengers(vs)[i];
    assert Passengers(Mirror(vs))[j] == |vs| - 1 - p;
    assert Mirror(vs)[|vs| - 1 - p] == Flip(vs[p]);
  }

  /** The passage between two neighbours is shut iff it was. */
  lemma MirrorReversesBoundaries(vs: seq<Vehicle>, i: nat)
    requires i + 1 < |WagonsOf(vs)|
    ensures |WagonsOf(Mirror(vs))| == |WagonsOf(vs)|
    ensures WagonsOf(Mirror(vs))[|WagonsOf(vs)| - 2 - i].noPassageAfter == WagonsOf(vs)[i].noPassageAfter
  {
    hide Blocked;
    hide Mirror;
    hide FeatureNames;
    hide FeaturesOf;
    PassengersMirrored(vs);
    var ps, ps' := Passengers(vs), Passengers(Mirror(vs));
    var j := |ps| - 2 - i;
    assert ps'[j] == |vs| - 1 - ps[i + 1] && ps'[j + 1] == |vs| - 1 - ps[i];
    BlockedMirrored(vs, ps[i], ps[i + 1]);
  }
}

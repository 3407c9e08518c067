/** Parsing a formationShortString into sectors and passenger wagons, front first. */
module Formation {
  import opened Wrappers
  import opened Text
  import opened FormationToken

  const U32_BOUND: nat := 0x1_0000_0000

  datatype Vehicle = Vehicle(kind: Kind, sector: string, number: Option<nat>, opens: bool, closes: bool,
                             closed: bool, notServing: bool, offers: seq<string>)

  datatype Wagon = Wagon(position: nat, number: nat, firstClass: bool, sector: string, features: seq<string>,
                         closed: bool, noPassageAfter: bool, mixedClass: bool, bikeReservation: bool,
                         numberUnknown: bool)

  /// ## Tokens

  function Unbracket(s: string): string {
    if s == "" then ""
    else (if s[0] == '[' || s[0] == ']' then "" else [s[0]]) + Unbracket(s[1..])
  }

  predicate NoBlanks(s: string) {
    forall i :: 0 <= i < |s| ==> !IsWhitespace(s[i])
  }

  lemma TrimNoBlanks(s: string)
    requires NoBlanks(s)
    ensures Trim(s) == s
  {}

  lemma {:induction false} UnbracketAfter(a: string, b: string)
    requires forall i :: 0 <= i < |a| ==> a[i] != '[' && a[i] != ']'
    ensures Unbracket(a + b) == a + Unbracket(b)
  {
    if a == "" {
      assert a + b == b;
    } else {
      UnbracketAfter(a[1..], b);
      assert (a + b)[1..] == a[1..] + b;
    }
  }

  /** A token's leading and trailing sector marks and what is left between them. */
  datatype Token = Token(lead: Option<char>, body: string, trail: Option<char>)

  function TrailOf(s: string): (string, Option<char>) {
    // The last `@` is followed by exactly one letter.
    if |s| >= 2 && s[|s| - 2] == '@' && IsAlpha(s[|s| - 1])
    then (s[..|s| - 2], Some(Upper(s[|s| - 1])))
    else (s, None)
  }

  /** Marks of a token already trimmed and freed of brackets. */
  function MarksOf(s: string): Token {
    if |s| >= 2 && s[0] == '@' && IsAlpha(s[1])
    then var (body, trail) := TrailOf(s[2..]); Token(Some(Upper(s[1])), body, trail)
    else var (body, trail) := TrailOf(s); Token(None, body, trail)
  }

  predicate IsMark(text: string, mark: Option<char>) {
    if mark.None? then text == "" else |text| == 2 && text[0] == '@' && IsAlpha(text[1]) && mark.value == Upper(text[1])
  }

  lemma TrailIs(s: string) returns (back: string)
    ensures s == TrailOf(s).0 + back && IsMark(back, TrailOf(s).1)
    ensures var body := TrailOf(s).0; back == "" && |body| >= 2 && body[|body| - 2] == '@' ==> !IsAlpha(body[|body| - 1])
  {
    back := s[|TrailOf(s).0|..];
  }

  /** The text is a mark, the body and a mark again; a mark is missing only where none stands. */
  lemma MarksAre(s: string) returns (front: string, back: string)
    ensures s == front + (MarksOf(s).body + back) && IsMark(front, MarksOf(s).lead) && IsMark(back, MarksOf(s).trail)
    ensures front == "" && |s| >= 2 && s[0] == '@' ==> !IsAlpha(s[1])
    ensures var body := MarksOf(s).body; back == "" && |body| >= 2 && body[|body| - 2] == '@' ==> !IsAlpha(body[|body| - 1])
  {
    hide TrailOf;
    if |s| >= 2 && s[0] == '@' && IsAlpha(s[1]) {
      front := s[..2];
      back := TrailIs(s[2..]);
      assert s == front + s[2..];
    } else {
      front := "";
      back := TrailIs(s);
    }
  }

  function ReadToken(raw: string): Token {
    MarksOf(Unbracket(Trim(raw)))
  }

  function VehicleOf(c: Captures, sector: string): Vehicle {
    Vehicle(c.kind, sector,
            if c.number.Some? then ParseBelow(c.number.value, U32_BOUND) else None,
            c.paren || c.innerParen, c.closing, '-' in c.status, '%' in c.status,
            if c.offers.Some? then Offers(Split(c.offers.value, ';')) else [])
  }

  function Offers(parts: seq<string>): (offers: seq<string>)
    ensures |offers| == |parts|
    ensures forall i :: 0 <= i < |parts| ==> offers[i] == UpperAll(Trim(parts[i]))
  {
    seq(|parts|, i requires 0 <= i < |parts| => UpperAll(Trim(parts[i])))
  }

  /// ## The scan

  /** The sector in force, the sectors met so far and the vehicles so far. */
  datatype Scan = Scan(sector: string, sectors: seq<string>, vehicles: seq<Vehicle>)

  const Start := Scan("", [], [])

  function Enter(s: Scan, mark: Option<char>): Scan {
    if mark.None? then s
    else
      var sector := [mark.value];
      s.(sector := sector, sectors := if sector in s.sectors then s.sectors else s.sectors + [sector])
  }

  function AddVehicle(s: Scan, body: string): Scan {
    if body != "" && Match(body).Some? then s.(vehicles := s.vehicles + [VehicleOf(Match(body).value, s.sector)]) else s
  }

  function ScanToken(s: Scan, token: Token): Scan {
    Enter(AddVehicle(Enter(s, token.lead), token.body), token.trail)
  }

  function ScanAll(s: Scan, raws: seq<string>): Scan {
    if raws == [] then s else ScanToken(ScanAll(s, raws[..|raws| - 1]), ReadToken(raws[|raws| - 1]))
  }

  /// ## Wagons

  predicate IsPassenger(k: Kind) {
    !k.LK? && !k.D? && !k.F? && !k.X?
  }

  /** The indices of the passenger cars, in order. */
  function Passengers(vs: seq<Vehicle>): (ps: seq<nat>)
    ensures forall i :: 0 <= i < |ps| ==> ps[i] < |vs| && IsPassenger(vs[ps[i]].kind)
    ensures forall i, j :: 0 <= i < j < |ps| ==> ps[i] < ps[j]
  {
    if vs == [] then []
    else
      var last := |vs| - 1;
      Passengers(vs[..last]) + if IsPassenger(vs[last].kind) then [last] else []
  }

  /** Between vehicles `p` and `q` some vehicle end has no access to its neighbour. */
  predicate Blocked(vs: seq<Vehicle>, p: nat, q: nat) {
    p < q < |vs| && (Blocked(vs, p, q - 1) || vs[q - 1].closes || vs[q].opens)
  }

  lemma BlockedStep(vs: seq<Vehicle>, p: nat, i: nat)
    requires p <= i < |vs|
    ensures !Blocked(vs, i, i) && (p < i && vs[i].opens ==> Blocked(vs, p, i))
    ensures i + 1 < |vs| ==> (Blocked(vs, p, i + 1) <==> Blocked(vs, p, i) || vs[i].closes || vs[i + 1].opens)
  {}

  /** Spelled out: some vehicle in [p, q) closes or some vehicle in (p, q] opens. */
  lemma {:induction false} BlockedMeans(vs: seq<Vehicle>, p: nat, q: nat)
    requires p <= q < |vs|
    ensures Blocked(vs, p, q) <==> exists r :: p <= r <= q && ((r < q && vs[r].closes) || (p < r && vs[r].opens))
  {
    if p < q {
      BlockedMeans(vs, p, q - 1);
      if Blocked(vs, p, q - 1) {
        var r :| p <= r <= q - 1 && ((r < q - 1 && vs[r].closes) || (p < r && vs[r].opens));
      }
    }
  }

  /** The features of a car, and below the strings older apps read them as, `bike` last. */
  datatype Features = Features(wheelchair: bool, restaurant: bool, family: bool, business: bool, lowFloor: bool, bike: bool)

  function FeaturesOf(v: Vehicle): Features {
    Features("BHP" in v.offers,
             (v.kind.WR? || v.kind.W1? || v.kind.W2?) && !v.notServing,
             v.kind.FA? || "FZ" in v.offers,
             "BZ" in v.offers,
             "NF" in v.offers,
             "VH" in v.offers || "VR" in v.offers)
  }

  const FEATURES := ["wheelchair", "restaurant", "family", "business", "low_floor", "bike"]

  function Flags(f: Features): (flags: seq<bool>)
    ensures |flags| == |FEATURES|
  {
    [f.wheelchair, f.restaurant, f.family, f.business, f.lowFloor, f.bike]
  }

  function FeatureNames(f: Features): seq<string> {
    Chosen(FEATURES, Flags(f))
  }

  function Chosen(names: seq<string>, flags: seq<bool>): (chosen: seq<string>)
    requires |names| == |flags|
    ensures forall n :: n in chosen ==> n in names
  {
    if names == [] then [] else (if flags[0] then [names[0]] else []) + Chosen(names[1..], flags[1..])
  }

  predicate Different(names: seq<string>) {
    forall i, j :: 0 <= i < j < |names| ==> names[i] != names[j]
  }

  lemma {:induction false} ChosenAreFlagged(names: seq<string>, flags: seq<bool>)
    requires |names| == |flags| && Different(names)
    ensures Different(Chosen(names, flags))
    ensures forall i :: 0 <= i < |names| ==> (names[i] in Chosen(names, flags) <==> flags[i])
    ensures names != [] && flags[|flags| - 1] ==>
              Chosen(names, flags) != [] && Chosen(names, flags)[|Chosen(names, flags)| - 1] == names[|names| - 1]
  {
    if names != [] {
      var rest := Chosen(names[1..], flags[1..]);
      ChosenAreFlagged(names[1..], flags[1..]);
      assert names[0] !in names[1..];
      assert forall i :: 0 < i < |names| ==> names[i] == names[1..][i - 1] && flags[i] == flags[1..][i - 1];
    }
  }

  lemma FeaturesDiffer()
    ensures Different(FEATURES)
  {
    assert FEATURES[0][0] == 'w' && FEATURES[1][0] == 'r' && FEATURES[2][0] == 'f';
    assert FEATURES[3][0] == 'b' && FEATURES[4][0] == 'l' && FEATURES[5][0] == 'b';
    assert |FEATURES[3]| != |FEATURES[5]|;
  }

  /** The features a car has are named, each once and in the order older apps expect, `bike`
      last. */
  lemma FeaturesAreNamed(f: Features)
    ensures Different(FeatureNames(f))
    ensures forall i :: 0 <= i < |FEATURES| ==> (FEATURES[i] in FeatureNames(f) <==> Flags(f)[i])
    ensures f.bike ==> FeatureNames(f) != [] && FeatureNames(f)[|FeatureNames(f)| - 1] == "bike"
  {
    FeaturesDiffer();
    ChosenAreFlagged(FEATURES, Flags(f));
  }

  function WagonOf(v: Vehicle, position: nat, noPassageAfter: bool): (w: Wagon)
    ensures w.noPassageAfter == noPassageAfter
  {
    Wagon(position, if v.number.Some? then v.number.value else position,
          v.kind.First? || v.kind.W1? || v.kind.Mixed?, v.sector, FeatureNames(FeaturesOf(v)), v.closed, noPassageAfter,
          v.kind.Mixed?, "VR" in v.offers, v.number.None?)
  }

  /** The `i`-th wagon has no passage after it iff there is a next passenger car and
      somewhere between the two a vehicle end is shut. */
  function WagonAt(vs: seq<Vehicle>, i: nat): Wagon
    requires i < |Passengers(vs)|
  {
    var ps := Passengers(vs);
    WagonOf(vs[ps[i]], i + 1, i + 1 < |ps| && Blocked(vs, ps[i], ps[i + 1]))
  }

  function WagonsOf(vs: seq<Vehicle>): (ws: seq<Wagon>)
    ensures |ws| == |Passengers(vs)|
    ensures forall i :: 0 <= i < |ws| ==> ws[i] == WagonAt(vs, i)
  {
    seq(|Passengers(vs)|, i requires 0 <= i < |Passengers(vs)| => WagonAt(vs, i))
  }

  /// ## The parser

  function Parse(short: string): (seq<string>, seq<Wagon>) {
    var scan := ScanAll(Start, Split(short, ','));
    (scan.sectors, WagonsOf(scan.vehicles))
  }

  method ParseFormationShortString(short: string) returns (sectors: seq<string>, wagons: seq<Wagon>)
    ensures (sectors, wagons) == Parse(short)
  {
    hide AddVehicle;
    hide Enter;
    hide ReadToken;
    hide WagonsOf;
    var scan := Start;
    var raws := Split(short, ',');
    for i := 0 to |raws|
      invariant scan == ScanAll(Start, raws[..i])
    {
      var token := TakeMarks(raws[i]);
      scan := Enter(scan, token.lead);
      scan := PushVehicle(scan, token.body);
      scan := Enter(scan, token.trail);
      assert raws[..i + 1][..i] == raws[..i];
    }
    assert raws[..|raws|] == raws;
    sectors := scan.sectors;
    ghost var beforeClearing: seq<Wagon>;
    wagons, beforeClearing := BuildWagons(scan.vehicles);
  }

  method PushVehicle(scan: Scan, body: string) returns (pushed: Scan)
    ensures pushed == AddVehicle(scan, body)
  {
    pushed := scan;
    if body != "" {
      var c := Match(body);
      if c.Some? {
        pushed := scan.(vehicles := scan.vehicles + [VehicleOf(c.value, scan.sector)]);
      }
    }
  }

  method TakeMarks(raw: string) returns (token: Token)
    ensures token == ReadToken(raw)
  {
    var text := Unbracket(Trim(raw));
    var lead, trail := None, None;
    if |text| >= 2 && text[0] == '@' && IsAlpha(text[1]) {
      lead := Some(Upper(text[1]));
      text := text[2..];
    }
    if |text| >= 2 && text[|text| - 2] == '@' && IsAlpha(text[|text| - 1]) {
      trail := Some(Upper(text[|text| - 1]));
      text := text[..|text| - 2];
    }
    token := Token(lead, text, trail);
  }

  /** The boundary loop: one vehicle of lookahead, and a flag carried across the vehicles
      that are skipped. The final clearing of the last wagon changes nothing. */
  method BuildWagons(vehicles: seq<Vehicle>) returns (wagons: seq<Wagon>, ghost beforeClearing: seq<Wagon>)
    ensures wagons == WagonsOf(vehicles)
    ensures beforeClearing == wagons
  {
    hide WagonOf;
    hide Blocked;
    hide AreWagonsAt;
    hide Passengers;
    hide WagonsOf;
    hide MarkLast;
    wagons := [];
    var boundaryPending := false;
    ghost var ps: seq<nat> := [];
    NoWagons(vehicles);
    for i := 0 to |vehicles|
      invariant ps == Passengers(vehicles[..i]) && |wagons| == |ps|
      invariant AreWagonsAt(vehicles, ps, wagons)
      invariant wagons != [] && i < |vehicles| ==> (boundaryPending <==> Blocked(vehicles, ps[|ps| - 1], i))
    {
      var v := vehicles[i];
      var nextOpens := i + 1 < |vehicles| && vehicles[i + 1].opens;
      PassengersStep(vehicles, i);
      if !IsPassenger(v.kind) {
        if wagons != [] {
          BlockedStep(vehicles, ps[|ps| - 1], i);
        }
        boundaryPending := boundaryPending || v.closes || nextOpens;
      } else {
        if wagons != [] {
          BlockedStep(vehicles, ps[|ps| - 1], i);
        }
        BlockedStep(vehicles, i, i);
        ExtendWagons(vehicles, ps, wagons, i, boundaryPending || v.opens);
        wagons := MarkLast(wagons, boundaryPending || v.opens);
        boundaryPending := v.closes || nextOpens;
        var position := |wagons| + 1;
        wagons := wagons + [WagonOf(v, position, false)];
        ps := ps + [i];
      }
    }
    assert vehicles[..|vehicles|] == vehicles;
    AllWagons(vehicles, wagons);
    beforeClearing := wagons;
    if wagons != [] {
      wagons := wagons[|wagons| - 1 := wagons[|wagons| - 1].(noPassageAfter := false)];
    }
  }

  lemma NoWagons(vs: seq<Vehicle>)
    ensures Passengers([]) == [] && AreWagonsAt(vs, [], [])
  {}

  lemma PassengersStep(vs: seq<Vehicle>, i: nat)
    requires i < |vs|
    ensures Passengers(vs[..i + 1]) == Passengers(vs[..i]) + if IsPassenger(vs[i].kind) then [i] else []
  {
    assert vs[..i + 1][..i] == vs[..i];
  }

  function MarkLast(ws: seq<Wagon>, shut: bool): seq<Wagon> {
    if ws != [] && shut then ws[|ws| - 1 := ws[|ws| - 1].(noPassageAfter := true)] else ws
  }

  lemma {:induction false} SettledAt(vs: seq<Vehicle>, ps: seq<nat>, ws: seq<Wagon>, i: nat, shut: bool, j: nat)
    requires |ws| == |ps| && j < |ps| && IsWagonAt(vs, ps, j, ws[j])
    requires shut <==> Blocked(vs, ps[|ps| - 1], i)
    ensures |MarkLast(ws, shut)| == |ws| && IsWagonAt(vs, ps + [i], j, MarkLast(ws, shut)[j])
  {
    hide Blocked;
    hide FeatureNames;
    hide FeaturesOf;
    var ps' := ps + [i];
    assert ps'[j] == ps[j] && ps'[j + 1] == if j + 1 < |ps| then ps[j + 1] else i;
  }

  /** The next passenger car settles the flag of the wagon before it. */
  lemma ExtendWagons(vs: seq<Vehicle>, ps: seq<nat>, ws: seq<Wagon>, i: nat, shut: bool)
    requires AreWagonsAt(vs, ps, ws) && i < |vs| && forall k :: 0 <= k < |ps| ==> ps[k] < i
    requires ws != [] ==> (shut <==> Blocked(vs, ps[|ps| - 1], i))
    ensures |MarkLast(ws, shut)| == |ws|
    ensures AreWagonsAt(vs, ps + [i], MarkLast(ws, shut) + [WagonOf(vs[i], |ws| + 1, false)])
  {
    hide WagonOf;
    hide Blocked;
    var settled, ps' := MarkLast(ws, shut), ps + [i];
    var extended := settled + [WagonOf(vs[i], |ws| + 1, false)];
    forall j | 0 <= j < |ps'| ensures IsWagonAt(vs, ps', j, extended[j]) {
      if j < |ps| {
        SettledAt(vs, ps, ws, i, shut, j);
      }
    }
  }

  ghost predicate AreWagonsAt(vs: seq<Vehicle>, ps: seq<nat>, ws: seq<Wagon>) {
    && |ws| == |ps|
    && (forall k :: 0 <= k < |ps| ==> ps[k] < |vs|)
    && (forall k, l :: 0 <= k < l < |ps| ==> ps[k] < ps[l])
    && (ws != [] ==> !ws[|ws| - 1].noPassageAfter)
    && (forall j :: 0 <= j < |ps| ==> IsWagonAt(vs, ps, j, ws[j]))
  }

  lemma {:induction false} AllWagons(vs: seq<Vehicle>, ws: seq<Wagon>)
    requires AreWagonsAt(vs, Passengers(vs), ws)
    ensures ws == WagonsOf(vs)
    ensures ws != [] ==> ws[|ws| - 1 := ws[|ws| - 1].(noPassageAfter := false)] == ws
  {
    hide WagonOf;
    hide Blocked;
    forall j | 0 <= j < |ws| ensures ws[j] == WagonAt(vs, j) {
      assert IsWagonAt(vs, Passengers(vs), j, ws[j]);
    }
  }

  predicate IsWagonAt(vs: seq<Vehicle>, ps: seq<nat>, j: nat, w: Wagon)
  {
    j < |ps| && ps[j] < |vs| && w == WagonOf(vs[ps[j]], j + 1, j + 1 < |ps| && Blocked(vs, ps[j], ps[j + 1]))
  }

  lemma {:induction false} PassengersAreAll(vs: seq<Vehicle>, r: nat)
    requires r < |vs|
    ensures r in Passengers(vs) <==> IsPassenger(vs[r].kind)
  {
    var last := |vs| - 1;
    if r < last {
      PassengersAreAll(vs[..last], r);
    } else {
      assert IsPassenger(vs[last].kind) ==> Passengers(vs)[|Passengers(vs)| - 1] == last;
    }
  }

  /** Wagon `i` has no passage after it iff there is a next passenger car and, for their
      vehicles p < q, some vehicle in [p, q) closes or some vehicle in (p, q] opens. */
  lemma {:induction false} BoundaryMeans(vs: seq<Vehicle>, i: nat)
    requires i < |WagonsOf(vs)|
    ensures var ps := Passengers(vs);
            WagonsOf(vs)[i].noPassageAfter <==>
              i + 1 < |ps|
              && exists r :: ps[i] <= r <= ps[i + 1]
                          && ((r < ps[i + 1] && vs[r].closes) || (ps[i] < r && vs[r].opens))
  {
    hide Blocked;
    var ps := Passengers(vs);
    if i + 1 < |ps| {
      BlockedMeans(vs, ps[i], ps[i + 1]);
    }
  }
}

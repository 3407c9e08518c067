/** Printing a formation in the documented grammar and parsing it gives it back. */
module FormationRoundTrip {
  import opened Wrappers
  import opened Text
  import opened FormationToken
  import opened Formation

  /** A vehicle as the grammar lets it be written. */
  datatype Car = Car(paren: bool, status: string, innerParen: bool, kind: Kind, closing: bool,
                     number: Option<nat>, offers: seq<string>)

  /** A token: sector marks before and after, brackets around the train's own vehicles, and
      possibly no vehicle at all, between blanks. */
  datatype Slot = Slot(before: string, lead: Option<char>, open: bool, car: Option<Car>, close: bool, trail: Option<char>,
                       after: string)

  predicate IsLetter(c: char) {
    'A' <= c <= 'Z' || 'a' <= c <= 'z'
  }

  predicate IsOfferText(s: string) {
    forall i :: 0 <= i < |s| ==> IsLetter(s[i]) || '0' <= s[i] <= '9'
  }

  /** Any status marks, any number, and offers of letters and digits in either case. */
  ghost predicate ValidCar(c: Car) {
    && (forall i :: 0 <= i < |c.status| ==> c.status[i] in {'-', '%', '>', '='})
    && (forall i :: 0 <= i < |c.offers| ==> IsOfferText(c.offers[i]))
    && c.offers != [""]
  }

  ghost predicate ValidSlot(s: Slot) {
    && AllBlank(s.before) && AllBlank(s.after)
    && (s.lead.Some? ==> IsLetter(s.lead.value))
    && (s.trail.Some? ==> IsLetter(s.trail.value))
    && (s.car.Some? ==> ValidCar(s.car.value))
  }

  ghost predicate Valid(slots: seq<Slot>) {
    forall i :: 0 <= i < |slots| ==> ValidSlot(slots[i])
  }

  /// ## Printing

  function CapturesOf(c: Car): Captures {
    Captures(c.paren, c.status, c.innerParen, c.kind, c.closing,
             if c.number.Some? then Some(Decimal(c.number.value)) else None,
             if c.offers == [] then None else Some(Join(c.offers, ';')))
  }

  function MarkText(mark: Option<char>): string {
    if mark.Some? then ['@', mark.value] else ""
  }

  function CarText(car: Option<Car>): string {
    if car.Some? then Render(CapturesOf(car.value)) else ""
  }

  function CoreText(s: Slot): string {
    MarkText(s.lead) + (Mark(s.open, '[') + (CarText(s.car) + (Mark(s.close, ']') + MarkText(s.trail))))
  }

  function SlotText(s: Slot): string {
    s.before + (CoreText(s) + s.after)
  }

  function SlotTexts(slots: seq<Slot>): (texts: seq<string>)
    ensures |texts| == |slots|
  {
    if slots == [] then [] else SlotTexts(slots[..|slots| - 1]) + [SlotText(slots[|slots| - 1])]
  }

  function Print(slots: seq<Slot>): string {
    if slots == [] then "" else Join(SlotTexts(slots), ',')
  }

  /// ## What the formation says

  function UpperMark(mark: Option<char>): Option<char> {
    if mark.Some? then Some(Upper(mark.value)) else None
  }

  function MarkList(mark: Option<char>): seq<char> {
    if mark.Some? then [Upper(mark.value)] else []
  }

  /** All sector marks in the order they are met. */
  function Marks(slots: seq<Slot>): seq<char> {
    if slots == [] then []
    else
      var s := slots[|slots| - 1];
      Marks(slots[..|slots| - 1]) + MarkList(s.lead) + MarkList(s.trail)
  }

  /** The sector in force after some marks: the last one, or none. */
  function SectorAfter(marks: seq<char>): string {
    if marks == [] then "" else [marks[|marks| - 1]]
  }

  /** The distinct marks in the order of their first appearance. */
  function Distinct(marks: seq<char>): seq<char> {
    if marks == [] then []
    else
      var before, last := Distinct(marks[..|marks| - 1]), marks[|marks| - 1];
      if last in before then before else before + [last]
  }

  function Names(marks: seq<char>): (names: seq<string>)
    ensures |names| == |marks|
    ensures forall i :: 0 <= i < |marks| ==> names[i] == [marks[i]]
  {
    seq(|marks|, i requires 0 <= i < |marks| => [marks[i]])
  }

  function UpperOffers(offers: seq<string>): (upper: seq<string>)
    ensures |upper| == |offers|
    ensures forall i :: 0 <= i < |offers| ==> upper[i] == UpperAll(offers[i])
  {
    seq(|offers|, i requires 0 <= i < |offers| => UpperAll(offers[i]))
  }

  /** A number that does not fit 32 bits counts as none. */
  function MeantVehicle(c: Car, sector: string): Vehicle {
    Vehicle(c.kind, sector, if c.number.Some? && c.number.value < 0x1_0000_0000 then c.number else None,
            c.paren || c.innerParen, c.closing, '-' in c.status, '%' in c.status, UpperOffers(c.offers))
  }

  /** Every car, in the sector of the last mark before it. */
  function Vehicles(slots: seq<Slot>): seq<Vehicle> {
    if slots == [] then []
    else
      var before, s := slots[..|slots| - 1], slots[|slots| - 1];
      Vehicles(before) +
      if s.car.Some? then [MeantVehicle(s.car.value, SectorAfter(Marks(before) + MarkList(s.lead)))] else []
  }

  lemma {:induction false} DistinctHasEachOnce(marks: seq<char>)
    ensures forall i, j :: 0 <= i < j < |Distinct(marks)| ==> Distinct(marks)[i] != Distinct(marks)[j]
    ensures forall m :: m in Distinct(marks) <==> m in marks
  {
    if marks != [] {
      var n := |marks| - 1;
      DistinctHasEachOnce(marks[..n]);
      assert marks == marks[..n] + [marks[n]];
    }
  }

  /** Whatever stands before another mark in `Distinct` was met before it. */
  lemma {:induction false} DistinctKeepsOrder(marks: seq<char>, i: nat, j: nat, p: nat)
    requires i < j < |Distinct(marks)| && p < |marks| && Distinct(marks)[j] == marks[p]
    ensures Distinct(marks)[i] in marks[..p]
  {
    var n := |marks| - 1;
    var d := Distinct(marks[..n]);
    DistinctHasEachOnce(marks[..n]);
    if p < n {
      assert marks[..n][p] in d;
      if j == |d| {
        assert false;
      }
      DistinctKeepsOrder(marks[..n], i, j, p);
      assert marks[..n][..p] == marks[..p];
    } else {
      assert d[i] in marks[..n];
    }
  }

  /// ## Reading back one token

  /** A character that is neither blank nor one of the marks around and between vehicles. */
  predicate IsPlain(c: char) {
    !IsWhitespace(c) && c != '[' && c != ']' && c != '@' && c != ','
  }

  predicate AllPlain(s: string) {
    forall i :: 0 <= i < |s| ==> IsPlain(s[i])
  }

  lemma {:induction false} JoinOffers(offers: seq<string>)
    requires |offers| >= 1 && forall i :: 0 <= i < |offers| ==> IsOfferText(offers[i])
    ensures forall i :: 0 <= i < |Join(offers, ';')| ==> IsOffer(Join(offers, ';')[i])
    ensures offers != [""] ==> Join(offers, ';') != ""
  {
    if |offers| > 1 {
      JoinOffers(offers[1..]);
    }
  }

  lemma CapturesWellFormed(c: Car)
    requires ValidCar(c)
    ensures WellFormed(CapturesOf(c))
  {
    if c.offers != [] {
      JoinOffers(c.offers);
    }
  }

  lemma CarTextIsPlain(c: Car)
    requires ValidCar(c)
    ensures CarText(Some(c)) != "" && AllPlain(CarText(Some(c)))
  {
    CapturesWellFormed(c);
    RenderIsPlain(CapturesOf(c));
  }

  lemma RenderIsPlain(c: Captures)
    requires WellFormed(c)
    ensures Render(c) != "" && AllPlain(Render(c))
  {
    hide AllPlain;
    PiecesArePlain(c);
    KindIsPlain(c.kind);
    var number, offers := Tagged(':', c.number), Tagged('#', c.offers);
    PlainConcat(number, offers);
    PlainConcat(Mark(c.closing, ')'), number + offers);
    PlainConcat(KindText(c.kind), RenderTail(c));
    var rest := KindText(c.kind) + RenderTail(c);
    PlainConcat(Mark(c.innerParen, '('), rest);
    PlainConcat(c.status, Mark(c.innerParen, '(') + rest);
    PlainConcat(Mark(c.paren, '('), c.status + (Mark(c.innerParen, '(') + rest));
  }

  lemma KindIsPlain(k: Kind)
    ensures AllPlain(KindText(k))
  {}

  lemma PiecesArePlain(c: Captures)
    requires WellFormed(c)
    ensures AllPlain(Mark(c.paren, '(')) && AllPlain(Mark(c.innerParen, '(')) && AllPlain(Mark(c.closing, ')'))
    ensures AllPlain(c.status) && AllPlain(Tagged(':', c.number)) && AllPlain(Tagged('#', c.offers))
  {}

  lemma PlainConcat(a: string, b: string)
    requires AllPlain(a) && AllPlain(b)
    ensures AllPlain(a + b)
  {}

  lemma {:induction false} UnbracketMark(present: bool, c: char, b: string)
    requires c == '[' || c == ']'
    ensures Unbracket(Mark(present, c) + b) == Unbracket(b)
  {
    assert Mark(false, c) + b == b;
  }

  /** Trimming and unbracketing leave the marks around the vehicle. */
  lemma SlotTextBare(s: Slot)
    requires ValidSlot(s)
    ensures Unbracket(Trim(SlotText(s))) == MarkText(s.lead) + (CarText(s.car) + MarkText(s.trail))
    ensures ',' !in SlotText(s)
  {
    hide Unbracket;
    hide Trim;
    CarTextPlain(s);
    Bare(MarkText(s.lead), s.open, CarText(s.car), s.close, MarkText(s.trail));
    TrimTakesBlanks(s.before, CoreText(s), s.after);
    BlanksAreNoCommas(s.before);
    BlanksAreNoCommas(s.after);
  }

  lemma BlanksAreNoCommas(b: string)
    requires AllBlank(b)
    ensures ',' !in b
  {}

  lemma Bare(lead: string, open: bool, car: string, close: bool, trail: string)
    requires NoMarks(lead) && NoMarks(car) && NoMarks(trail)
    ensures var text := lead + (Mark(open, '[') + (car + (Mark(close, ']') + trail)));
            Unbracket(text) == lead + (car + trail) && NoBlankNoComma(text)
  {
    var tail := Mark(close, ']') + trail;
    var body := Mark(open, '[') + (car + tail);
    NoBlanksNoCommas(open, close, lead, car, trail);
    UnbracketAfter(lead, body);
    UnbracketMark(open, '[', car + tail);
    UnbracketAfter(car, tail);
    UnbracketMark(close, ']', trail);
    UnbracketAfter(trail, "");
    assert trail + "" == trail;
  }

  /** No blanks, commas or brackets. */
  predicate NoMarks(s: string) {
    forall i :: 0 <= i < |s| ==> !IsWhitespace(s[i]) && s[i] != '[' && s[i] != ']' && s[i] != ','
  }

  lemma CarTextPlain(s: Slot)
    requires ValidSlot(s)
    ensures AllPlain(CarText(s.car))
  {
    if s.car.Some? {
      CarTextIsPlain(s.car.value);
    }
  }

  predicate NoBlankNoComma(s: string) {
    forall i :: 0 <= i < |s| ==> !IsWhitespace(s[i]) && s[i] != ','
  }

  lemma NoBlanksNoCommas(open: bool, close: bool, lead: string, car: string, trail: string)
    requires NoMarks(lead) && NoMarks(car) && NoMarks(trail)
    ensures NoBlankNoComma(lead + (Mark(open, '[') + (car + (Mark(close, ']') + trail))))
  {
    assert NoBlankNoComma(Mark(close, ']') + trail);
    assert NoBlankNoComma(car + (Mark(close, ']') + trail));
    assert NoBlankNoComma(Mark(open, '[') + (car + (Mark(close, ']') + trail)));
  }

  /** A mark with no vehicle around it reads as a leading one, whichever it was. */
  function ReadBack(s: Slot): Token {
    if s.lead.None? && s.car.None? then Token(UpperMark(s.trail), "", None)
    else Token(UpperMark(s.lead), CarText(s.car), UpperMark(s.trail))
  }

  lemma SlotReadsBack(s: Slot)
    requires ValidSlot(s)
    ensures ReadToken(SlotText(s)) == ReadBack(s)
  {
    SlotTextBare(s);
    CarTextPlain(s);
    if s.car.Some? {
      CarTextIsPlain(s.car.value);
    }
    MarksReadBack(s.lead, CarText(s.car), s.trail);
  }

  lemma MarksReadBack(lead: Option<char>, body: string, trail: Option<char>)
    requires AllPlain(body) && (lead.Some? ==> IsLetter(lead.value)) && (trail.Some? ==> IsLetter(trail.value))
    ensures MarksOf(MarkText(lead) + (body + MarkText(trail)))
         == if lead.None? && body == "" then Token(UpperMark(trail), "", None)
            else Token(UpperMark(lead), body, UpperMark(trail))
  {
    TrailReadsBack(body, trail);
    var text := MarkText(lead) + (body + MarkText(trail));
    if lead.Some? {
      assert text[2..] == body + MarkText(trail);
    } else if body == "" {
      assert text == MarkText(trail);
      assert trail.Some? ==> text[2..] == "";
    } else {
      assert text == body + MarkText(trail);
      assert text[0] == body[0];
    }
  }

  lemma TrailReadsBack(body: string, trail: Option<char>)
    requires AllPlain(body) && (trail.Some? ==> IsLetter(trail.value))
    ensures TrailOf(body + MarkText(trail)) == (body, UpperMark(trail))
  {
    var text := body + MarkText(trail);
    if trail.Some? {
      assert text[..|text| - 2] == body;
    } else {
      assert text == body;
    }
  }

  lemma VehicleReadsBack(c: Car, sector: string)
    requires ValidCar(c)
    ensures Match(CarText(Some(c))) == Some(Canonicalise(CapturesOf(c)))
    ensures VehicleOf(Canonicalise(CapturesOf(c)), sector) == MeantVehicle(c, sector)
  {
    hide Match;
    CapturesWellFormed(c);
    MatchRendered(CapturesOf(c));
    MeantReadsBack(c, sector);
  }

  lemma MeantReadsBack(c: Car, sector: string)
    requires ValidCar(c)
    ensures VehicleOf(Canonicalise(CapturesOf(c)), sector) == MeantVehicle(c, sector)
  {
    if c.number.Some? {
      DecimalRoundTrip(c.number.value);
    }
    if c.offers != [] {
      OffersReadBack(c);
    }
  }

  lemma OffersReadBack(c: Car)
    requires ValidCar(c) && c.offers != []
    ensures Offers(Split(Join(c.offers, ';'), ';')) == UpperOffers(c.offers)
  {
    SplitJoin(c.offers, ';');
    forall i | 0 <= i < |c.offers| ensures Trim(c.offers[i]) == c.offers[i] {
      assert NoBlanks(c.offers[i]);
      TrimNoBlanks(c.offers[i]);
    }
  }

  /// ## Reading back the whole formation

  /** The scan that a list of slots stands for. */
  function MeantScan(slots: seq<Slot>): Scan {
    Scan(SectorAfter(Marks(slots)), Names(Distinct(Marks(slots))), Vehicles(slots))
  }

  /** Entering a mark is appending it. */
  lemma EnterIsAppend(marks: seq<char>, mark: Option<char>, vehicles: seq<Vehicle>)
    ensures Enter(Scan(SectorAfter(marks), Names(Distinct(marks)), vehicles), UpperMark(mark))
         == Scan(SectorAfter(marks + MarkList(mark)), Names(Distinct(marks + MarkList(mark))), vehicles)
  {
    if mark.None? {
      assert marks + MarkList(mark) == marks;
    } else {
      var m := Upper(mark.value);
      var all, d := marks + [m], Distinct(marks);
      assert all[..|all| - 1] == marks;
      assert [m] in Names(d) <==> m in d by {
        if m in d {
          var i :| 0 <= i < |d| && d[i] == m;
          assert Names(d)[i] == [m];
        }
      }
      assert Names(d + [m]) == Names(d) + [[m]];
    }
  }

  lemma SlotScans(before: seq<Slot>, s: Slot)
    requires ValidSlot(s)
    ensures ScanToken(MeantScan(before), ReadToken(SlotText(s))) == MeantScan(before + [s])
  {
    hide AddVehicle;
    hide ReadToken;
    hide Enter;
    var slots := before + [s];
    assert slots[..|before|] == before;
    SlotReadsBack(s);
    var marks, vehicles := Marks(before), Vehicles(before);
    var led := marks + MarkList(s.lead);
    assert Marks(slots) == led + MarkList(s.trail);
    if s.lead.None? && s.car.None? {
      assert led == marks && Vehicles(slots) == vehicles;
      EnterIsAppend(marks, s.trail, vehicles);
      CarIsAdded(MeantScan(slots), s);
      EnterIsAppend(Marks(slots), None, vehicles);
      assert Marks(slots) + MarkList(None) == Marks(slots);
    } else {
      EnterIsAppend(marks, s.lead, vehicles);
      CarIsAdded(Scan(SectorAfter(led), Names(Distinct(led)), vehicles), s);
      EnterIsAppend(led, s.trail, Vehicles(slots));
    }
  }

  lemma CarIsAdded(scan: Scan, s: Slot)
    requires ValidSlot(s)
    ensures AddVehicle(scan, "") == scan
    ensures AddVehicle(scan, CarText(s.car))
         == scan.(vehicles := scan.vehicles + if s.car.Some? then [MeantVehicle(s.car.value, scan.sector)] else [])
  {
    hide Match;
    if s.car.Some? {
      CarTextIsPlain(s.car.value);
      VehicleReadsBack(s.car.value, scan.sector);
    } else {
      assert scan.vehicles + [] == scan.vehicles;
    }
  }

  lemma {:induction false} SlotsScan(slots: seq<Slot>)
    requires Valid(slots)
    ensures ScanAll(Start, SlotTexts(slots)) == MeantScan(slots)
  {
    hide ReadToken;
    hide SlotText;
    hide ScanToken;
    hide MeantScan;
    if slots == [] {
      NothingMeant();
    } else {
      var before, s := slots[..|slots| - 1], slots[|slots| - 1];
      SlotsScan(before);
      SlotScans(before, s);
      assert slots == before + [s];
      ScanAllLast(Start, SlotTexts(before), SlotText(s));
    }
  }

  lemma ScanAllLast(s: Scan, raws: seq<string>, raw: string)
    ensures ScanAll(s, raws + [raw]) == ScanToken(ScanAll(s, raws), ReadToken(raw))
  {
    hide ReadToken;
    hide ScanToken;
    assert (raws + [raw])[..|raws|] == raws;
  }

  lemma NothingMeant()
    ensures MeantScan([]) == Start
  {}

  lemma {:induction false} SlotTextsHaveNoCommas(slots: seq<Slot>)
    requires Valid(slots)
    ensures forall i :: 0 <= i < |slots| ==> ',' !in SlotTexts(slots)[i]
  {
    hide SlotText;
    if slots != [] {
      SlotTextsHaveNoCommas(slots[..|slots| - 1]);
      SlotTextBare(slots[|slots| - 1]);
    }
  }

  /** The round trip: the sectors come back once each in the order of first appearance, and
      the wagons are those of the vehicles written, each in the sector of the last mark
      before it. */
  lemma {:induction false} PrintParseRoundTrip(slots: seq<Slot>)
    requires Valid(slots)
    ensures Parse(Print(slots)) == (Names(Distinct(Marks(slots))), WagonsOf(Vehicles(slots)))
  {
    hide ReadToken;
    hide WagonsOf;
    SlotsScan(slots);
    if slots == [] {
      EmptyScans();
    } else {
      SlotTextsHaveNoCommas(slots);
      SplitJoin(SlotTexts(slots), ',');
    }
  }

  lemma EmptyScans()
    ensures ScanAll(Start, Split("", ',')) == Start
  {
    var raws := Split("", ',');
    assert raws == [""] && raws[..0] == [];
    assert ReadToken("") == Token(None, "", None);
  }
}

/** What the wagons of a printed formation are, field by field, in terms of what was written. */
module FormationWagons {
  import opened Wrappers
  import opened Text
  import opened FormationToken
  import opened Formation
  import opened FormationRoundTrip

  /// ## Counting what was written

  predicate IsCar(s: Slot) {
    s.car.Some?
  }

  /** A car passengers can board: neither traction nor baggage, fictitious or parked. */
  predicate IsWagon(s: Slot) {
    s.car.Some? && s.car.value.kind !in {LK, D, F, X}
  }

  function Cars(slots: seq<Slot>): nat {
    if slots == [] then 0 else Cars(slots[..|slots| - 1]) + if IsCar(slots[|slots| - 1]) then 1 else 0
  }

  function Wagons(slots: seq<Slot>): nat {
    if slots == [] then 0 else Wagons(slots[..|slots| - 1]) + if IsWagon(slots[|slots| - 1]) then 1 else 0
  }

  /** The sector of slot `k`: its own leading mark, or the last one written before. */
  function SectorOf(slots: seq<Slot>, k: nat): string
    requires k < |slots|
  {
    SectorAfter(Marks(slots[..k]) + MarkList(slots[k].lead))
  }

  lemma {:induction false} VehicleOfSlot(slots: seq<Slot>, k: nat)
    requires k < |slots| && IsCar(slots[k])
    ensures |Vehicles(slots)| == Cars(slots) > Cars(slots[..k])
    ensures Vehicles(slots)[Cars(slots[..k])] == MeantVehicle(slots[k].car.value, SectorOf(slots, k))
  {
    hide MeantVehicle;
    hide SectorAfter;
    var n := |slots| - 1;
    if k < n {
      VehicleOfSlot(slots[..n], k);
      assert slots[..n][..k] == slots[..k];
    } else {
      VehiclesAreCars(slots[..n]);
    }
  }

  lemma {:induction false} VehiclesAreCars(slots: seq<Slot>)
    ensures |Vehicles(slots)| == Cars(slots)
  {
    if slots != [] {
      VehiclesAreCars(slots[..|slots| - 1]);
    }
  }

  /** Every vehicle was written in some slot. */
  lemma {:induction false} SlotOfVehicle(slots: seq<Slot>, v: nat) returns (k: nat)
    requires v < Cars(slots)
    ensures k < |slots| && IsCar(slots[k]) && Cars(slots[..k]) == v
  {
    var n := |slots| - 1;
    if v < Cars(slots[..n]) {
      k := SlotOfVehicle(slots[..n], v);
      assert slots[..n][..k] == slots[..k];
    } else {
      k := n;
    }
  }

  lemma {:induction false} CarsGrow(slots: seq<Slot>, j: nat, k: nat)
    requires j <= k <= |slots|
    ensures Cars(slots[..j]) <= Cars(slots[..k])
    ensures j < k && IsCar(slots[j]) ==> Cars(slots[..j]) < Cars(slots[..k])
  {
    if j < k {
      CarsGrow(slots, j, k - 1);
      assert slots[..k][..k - 1] == slots[..k - 1];
    }
  }

  lemma {:induction false} WagonsGrow(slots: seq<Slot>, j: nat, k: nat)
    requires j <= k <= |slots|
    ensures Wagons(slots[..j]) <= Wagons(slots[..k])
    ensures Wagons(slots[..j]) == Wagons(slots[..k]) <==> forall m :: j <= m < k ==> !IsWagon(slots[m])
  {
    if j < k {
      WagonsGrow(slots, j, k - 1);
      assert slots[..k][..k - 1] == slots[..k - 1];
    }
  }

  /** The `i`-th passenger car of the vehicles is the `i`-th wagon written. */
  lemma {:induction false} PassengersAreWagons(slots: seq<Slot>)
    ensures |Passengers(Vehicles(slots))| == Wagons(slots)
    ensures forall k :: 0 <= k < |slots| && IsWagon(slots[k]) ==>
              Wagons(slots[..k]) < Wagons(slots) && Passengers(Vehicles(slots))[Wagons(slots[..k])] == Cars(slots[..k])
  {
    hide Marks;
    hide SectorAfter;
    if slots != [] {
      var n := |slots| - 1;
      var before := slots[..n];
      PassengersAreWagons(before);
      VehiclesAreCars(before);
      if IsCar(slots[n]) {
        var v := MeantVehicle(slots[n].car.value, SectorAfter(Marks(before) + MarkList(slots[n].lead)));
        assert Vehicles(slots) == Vehicles(before) + [v];
        assert (Vehicles(before) + [v])[..|Vehicles(before)|] == Vehicles(before);
      } else {
        assert Vehicles(slots) == Vehicles(before);
      }
      forall k | 0 <= k < |slots| && IsWagon(slots[k])
        ensures Wagons(slots[..k]) < Wagons(slots)
        ensures Passengers(Vehicles(slots))[Wagons(slots[..k])] == Cars(slots[..k])
      {
        if k < n {
          assert before[k] == slots[k] && before[..k] == slots[..k];
        }
      }
    }
  }

  /// ## Field by field

  /** One of the offers written, in whatever case. */
  ghost predicate Offers(c: Car, offer: string) {
    exists i :: 0 <= i < |c.offers| && UpperAll(c.offers[i]) == offer
  }

  ghost predicate HasNumber(c: Car) {
    c.number.Some? && c.number.value < 4_294_967_296
  }

  function If(present: bool, name: string): seq<string> {
    if present then [name] else []
  }

  ghost function WrittenFeatures(c: Car): seq<string> {
    If(Offers(c, "BHP"), "wheelchair") + (If(c.kind in {WR, W1, W2} && '%' !in c.status, "restaurant")
      + (If(c.kind == FA || Offers(c, "FZ"), "family") + (If(Offers(c, "BZ"), "business")
      + (If(Offers(c, "NF"), "low_floor") + If(Offers(c, "VH") || Offers(c, "VR"), "bike")))))
  }

  lemma NamesAreChosen(f: Features)
    ensures FeatureNames(f) ==
            If(f.wheelchair, "wheelchair") + (If(f.restaurant, "restaurant") + (If(f.family, "family")
              + (If(f.business, "business") + (If(f.lowFloor, "low_floor") + If(f.bike, "bike")))))
  {
    var n, b := FEATURES, Flags(f);
    assert Chosen(n[6..], b[6..]) == [];
    assert Chosen(n[5..], b[5..]) == If(f.bike, "bike") by { ChosenStep(n, b, 5); }
    ChosenStep(n, b, 4);
    ChosenStep(n, b, 3);
    ChosenStep(n, b, 2);
    ChosenStep(n, b, 1);
    ChosenStep(n, b, 0);
    assert n[0..] == n && b[0..] == b;
  }

  lemma ChosenStep(names: seq<string>, flags: seq<bool>, i: nat)
    requires |names| == |flags| && i < |names|
    ensures Chosen(names[i..], flags[i..]) == If(flags[i], names[i]) + Chosen(names[i + 1..], flags[i + 1..])
  {
    assert names[i..][1..] == names[i + 1..] && flags[i..][1..] == flags[i + 1..];
  }

  lemma OffersAreMeant(c: Car, offer: string)
    ensures offer in UpperOffers(c.offers) <==> Offers(c, offer)
  {
    if Offers(c, offer) {
      var i :| 0 <= i < |c.offers| && UpperAll(c.offers[i]) == offer;
      assert UpperOffers(c.offers)[i] == offer;
    }
  }

  lemma FeaturesAreWritten(c: Car, sector: string)
    ensures FeatureNames(FeaturesOf(MeantVehicle(c, sector))) == WrittenFeatures(c)
  {
    hide FeatureNames;
    NamesAreChosen(FeaturesOf(MeantVehicle(c, sector)));
    OffersAreMeant(c, "BHP");
    OffersAreMeant(c, "FZ");
    OffersAreMeant(c, "BZ");
    OffersAreMeant(c, "NF");
    OffersAreMeant(c, "VH");
    OffersAreMeant(c, "VR");
  }

  /** The wagon of slot `k` is the next in order, and each of its fields is what was written:
      its number or else its place, first class for the types 1, W1 and 12, and so on. */
  lemma {:induction false} WagonIsWritten(slots: seq<Slot>, k: nat)
    requires Valid(slots) && k < |slots| && IsWagon(slots[k])
    ensures var wagons, i := Parse(Print(slots)).1, Wagons(slots[..k]);
            |wagons| == Wagons(slots) && i < |wagons|
            && var w, c := wagons[i], slots[k].car.value;
            && w.position == i + 1
            && w.number == (if HasNumber(c) then c.number.value else i + 1)
            && (w.numberUnknown <==> !HasNumber(c))
            && (w.firstClass <==> c.kind in {First, W1, Mixed})
            && (w.mixedClass <==> c.kind == Mixed)
            && w.sector == SectorOf(slots, k)
            && (w.closed <==> '-' in c.status)
            && (w.bikeReservation <==> Offers(c, "VR"))
            && w.features == WrittenFeatures(c)
  {
    hide Parse;
    hide Passengers;
    hide Vehicles;
    hide WrittenFeatures;
    hide FeatureNames;
    hide FeaturesOf;
    hide Blocked;
    PrintParseRoundTrip(slots);
    PassengersAreWagons(slots);
    VehicleOfSlot(slots, k);
    var c := slots[k].car.value;
    FeaturesAreWritten(c, SectorOf(slots, k));
    OffersAreMeant(c, "VR");
  }

  /// ## Boundaries

  /** Between the cars of slots `k` and `l` some car written is shut at an end that faces the
      other. */
  ghost predicate ShutBetween(slots: seq<Slot>, k: nat, l: nat)
    requires k <= l < |slots|
  {
    exists m :: k <= m <= l && IsCar(slots[m]) && ShutsAt(slots[m].car.value, k < m, m < l)
  }

  predicate ShutsAt(c: Car, behind: bool, ahead: bool) {
    (ahead && c.closing) || (behind && (c.paren || c.innerParen))
  }

  /** The wagon of slot `k` has no passage after it if and only if a next wagon was written and some
      car from the one to the other is shut: one in front of it behind, or one behind it in front. */
  lemma BoundaryIsWritten(slots: seq<Slot>, k: nat)
    requires Valid(slots) && k < |slots| && IsWagon(slots[k])
    ensures Wagons(slots[..k]) < |Parse(Print(slots)).1|
    ensures Parse(Print(slots)).1[Wagons(slots[..k])].noPassageAfter <==>
            exists l :: k < l < |slots| && IsWagon(slots[l]) && (forall j :: k < j < l ==> !IsWagon(slots[j]))
                        && ShutBetween(slots, k, l)
  {
    hide Parse;
    hide Vehicles;
    hide WagonsOf;
    hide ShutBetween;
    PrintParseRoundTrip(slots);
    PassengersAreWagons(slots);
    var vs, i := Vehicles(slots), Wagons(slots[..k]);
    var flag := WagonsOf(vs)[i].noPassageAfter;
    if i + 1 < Wagons(slots) {
      var l := NextWagon(slots, k);
      NextIsShut(slots, k, l);
      forall l' | k < l' < |slots| && IsWagon(slots[l']) && forall j :: k < j < l' ==> !IsWagon(slots[j])
        ensures l' == l
      {}
    } else {
      NoNextWagon(slots, k);
      BoundaryMeans(vs, i);
    }
  }

  lemma NextWagon(slots: seq<Slot>, k: nat) returns (l: nat)
    requires k < |slots| && IsWagon(slots[k]) && Wagons(slots[..k]) + 1 < Wagons(slots)
    ensures k < l < |slots| && IsWagon(slots[l]) && forall j :: k < j < l ==> !IsWagon(slots[j])
    ensures Wagons(slots[..l]) == Wagons(slots[..k]) + 1
  {
    assert slots[..k + 1][..k] == slots[..k] && slots[..|slots|] == slots;
    WagonsGrow(slots, k + 1, |slots|);
    l := k + 1;
    while !IsWagon(slots[l])
      invariant k < l < |slots| && forall j :: k < j < l ==> !IsWagon(slots[j])
      decreases |slots| - l
    {
      l := l + 1;
    }
    WagonsGrow(slots, k + 1, l);
  }

  lemma {:induction false} NoNextWagon(slots: seq<Slot>, k: nat)
    requires k < |slots| && IsWagon(slots[k]) && Wagons(slots[..k]) + 1 >= Wagons(slots)
    ensures forall l :: k < l < |slots| ==> !IsWagon(slots[l])
  {
    assert slots[..k + 1][..k] == slots[..k] && slots[..|slots|] == slots;
    WagonsGrow(slots, k + 1, |slots|);
  }

  lemma {:induction false} NextIsShut(slots: seq<Slot>, k: nat, l: nat)
    requires k < l < |slots| && IsWagon(slots[k]) && IsWagon(slots[l]) && Wagons(slots[..l]) == Wagons(slots[..k]) + 1
    ensures Wagons(slots[..k]) < |WagonsOf(Vehicles(slots))|
    ensures WagonsOf(Vehicles(slots))[Wagons(slots[..k])].noPassageAfter <==> ShutBetween(slots, k, l)
  {
    hide Vehicles;
    hide WagonsOf;
    hide Passengers;
    PassengersAreWagons(slots);
    var vs, i := Vehicles(slots), Wagons(slots[..k]);
    BoundaryMeans(vs, i);
    var p, q := Cars(slots[..k]), Cars(slots[..l]);
    if WagonsOf(vs)[i].noPassageAfter {
      var r :| p <= r <= q && ((r < q && vs[r].closes) || (p < r && vs[r].opens));
      VehicleOfSlot(slots, l);
      var m := SlotOfVehicle(slots, r);
      VehicleOfSlot(slots, m);
      Placed(slots, k, m);
      Placed(slots, m, l);
      Placed(slots, m, k);
      Placed(slots, l, m);
    }
    if ShutBetween(slots, k, l) {
      var m :| k <= m <= l && IsCar(slots[m]) && ShutsAt(slots[m].car.value, k < m, m < l);
      VehicleOfSlot(slots, m);
      VehicleOfSlot(slots, l);
      CarsGrow(slots, k, m);
      CarsGrow(slots, m, l);
      assert p <= Cars(slots[..m]) <= q;
    }
  }

  /** Vehicles stand in the order of their slots. */
  lemma Placed(slots: seq<Slot>, j: nat, k: nat)
    requires j < |slots| && k < |slots| && IsCar(slots[j]) && IsCar(slots[k])
    ensures j < k ==> Cars(slots[..j]) < Cars(slots[..k])
    ensures k <= j ==> Cars(slots[..k]) <= Cars(slots[..j])
  {
    if j < k {
      CarsGrow(slots, j, k);
    } else {
      CarsGrow(slots, k, j);
    }
  }
}

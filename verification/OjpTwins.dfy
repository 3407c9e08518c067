/** Collapsing the results OJP publishes twice for one journey: one row per journey key,
    the later of the twins, sorted by departure. */
module OjpTwins {
  import opened Wrappers

  datatype FlatDeparture = FlatDeparture(to: string, category: string, number: string, departure: int,
                                         delay: Option<int>, platform: string, platformChanged: bool,
                                         trainNumber: Option<string>, operatorRef: Option<string>)

  type Event = (Option<string>, FlatDeparture)

  /// ## What is kept

  /** An unkeyed event, or the first of its key. */
  predicate IsHead(es: seq<Event>, i: nat)
    requires i < |es|
  {
    es[i].0.None? || forall j :: 0 <= j < i ==> es[j].0 != es[i].0
  }

  function Heads(es: seq<Event>): (hs: seq<nat>)
    ensures forall j :: 0 <= j < |hs| ==> hs[j] < |es| && IsHead(es, hs[j])
    ensures forall i, j :: 0 <= i < j < |hs| ==> hs[i] < hs[j]
    ensures forall i :: 0 <= i < |es| && IsHead(es, i) ==> i in hs
  {
    if es == [] then []
    else
      var n := |es| - 1;
      assert forall i :: 0 <= i < n ==> IsHead(es, i) == IsHead(es[..n], i);
      Heads(es[..n]) + (if IsHead(es, n) then [n] else [])
  }

  predicate Rivals(es: seq<Event>, i: nat, j: nat)
    requires i < |es| && j < |es|
  {
    i == j || (es[i].0.Some? && es[j].0 == es[i].0)
  }

  /** The first of the latest departures from `i` on that share its key. */
  function Best(es: seq<Event>, i: nat): (b: nat)
    requires i < |es|
    ensures i <= b < |es| && Rivals(es, i, b)
    ensures forall j :: i <= j < |es| && Rivals(es, i, j) ==> es[j].1.departure <= es[b].1.departure
    ensures forall j :: i <= j < b && Rivals(es, i, j) ==> es[j].1.departure < es[b].1.departure
    decreases |es|
  {
    var n := |es| - 1;
    if i == n then n
    else
      var b := Best(es[..n], i);
      assert forall j :: 0 <= j < n ==> Rivals(es[..n], i, j) == Rivals(es, i, j);
      if Rivals(es, i, n) && es[n].1.departure > es[b].1.departure then n else b
  }

  function Kept(es: seq<Event>): (kept: seq<FlatDeparture>)
    ensures |kept| == |Heads(es)|
  {
    seq(|Heads(es)|, j requires 0 <= j < |Heads(es)| => es[Best(es, Heads(es)[j])].1)
  }

  /// ## The sort

  /** Earlier departure, or the same departure and earlier place. */
  predicate Before(s: seq<FlatDeparture>, i: nat, j: nat)
    requires i < |s| && j < |s|
  {
    s[i].departure < s[j].departure || (s[i].departure == s[j].departure && i < j)
  }

  ghost predicate Ordered(s: seq<FlatDeparture>, order: seq<nat>) {
    && (forall i :: 0 <= i < |order| ==> order[i] < |s|)
    && forall i, j :: 0 <= i < j < |order| ==> Before(s, order[i], order[j])
  }

  function Insert(s: seq<FlatDeparture>, order: seq<nat>, x: nat): (order': seq<nat>)
    requires x < |s| && Ordered(s, order) && forall i :: 0 <= i < |order| ==> order[i] < x
    ensures Ordered(s, order')
    ensures |order'| == |order| + 1 && forall y :: y in order' <==> y == x || y in order
    ensures forall i :: 0 <= i < |order'| ==> order'[i] <= x
  {
    if order == [] || s[order[|order| - 1]].departure <= s[x].departure then order + [x]
    else
      var front, last := order[..|order| - 1], order[|order| - 1];
      assert forall y :: y in order <==> y in front || y == last;
      assert forall y :: y in front ==> Before(s, y, last);
      var order' := Insert(s, front, x);
      assert forall i :: 0 <= i < |order'| ==> order'[i] == x || order'[i] in front;
      order' + [last]
  }

  /** The stable order by departure of the first `n` rows. */
  function OrderOf(s: seq<FlatDeparture>, n: nat): (order: seq<nat>)
    requires n <= |s|
    ensures Ordered(s, order) && |order| == n
    ensures forall i: nat :: i in order <==> i < n
  {
    if n == 0 then [] else Insert(s, OrderOf(s, n - 1), n - 1)
  }

  function SortByDeparture(s: seq<FlatDeparture>): (r: seq<FlatDeparture>)
    ensures |r| == |s|
  {
    var order := OrderOf(s, |s|);
    seq(|s|, j requires 0 <= j < |s| => s[order[j]])
  }

  /// ## Collapse

  function Collapsed(es: seq<Event>): seq<FlatDeparture> {
    SortByDeparture(Kept(es))
  }

  /** The place in the input of the first event of each row's key, in the order of the rows. */
  function Origins(es: seq<Event>): (os: seq<nat>)
    ensures |os| == |Collapsed(es)|
    ensures forall j :: 0 <= j < |os| ==> os[j] < |es|
  {
    var order := OrderOf(Kept(es), |Kept(es)|);
    seq(|order|, j requires 0 <= j < |order| => Heads(es)[order[j]])
  }

  /** Every row is the first of the latest departures of its key, or an unkeyed event. */
  lemma {:induction false} RowIsBest(es: seq<Event>, j: nat)
    requires j < |Collapsed(es)|
    ensures IsHead(es, Origins(es)[j])
    ensures Collapsed(es)[j] == es[Best(es, Origins(es)[j])].1
  {}

  /** Every unkeyed event and every key has exactly one row. */
  lemma OneRowEach(es: seq<Event>, i: nat)
    requires i < |es| && IsHead(es, i)
    ensures exists j :: 0 <= j < |Origins(es)| && Origins(es)[j] == i
    ensures forall j, k :: 0 <= j < k < |Origins(es)| ==> Origins(es)[j] != Origins(es)[k]
  {
    var order := OrderOf(Kept(es), |Kept(es)|);
    var h :| 0 <= h < |Heads(es)| && Heads(es)[h] == i;
    assert h in order;
    var j :| 0 <= j < |order| && order[j] == h;
    assert Origins(es)[j] == i;
    forall j, k | 0 <= j < k < |order|
      ensures Origins(es)[j] != Origins(es)[k]
    {
      assert Before(Kept(es), order[j], order[k]);
    }
  }

  /** No two rows share a journey key. */
  lemma KeysAreDistinct(es: seq<Event>, j: nat, k: nat)
    requires j < |Origins(es)| && k < |Origins(es)| && j != k
    requires es[Origins(es)[j]].0.Some?
    ensures es[Origins(es)[j]].0 != es[Origins(es)[k]].0
  {
    RowIsBest(es, j);
    RowIsBest(es, k);
    OneRowEach(es, Origins(es)[j]);
  }

  /** Rows are sorted by departure; rows that depart together stand in the order in which
      their keys first occurred. */
  lemma RowsAreSorted(es: seq<Event>, j: nat, k: nat)
    requires j < k < |Collapsed(es)|
    ensures Collapsed(es)[j].departure <= Collapsed(es)[k].departure
    ensures Collapsed(es)[j].departure == Collapsed(es)[k].departure ==> Origins(es)[j] < Origins(es)[k]
  {
    var order := OrderOf(Kept(es), |Kept(es)|);
    assert Before(Kept(es), order[j], order[k]);
  }

  /// ## The loop

  ghost predicate IsPlaceOf(es: seq<Event>, key: string, at: nat) {
    at < |Heads(es)| && es[Heads(es)[at]].0 == Some(key)
  }

  /** The index map: each key seen so far leads to its own place among the kept. */
  ghost predicate Leads(es: seq<Event>, seen: map<string, nat>) {
    && (forall k :: k in seen ==> IsPlaceOf(es, k, seen[k]))
    && (forall i :: 0 <= i < |es| ==> es[i].0.None? || es[i].0.value in seen)
  }

  lemma HeadsGrow(es: seq<Event>, e: Event)
    ensures Heads(es + [e]) ==
            Heads(es) + if e.0.None? || (forall i :: 0 <= i < |es| ==> es[i].0 != e.0) then [|es|] else []
  {
    var all := es + [e];
    assert all[..|es|] == es;
    assert IsHead(all, |es|) <==> e.0.None? || (forall i :: 0 <= i < |es| ==> es[i].0 != e.0);
  }

  lemma {:induction false} BestGrows(es: seq<Event>, e: Event, i: nat)
    requires i < |es|
    ensures (es + [e])[Best(es + [e], i)].1 ==
            if es[i].0.Some? && es[i].0 == e.0 && e.1.departure > es[Best(es, i)].1.departure then e.1 else es[Best(es, i)].1
  {
    assert (es + [e])[..|es|] == es;
  }

  lemma {:induction false} NewHead(es: seq<Event>, e: Event)
    requires e.0.None? || forall i :: 0 <= i < |es| ==> es[i].0 != e.0
    ensures Heads(es + [e]) == Heads(es) + [|es|]
    ensures Kept(es + [e]) == Kept(es) + [e.1]
  {
    hide Heads;
    hide Best;
    var all := es + [e];
    HeadsGrow(es, e);
    forall j | 0 <= j < |Heads(es)|
      ensures all[Best(all, Heads(es)[j])].1 == Kept(es)[j]
    {
      BestGrows(es, e, Heads(es)[j]);
    }
  }

  lemma {:induction false} KnownKey(es: seq<Event>, e: Event, at: nat)
    requires at < |Heads(es)| && e.0.Some? && es[Heads(es)[at]].0 == e.0
    ensures Heads(es + [e]) == Heads(es)
    ensures Kept(es + [e]) == if e.1.departure > Kept(es)[at].departure then Kept(es)[at := e.1] else Kept(es)
  {
    hide Heads;
    hide Best;
    var all := es + [e];
    HeadsGrow(es, e);
    forall j | 0 <= j < |Heads(es)|
      ensures Kept(all)[j] == if j == at && e.1.departure > Kept(es)[at].departure then e.1 else Kept(es)[j]
    {
      BestGrows(es, e, Heads(es)[j]);
      assert IsHead(es, Heads(es)[j]) && IsHead(es, Heads(es)[at]);
    }
  }

  lemma NothingKept()
    ensures Kept([]) == [] && Leads([], map[])
  {}

  /** What the index map becomes when an event is added. */
  function Noted(seen: map<string, nat>, e: Event, place: nat): map<string, nat> {
    if e.0.None? || e.0.value in seen then seen else seen[e.0.value := place]
  }

  lemma LeadsOn(es: seq<Event>, e: Event, seen: map<string, nat>)
    requires Leads(es, seen)
    ensures Leads(es + [e], Noted(seen, e, |Kept(es)|))
    ensures Kept(es + [e]) ==
            if e.0.None? || e.0.value !in seen then Kept(es) + [e.1]
            else if seen[e.0.value] < |Kept(es)| && e.1.departure > Kept(es)[seen[e.0.value]].departure
            then Kept(es)[seen[e.0.value] := e.1]
            else Kept(es)
    ensures e.0.Some? && e.0.value in seen ==> seen[e.0.value] < |Kept(es)|
  {
    hide Kept;
    hide IsPlaceOf;
    PlacesStay(es, e);
    if e.0.Some? && e.0.value in seen {
      PlaceIsKept(es, e, seen[e.0.value]);
    } else {
      assert forall i :: 0 <= i < |es| ==> e.0.None? || es[i].0 != e.0;
      PlaceIsNew(es, e);
    }
  }

  lemma PlacesStay(es: seq<Event>, e: Event)
    ensures forall k, at :: IsPlaceOf(es, k, at) ==> IsPlaceOf(es + [e], k, at)
  {
    hide Heads;
    HeadsGrow(es, e);
  }

  lemma PlaceIsKept(es: seq<Event>, e: Event, at: nat)
    requires e.0.Some? && IsPlaceOf(es, e.0.value, at)
    ensures at < |Kept(es)|
    ensures Kept(es + [e]) == if e.1.departure > Kept(es)[at].departure then Kept(es)[at := e.1] else Kept(es)
  {
    hide Heads;
    hide Kept;
    KnownKey(es, e, at);
  }

  lemma PlaceIsNew(es: seq<Event>, e: Event)
    requires e.0.None? || forall i :: 0 <= i < |es| ==> es[i].0 != e.0
    ensures Kept(es + [e]) == Kept(es) + [e.1]
    ensures e.0.Some? ==> IsPlaceOf(es + [e], e.0.value, |Kept(es)|)
  {
    hide Heads;
    hide Kept;
    NewHead(es, e);
  }

  method KeepLatestPerJourney(events: seq<Event>) returns (rows: seq<FlatDeparture>)
    ensures rows == Collapsed(events)
  {
    hide Kept;
    hide Leads;
    NothingKept();
    var kept: seq<FlatDeparture> := [];
    var seen: map<string, nat> := map[];
    for n := 0 to |events|
      invariant kept == Kept(events[..n])
      invariant Leads(events[..n], seen)
    {
      var (key, event) := events[n];
      LeadsOn(events[..n], events[n], seen);
      assert events[..n + 1] == events[..n] + [events[n]];
      if key.None? {
        kept := kept + [event];
      } else if key.value in seen {
        var at := seen[key.value];
        if event.departure > kept[at].departure {
          kept := kept[at := event];
        }
      } else {
        seen := seen[key.value := |kept|];
        kept := kept + [event];
      }
    }
    assert events[..|events|] == events;
    rows := SortByDeparture(kept);
  }
}

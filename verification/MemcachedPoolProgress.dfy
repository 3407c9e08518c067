/** Every call on the pool returns, whatever the peer does: the timeout may end a call at
    any step that talks to it. */
module MemcachedPoolProgress {
  import opened Wrappers
  import opened Totals
  import opened MemcachedPool
  import opened MemcachedPoolTheorems

  /** How many steps a call at `pc` has left at most. */
  function Rank(pc: Pc): nat {
    match pc
    case Gate => 7
    case Popping => 6
    case Connecting => 5
    case Ready(_) => 4
    case Awaiting(_) => 3
    case Failing => 2
    case Returning(_, _) => 1
    case Marking(_) => 1
    case Done(_) => 0
  }

  function Ranks(calls: seq<Call>): (ranks: seq<nat>)
    ensures |ranks| == |calls| && forall i :: 0 <= i < |calls| ==> ranks[i] == Rank(calls[i].pc)
  {
    seq(|calls|, i requires 0 <= i < |calls| => Rank(calls[i].pc))
  }

  function Measure(calls: seq<Call>): nat {
    Total(Ranks(calls))
  }

  lemma MeasureFalls(s: State, t: nat, fate: Fate)
    requires CanAct(s, t, fate)
    ensures Measure(ApplyAct(s, t, fate).calls) < Measure(s.calls)
  {
    hide ReadReply;
    hide Total;
    var s' := ApplyAct(s, t, fate);
    assert s'.calls == s.calls[t := s'.calls[t]];
    TotalUpdate(Ranks(s.calls), t, Rank(s'.calls[t].pc));
    assert Ranks(s'.calls) == Ranks(s.calls)[t := Rank(s'.calls[t].pc)];
  }

  /** A reply changes what a call was answered, not where it stands. */
  lemma MeasureKept(s: State, step: Step)
    requires CanStep(s, step) && !step.Act? && !step.Start?
    ensures Measure(ApplyStep(s, step).calls) == Measure(s.calls)
  {
    hide Conforms;
    hide Total;
    assert Ranks(ApplyStep(s, step).calls) == Ranks(s.calls);
  }

  function CountActs(steps: seq<Step>): nat {
    if steps == [] then 0
    else CountActs(steps[..|steps| - 1]) + if steps[|steps| - 1].Act? then 1 else 0
  }

  /** Without new calls no schedule lasts: whatever the peer, the network and the clock do
      meanwhile, the calls take at most `Measure` steps together. */
  lemma {:induction false} StepsAreBounded(s: State, steps: seq<Step>)
    requires forall i :: 0 <= i < |steps| ==> !steps[i].Start?
    requires Run(s, steps).Some?
    ensures CountActs(steps) + Measure(Run(s, steps).value.calls) <= Measure(s.calls)
  {
    hide Measure;
    if steps != [] {
      var before, last := steps[..|steps| - 1], steps[|steps| - 1];
      StepsAreBounded(s, before);
      if last.Act? {
        MeasureFalls(Run(s, before).value, last.t, last.fate);
      } else {
        MeasureKept(Run(s, before).value, last);
      }
    }
  }

  /** A schedule that can go no further has brought every call back. */
  lemma ExhaustedMeansReturned(s: State)
    requires Reachable(s)
    requires forall t :: 0 <= t < |s.calls| ==> !CanAct(s, t, Proceeds) && !CanAct(s, t, Fails)
    ensures forall t :: 0 <= t < |s.calls| ==> s.calls[t].pc.Done?
  {
    hide Reachable;
    hide CanAct;
    forall t | 0 <= t < |s.calls|
      ensures s.calls[t].pc.Done?
    {
      if !s.calls[t].pc.Done? {
        NeverStuck(s, t);
      }
    }
  }
}

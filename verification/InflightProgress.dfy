/** Every call of the single-flight protocol returns, provided fetches finish and leaders
    run to completion. */
module InflightProgress {
  import opened Wrappers
  import opened Totals
  import opened Inflight
  import opened InflightOwnership
  import opened InflightWaiters
  import opened InflightTheorems
  import C = Cache

  predicate Finished(s: State) {
    forall t :: 0 <= t < |s.tasks| ==> s.tasks[t].pc.Done?
  }

  /** An input that lets the task take its step, if it is not blocked. */
  function SomeInput(pc: Pc): Input {
    match pc
    case SharedLookup => Shared(None)
    case Fetching(_) => Upstream(Err("upstream unavailable"))
    case _ => NoInput
  }

  predicate Blocked(s: State, pc: Pc) {
    pc.Done? || pc.Waiting? || (s.lock.Some? && (pc.WantLock? || pc.Unlisting?))
  }

  lemma UnblockedCanAct(s: State, t: nat)
    requires Inv(s) && t < |s.tasks| && !Blocked(s, s.tasks[t].pc)
    ensures CanAct(s, t, SomeInput(s.tasks[t].pc))
  {
    assert TaskOk(s, t);
    if s.tasks[t].pc.Found? {
      assert KeyOk(s, s.tasks[t].key);
    }
  }

  /** While a call has not returned, some task can take a step. */
  lemma Progress(s: State, t: nat) returns (u: nat)
    requires Reachable(s) && t < |s.tasks| && !s.tasks[t].pc.Done?
    ensures u < |s.tasks| && CanAct(s, u, SomeInput(s.tasks[u].pc))
  {
    ReachableInv(s);
    if s.lock.Some? {
      u := s.lock.value;
      assert TaskOk(s, u);
      UnblockedCanAct(s, u);
    } else if s.tasks[t].pc.Waiting? {
      var n := s.tasks[t].pc.n;
      NoLostWakeup(s, t);
      if t in s.notifies[n].woken {
        u := t;
      } else {
        u := s.notifies[n].leader;
        UnblockedCanAct(s, u);
      }
    } else {
      u := t;
      UnblockedCanAct(s, u);
    }
  }

  /** How many steps a task at `pc` has left at most. */
  function Rank(pc: Pc): nat {
    match pc
    case SharedLookup => 13
    case LocalLookup => 12
    case WantLock => 11
    case Locked => 10
    case Inserted(_) => 9
    case Fetching(_) => 8
    case Storing(_, _) => 7
    case Stamped(_, _, _) => 6
    case Unlisting(_, _) => 5
    case Removing(_, _) => 4
    case Notifying(_, _) => 3
    case Found(_) => 5
    case Enabled(_) => 4
    case Waiting(_) => 3
    case ReadFresh(_) => 2
    case ReadStale(_) => 1
    case Done(_) => 0
  }

  function Ranks(tasks: seq<Task>): (ranks: seq<nat>)
    ensures |ranks| == |tasks| && forall i :: 0 <= i < |tasks| ==> ranks[i] == Rank(tasks[i].pc)
  {
    seq(|tasks|, i requires 0 <= i < |tasks| => Rank(tasks[i].pc))
  }

  function Measure(tasks: seq<Task>): nat {
    Total(Ranks(tasks))
  }

  lemma RankFalls(s: State, t: nat, input: Input)
    requires CanAct(s, t, input)
    ensures Rank(ApplyAct(s, t, input).tasks[t].pc) < Rank(s.tasks[t].pc)
  {
    var pc := s.tasks[t].pc;
    if pc.Fetching? || pc.Stamped? || pc.Notifying? {
      SignallingRankFalls(s, t, input);
    } else if WillNotify(pc).Some? {
      LeaderRankFalls(s, t, input);
    } else {
      OtherRankFalls(s, t, input);
    }
  }

  lemma SignallingRankFalls(s: State, t: nat, input: Input)
    requires CanAct(s, t, input)
    requires s.tasks[t].pc.Fetching? || s.tasks[t].pc.Stamped? || s.tasks[t].pc.Notifying?
    ensures Rank(ApplyAct(s, t, input).tasks[t].pc) < Rank(s.tasks[t].pc)
  {}

  lemma LeaderRankFalls(s: State, t: nat, input: Input)
    requires CanAct(s, t, input)
    requires var pc := s.tasks[t].pc; pc.Inserted? || pc.Storing? || pc.Unlisting? || pc.Removing?
    ensures Rank(ApplyAct(s, t, input).tasks[t].pc) < Rank(s.tasks[t].pc)
  {}

  lemma OtherRankFalls(s: State, t: nat, input: Input)
    requires CanAct(s, t, input) && WillNotify(s.tasks[t].pc).None?
    ensures Rank(ApplyAct(s, t, input).tasks[t].pc) < Rank(s.tasks[t].pc)
  {}

  lemma MeasureFalls(s: State, t: nat, input: Input)
    requires CanAct(s, t, input)
    ensures Measure(ApplyAct(s, t, input).tasks) < Measure(s.tasks)
  {
    var s' := ApplyAct(s, t, input);
    assert s'.tasks == s.tasks[t := s'.tasks[t]];
    RankFalls(s, t, input);
    TotalUpdate(Ranks(s.tasks), t, Rank(s'.tasks[t].pc));
    assert Ranks(s'.tasks) == Ranks(s.tasks)[t := Rank(s'.tasks[t].pc)];
  }

  function CountActs(steps: seq<Step>): nat {
    if steps == [] then 0
    else CountActs(steps[..|steps| - 1]) + if steps[|steps| - 1].Act? then 1 else 0
  }

  /** Without new requests no schedule lasts: whatever the order, and whatever the clock and
      other pods do meanwhile, the tasks take at most `Measure` steps together. */
  lemma {:induction false} StepsAreBounded(s: State, steps: seq<Step>)
    requires forall i :: 0 <= i < |steps| ==> !steps[i].Begin?
    requires Run(s, steps).Some?
    ensures CountActs(steps) + Measure(Run(s, steps).value.tasks) <= Measure(s.tasks)
  {
    if steps != [] {
      var before, last := steps[..|steps| - 1], steps[|steps| - 1];
      StepsAreBounded(s, before);
      if last.Act? {
        MeasureFalls(Run(s, before).value, last.t, last.input);
      }
    }
  }

  /** A schedule that can go no further has brought every call back. */
  lemma ExhaustedMeansReturned(s: State)
    requires Reachable(s)
    requires forall t, input :: !CanAct(s, t, input)
    ensures Finished(s)
  {
    forall t | 0 <= t < |s.tasks| ensures s.tasks[t].pc.Done? {
      if !s.tasks[t].pc.Done? {
        var u := Progress(s, t);
      }
    }
  }

  /** From every reachable state the calls in flight can all be brought back. */
  lemma {:induction false} EveryCallReturns(s: State) returns (s': State)
    requires Reachable(s)
    ensures Reachable(s') && Finished(s') && |s'.tasks| == |s.tasks|
    decreases Measure(s.tasks)
  {
    if Finished(s) {
      s' := s;
    } else {
      var t: nat :| t < |s.tasks| && !s.tasks[t].pc.Done?;
      var u := Progress(s, t);
      var input := SomeInput(s.tasks[u].pc);
      MeasureFalls(s, u, input);
      ReachableStep(s, Act(u, input));
      s' := EveryCallReturns(ApplyAct(s, u, input));
    }
  }

  /// ## The bound on repeated fetches is reached

  /** For every key, TTL and value, two calls at one instant: the second misses the cache, then waits for the
      lock until the first has stored, removed its key and notified, and fetches again. */
  lemma SecondFetchIsPossible(key: string, ttl: nat, v: string) returns (s: State)
    ensures Reachable(s) && |s.tasks| == 2
    ensures s.tasks[0].key == s.tasks[1].key == key && s.tasks[0].ttl == s.tasks[1].ttl == ttl
    ensures s.tasks[0].pc == Done(Fresh(v)) && s.tasks[1].pc.Fetching?
    ensures s.puts == [C.Put(key, v, ttl, 0, 0)] && s.clock == 0
  {
    assert Run(Init, []) == Some(Init);
    assert Reachable(Init);
    ReachableStep(Init, Begin(key, ttl));
    s := ApplyStep(Init, Begin(key, ttl));
    ReachableStep(s, Begin(key, ttl));
    s := ApplyStep(s, Begin(key, ttl));
    ReachableStep(s, Act(1, Shared(None)));
    s := ApplyStep(s, Act(1, Shared(None)));
    ReachableStep(s, Act(1, NoInput));
    s := ApplyStep(s, Act(1, NoInput));
    var waiting := Task(key, ttl, WantLock, None, Some(Miss(0, 0)), None, None);
    assert s == State(0, map[], map[], None, [], [Task(key, ttl, SharedLookup, None, None, None, None), waiting], [], [], {}, {});
    s := LeaderCompletes(s, waiting, key, ttl, v);
    ReachableStep(s, Act(1, NoInput));
    s := ApplyStep(s, Act(1, NoInput));
    ReachableStep(s, Act(1, NoInput));
    s := ApplyStep(s, Act(1, NoInput));
    ReachableStep(s, Act(1, NoInput));
    s := ApplyStep(s, Act(1, NoInput));
  }

  lemma LeaderCompletes(s: State, waiting: Task, key: string, ttl: nat, v: string) returns (s': State)
    requires Reachable(s)
    requires s == State(0, map[], map[], None, [], [Task(key, ttl, SharedLookup, None, None, None, None), waiting], [], [], {}, {})
    ensures Reachable(s')
    ensures s'.clock == 0 && s'.keys == map[] && s'.lock == None
    ensures s'.tasks == [Task(key, ttl, Done(Fresh(v)), None, Some(Miss(0, 0)), None, None), waiting]
    ensures s'.puts == [C.Put(key, v, ttl, 0, 0)]
  {
    s' := LeaderStores(s, waiting, key, ttl, v);
    ReachableStep(s', Act(0, NoInput));
    s' := ApplyStep(s', Act(0, NoInput));
    ReachableStep(s', Act(0, NoInput));
    s' := ApplyStep(s', Act(0, NoInput));
    ReachableStep(s', Act(0, NoInput));
    s' := ApplyStep(s', Act(0, NoInput));
  }

  lemma LeaderStores(s: State, waiting: Task, key: string, ttl: nat, v: string) returns (s': State)
    requires Reachable(s)
    requires s == State(0, map[], map[], None, [], [Task(key, ttl, SharedLookup, None, None, None, None), waiting], [], [], {}, {})
    ensures Reachable(s')
    ensures s'.clock == 0 && s'.keys == map[key := 0] && s'.lock == None && |s'.notifies| == 1
    ensures s'.tasks == [Task(key, ttl, Unlisting(0, Ok(v)), None, Some(Miss(0, 0)), None, None), waiting]
    ensures s'.puts == [C.Put(key, v, ttl, 0, 0)]
  {
    s' := LeaderFetches(s, waiting, key, ttl, v);
    ReachableStep(s', Act(0, NoInput));
    s' := ApplyStep(s', Act(0, NoInput));
    ReachableStep(s', Act(0, NoInput));
    s' := ApplyStep(s', Act(0, NoInput));
  }

  lemma LeaderFetches(s: State, waiting: Task, key: string, ttl: nat, v: string) returns (s': State)
    requires Reachable(s)
    requires s == State(0, map[], map[], None, [], [Task(key, ttl, SharedLookup, None, None, None, None), waiting], [], [], {}, {})
    ensures Reachable(s')
    ensures s' == State(0, map[], map[key := 0], None, [Notify(0, {}, {}, Some(Ok(v)), None)],
                        [Task(key, ttl, Storing(0, v), None, Some(Miss(0, 0)), None, None), waiting], [], [], {(key, v)}, {})
  {
    s' := LeaderMisses(s, waiting, key, ttl, v);
    ReachableStep(s', Act(0, NoInput));
    s' := ApplyStep(s', Act(0, NoInput));
    ReachableStep(s', Act(0, NoInput));
    s' := ApplyStep(s', Act(0, NoInput));
    ReachableStep(s', Act(0, Upstream(Ok(v))));
    s' := ApplyStep(s', Act(0, Upstream(Ok(v))));
  }

  lemma LeaderMisses(s: State, waiting: Task, key: string, ttl: nat, v: string) returns (s': State)
    requires Reachable(s)
    requires s == State(0, map[], map[], None, [], [Task(key, ttl, SharedLookup, None, None, None, None), waiting], [], [], {}, {})
    ensures Reachable(s')
    ensures s' == State(0, map[], map[], Some(0), [], [Task(key, ttl, Locked, None, Some(Miss(0, 0)), None, None), waiting], [], [], {}, {})
  {
    s' := s;
    ReachableStep(s', Act(0, Shared(None)));
    s' := ApplyStep(s', Act(0, Shared(None)));
    ReachableStep(s', Act(0, NoInput));
    s' := ApplyStep(s', Act(0, NoInput));
    ReachableStep(s', Act(0, NoInput));
    s' := ApplyStep(s', Act(0, NoInput));
  }
}

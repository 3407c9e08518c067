/** The single-flight protocol: any number of tasks run `cached` at once, interleaved at
    every point where one of them can observe or change something shared.

    A task is a program counter; every change of program counter is one atomic step.
    Fields marked "history" record the past for the theorems, no step reads them. */
module Inflight {
  import opened Wrappers
  import C = Cache

  datatype Fetched =
    | Cached(value: string)
    | Fresh(value: string)
    | Stale(value: string, age: nat)
    | Failed(error: string)

  type Outcome = Result<string, string>

  datatype Pc =
    | SharedLookup                           // about to ask the shared cache
    | LocalLookup                            // about to ask the pod's own cache
    | WantLock                               // awaits the `keys` lock
    | Locked                                 // holds it, about to look its key up
    | Found(n: nat)                          // holds it, has cloned Notify n
    | Enabled(n: nat)                        // holds it, registered on Notify n
    | Waiting(n: nat)                        // awaits Notify n
    | Inserted(n: nat)                       // holds it, has listed its own Notify n
    | Fetching(n: nat)                       // awaits upstream
    | Storing(n: nat, value: string)         // about to read the clock for the stamp
    | Stamped(n: nat, value: string, at: nat) // about to lock the cache's map
    | Unlisting(n: nat, outcome: Outcome)    // awaits the `keys` lock again
    | Removing(n: nat, outcome: Outcome)     // holds it, about to remove its key
    | Notifying(n: nat, outcome: Outcome)    // has released it, about to notify
    | ReadFresh(error: string)               // `from_cache`, first read
    | ReadStale(error: string)               // `from_cache`, second read
    | Done(result: Fetched)

  /** history: the instant of a task's local miss and how many puts preceded it */
  datatype Miss = Miss(at: nat, seen: nat)

  /** `shared`, `missed`, `waited` and `retried` are history: the shared cache's answer, the
      local miss, the Notify it registered on, and the miss of its first read afterwards. */
  datatype Task = Task(key: string, ttl: nat, pc: Pc, shared: Option<string>, missed: Option<Miss>,
                       waited: Option<nat>, retried: Option<Miss>)

  /** `leader`, `outcome` and `landed` are history: the task that created the Notify, what
      its fetch returned and which put of the run stored that. */
  datatype Notify = Notify(leader: nat, registered: set<nat>, woken: set<nat>,
                           outcome: Option<Outcome>, landed: Option<nat>)

  /** `puts`, `writers`, `fetched` and `elsewhere` are history: the puts so far, the tasks
      that made them, and every key and value this pod or another fetched successfully. */
  datatype State = State(clock: nat, store: C.Store, keys: map<string, nat>, lock: Option<nat>,
                         notifies: seq<Notify>, tasks: seq<Task>,
                         puts: seq<C.Put>, writers: seq<nat>,
                         fetched: set<(string, string)>, elsewhere: set<(string, string)>)

  /** What the environment contributes to a step: the shared cache's answer or upstream's. */
  datatype Input = NoInput | Shared(answer: Option<string>) | Upstream(reply: Outcome)

  datatype Step =
    | Begin(key: string, ttl: nat)
    | Tick(elapsed: nat)
    | OtherPod(key: string, value: string)
    | Act(t: nat, input: Input)

  const Init := State(0, map[], map[], None, [], [], [], [], {}, {})

  ghost predicate CanAct(s: State, t: nat, input: Input) {
    t < |s.tasks| &&
    match s.tasks[t].pc
    case SharedLookup =>
      // The shared cache only holds what some pod stored there after fetching it.
      input.Shared? && (input.answer.Some? ==> (s.tasks[t].key, input.answer.value) in s.fetched + s.elsewhere)
    case Fetching(n) => input.Upstream? && n < |s.notifies|
    case WantLock => input.NoInput? && s.lock.None?
    case Unlisting(_, _) => input.NoInput? && s.lock.None?
    case Waiting(n) => input.NoInput? && n < |s.notifies| && t in s.notifies[n].woken
    case Found(n) => input.NoInput? && n < |s.notifies|
    case Stamped(n, _, _) => input.NoInput? && n < |s.notifies|
    case Notifying(n, _) => input.NoInput? && n < |s.notifies|
    case Done(_) => false
    case _ => input.NoInput?
  }

  ghost predicate CanStep(s: State, step: Step) {
    step.Act? ==> CanAct(s, step.t, step.input)
  }

  /** The frame of every step of a task: the clock stands still, only the acting task
      moves, it keeps its key and TTL, and what has been put and fetched only grows. Only
      the local lookup records a miss, only the step after a stamp puts. */
  ghost predicate Advances(s: State, s': State, t: nat) {
    && t < |s.tasks| == |s'.tasks|
    && s'.clock == s.clock && s.fetched <= s'.fetched && s.elsewhere == s'.elsewhere && s.puts <= s'.puts
    && (forall u :: 0 <= u < |s.tasks| && u != t ==> s'.tasks[u] == s.tasks[u])
    && var task, task' := s.tasks[t], s'.tasks[t];
    && task'.key == task.key && task'.ttl == task.ttl
    && (!task.pc.SharedLookup? ==> task'.shared == task.shared)
    && (!task.pc.LocalLookup? ==> task'.missed == task.missed)
    && (!task.pc.ReadFresh? ==> task'.retried == task.retried)
    && (!task.pc.Stamped? ==> s'.puts == s.puts)
    && (task.pc.SharedLookup? ==> task'.pc.LocalLookup? || task'.pc.Done?)
    && (task'.pc.Stamped? ==> task.pc.Storing?)
  }

  function Goto(s: State, t: nat, pc: Pc): State
    requires t < |s.tasks|
  {
    s.(tasks := s.tasks[t := s.tasks[t].(pc := pc)])
  }

  /** Line 45, the shared half of `lookup`. */
  function AskShared(s: State, t: nat, answer: Option<string>): (s': State)
    requires t < |s.tasks| && s.tasks[t].pc.SharedLookup?
    ensures Advances(s, s', t)
  {
    var pc := match answer case Some(v) => Done(Cached(v)) case None => LocalLookup;
    s.(tasks := s.tasks[t := s.tasks[t].(pc := pc, shared := answer)])
  }

  /** Lines 45-47, the pod's own half of `lookup`. */
  function LookUp(s: State, t: nat): (s': State)
    requires t < |s.tasks| && s.tasks[t].pc.LocalLookup?
    ensures Advances(s, s', t)
  {
    var hit := C.Fresh(s.store, s.tasks[t].key, s.clock);
    if hit.Some? then Goto(s, t, Done(Cached(hit.value)))
    else s.(tasks := s.tasks[t := s.tasks[t].(pc := WantLock, missed := Some(Miss(s.clock, |s.puts|)))])
  }

  /** Lines 49 and 57-58, under the lock. */
  function Look(s: State, t: nat): (s': State)
    requires t < |s.tasks| && s.tasks[t].pc.Locked?
    ensures Advances(s, s', t)
  {
    var key := s.tasks[t].key;
    if key in s.keys then Goto(s, t, Found(s.keys[key]))
    else
      var n := |s.notifies|;
      Goto(s, t, Inserted(n)).(
        keys := s.keys[key := n],
        notifies := s.notifies + [Notify(t, {}, {}, None, None)])
  }

  /** Lines 50-52, under the lock. */
  function Enable(s: State, t: nat, n: nat): (s': State)
    requires t < |s.tasks| && n < |s.notifies| && s.tasks[t].pc.Found?
    ensures Advances(s, s', t)
  {
    s.(tasks := s.tasks[t := s.tasks[t].(pc := Enabled(n), waited := Some(n))],
       notifies := s.notifies[n := s.notifies[n].(registered := s.notifies[n].registered + {t})])
  }

  /** Line 61. */
  function Fetch(s: State, t: nat, n: nat, reply: Outcome): (s': State)
    requires t < |s.tasks| && n < |s.notifies| && s.tasks[t].pc.Fetching?
    ensures Advances(s, s', t)
  {
    var asked := s.(notifies := s.notifies[n := s.notifies[n].(outcome := Some(reply))]);
    match reply
    case Ok(v) => Goto(asked, t, Storing(n, v)).(fetched := s.fetched + {(s.tasks[t].key, v)})
    case Err(_) => Goto(asked, t, Unlisting(n, reply))
  }

  /** Line 63, the put itself. */
  function Land(s: State, t: nat, n: nat, value: string, at: nat): (s': State)
    requires t < |s.tasks| && n < |s.notifies| && s.tasks[t].pc.Stamped?
    ensures Advances(s, s', t)
  {
    var p := C.Put(s.tasks[t].key, value, s.tasks[t].ttl, at, s.clock);
    Goto(s, t, Unlisting(n, Ok(value))).(
      store := C.Apply(s.store, p),
      puts := s.puts + [p],
      writers := s.writers + [t],
      notifies := s.notifies[n := s.notifies[n].(landed := Some(|s.puts|))])
  }

  /** Line 65, under the lock. */
  function Remove(s: State, t: nat, n: nat, outcome: Outcome): (s': State)
    requires t < |s.tasks| && s.tasks[t].pc.Removing?
    ensures Advances(s, s', t)
  {
    Goto(s, t, Notifying(n, outcome)).(keys := s.keys - {s.tasks[t].key}, lock := None)
  }

  /** Lines 66-69. */
  function NotifyWaiters(s: State, t: nat, n: nat, outcome: Outcome): (s': State)
    requires t < |s.tasks| && n < |s.notifies| && s.tasks[t].pc.Notifying?
    ensures Advances(s, s', t)
  {
    var woken := s.notifies[n].woken + s.notifies[n].registered;
    var pc := match outcome case Ok(v) => Done(Fresh(v)) case Err(e) => ReadFresh(e);
    Goto(s, t, pc).(notifies := s.notifies[n := s.notifies[n].(registered := {}, woken := woken)])
  }

  /** Lines 75-77. */
  function FromCacheFresh(s: State, t: nat, error: string): (s': State)
    requires t < |s.tasks| && s.tasks[t].pc.ReadFresh?
    ensures Advances(s, s', t)
  {
    match C.Fresh(s.store, s.tasks[t].key, s.clock)
    case Some(v) => Goto(s, t, Done(Cached(v)))
    case None =>
      s.(tasks := s.tasks[t := s.tasks[t].(pc := ReadStale(error), retried := Some(Miss(s.clock, |s.puts|)))])
  }

  /** Lines 78-81. */
  function FromCacheStale(s: State, t: nat, error: string): (s': State)
    requires t < |s.tasks| && s.tasks[t].pc.ReadStale?
    ensures Advances(s, s', t)
  {
    match C.Stale(s.store, s.tasks[t].key, C.STALE_MAX_AGE, s.clock)
    case Some((v, age)) => Goto(s, t, Done(Stale(v, age)))
    case None => Goto(s, t, Done(Failed(error)))
  }

  ghost function ApplyAct(s: State, t: nat, input: Input): (s': State)
    requires CanAct(s, t, input)
    ensures Advances(s, s', t)
  {
    match s.tasks[t].pc
    case SharedLookup => AskShared(s, t, input.answer)
    case LocalLookup => LookUp(s, t)
    case WantLock => Goto(s, t, Locked).(lock := Some(t))
    case Locked => Look(s, t)
    case Found(n) => Enable(s, t, n)
    case Enabled(n) => Goto(s, t, Waiting(n)).(lock := None)
    case Waiting(_) => Goto(s, t, ReadFresh("upstream unavailable"))
    case Inserted(n) => Goto(s, t, Fetching(n)).(lock := None)
    case Fetching(n) => Fetch(s, t, n, input.reply)
    case Storing(n, v) => Goto(s, t, Stamped(n, v, s.clock))
    case Stamped(n, v, at) => Land(s, t, n, v, at)
    case Unlisting(n, o) => Goto(s, t, Removing(n, o)).(lock := Some(t))
    case Removing(n, o) => Remove(s, t, n, o)
    case Notifying(n, o) => NotifyWaiters(s, t, n, o)
    case ReadFresh(e) => FromCacheFresh(s, t, e)
    case ReadStale(e) => FromCacheStale(s, t, e)
    case Done(_) => s
  }

  ghost function ApplyStep(s: State, step: Step): State
    requires CanStep(s, step)
  {
    match step
    case Begin(key, ttl) => s.(tasks := s.tasks + [Task(key, ttl, SharedLookup, None, None, None, None)])
    case Tick(elapsed) => s.(clock := s.clock + elapsed)
    case OtherPod(key, value) => s.(elsewhere := s.elsewhere + {(key, value)})
    case Act(t, input) => ApplyAct(s, t, input)
  }

  /** The state after a run, if every step of it was possible. */
  ghost function Run(s: State, steps: seq<Step>): Option<State> {
    if steps == [] then Some(s)
    else
      var before := Run(s, steps[..|steps| - 1]);
      var last := steps[|steps| - 1];
      if before.Some? && CanStep(before.value, last) then Some(ApplyStep(before.value, last)) else None
  }

  ghost predicate Reachable(s: State) {
    exists steps :: Run(Init, steps) == Some(s)
  }
}

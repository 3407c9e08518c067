/** What the tasks of the single-flight protocol store and return. */
module InflightStores {
  import opened Wrappers
  import opened Inflight
  import opened InflightOwnership
  import C = Cache

  /// ## Provenance

  ghost predicate Fetches(s: State, key: string, value: string) {
    (key, value) in s.fetched
  }

  /** Whatever a task carries, stored or returns for its key this pod fetched for that key,
      except for an answer of the shared cache, which some pod fetched; stamps are in the
      past and no stale answer is older than five minutes. */
  ghost predicate CarriesOk(s: State, t: nat)
    requires t < |s.tasks|
  {
    var key, shared := s.tasks[t].key, s.tasks[t].shared;
    (shared.Some? ==> s.tasks[t].pc == Done(Cached(shared.value)) && (key, shared.value) in s.fetched + s.elsewhere) &&
    match s.tasks[t].pc
    case Storing(_, v) => Fetches(s, key, v)
    case Stamped(_, v, at) => Fetches(s, key, v) && at <= s.clock
    case Unlisting(_, o) => o.Ok? ==> Fetches(s, key, o.value)
    case Removing(_, o) => o.Ok? ==> Fetches(s, key, o.value)
    case Notifying(_, o) => o.Ok? ==> Fetches(s, key, o.value)
    case Done(Cached(v)) => shared.Some? || Fetches(s, key, v)
    case Done(Fresh(v)) => Fetches(s, key, v)
    case Done(Stale(v, age)) => Fetches(s, key, v) && age <= 300
    case _ => true
  }

  ghost predicate WriteOk(s: State, i: nat)
    requires i < |s.puts| == |s.writers|
  {
    var p := s.puts[i];
    && s.writers[i] < |s.tasks|
    && s.tasks[s.writers[i]].key == p.key && s.tasks[s.writers[i]].ttl == p.ttl
    && Fetches(s, p.key, p.value)
  }

  ghost predicate StoreInv(s: State) {
    && s.store == C.Contents(s.puts)
    && C.Ordered(s.puts) && C.Reached(s.puts, s.clock)
    && |s.writers| == |s.puts|
    && (forall i :: 0 <= i < |s.puts| ==> WriteOk(s, i))
    && (forall k :: k in s.store ==> Fetches(s, k, s.store[k].value))
    && (forall t :: 0 <= t < |s.tasks| ==> CarriesOk(s, t))
  }

  /** Steps that do not put anything. */
  lemma StoreMove(s: State, s': State)
    requires StoreInv(s)
    requires s'.store == s.store && s'.puts == s.puts && s'.writers == s.writers
    requires s.clock <= s'.clock && s.fetched <= s'.fetched && s.elsewhere <= s'.elsewhere
    requires |s.tasks| <= |s'.tasks|
    requires forall t :: 0 <= t < |s.tasks| ==> s'.tasks[t].key == s.tasks[t].key && s'.tasks[t].ttl == s.tasks[t].ttl
    requires forall t :: 0 <= t < |s'.tasks| ==> (t < |s.tasks| && s'.tasks[t] == s.tasks[t]) || CarriesOk(s', t)
    ensures StoreInv(s')
  {
    forall i | 0 <= i < |s'.puts| ensures WriteOk(s', i) {
      assert WriteOk(s, i);
    }
    forall t | 0 <= t < |s'.tasks| ensures CarriesOk(s', t) {
      assert t < |s.tasks| ==> CarriesOk(s, t);
    }
  }

  lemma StoreKept(s: State, step: Step)
    requires StoreInv(s) && CanStep(s, step)
    ensures StoreInv(ApplyStep(s, step))
  {
    if step.Act? {
      StoreKeptByAct(s, step.t, step.input);
    } else {
      StoreMove(s, ApplyStep(s, step));
    }
  }

  lemma StoreKeptByAct(s: State, t: nat, input: Input)
    requires StoreInv(s) && CanAct(s, t, input)
    ensures StoreInv(ApplyAct(s, t, input))
  {
    match s.tasks[t].pc
    case Stamped(n, v, at) => StoreKeptByLand(s, t, n, v, at);
    case LocalLookup => StoreKeptByRead(s, t, input);
    case ReadFresh(_) => StoreKeptByRead(s, t, input);
    case ReadStale(_) => StoreKeptByRead(s, t, input);
    case Locked => StoreKeptUnderLock(s, t, input);
    case Found(_) => StoreKeptUnderLock(s, t, input);
    case Enabled(_) => StoreKeptUnderLock(s, t, input);
    case Inserted(_) => StoreKeptUnderLock(s, t, input);
    case Removing(_, _) => StoreKeptUnderLock(s, t, input);
    case _ => StoreKeptElsewhere(s, t, input);
  }

  lemma StoreKeptByLand(s: State, t: nat, n: nat, value: string, at: nat)
    requires StoreInv(s) && t < |s.tasks| && n < |s.notifies| && s.tasks[t].pc == Stamped(n, value, at)
    ensures StoreInv(Land(s, t, n, value, at))
  {
    var s' := Land(s, t, n, value, at);
    var p := C.Put(s.tasks[t].key, value, s.tasks[t].ttl, at, s.clock);
    assert CarriesOk(s, t);
    WritesKeptByLand(s, t, n, value, at);
    CarriesKeptByLand(s, t, n, value, at);
    C.AppendPut(s.puts, p);
    ApplyKeepsProvenance(s, p);
  }

  lemma WritesKeptByLand(s: State, t: nat, n: nat, value: string, at: nat)
    requires |s.puts| == |s.writers| && forall i :: 0 <= i < |s.puts| ==> WriteOk(s, i)
    requires t < |s.tasks| && n < |s.notifies| && s.tasks[t].pc == Stamped(n, value, at)
    requires Fetches(s, s.tasks[t].key, value)
    ensures var s' := Land(s, t, n, value, at);
            |s'.puts| == |s'.writers| && forall i :: 0 <= i < |s'.puts| ==> WriteOk(s', i)
  {
    var s' := Land(s, t, n, value, at);
    forall i | 0 <= i < |s'.puts| ensures WriteOk(s', i) {
      assert i < |s.puts| ==> WriteOk(s, i);
    }
  }

  lemma CarriesKeptByLand(s: State, t: nat, n: nat, value: string, at: nat)
    requires forall u :: 0 <= u < |s.tasks| ==> CarriesOk(s, u)
    requires t < |s.tasks| && n < |s.notifies| && s.tasks[t].pc == Stamped(n, value, at)
    ensures var s' := Land(s, t, n, value, at); forall u :: 0 <= u < |s'.tasks| ==> CarriesOk(s', u)
  {
    var s' := Land(s, t, n, value, at);
    forall u | 0 <= u < |s'.tasks| ensures CarriesOk(s', u) {
      assert CarriesOk(s, u);
    }
  }

  lemma ApplyKeepsProvenance(s: State, p: C.Put)
    requires forall k :: k in s.store ==> Fetches(s, k, s.store[k].value)
    requires Fetches(s, p.key, p.value)
    ensures forall k :: k in C.Apply(s.store, p) ==> Fetches(s, k, C.Apply(s.store, p)[k].value)
  {}

  lemma StoreKeptByRead(s: State, t: nat, input: Input)
    requires StoreInv(s) && CanAct(s, t, input)
    requires s.tasks[t].pc.LocalLookup? || s.tasks[t].pc.ReadFresh? || s.tasks[t].pc.ReadStale?
    ensures StoreInv(ApplyAct(s, t, input))
  {
    hide C.Contents;
    hide C.Ordered;
    hide C.Reached;
    hide WriteOk;
    assert CarriesOk(s, t);
    StoreMove(s, ApplyAct(s, t, input));
  }

  lemma StoreKeptUnderLock(s: State, t: nat, input: Input)
    requires StoreInv(s) && CanAct(s, t, input) && HoldsLock(s.tasks[t].pc)
    ensures StoreInv(ApplyAct(s, t, input))
  {
    hide C.Contents;
    hide C.Ordered;
    hide C.Reached;
    hide WriteOk;
    assert CarriesOk(s, t);
    StoreMove(s, ApplyAct(s, t, input));
  }

  lemma StoreKeptElsewhere(s: State, t: nat, input: Input)
    requires StoreInv(s) && CanAct(s, t, input)
    requires var pc := s.tasks[t].pc;
             pc.SharedLookup? || pc.WantLock? || pc.Waiting? || pc.Fetching? || pc.Storing?
             || pc.Unlisting? || pc.Notifying?
    ensures StoreInv(ApplyAct(s, t, input))
  {
    hide C.Contents;
    hide C.Ordered;
    hide C.Reached;
    hide WriteOk;
    assert CarriesOk(s, t);
    StoreMove(s, ApplyAct(s, t, input));
  }
}

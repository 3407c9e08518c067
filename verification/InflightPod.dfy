/** The protocol's shared objects as one pod updates them in place: the `keys` map behind
    its lock, the Notifies and the cache. Each method is one atomic step, and what it
    achieves holds in every state that calls, the clock and other pods can bring about. */
module InflightPod {
  import opened Wrappers
  import I = Inflight
  import O = InflightOwnership
  import T = InflightTheorems
  import P = InflightProgress
  import S = InflightSteps
  import B = InflightBounds
  import C = Cache

  class Pod {
    const cache: C.Cache
    var clock: nat
    var keys: map<string, nat>
    var lock: Option<nat>
    var notifies: seq<I.Notify>
    var tasks: seq<I.Task>
    var puts: seq<C.Put>
    var writers: seq<nat>
    var fetched: set<(string, string)>
    var elsewhere: set<(string, string)>

    ghost function View(): I.State
      reads this, cache
    {
      I.State(clock, cache.inner, keys, lock, notifies, tasks, puts, writers, fetched, elsewhere)
    }

    /** Some run of the protocol leads here. */
    ghost predicate Valid()
      reads this, cache
    {
      cache.Valid() && cache.puts == puts && I.Reachable(View())
    }

    constructor ()
      ensures Valid() && fresh(cache) && View() == I.Init
    {
      clock, keys, lock, notifies, tasks := 0, map[], None, [], [];
      puts, writers, fetched, elsewhere := [], [], {}, {};
      cache := new C.Cache();
      new;
      assert I.Run(I.Init, []) == Some(I.Init);
    }

    /// ## The environment

    /** A new call for the key; its index is its name. */
    method Begin(key: string, ttl: nat) returns (t: nat)
      requires Valid()
      modifies this`tasks
      ensures Valid() && t == old(|tasks|)
      ensures tasks == old(tasks) + [I.Task(key, ttl, I.SharedLookup, None, None, None, None)]
    {
      T.ReachableStep(View(), I.Begin(key, ttl));
      t := |tasks|;
      tasks := tasks + [I.Task(key, ttl, I.SharedLookup, None, None, None, None)];
    }

    method Tick(elapsed: nat)
      requires Valid()
      modifies this`clock
      ensures Valid() && clock == old(clock) + elapsed
    {
      T.ReachableStep(View(), I.Tick(elapsed));
      clock := clock + elapsed;
    }

    method OtherPod(key: string, value: string)
      requires Valid()
      modifies this`elsewhere
      ensures Valid() && elsewhere == old(elsewhere) + {(key, value)}
    {
      T.ReachableStep(View(), I.OtherPod(key, value));
      elsewhere := elsewhere + {(key, value)};
    }

    /// ## Looking up

    method AskShared(t: nat, answer: Option<string>)
      requires Valid() && t < |tasks| && tasks[t].pc.SharedLookup?
      requires answer.Some? ==> (tasks[t].key, answer.value) in fetched + elsewhere
      modifies this`tasks
      ensures Valid() && View() == I.AskShared(old(View()), t, answer)
    {
      T.ReachableStep(View(), I.Act(t, I.Shared(answer)));
      var pc := match answer case Some(v) => I.Done(I.Cached(v)) case None => I.LocalLookup;
      tasks := tasks[t := tasks[t].(pc := pc, shared := answer)];
    }

    /** The call returns a value only if that is the latest store of its key and alive; with
        TTLs inside the stale window it returns whenever there is one. */
    method LookUp(t: nat)
      requires Valid() && t < |tasks| && tasks[t].pc.LocalLookup?
      modifies this`tasks
      ensures Valid() && View() == I.LookUp(old(View()), t)
      ensures tasks[t].pc.WantLock? || tasks[t].pc.Done?
      ensures tasks[t].pc.Done? ==>
                C.Fresh(C.Latest(puts), tasks[t].key, clock).Some?
                && tasks[t].pc == I.Done(I.Cached(C.Fresh(C.Latest(puts), tasks[t].key, clock).value))
      ensures C.TtlsWithin(puts, 300) && C.Fresh(C.Latest(puts), tasks[t].key, clock).Some? ==> tasks[t].pc.Done?
    {
      hide I.Reachable;
      S.FreshIsLatest(View(), tasks[t].key);
      T.ReachableStep(View(), I.Act(t, I.NoInput));
      var v := cache.Get(tasks[t].key, clock);
      if v.Some? {
        Goto(t, I.Done(I.Cached(v.value)));
      } else {
        tasks := tasks[t := tasks[t].(pc := I.WantLock, missed := Some(I.Miss(clock, |puts|)))];
      }
    }

    method Goto(t: nat, pc: I.Pc)
      requires t < |tasks|
      modifies this`tasks
      ensures View() == I.Goto(old(View()), t, pc)
    {
      tasks := tasks[t := tasks[t].(pc := pc)];
    }

    /// ## The lock

    /** The call is then the only one in a critical section. */
    method Acquire(t: nat)
      requires Valid() && lock.None? && t < |tasks| && (tasks[t].pc.WantLock? || tasks[t].pc.Unlisting?)
      modifies this`tasks, this`lock
      ensures Valid() && View() == I.ApplyAct(old(View()), t, I.NoInput)
      ensures lock == Some(t) && O.HoldsLock(tasks[t].pc)
      ensures forall u :: 0 <= u < |tasks| && u != t ==> !O.HoldsLock(tasks[u].pc)
    {
      hide I.Reachable;
      T.ReachableStep(View(), I.Act(t, I.NoInput));
      lock := Some(t);
      match tasks[t].pc {
        case WantLock => Goto(t, I.Locked);
        case Unlisting(n, o) => Goto(t, I.Removing(n, o));
      }
      S.LockIsExclusive(View(), t);
    }

    /** Then no call is in a critical section. */
    method Release(t: nat)
      requires Valid() && t < |tasks| && (tasks[t].pc.Enabled? || tasks[t].pc.Inserted?)
      modifies this`tasks, this`lock
      ensures Valid() && View() == I.ApplyAct(old(View()), t, I.NoInput)
      ensures lock.None? && forall u :: 0 <= u < |tasks| ==> !O.HoldsLock(tasks[u].pc)
    {
      hide I.Reachable;
      T.ReachableStep(View(), I.Act(t, I.NoInput));
      lock := None;
      match tasks[t].pc {
        case Enabled(n) => Goto(t, I.Waiting(n));
        case Inserted(n) => Goto(t, I.Fetching(n));
      }
      S.FreeMeansFree(View());
    }

    /** The call becomes the leader of its key, listed under a Notify of its own, if and only
        if no call leads it; otherwise it finds the Notify of the call that does. */
    method Look(t: nat)
      requires Valid() && t < |tasks| && tasks[t].pc.Locked?
      modifies this`tasks, this`keys, this`notifies
      ensures Valid() && View() == I.Look(old(View()), t)
      ensures tasks[t].pc.Inserted? <==> !old(S.IsLed(View(), tasks[t].key))
      ensures tasks[t].pc.Inserted? ==>
                tasks[t].key in keys && keys[tasks[t].key] == tasks[t].pc.n == old(|notifies|)
                && notifies[tasks[t].pc.n].leader == t
      ensures !tasks[t].pc.Inserted? ==>
                tasks[t].pc.Found? && tasks[t].pc.n < |notifies|
                && S.Serves(View(), notifies[tasks[t].pc.n].leader, tasks[t].pc.n, tasks[t].key)
    {
      hide I.Reachable;
      T.FetchesIff(View(), t);
      T.ReachableStep(View(), I.Act(t, I.NoInput));
      var key := tasks[t].key;
      if key in keys {
        Goto(t, I.Found(keys[key]));
        S.FoundIsServed(View(), t);
        return;
      }
      Goto(t, I.Inserted(|notifies|));
      keys := keys[key := |notifies|];
      notifies := notifies + [I.Notify(t, {}, {}, None, None)];
    }

    /** The call is registered with a leader of its key that has yet to notify. */
    method Enable(t: nat, n: nat)
      requires Valid() && t < |tasks| && tasks[t].pc == I.Found(n)
      modifies this`tasks, this`notifies
      ensures n < |notifies| == old(|notifies|) && Valid() && View() == I.Enable(old(View()), t, n)
      ensures t in notifies[n].registered && S.Serves(View(), notifies[n].leader, n, tasks[t].key)
    {
      hide I.Reachable;
      S.FoundIsServed(View(), t);
      T.ReachableStep(View(), I.Act(t, I.NoInput));
      notifies := notifies[n := notifies[n].(registered := notifies[n].registered + {t})];
      tasks := tasks[t := tasks[t].(pc := I.Enabled(n), waited := Some(n))];
      S.FoundIsServed(View(), t);
    }

    /// ## Leading

    /** Upstream answers. A success is recorded as fetched for the call's own key. */
    method Fetch(t: nat, n: nat, reply: I.Outcome)
      requires Valid() && t < |tasks| && tasks[t].pc == I.Fetching(n)
      modifies this`tasks, this`notifies, this`fetched
      ensures n < |notifies| == old(|notifies|) && Valid() && View() == I.Fetch(old(View()), t, n, reply)
      ensures notifies[n].leader == t && notifies[n].outcome == Some(reply)
      ensures fetched == match reply case Ok(v) => old(fetched) + {(tasks[t].key, v)} case Err(_) => old(fetched)
    {
      hide I.Reachable;
      S.CanReceive(View(), t, reply);
      T.ReachableStep(View(), I.Act(t, I.Upstream(reply)));
      S.OwnNotify(View(), t);
      notifies := notifies[n := notifies[n].(outcome := Some(reply))];
      match reply
      case Ok(v) =>
        fetched := fetched + {(tasks[t].key, v)};
        Goto(t, I.Storing(n, v));
      case Err(_) =>
        Goto(t, I.Unlisting(n, reply));
    }

    method Stamp(t: nat)
      requires Valid() && t < |tasks| && tasks[t].pc.Storing?
      modifies this`tasks
      ensures Valid() && View() == I.ApplyAct(old(View()), t, I.NoInput)
    {
      hide I.Reachable;
      T.ReachableStep(View(), I.Act(t, I.NoInput));
      Goto(t, I.Stamped(tasks[t].pc.n, tasks[t].pc.value, clock));
    }

    /** The value is the latest store of its key, stamped no earlier than any before it. */
    method Land(t: nat, n: nat, value: string, at: nat)
      requires Valid() && t < |tasks| && tasks[t].pc == I.Stamped(n, value, at)
      modifies this`tasks, this`notifies, this`puts, this`writers, cache
      ensures n < |notifies| == old(|notifies|) && Valid() && View() == I.Land(old(View()), t, n, value, at)
      ensures puts == old(puts) + [C.Put(tasks[t].key, value, tasks[t].ttl, at, clock)]
      ensures C.Latest(puts)[tasks[t].key := C.EntryOf(puts[|puts| - 1])] == C.Latest(puts)
      ensures forall i :: 0 <= i < |puts| && puts[i].key == tasks[t].key ==> puts[i].fetchedAt <= at
      ensures (tasks[t].key, value) in fetched
    {
      hide I.Reachable;
      hide C.Contents;
      hide C.Ordered;
      hide C.Reached;
      S.CanReceive(View(), t, Ok(value));
      S.StampIsPast(View(), t);
      S.FreshIsLatest(View(), tasks[t].key);
      S.OwnNotify(View(), t);
      T.ReachableStep(View(), I.Act(t, I.NoInput));
      ghost var before := puts;
      var p := C.Put(tasks[t].key, value, tasks[t].ttl, at, clock);
      cache.PutAt(tasks[t].key, value, tasks[t].ttl, at, clock);
      notifies := notifies[n := notifies[n].(landed := Some(|puts|))];
      puts := puts + [p];
      writers := writers + [t];
      Goto(t, I.Unlisting(n, Ok(value)));
      S.LastPutIsLatest(View(), before, p);
    }

    /** The entry removed is the leader's own, and no call has found it without having
        registered. */
    method Remove(t: nat, n: nat, outcome: I.Outcome)
      requires Valid() && t < |tasks| && tasks[t].pc == I.Removing(n, outcome)
      modifies this`tasks, this`keys, this`lock
      ensures Valid() && View() == I.Remove(old(View()), t, n, outcome)
      ensures old(tasks[t].key in keys && keys[tasks[t].key] == n)
      ensures keys == old(keys) - {tasks[t].key} && lock.None?
      ensures forall u :: 0 <= u < |tasks| ==> !tasks[u].pc.Found? && !tasks[u].pc.Enabled?
    {
      hide I.Reachable;
      T.RemoveTakesOwnEntry(View(), t);
      T.ReachableStep(View(), I.Act(t, I.NoInput));
      keys := keys - {tasks[t].key};
      lock := None;
      Goto(t, I.Notifying(n, outcome));
    }

    /** Every call that waits for this leader is woken, and no call that waits for another. */
    method NotifyWaiters(t: nat, n: nat, outcome: I.Outcome)
      requires Valid() && t < |tasks| && tasks[t].pc == I.Notifying(n, outcome)
      modifies this`tasks, this`notifies
      ensures n < |notifies| == old(|notifies|) && Valid() && View() == I.NotifyWaiters(old(View()), t, n, outcome)
      ensures forall u :: 0 <= u < |tasks| ==>
                (u in notifies[n].woken <==> tasks[u].waited == Some(n))
                && (u in notifies[n].woken ==> tasks[u].pc == I.Waiting(n) && tasks[u].key == tasks[t].key)
      ensures forall m :: 0 <= m < |notifies| && m != n ==> notifies[m] == old(notifies)[m]
    {
      hide I.Reachable;
      S.CanReceive(View(), t, outcome);
      T.NotifyWakesExactlyOwnWaiters(View(), t);
      S.LeaderNeverWaits(View(), t);
      T.ReachableStep(View(), I.Act(t, I.NoInput));
      notifies := notifies[n := notifies[n].(registered := {}, woken := notifies[n].woken + notifies[n].registered)];
      match outcome
      case Ok(v) => Goto(t, I.Done(I.Fresh(v)));
      case Err(e) => Goto(t, I.ReadFresh(e));
    }

    /// ## Returning

    /** A woken call looks for a live entry first. */
    method Wake(t: nat, n: nat)
      requires Valid() && t < |tasks| && tasks[t].pc == I.Waiting(n) && n < |notifies| && t in notifies[n].woken
      modifies this`tasks
      ensures Valid() && View() == I.Goto(old(View()), t, I.ReadFresh("upstream unavailable"))
    {
      hide I.Reachable;
      T.ReachableStep(View(), I.Act(t, I.NoInput));
      Goto(t, I.ReadFresh("upstream unavailable"));
    }

    /** As for the lookup: the answer is the latest store of the key. */
    method FromCacheFresh(t: nat, error: string)
      requires Valid() && t < |tasks| && tasks[t].pc == I.ReadFresh(error)
      modifies this`tasks
      ensures Valid() && View() == I.FromCacheFresh(old(View()), t, error)
      ensures tasks[t].pc == I.ReadStale(error)
           || (C.Fresh(C.Latest(puts), tasks[t].key, clock).Some?
               && tasks[t].pc == I.Done(I.Cached(C.Fresh(C.Latest(puts), tasks[t].key, clock).value)))
      ensures C.TtlsWithin(puts, 300) && C.Fresh(C.Latest(puts), tasks[t].key, clock).Some? ==> tasks[t].pc.Done?
    {
      hide I.Reachable;
      S.FreshIsLatest(View(), tasks[t].key);
      T.ReachableStep(View(), I.Act(t, I.NoInput));
      var v := cache.Get(tasks[t].key, clock);
      match v
      case Some(value) => Goto(t, I.Done(I.Cached(value)));
      case None =>
        tasks := tasks[t := tasks[t].(pc := I.ReadStale(error), retried := Some(I.Miss(clock, |puts|)))];
    }

    /** The call returns the latest store of its key with its age, at most five minutes, or
        fails with nothing stored for its key in the last five minutes. */
    method FromCacheStale(t: nat, error: string)
      requires Valid() && t < |tasks| && tasks[t].pc == I.ReadStale(error)
      modifies this`tasks
      ensures Valid() && View() == I.FromCacheStale(old(View()), t, error)
      ensures match tasks[t].pc
              case Done(Stale(v, age)) =>
                C.Stale(C.Latest(puts), tasks[t].key, C.STALE_MAX_AGE, clock) == Some((v, age)) && age <= 300
              case Done(Failed(e)) =>
                e == error && forall i :: 0 <= i < |puts| && puts[i].key == tasks[t].key ==>
                                puts[i].fetchedAt + C.STALE_MAX_AGE <= clock
              case _ => false
    {
      hide I.Reachable;
      S.FreshIsLatest(View(), tasks[t].key);
      T.ReachableStep(View(), I.Act(t, I.NoInput));
      var v := cache.GetStale(tasks[t].key, C.STALE_MAX_AGE, clock);
      match v
      case Some(stale) => Goto(t, I.Done(I.Stale(stale.0, stale.1)));
      case None =>
        S.FailedMeansNothingRecent(View(), t);
        Goto(t, I.Done(I.Failed(error)));
    }

    /// ## Whole calls

    /** The next step of call `t`, whatever it is, brings the calls closer to their return. */
    method Act(t: nat, input: I.Input)
      requires Valid() && I.CanAct(View(), t, input)
      modifies this, cache
      ensures Valid() && View() == I.ApplyAct(old(View()), t, input)
      ensures P.Measure(tasks) < old(P.Measure(tasks))
    {
      hide I.Reachable;
      hide P.Measure;
      hide C.Contents;
      hide C.Ordered;
      hide C.Reached;
      hide C.Latest;
      hide C.Fresh;
      hide C.Stale;
      hide O.HoldsLock;
      P.MeasureFalls(View(), t, input);
      match tasks[t].pc
      case SharedLookup => AskShared(t, input.answer);
      case LocalLookup => LookUp(t);
      case WantLock => Acquire(t);
      case Locked => Look(t);
      case Found(n) => Enable(t, n);
      case Enabled(_) => Release(t);
      case Waiting(n) => Wake(t, n);
      case Inserted(_) => Release(t);
      case Fetching(n) => Fetch(t, n, input.reply);
      case Storing(_, _) => Stamp(t);
      case Stamped(n, v, at) => Land(t, n, v, at);
      case Unlisting(_, _) => Acquire(t);
      case Removing(n, o) => Remove(t, n, o);
      case Notifying(n, o) => NotifyWaiters(t, n, o);
      case ReadFresh(e) => FromCacheFresh(t, e);
      case ReadStale(e) => FromCacheStale(t, e);
    }

    /** Every other call has returned. */
    predicate IsAlone(t: nat)
      reads this`tasks
    {
      t < |tasks| && forall u :: 0 <= u < |tasks| && u != t ==> tasks[u].pc.Done?
    }

    /** One call from start to end while no other is under way: the shared cache's answer,
        or a live entry of this pod's own, or what upstream answers after some time. A
        success is stored and returned; after a failure the last good payload is returned if
        it is at most five minutes old. */
    method Cached(key: string, ttl: nat, shared: Option<string>, took: nat, reply: I.Outcome) returns (r: I.Fetched)
      requires Valid() && P.Finished(View())
      requires shared.Some? ==> (key, shared.value) in fetched + elsewhere
      modifies this, cache
      ensures Valid() && P.Finished(View()) && |tasks| == old(|tasks|) + 1
      ensures shared.Some? ==> r == I.Cached(shared.value) && puts == old(puts)
      ensures var hit := C.Fresh(old(cache.inner), key, old(clock));
              shared.None? && hit.Some? ==> r == I.Cached(hit.value) && puts == old(puts)
      ensures shared.None? && C.Fresh(old(cache.inner), key, old(clock)).None? ==>
                clock == old(clock) + took &&
                match reply
                case Ok(v) => r == I.Fresh(v) && puts == old(puts) + [C.Put(key, v, ttl, clock, clock)]
                case Err(e) =>
                  && puts == old(puts)
                  && r == match C.Stale(old(cache.inner), key, C.STALE_MAX_AGE, clock)
                          case Some((v, age)) => I.Stale(v, age)
                          case None => I.Failed(e)
    {
      hide I.Reachable;
      hide C.Contents;
      hide C.Ordered;
      var t := Begin(key, ttl);
      AskShared(t, shared);
      if tasks[t].pc.LocalLookup? {
        LookUp(t);
      }
      if tasks[t].pc.WantLock? {
        Lead(t, took, reply);
        if tasks[t].pc.ReadFresh? {
          FromCache(t, tasks[t].pc.error);
        }
      }
      r := tasks[t].pc.result;
    }

    /** A call that misses with no other call under way becomes leader, asks upstream, stores
        a success and has nobody to wake. */
    method Lead(t: nat, took: nat, reply: I.Outcome)
      requires Valid() && IsAlone(t) && tasks[t].pc.WantLock?
      modifies this, cache
      ensures Valid() && IsAlone(t) && |tasks| == old(|tasks|) && tasks[t].key == old(tasks)[t].key
      ensures clock == old(clock) + took
      ensures match reply
              case Ok(v) =>
                && tasks[t].pc == I.Done(I.Fresh(v))
                && puts == old(puts) + [C.Put(tasks[t].key, v, old(tasks)[t].ttl, clock, clock)]
              case Err(e) => tasks[t].pc == I.ReadFresh(e) && puts == old(puts) && cache.inner == old(cache.inner)
    {
      hide I.Reachable;
      hide C.Contents;
      hide C.Ordered;
      var n := Elect(t);
      Tick(took);
      FetchAndStore(t, n, reply);
      Settle(t, n, reply);
    }

    /** Lines 61-64. */
    method FetchAndStore(t: nat, n: nat, reply: I.Outcome)
      requires Valid() && IsAlone(t) && tasks[t].pc == I.Fetching(n)
      modifies this`tasks, this`notifies, this`fetched, this`puts, this`writers, cache
      ensures Valid() && IsAlone(t) && |tasks| == old(|tasks|)
      ensures tasks[t] == old(tasks)[t].(pc := I.Unlisting(n, reply))
      ensures match reply
              case Ok(v) => puts == old(puts) + [C.Put(tasks[t].key, v, tasks[t].ttl, clock, clock)]
              case Err(_) => puts == old(puts) && cache.inner == old(cache.inner)
    {
      hide I.Reachable;
      hide C.Contents;
      hide C.Ordered;
      Fetch(t, n, reply);
      if reply.Ok? {
        Stamp(t);
        Land(t, n, reply.value, clock);
      }
    }

    /** Lines 48-59. */
    method Elect(t: nat) returns (n: nat)
      requires Valid() && IsAlone(t) && tasks[t].pc.WantLock?
      modifies this`tasks, this`keys, this`notifies, this`lock
      ensures Valid() && IsAlone(t) && |tasks| == old(|tasks|)
      ensures tasks[t] == old(tasks)[t].(pc := I.Fetching(n)) && n < |notifies|
    {
      hide I.Reachable;
      hide C.Contents;
      hide C.Ordered;
      S.AloneIsFree(View(), t);
      Acquire(t);
      Look(t);
      S.AloneLeads(View(), t);
      n := tasks[t].pc.n;
      Release(t);
    }

    /** Lines 65-70. */
    method Settle(t: nat, n: nat, reply: I.Outcome)
      requires Valid() && IsAlone(t) && tasks[t].pc == I.Unlisting(n, reply)
      modifies this`tasks, this`keys, this`notifies, this`lock
      ensures Valid() && IsAlone(t) && |tasks| == old(|tasks|)
      ensures tasks[t] == old(tasks)[t].(pc := match reply case Ok(v) => I.Done(I.Fresh(v)) case Err(e) => I.ReadFresh(e))
    {
      hide I.Reachable;
      hide C.Contents;
      hide C.Ordered;
      S.AloneIsFree(View(), t);
      Acquire(t);
      Remove(t, n, reply);
      NotifyWaiters(t, n, reply);
    }

    /** Lines 74-82: two reads of the cache. */
    method FromCache(t: nat, error: string)
      requires Valid() && t < |tasks| && tasks[t].pc == I.ReadFresh(error)
      modifies this`tasks
      ensures Valid() && |tasks| == old(|tasks|) && forall u :: 0 <= u < |tasks| && u != t ==> tasks[u] == old(tasks)[u]
      ensures var key := old(tasks)[t].key;
              tasks[t].pc == I.Done(
                if C.Fresh(cache.inner, key, clock).Some? then I.Cached(C.Fresh(cache.inner, key, clock).value)
                else match C.Stale(cache.inner, key, C.STALE_MAX_AGE, clock)
                     case Some((v, age)) => I.Stale(v, age)
                     case None => I.Failed(error))
    {
      hide I.Reachable;
      hide C.Contents;
      hide C.Ordered;
      FromCacheFresh(t, error);
      if tasks[t].pc.ReadStale? {
        FromCacheStale(t, error);
      }
    }
  }
}

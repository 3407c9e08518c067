/** The monitor's alerts: a state per check in a key-value store, and pushes that may not
    land. Instants are milliseconds, local dates are numbered days. */
module Monitor {
  import opened Wrappers

  const DOWN_AFTER_FAILS: nat := 2
  const REMINDER_HOUR: nat := 8

  datatype Status = Up | Down

  /** `fails` and `reminded` may be missing from what is stored. */
  datatype State = State(status: Status, since: int, fails: Option<nat>, reminded: Option<int>)

  datatype Push = WentDown | Reminder | Recovered

  /** One run as one check sees it: the outcome, the clock, and whether a push would land. */
  datatype Run = Run(ok: bool, now: int, today: int, hour: nat, lands: bool)

  const Unknown := State(Up, 0, Some(0), None)

  function FailsOf(s: State): nat {
    if s.fails.Some? then s.fails.value else 0
  }

  /** Lines 174-200. */
  function Transition(prev: State, r: Run): (State, Option<Push>) {
    if r.ok then
      if prev.status.Down? then (prev.(fails := Some(0), status := Up, since := r.now), Some(Recovered))
      else (prev.(fails := Some(0)), None)
    else if prev.status.Down? then
      if r.hour == REMINDER_HOUR && prev.reminded != Some(r.today)
      then (prev.(reminded := Some(r.today)), Some(Reminder))
      else (prev, None)
    else
      var failed := prev.(fails := Some(FailsOf(prev) + 1));
      if FailsOf(failed) >= DOWN_AFTER_FAILS then (failed.(status := Down, since := r.now), Some(WentDown))
      else (failed, None)
  }

  /** A push that does not land leaves the state as it was. */
  function Next(prev: State, r: Run): State {
    var (state, push) := Transition(prev, r);
    if push.Some? && !r.lands then prev else state
  }

  function Landed(prev: State, r: Run): Option<Push> {
    if r.lands then Transition(prev, r).1 else None
  }

  /** States stored before there was a count of failures are read as if it were zero. */
  lemma MissingCount(s: State, r: Run)
    requires s.fails.None?
    ensures Transition(s, r).1 == Transition(s.(fails := Some(0)), r).1
    ensures Transition(s, r).0.(fails := Some(FailsOf(Transition(s, r).0))) == Transition(s.(fails := Some(0)), r).0
    ensures r.ok ==> Transition(s, r).0.fails == Some(0)
    ensures !r.ok && s.status.Up? ==> Transition(s, r).0.fails == Some(1) && Transition(s, r).1.None?
  {}

  /// ## The store

  function Read(kv: map<string, State>, key: string): State {
    if key in kv then kv[key] else Unknown
  }

  datatype Check = Check(key: string, run: Run)

  class Worker {
    var kv: map<string, State>
    /** history: the runs of every check */
    ghost var past: map<string, seq<Run>>

    /** The store reads as the runs of each check left it. */
    ghost predicate Valid()
      reads this
    {
      forall key :: Read(kv, key) == After(RunsOf(past, key))
    }

    constructor ()
      ensures Valid() && past == map[]
    {
      kv, past := map[], map[];
    }

    /** The loop over the checks of one run. A push is delivered if and only if it lands and
        the runs and alerts of that check so far make one due; unchanged states are not
        written, yet every check reads afterwards as if they were, and no other key is touched. */
    method RunChecks(checks: seq<Check>) returns (pushed: seq<Option<Push>>)
      requires Valid() && forall i, j :: 0 <= i < j < |checks| ==> checks[i].key != checks[j].key
      modifies this
      ensures Valid() && |pushed| == |checks|
      ensures forall i :: 0 <= i < |checks| ==>
                var runs := RunsOf(old(past), checks[i].key);
                && RunsOf(past, checks[i].key) == runs + [checks[i].run]
                && pushed[i] == if checks[i].run.lands then Due(runs, checks[i].run) else None
      ensures forall key :: (forall i :: 0 <= i < |checks| ==> checks[i].key != key) ==>
                RunsOf(past, key) == RunsOf(old(past), key) && Read(kv, key) == Read(old(kv), key)
      ensures forall key :: key in kv && (key !in old(kv) || kv[key] != old(kv)[key]) ==> kv[key] != Read(old(kv), key)
    {
      hide After;
      hide Due;
      pushed := StepChecks(checks);
      ghost var before := past;
      for n := 0 to |checks|
        invariant forall i :: 0 <= i < n ==> RunsOf(past, checks[i].key) == RunsOf(before, checks[i].key) + [checks[i].run]
        invariant forall key :: (forall i :: 0 <= i < n ==> checks[i].key != key) ==> RunsOf(past, key) == RunsOf(before, key)
      {
        past := past[checks[n].key := RunsOf(past, checks[n].key) + [checks[n].run]];
      }
      forall i | 0 <= i < |checks|
        ensures Read(kv, checks[i].key) == After(RunsOf(past, checks[i].key))
        ensures pushed[i] == if checks[i].run.lands then Due(RunsOf(before, checks[i].key), checks[i].run) else None
      {
        OneMoreRun(RunsOf(before, checks[i].key), checks[i].run);
      }
    }

    method StepChecks(checks: seq<Check>) returns (pushed: seq<Option<Push>>)
      requires forall i, j :: 0 <= i < j < |checks| ==> checks[i].key != checks[j].key
      modifies this`kv
      ensures |pushed| == |checks|
      ensures forall i :: 0 <= i < |checks| ==>
                Read(kv, checks[i].key) == Next(Read(old(kv), checks[i].key), checks[i].run)
                && pushed[i] == Landed(Read(old(kv), checks[i].key), checks[i].run)
      ensures forall key :: (forall i :: 0 <= i < |checks| ==> checks[i].key != key) ==>
                Read(kv, key) == Read(old(kv), key)
      ensures forall key :: key in kv && (key !in old(kv) || kv[key] != old(kv)[key]) ==> kv[key] != Read(old(kv), key)
    {
      hide Transition;
      pushed := [];
      for n := 0 to |checks|
        invariant |pushed| == n
        invariant forall i :: 0 <= i < n ==>
                    Read(kv, checks[i].key) == Next(Read(old(kv), checks[i].key), checks[i].run)
                    && pushed[i] == Landed(Read(old(kv), checks[i].key), checks[i].run)
        invariant forall key :: (forall i :: 0 <= i < n ==> checks[i].key != key) ==>
                    (key in kv <==> key in old(kv)) && (key in kv ==> kv[key] == old(kv)[key])
        invariant forall key :: key in kv && (key !in old(kv) || kv[key] != old(kv)[key]) ==> kv[key] != Read(old(kv), key)
      {
        var check := checks[n];
        var prev := Read(kv, check.key);
        var (state, push) := Transition(prev, check.run);
        if push.Some? && !check.run.lands {
          pushed := pushed + [None];
          continue;
        }
        if state != prev {
          kv := kv[check.key := state];
        }
        pushed := pushed + [push];
      }
    }
  }

  function RunsOf(past: map<string, seq<Run>>, key: string): seq<Run> {
    if key in past then past[key] else []
  }

  /// ## What is due, by the runs and the delivered alerts alone

  /** The date of the last reminder delivered. */
  function LastReminder(runs: seq<Run>, log: seq<Alert>): Option<int>
    requires forall i :: 0 <= i < |log| ==> log[i].run < |runs|
  {
    if log == [] then None
    else if log[|log| - 1].push.Reminder? then Some(runs[log[|log| - 1].run].today)
    else LastReminder(runs, log[..|log| - 1])
  }

  /** Recovered on the first green run of an outage that was announced; while it lasts a
      reminder at eight, unless one was delivered that day; WentDown on a failing run after a
      failing run, if no outage is announced. */
  function Due(runs: seq<Run>, r: Run): Option<Push>
    decreases |runs|, 1
  {
    var log := Log(runs);
    var announced := log != [] && !log[|log| - 1].push.Recovered?;
    if announced && r.ok then Some(Recovered)
    else if announced && r.hour == 8 && LastReminder(runs, log) != Some(r.today) then Some(Reminder)
    else if !announced && !r.ok && runs != [] && !runs[|runs| - 1].ok then Some(WentDown)
    else None
  }

  function Log(runs: seq<Run>): (log: seq<Alert>)
    ensures forall i :: 0 <= i < |log| ==> log[i].run < |runs|
    decreases |runs|, 0
  {
    if runs == [] then []
    else
      var n := |runs| - 1;
      Log(runs[..n]) + if runs[n].lands && Due(runs[..n], runs[n]).Some? then [Alert(Due(runs[..n], runs[n]).value, n)] else []
  }

  /// ## Runs of one check

  function After(runs: seq<Run>): State {
    if runs == [] then Unknown else Next(After(runs[..|runs| - 1]), runs[|runs| - 1])
  }

  /** A push that landed, and the index of its run. */
  datatype Alert = Alert(push: Push, run: nat)

  function Alerts(runs: seq<Run>): (log: seq<Alert>)
    ensures forall i :: 0 <= i < |log| ==> log[i].run < |runs|
  {
    if runs == [] then []
    else
      var n := |runs| - 1;
      match Landed(After(runs[..n]), runs[n])
      case Some(push) => Alerts(runs[..n]) + [Alert(push, n)]
      case None => Alerts(runs[..n])
  }

  /** How many of the latest runs failed in a row. */
  function Streak(runs: seq<Run>): (n: nat)
    ensures n <= |runs|
    ensures forall i :: |runs| - n <= i < |runs| ==> !runs[i].ok
    ensures n < |runs| ==> runs[|runs| - n - 1].ok
  {
    if runs == [] || runs[|runs| - 1].ok then 0 else Streak(runs[..|runs| - 1]) + 1
  }

  /** A prefix of (WentDown Reminder* Recovered)*: WentDown stands first and after each
      Recovered, and nowhere else. */
  predicate WellFormed(log: seq<Alert>) {
    forall i :: 0 <= i < |log| ==> Follows(log, i)
  }

  predicate Follows(log: seq<Alert>, i: nat)
    requires i < |log|
  {
    log[i].push.WentDown? <==> i == 0 || log[i - 1].push.Recovered?
  }

  /** The state remembers the log: the status and `since` of the last change of status, the
      day of the last reminder, and while up, whether the latest run failed. */
  ghost predicate Remembers(runs: seq<Run>) {
    var s, log := After(runs), Alerts(runs);
    && (s.status.Down? <==> log != [] && !log[|log| - 1].push.Recovered?)
    && (s.status.Up? ==> s.fails == Some(if Streak(runs) == 0 then 0 else 1))
  }

  lemma WellFormedGrows(log: seq<Alert>, a: Alert)
    requires WellFormed(log) && (a.push.WentDown? <==> log == [] || log[|log| - 1].push.Recovered?)
    ensures WellFormed(log + [a])
  {
    assert forall i :: 0 <= i < |log| ==> Follows(log, i) ==> Follows(log + [a], i);
  }

  lemma {:induction false} AlwaysRemembers(runs: seq<Run>)
    ensures Remembers(runs) && WellFormed(Alerts(runs))
  {
    if runs != [] {
      var n := |runs| - 1;
      AlwaysRemembers(runs[..n]);
      var log := Alerts(runs[..n]);
      match Landed(After(runs[..n]), runs[n]) {
        case Some(push) =>
          assert Alerts(runs) == log + [Alert(push, n)];
          WellFormedGrows(log, Alert(push, n));
        case None =>
      }
    }
  }

  /** Every alert of a run stays in the log of longer runs, and was its own run's push. */
  lemma {:induction false} AlertIsLanded(runs: seq<Run>, i: nat)
    requires i < |Alerts(runs)|
    ensures var a := Alerts(runs)[i];
            && Landed(After(runs[..a.run]), runs[a.run]) == Some(a.push)
            && Alerts(runs[..a.run]) == Alerts(runs)[..i]
  {
    var n := |runs| - 1;
    if i < |Alerts(runs[..n])| {
      AlertIsLanded(runs[..n], i);
      var a := Alerts(runs)[i];
      assert runs[..n][..a.run] == runs[..a.run];
      assert Alerts(runs)[..i] == Alerts(runs[..n])[..i];
    } else {
      assert Alerts(runs)[..i] == Alerts(runs[..n]);
    }
  }

  /** Whatever lands and whatever does not, delivered alerts alternate properly. */
  lemma AlertsAreWellFormed(runs: seq<Run>)
    ensures WellFormed(Alerts(runs))
  {
    AlwaysRemembers(runs);
  }

  /** Every WentDown ends two failing runs in a row, every Reminder falls in its hour on a
      failing run, every Recovered is a green run. */
  lemma {:induction false} AlertsAreDue(runs: seq<Run>, i: nat)
    requires i < |Alerts(runs)|
    ensures var a := Alerts(runs)[i];
            match a.push
            case WentDown => a.run >= 1 && !runs[a.run].ok && !runs[a.run - 1].ok
            case Reminder => !runs[a.run].ok && runs[a.run].hour == REMINDER_HOUR
            case Recovered => runs[a.run].ok
  {
    AlertIsLanded(runs, i);
    var a := Alerts(runs)[i];
    AlwaysRemembers(runs[..a.run]);
    if a.push.WentDown? {
      assert Streak(runs[..a.run]) > 0;
    }
  }

  lemma RemindedIsSet(prev: State, r: Run)
    ensures Next(prev, r).reminded == if Landed(prev, r) == Some(Reminder) then Some(r.today) else prev.reminded
  {}

  /** The day kept in the state is that of the last reminder delivered. */
  lemma {:induction false} RemindedIsLast(runs: seq<Run>) returns (i: int)
    ensures -1 <= i < |Alerts(runs)|
    ensures forall j :: i < j < |Alerts(runs)| ==> !Alerts(runs)[j].push.Reminder?
    ensures i == -1 ==> After(runs).reminded == None
    ensures i >= 0 ==> Alerts(runs)[i].push.Reminder? && After(runs).reminded == Some(runs[Alerts(runs)[i].run].today)
  {
    hide Next;
    hide Landed;
    if runs == [] {
      i := -1;
    } else {
      var n := |runs| - 1;
      i := RemindedIsLast(runs[..n]);
      RemindedIsSet(After(runs[..n]), runs[n]);
      if Landed(After(runs[..n]), runs[n]) == Some(Reminder) {
        i := |Alerts(runs)| - 1;
      }
    }
  }

  lemma {:induction false} LastReminderGrows(runs: seq<Run>, r: Run, log: seq<Alert>)
    requires forall i :: 0 <= i < |log| ==> log[i].run < |runs|
    ensures LastReminder(runs + [r], log) == LastReminder(runs, log)
  {
    if log != [] {
      LastReminderGrows(runs, r, log[..|log| - 1]);
    }
  }

  lemma LogGrows(runs: seq<Run>, r: Run)
    ensures var due := if r.lands then Due(runs, r) else None;
            && Log(runs + [r]) == Log(runs) + (if due.Some? then [Alert(due.value, |runs|)] else [])
            && LastReminder(runs + [r], Log(runs + [r]))
               == if due == Some(Reminder) then Some(r.today) else LastReminder(runs, Log(runs))
  {
    hide Due;
    assert (runs + [r])[..|runs|] == runs;
    LastReminderGrows(runs, r, Log(runs));
    var log := Log(runs + [r]);
    if log != Log(runs) {
      assert log[..|log| - 1] == Log(runs) && log[|log| - 1].run == |runs|;
    }
  }

  lemma EmptyLog()
    ensures Log([]) == [] && LastReminder([], []) == None
  {}

  lemma {:induction false} DueIsPushed(runs: seq<Run>, r: Run)
    requires Alerts(runs) == Log(runs) && After(runs).reminded == LastReminder(runs, Log(runs))
    ensures Transition(After(runs), r).1 == Due(runs, r)
  {
    hide After;
    hide Alerts;
    hide Log;
    hide LastReminder;
    AlwaysRemembers(runs);
    assert Streak(runs) == 0 <==> runs == [] || runs[|runs| - 1].ok;
  }

  lemma {:induction false} LogIsDelivered(runs: seq<Run>)
    ensures Alerts(runs) == Log(runs)
    ensures After(runs).reminded == LastReminder(runs, Log(runs))
  {
    hide Due;
    hide Log;
    hide LastReminder;
    hide Transition;
    hide Next;
    EmptyLog();
    if runs != [] {
      var n := |runs| - 1;
      var before, last := runs[..n], runs[n];
      LogIsDelivered(before);
      DueIsPushed(before, last);
      RemindedIsSet(After(before), last);
      assert before + [last] == runs;
      LogGrows(before, last);
    }
  }

  /** The state decides as the runs and the alerts do: a push is attempted if and only if it is due,
      the delivered alerts are those that were due and landed, and the date stored is that of
      the last reminder delivered. */
  lemma PushedWhenDue(runs: seq<Run>, r: Run)
    ensures Alerts(runs) == Log(runs)
    ensures After(runs).reminded == LastReminder(runs, Log(runs))
    ensures Transition(After(runs), r).1 == Due(runs, r)
  {
    LogIsDelivered(runs);
    DueIsPushed(runs, r);
  }

  lemma OneMoreRun(runs: seq<Run>, r: Run)
    ensures After(runs + [r]) == Next(After(runs), r)
    ensures Landed(After(runs), r) == if r.lands then Due(runs, r) else None
  {
    PushedWhenDue(runs, r);
    assert (runs + [r])[..|runs|] == runs;
  }

  lemma {:induction false} RunsIncrease(runs: seq<Run>)
    ensures forall i, j :: 0 <= i < j < |Alerts(runs)| ==> Alerts(runs)[i].run < Alerts(runs)[j].run
  {
    if runs != [] {
      RunsIncrease(runs[..|runs| - 1]);
    }
  }

  /** Successive reminders never bear the same date; when dates do not go back, no two do. */
  lemma {:induction false} OneReminderPerDay(runs: seq<Run>, i: nat, j: nat)
    requires i < j < |Alerts(runs)| && Alerts(runs)[i].push.Reminder? && Alerts(runs)[j].push.Reminder?
    requires (forall k :: i < k < j ==> !Alerts(runs)[k].push.Reminder?)
          || (forall m, n :: 0 <= m < n < |runs| ==> runs[m].today <= runs[n].today)
    ensures runs[Alerts(runs)[i].run].today != runs[Alerts(runs)[j].run].today
  {
    var a, b := Alerts(runs)[i], Alerts(runs)[j];
    AlertIsLanded(runs, j);
    RunsIncrease(runs);
    var before := runs[..b.run];
    assert Alerts(before) == Alerts(runs)[..j];
    var k := RemindedIsLast(before);
    assert i <= k;
    var c := Alerts(runs)[k];
    assert After(before).reminded == Some(runs[c.run].today);
    assert runs[c.run].today != runs[b.run].today;
    assert k == i || a.run < c.run < b.run;
  }

  lemma SinceIsSet(prev: State, r: Run)
    ensures var push := Landed(prev, r);
            Next(prev, r).since == if push.Some? && !push.value.Reminder? then r.now else prev.since
  {}

  /** The recovery message counts from the last change of status that was delivered. */
  lemma {:induction false} SinceIsLastChange(runs: seq<Run>) returns (i: int)
    ensures -1 <= i < |Alerts(runs)|
    ensures forall j :: i < j < |Alerts(runs)| ==> Alerts(runs)[j].push.Reminder?
    ensures i == -1 ==> After(runs).since == 0
    ensures i >= 0 ==> !Alerts(runs)[i].push.Reminder? && After(runs).since == runs[Alerts(runs)[i].run].now
  {
    hide Next;
    hide Landed;
    if runs == [] {
      i := -1;
    } else {
      var n := |runs| - 1;
      i := SinceIsLastChange(runs[..n]);
      SinceIsSet(After(runs[..n]), runs[n]);
      var push := Landed(After(runs[..n]), runs[n]);
      if push.Some? && !push.value.Reminder? {
        i := |Alerts(runs)| - 1;
      }
    }
  }

  /** Whenever pushes get through, the status is right: down if and only if the run failed
      and either the one before failed too or the check was already down. */
  lemma {:induction false} DeliveryCatchesUp(runs: seq<Run>)
    requires runs != [] && runs[|runs| - 1].lands
    ensures After(runs).status.Down? <==>
            !runs[|runs| - 1].ok && (Streak(runs) >= 2 || After(runs[..|runs| - 1]).status.Down?)
  {
    AlwaysRemembers(runs[..|runs| - 1]);
  }

  /** When every push lands, a check is down exactly from its second failing run in a row to
      its next green one. */
  lemma {:induction false} StatusFollowsStreak(runs: seq<Run>)
    requires forall i :: 0 <= i < |runs| ==> runs[i].lands
    ensures After(runs).status.Down? <==> Streak(runs) >= 2
  {
    if runs != [] {
      StatusFollowsStreak(runs[..|runs| - 1]);
      DeliveryCatchesUp(runs);
    }
  }

  /** A push that did not land is sent again by the next run with the same outcome; a
      reminder only within its hour. */
  lemma {:induction false} UndeliveredIsSentAgain(runs: seq<Run>, r: Run, next: Run)
    requires !r.lands && next.ok == r.ok
    requires Transition(After(runs), r).1.Some?
    ensures var push, again := Transition(After(runs), r).1, Transition(After(runs + [r]), next).1;
            again == push <==>
            push != Some(Reminder) || (next.hour == REMINDER_HOUR && After(runs).reminded != Some(next.today))
  {
    assert (runs + [r])[..|runs|] == runs;
  }
}

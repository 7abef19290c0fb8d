/** What every run of the GameSnapshot reconciler keeps, whatever fails and however its spec is edited. */
module SnapshotRuns {
  import opened Common
  import opened Conditions
  import opened SnapshotModel
  import opened SnapshotSchedule
  import opened SnapshotRetention

  // ------------------------------------------------------------- frequency

  /** LastSnapshotAt is the last value of its history, and that history only grows, strictly. */
  ghost predicate Increasing(st: State) {
    && st.status.last == (if st.takes == [] then None else Some(st.takes[|st.takes| - 1]))
    && (forall i, j :: 0 <= i < j < |st.takes| ==> st.takes[i] < st.takes[j])
    && (st.takes != [] ==> st.takes[|st.takes| - 1] <= st.clock)
  }

  /** A pass either leaves the history alone or, when a snapshot is due, adds the time it recorded. */
  lemma PassTakes(parse: string -> Option<Next>, snap: string, st: State, p: Pass)
    ensures var st' := DoPass(parse, snap, st, p);
      || (st'.takes == st.takes && st'.status.last == st.status.last)
      || (&& ShouldTake(parse, p.spec.schedule, st.status.last, p.now).Take?
          && st'.takes == st.takes + [p.recorded] && st'.status.last == Some(p.recorded))
  {
  }

  /** Due again only after a tick past the previous snapshot. */
  lemma DueAfterTick(parse: string -> Option<Next>, schedule: string, last: int, now: int)
    requires ShouldTake(parse, schedule, Some(last), now).Take?
    ensures schedule != "" && parse(schedule).Some? && parse(schedule).value(last) <= now
  {
  }

  lemma StepIncreases(parse: string -> Option<Next>, snap: string, st: State, e: Event)
    requires ValidParser(parse) && Increasing(st) && (e.Reconciled? ==> Timely(st, e.p))
    ensures Increasing(Apply(parse, snap, st, e))
  {
    if e.Reconciled? {
      PassTakes(parse, snap, st, e.p);
      if st.takes != [] && ShouldTake(parse, e.p.spec.schedule, st.status.last, e.p.now).Take? {
        DueAfterTick(parse, e.p.spec.schedule, st.status.last.value, e.p.now);
      }
    }
  }

  lemma PrefixTimely(parse: string -> Option<Next>, snap: string, events: seq<Event>)
    requires TimelyRun(parse, snap, events) && events != []
    ensures TimelyRun(parse, snap, events[..|events| - 1])
    ensures events[|events| - 1].Reconciled? ==> Timely(Run(parse, snap, events[..|events| - 1]), events[|events| - 1].p)
  {
    var k := |events| - 1;
    forall i | 0 <= i < k && events[..k][i].Reconciled? ensures TimelyAt(parse, snap, events[..k], i) {
      assert TimelyAt(parse, snap, events, i);
      assert events[..k][..i] == events[..i];
    }
    if events[k].Reconciled? {
      assert TimelyAt(parse, snap, events, k);
    }
  }

  /** LastSnapshotAt strictly increases in every run, schedules being edited at will. */
  lemma {:induction false} LastSnapshotIncreases(parse: string -> Option<Next>, snap: string, events: seq<Event>)
    requires ValidParser(parse) && TimelyRun(parse, snap, events)
    ensures Increasing(Run(parse, snap, events))
  {
    if events != [] {
      var k := |events| - 1;
      PrefixTimely(parse, snap, events);
      LastSnapshotIncreases(parse, snap, events[..k]);
      StepIncreases(parse, snap, Run(parse, snap, events[..k]), events[k]);
    }
  }

  ghost predicate OneSchedule(events: seq<Event>, schedule: string) {
    forall i :: 0 <= i < |events| && events[i].Reconciled? ==> events[i].p.spec.schedule == schedule
  }

  lemma StepKeepsTicks(parse: string -> Option<Next>, snap: string, st: State, e: Event, schedule: string, next: Next)
    requires ValidParser(parse) && parse(schedule) == Some(next) && schedule != ""
    requires Increasing(st) && TickBetween(next, st.takes)
    requires e.Reconciled? ==> Timely(st, e.p) && e.p.spec.schedule == schedule
    ensures TickBetween(next, Apply(parse, snap, st, e).takes)
  {
    var takes := Apply(parse, snap, st, e).takes;
    if e.Reconciled? {
      PassTakes(parse, snap, st, e.p);
      if takes != st.takes {
        forall i | 0 <= i < |takes| - 1 ensures TickAfter(next, takes, i) {
          if i < |st.takes| - 1 {
            assert TickAfter(next, st.takes, i);
          } else {
            DueAfterTick(parse, schedule, st.status.last.value, e.p.now);
          }
        }
      }
    }
  }

  lemma {:induction false} RunKeepsTicks(parse: string -> Option<Next>, snap: string, events: seq<Event>, schedule: string, next: Next)
    requires ValidParser(parse) && parse(schedule) == Some(next) && schedule != ""
    requires TimelyRun(parse, snap, events) && OneSchedule(events, schedule)
    ensures TickBetween(next, Run(parse, snap, events).takes)
  {
    if events != [] {
      var k := |events| - 1;
      PrefixTimely(parse, snap, events);
      RunKeepsTicks(parse, snap, events[..k], schedule, next);
      LastSnapshotIncreases(parse, snap, events[..k]);
      StepKeepsTicks(parse, snap, Run(parse, snap, events[..k]), events[k], schedule, next);
    }
  }

  /** Under one schedule every two consecutive snapshots have a tick between them, so a run takes at most 1 + its ticks. */
  lemma SnapshotsBoundedByTicks(parse: string -> Option<Next>, snap: string, events: seq<Event>, schedule: string, next: Next, takes: seq<int>)
    requires ValidParser(parse) && parse(schedule) == Some(next) && schedule != ""
    requires TimelyRun(parse, snap, events) && OneSchedule(events, schedule)
    requires takes == Run(parse, snap, events).takes && takes != []
    ensures TickBetween(next, takes)
    ensures |takes| <= 1 + |Ticks(next, takes[0], takes[|takes| - 1])|
  {
    RunKeepsTicks(parse, snap, events, schedule, next);
    ParsedIsValid(parse, schedule);
    TakesBoundedByTicks(next, takes);
  }

  lemma ParsedIsValid(parse: string -> Option<Next>, schedule: string)
    requires ValidParser(parse) && parse(schedule).Some?
    ensures ValidNext(parse(schedule).value)
  {
  }

  // ----------------------------------------------------------------- spacing

  ghost predicate SeenBetween(log: seq<Mark>, i: int, j: int)
    requires 0 <= i < |log| && log[i].Created? && j <= |log|
  {
    exists k :: i < k < j && log[k] == SeenReady(log[i].ref)
  }

  /** Creations less than ten minutes apart have the earlier one seen ready in between. */
  ghost predicate Spaced(log: seq<Mark>) {
    forall i, j :: 0 <= i < j < |log| ==> SpacedPair(log, i, j)
  }

  ghost predicate SpacedPair(log: seq<Mark>, i: int, j: int)
    requires 0 <= i < j < |log|
  {
    log[i].Created? && log[j].Created? ==>
      log[i].at <= log[j].at && (log[j].at - log[i].at < SNAPSHOT_TIMEOUT ==> SeenBetween(log, i, j))
  }

  /** i is the last creation in the log. */
  ghost predicate LastCreation(log: seq<Mark>, i: int) {
    0 <= i < |log| && log[i].Created? && forall k :: i < k < |log| ==> log[k].SeenReady?
  }

  /**
   SnapshotReady always speaks of the latest entry: if the last created VolumeSnapshot has not been
   seen ready, it is still the latest entry and SnapshotReady is not True.
   */
  ghost predicate ReadyIsHonest(st: State) {
    && Spaced(st.log)
    && (forall i :: 0 <= i < |st.log| && st.log[i].Created? ==> st.log[i].at <= st.clock)
    && forall i :: LastCreation(st.log, i) && !SeenBetween(st.log, i, |st.log|) ==>
         && st.status.snapshots != []
         && Latest(st.status).ref == st.log[i].ref && Latest(st.status).created == st.log[i].at
         && !IsTrue(st.status.conditions, READY)
  }

  lemma NotTrue(conditions: seq<Condition>, verdict: string, reason: string, now: int, ctype: string)
    requires verdict != "True"
    ensures var r := Set(conditions, Condition(ctype, verdict, reason, 0, now));
      IsTrue(r, READY) ==> IsTrue(conditions, READY) && ctype != READY
  {
    SetIsMapUpdate(conditions, Condition(ctype, verdict, reason, 0, now), READY);
  }

  /** Negative conditions keep everything honest. */
  lemma ConditionKeepsHonest(st: State, ctype: string, verdict: string, reason: string, now: int)
    requires ReadyIsHonest(st) && verdict != "True"
    ensures ReadyIsHonest(st.(status := WithCondition(st.status, ctype, verdict, reason, now)))
  {
    NotTrue(st.status.conditions, verdict, reason, now, ctype);
  }

  lemma SeenKeepsSpaced(log: seq<Mark>, ref: string)
    requires Spaced(log)
    ensures Spaced(log + [SeenReady(ref)])
  {
    var more := log + [SeenReady(ref)];
    forall i, j | 0 <= i < j < |more| ensures SpacedPair(more, i, j) {
      if j < |log| {
        OldPair(log, SeenReady(ref), i, j);
      }
    }
  }

  /** Seeing the latest entry ready settles the last creation. */
  lemma SeenSettles(log: seq<Mark>, ref: string, i: int)
    requires LastCreation(log + [SeenReady(ref)], i)
    ensures LastCreation(log, i)
    ensures log[i].ref == ref || SeenBetween(log, i, |log|) ==> SeenBetween(log + [SeenReady(ref)], i, |log| + 1)
  {
    var more := log + [SeenReady(ref)];
    assert forall k :: 0 <= k < |log| ==> more[k] == log[k];
    if log[i].ref == ref {
      assert more[|log|] == SeenReady(more[i].ref);
    } else if SeenBetween(log, i, |log|) {
      var k :| i < k < |log| && log[k] == SeenReady(log[i].ref);
      assert more[k] == SeenReady(more[i].ref);
    }
  }

  /** The last creation of the log has been seen ready. */
  ghost predicate AllSeen(log: seq<Mark>) {
    forall i :: LastCreation(log, i) ==> SeenBetween(log, i, |log|)
  }

  lemma SeenLatest(log: seq<Mark>, ref: string)
    requires forall i :: LastCreation(log, i) && !SeenBetween(log, i, |log|) ==> log[i].ref == ref
    ensures AllSeen(log + [SeenReady(ref)])
  {
    forall i | LastCreation(log + [SeenReady(ref)], i) ensures SeenBetween(log + [SeenReady(ref)], i, |log| + 1) {
      SeenSettles(log, ref, i);
    }
  }

  lemma CompleteKeepsHonest(st: State, v: Volume, now: int)
    requires ReadyIsHonest(st) && st.status.snapshots != []
    ensures ReadyIsHonest(Complete(st, v, now)) && AllSeen(Complete(st, v, now).log)
  {
    var ref := Latest(st.status).ref;
    SeenKeepsSpaced(st.log, ref);
    SeenLatest(st.log, ref);
    SettledIsHonest(Complete(st, v, now), st.log + [SeenReady(ref)], st.clock);
  }

  /** With its last creation seen, nothing can be dishonest about a state. */
  lemma SettledIsHonest(st: State, log: seq<Mark>, clock: int)
    requires st.log == log && st.clock == clock && Spaced(log) && AllSeen(log)
    requires forall i :: 0 <= i < |log| && log[i].Created? ==> log[i].at <= clock
    ensures ReadyIsHonest(st)
  {
  }

  lemma MonitorKeepsHonest(st: State, p: Pass)
    requires ReadyIsHonest(st) && st.status.snapshots != []
    ensures ReadyIsHonest(Monitor(st, p))
  {
    var e := Latest(st.status);
    if p.stamp - e.created > SNAPSHOT_TIMEOUT {
      ConditionKeepsHonest(st, READY, "False", "SnapshotTimeout", p.stamp);
    } else if !p.getOk || e.ref !in st.volumes {
    } else if st.volumes[e.ref].ready {
      CompleteKeepsHonest(st, st.volumes[e.ref], p.stamp);
    } else {
      ConditionKeepsHonest(st, READY, "False", "SnapshotFailed", p.stamp);
    }
  }

  /** Growing the log keeps what was seen between two old marks. */
  lemma SeenBetweenGrows(log: seq<Mark>, m: Mark, i: int, j: int)
    requires 0 <= i < |log| && log[i].Created? && j <= |log| && SeenBetween(log, i, j)
    ensures SeenBetween(log + [m], i, j) && SeenBetween(log + [m], i, |log|)
  {
    var k :| i < k < j && log[k] == SeenReady(log[i].ref);
    assert (log + [m])[k] == SeenReady((log + [m])[i].ref);
  }

  lemma CreationPair(log: seq<Mark>, ref: string, at: int, i: int)
    requires Spaced(log) && 0 <= i < |log| && log[i].Created?
    requires forall m :: LastCreation(log, m) ==>
      log[m].at <= at && (SeenBetween(log, m, |log|) || at - log[m].at >= SNAPSHOT_TIMEOUT)
    ensures log[i].at <= at && (at - log[i].at < SNAPSHOT_TIMEOUT ==> SeenBetween(log + [Created(ref, at)], i, |log|))
  {
    var m := LastCreationFrom(log, i);
    assert m > i ==> SpacedPair(log, i, m);
    if at - log[i].at < SNAPSHOT_TIMEOUT {
      SeenBetweenGrows(log, Created(ref, at), i, if m == i then |log| else m);
    }
  }

  /** A new creation is far enough from every earlier one, or that one was seen ready. */
  lemma CreationKeepsSpaced(log: seq<Mark>, ref: string, at: int)
    requires Spaced(log)
    requires forall m :: LastCreation(log, m) ==>
      log[m].at <= at && (SeenBetween(log, m, |log|) || at - log[m].at >= SNAPSHOT_TIMEOUT)
    ensures Spaced(log + [Created(ref, at)])
  {
    var more := log + [Created(ref, at)];
    forall i, j | 0 <= i < j < |more| ensures SpacedPair(more, i, j) {
      if j < |log| {
        OldPair(log, Created(ref, at), i, j);
      } else if log[i].Created? {
        CreationPair(log, ref, at, i);
      }
    }
  }

  lemma OldPair(log: seq<Mark>, m: Mark, i: int, j: int)
    requires Spaced(log) && 0 <= i < j < |log|
    ensures SpacedPair(log + [m], i, j)
  {
    assert SpacedPair(log, i, j);
    if log[i].Created? && log[j].Created? && log[j].at - log[i].at < SNAPSHOT_TIMEOUT {
      SeenBetweenGrows(log, m, i, j);
    }
  }

  /** From any creation on there is a last one, no earlier. */
  lemma {:induction false} LastCreationFrom(log: seq<Mark>, i: nat) returns (m: nat)
    requires i < |log| && log[i].Created? && Spaced(log)
    ensures i <= m && LastCreation(log, m) && log[i].at <= log[m].at
  {
    m := i;
    for k := i + 1 to |log|
      invariant i <= m < k && log[m].Created? && forall x :: m < x < k ==> log[x].SeenReady?
    {
      if log[k].Created? {
        m := k;
      }
    }
    assert m > i ==> SpacedPair(log, i, m);
  }

  lemma SavingKeepsHonest(st: State, p: Pass)
    requires ReadyIsHonest(st)
    ensures ReadyIsHonest(Saving(st, p)) && !IsTrue(Saving(st, p).status.conditions, READY)
    ensures Saving(st, p) == st.(status := st.status.(conditions := Saving(st, p).status.conditions))
  {
    ConditionKeepsHonest(st, READY, "False", "Saving", p.checked);
    var mid := st.(status := WithCondition(st.status, READY, "False", "Saving", p.checked));
    ConditionKeepsHonest(mid, READY, "False", "Snapshotting", p.checked);
    NotTrue(mid.status.conditions, "False", "Snapshotting", p.checked, READY);
  }

  /** Taking a snapshot when none is in progress. */
  lemma RecordedKeepsHonest(st: State, name: string, p: Pass)
    requires ReadyIsHonest(st) && !IsTrue(st.status.conditions, READY) && st.clock <= p.created
    requires forall i :: LastCreation(st.log, i) ==> SeenBetween(st.log, i, |st.log|) || p.created - st.log[i].at >= SNAPSHOT_TIMEOUT
    ensures ReadyIsHonest(Recorded(st, name, p).(clock := Max(st.clock, p.created)))
  {
    CreationKeepsSpaced(st.log, name, p.created);
    var st' := Recorded(st, name, p);
    forall i | LastCreation(st'.log, i) ensures i == |st.log| {
      assert st'.log[|st.log|].Created?;
    }
  }

  lemma NotInProgressMeansSpaced(st: State, p: Pass)
    requires ReadyIsHonest(st) && !InProgress(st.status, p.checked) && p.checked <= p.created
    ensures forall i :: LastCreation(st.log, i) ==> SeenBetween(st.log, i, |st.log|) || p.created - st.log[i].at >= SNAPSHOT_TIMEOUT
  {
  }

  lemma FailingKeepsHonest(st: State, now: int)
    requires ReadyIsHonest(st)
    ensures ReadyIsHonest(Failing(st, now))
  {
    ConditionKeepsHonest(st, "Ready", "False", "SnapshotFailed", now);
  }

  /** Retention runs only after the newest snapshot was seen ready, so it may drop anything. */
  lemma RetentionKeepsHonest(st: State, p: Pass)
    requires ReadyIsHonest(st) && AllSeen(st.log)
    ensures ReadyIsHonest(EnforceRetention(st, p))
  {
  }

  lemma ClockKeepsHonest(st: State, now: int)
    requires ReadyIsHonest(st) && st.clock <= now
    ensures ReadyIsHonest(st.(clock := now))
  {
  }

  lemma ExecuteKeepsHonest(snap: string, st: State, p: Pass)
    requires ReadyIsHonest(st) && Timely(st, p) && !InProgress(st.status, p.checked)
    ensures ReadyIsHonest(Execute(snap, st, p).(clock := p.retained))
  {
    NotInProgressMeansSpaced(st, p);
    SavingKeepsHonest(st, p);
    var saving, name := Saving(st, p), VolumeName(snap, p.stamp);
    if !p.pvcOk || !p.createOk || name in st.volumes {
      FailingKeepsHonest(saving, p.stamp);
      ClockKeepsHonest(Failing(saving, p.stamp), p.retained);
    } else {
      RecordedKeepsHonest(saving, name, p);
      ClockKeepsHonest(Recorded(saving, name, p).(clock := Max(st.clock, p.created)), p.retained);
      LandingKeepsHonest(Recorded(saving, name, p).(clock := p.retained), p);
      LandingKeepsClock(Recorded(saving, name, p), p);
    }
  }

  /** Nothing in the rest of the pass looks at the clock of the run. */
  lemma LandingKeepsClock(st: State, p: Pass)
    requires st.status.snapshots != []
    ensures Landing(st.(clock := p.retained), p) == Landing(st, p).(clock := p.retained)
  {
  }

  lemma LandingKeepsHonest(st: State, p: Pass)
    requires ReadyIsHonest(st) && st.status.snapshots != []
    ensures ReadyIsHonest(Landing(st, p))
  {
    if p.getOk && p.initial.ready {
      CompleteKeepsHonest(st, p.initial, p.recorded);
      RetentionKeepsHonest(Complete(st, p.initial, p.recorded), p);
    } else if p.getOk && p.initial.fault.Items? && p.initial.fault.n > 0 {
      ConditionKeepsHonest(st, READY, "False", "SnapshotFailed", p.recorded);
      FailingKeepsHonest(st.(status := WithCondition(st.status, READY, "False", "SnapshotFailed", p.recorded)), p.recorded);
    } else {
      FailingKeepsHonest(st, p.recorded);
    }
  }

  lemma StepKeepsHonest(parse: string -> Option<Next>, snap: string, st: State, e: Event)
    requires ReadyIsHonest(st) && (e.Reconciled? ==> Timely(st, e.p))
    ensures ReadyIsHonest(Apply(parse, snap, st, e))
  {
    if e.Reconciled? {
      var p := e.p;
      var d := ShouldTake(parse, p.spec.schedule, st.status.last, p.now);
      if p.serverOk && !p.serverFound {
        ConditionKeepsHonest(st, "Ready", "False", "GameServerNotFound", p.now);
      } else if d.BadSchedule? {
        ConditionKeepsHonest(st, "Ready", "False", "InvalidSchedule", p.now);
      } else if d.Take? && InProgress(st.status, p.checked) {
        MonitorKeepsHonest(st, p);
      }
      if p.serverOk && p.serverFound && d.Take? && !InProgress(st.status, p.checked) {
        ExecuteKeepsHonest(snap, st, p);
      } else {
        ClockKeepsHonest(DoPass(parse, snap, st, p), p.retained);
      }
    }
  }

  lemma {:induction false} RunKeepsHonest(parse: string -> Option<Next>, snap: string, events: seq<Event>)
    requires TimelyRun(parse, snap, events)
    ensures ReadyIsHonest(Run(parse, snap, events))
  {
    if events != [] {
      var k := |events| - 1;
      PrefixTimely(parse, snap, events);
      RunKeepsHonest(parse, snap, events[..k]);
      StepKeepsHonest(parse, snap, Run(parse, snap, events[..k]), events[k]);
    }
  }

  /**
   Two VolumeSnapshots are created less than ten minutes apart only if the earlier one was observed
   readyToUse in between: in every run, with failing calls, vanishing volumes and edited specs.
   */
  lemma TenMinutesOrReady(parse: string -> Option<Next>, snap: string, events: seq<Event>, log: seq<Mark>, i: nat, j: nat)
    requires TimelyRun(parse, snap, events) && log == Run(parse, snap, events).log
    requires i < j < |log| && log[i].Created? && log[j].Created? && log[j].at - log[i].at < 10 * 60
    ensures exists k :: i < k < j && log[k] == SeenReady(log[i].ref)
  {
    RunKeepsHonest(parse, snap, events);
    assert SpacedPair(log, i, j);
    assert SeenBetween(log, i, j);
  }
}

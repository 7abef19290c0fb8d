/** Idle shutdown over whole runs: when it fires, and that it never fires on a server that was in use. */
module GameServerIdle {
  import opened Common
  import opened GameServerPorts
  import opened GameServerModel

  /** A recorded check that saw players, or the first recorded check of all. */
  ghost predicate Baseline(checks: seq<Check>, i: int) {
    && 0 <= i < |checks| && checks[i].recorded
    && (checks[i].players > 0 || forall j :: 0 <= j < i ==> !checks[j].recorded)
  }

  /** Idle for that long by the record: there is a baseline, and none is younger. */
  ghost predicate IdleByRecord(checks: seq<Check>, at: int, timeout: int) {
    && (exists i :: Baseline(checks, i))
    && (forall i :: Baseline(checks, i) ==> at - checks[i].at >= timeout)
  }

  /** LastActivity is the time of the latest baseline. */
  ghost predicate Tracks(la: Option<int>, checks: seq<Check>, clock: int) {
    && (forall i :: Baseline(checks, i) ==> la.Some? && checks[i].at <= la.value)
    && (la.Some? ==> la.value <= clock && exists i :: Baseline(checks, i) && checks[i].at == la.value)
  }

  lemma BaselineOfLonger(checks: seq<Check>, c: Check, i: int)
    ensures Baseline(checks + [c], i) <==>
      Baseline(checks, i) || (i == |checks| && c.recorded && (c.players > 0 || forall j :: 0 <= j < |checks| ==> !checks[j].recorded))
  {
    assert forall j :: 0 <= j < |checks| ==> (checks + [c])[j] == checks[j];
  }

  /** The first recorded check is a baseline, so without baselines nothing is recorded. */
  lemma {:induction false} NoBaselineNoRecord(checks: seq<Check>, j: nat)
    requires forall i :: !Baseline(checks, i)
    requires j <= |checks|
    ensures forall i :: 0 <= i < j ==> !checks[i].recorded
  {
    if j > 0 {
      NoBaselineNoRecord(checks, j - 1);
      assert !Baseline(checks, j - 1);
    }
  }

  /** How LastActivity moves when a check is noted. */
  function Moved(la: Option<int>, c: Check): Option<int> {
    if c.recorded && (c.players > 0 || la.None?) then Some(c.at) else la
  }

  lemma CheckTracks(la: Option<int>, checks: seq<Check>, clock: int, c: Check)
    requires Tracks(la, checks, clock) && clock <= c.at
    ensures Tracks(Moved(la, c), checks + [c], c.at)
  {
    var longer := checks + [c];
    forall i ensures Baseline(longer, i) <==> Baseline(checks, i) || (i == |checks| && Moved(la, c) == Some(c.at) && c.recorded && (c.players > 0 || la.None?)) {
      BaselineOfLonger(checks, c, i);
      if la.None? {
        NoBaselineNoRecord(checks, |checks|);
      } else {
        var k :| Baseline(checks, k) && checks[k].at == la.value;
        assert checks[k].recorded;
      }
    }
    if Moved(la, c) == la && la.Some? && !(c.recorded && c.players > 0) {
      var k :| Baseline(checks, k) && checks[k].at == la.value;
      assert Baseline(longer, k) && longer[k].at == la.value;
    } else if c.recorded && (c.players > 0 || la.None?) {
      assert Baseline(longer, |checks|);
    }
  }

  /** The pass finds the server ready and has its agent's answer to the idle check. */
  predicate Counts(p: Pass) {
    && p.prelude.Resolved? && p.stsOk && p.innerOk && p.serviceOk && p.restOk && p.statusOk
    && p.autoStart && p.idleTimeout > 0 && p.readyReplicas >= 1 && p.playersOk
  }

  function CheckOf(p: Pass): Check {
    Check(p.checked, p.players, p.idleOk)
  }

  predicate Overdue(la: Option<int>, p: Pass) {
    la.Some? && p.checked - la.value >= p.idleTimeout && p.players <= 0 && p.scaleOk
  }

  /** From `st` on, the history grew by one check, LastActivity moved with it, and the shutdown fired if overdue. */
  ghost predicate OneCheck(st: State, out: Outcome, p: Pass) {
    && out.st.clock == st.clock
    && out.st.checks == st.checks + [CheckOf(p)]
    && out.st.status.lastActivity == Moved(st.status.lastActivity, CheckOf(p))
    && out.fired == Overdue(st.status.lastActivity, p)
  }

  ghost predicate NoCheck(st: State, out: Outcome) {
    out.st.clock == st.clock && out.st.checks == st.checks && out.st.status.lastActivity == st.status.lastActivity && !out.fired
  }

  lemma ProbeShape(st: State, mem: Status, p: Pass)
    requires mem.lastActivity == st.status.lastActivity && !ScaledDown(st.sts)
    ensures if p.idleTimeout > 0 && p.playersOk then OneCheck(st, Probe(st, mem, p), p) else NoCheck(st, Probe(st, mem, p))
  {
  }

  lemma ReportShape(st: State, p: Pass)
    requires st.sts == Some(Sts(Some(if p.autoStart then 1 else 0), p.readyReplicas))
    ensures if p.statusOk && p.autoStart && p.readyReplicas >= 1 && p.idleTimeout > 0 && p.playersOk
            then OneCheck(st, Report(st, p), p) else NoCheck(st, Report(st, p))
  {
    var live := LiveStatus(st.status, p, Ready(st.sts.value));
    if p.autoStart {
      ProbeShape(Stored(st, live, true), live, p);
    }
  }

  lemma PreparationShape(st: State, p: Pass)
    ensures NoCheck(st, Outcome(Prepared(st, p), false, false)) && NoCheck(st, Outcome(Abandoned(st, p), false, false))
    ensures Prepared(st, p).sts == Some(Sts(Some(if p.autoStart then 1 else 0), p.readyReplicas))
  {
  }

  /** What a pass does to the history: one check if it gets an answer, otherwise nothing. */
  lemma PassShape(st: State, p: Pass)
    ensures var begun := Logged(st, Began).(clock := p.checked);
      if Counts(p) then OneCheck(begun, DoPass(st, p), p) else NoCheck(begun, DoPass(st, p))
  {
    var begun := Logged(st, Began).(clock := p.checked);
    PreparationShape(begun, p);
    ReportShape(Prepared(begun, p), p);
  }

  lemma PrefixTimely(events: seq<Event>)
    requires TimelyRun(events) && events != []
    ensures TimelyRun(events[..|events| - 1])
    ensures var k := |events| - 1; events[k].Reconciled? ==> Timely(Run(events[..k]), events[k].p)
  {
    var shorter := events[..|events| - 1];
    forall i | 0 <= i < |shorter| && shorter[i].Reconciled? ensures TimelyAt(shorter, i) {
      assert TimelyAt(events, i);
      assert shorter[..i] == events[..i];
    }
    var k := |events| - 1;
    if events[k].Reconciled? {
      assert TimelyAt(events, k);
    }
  }

  lemma StepTracks(st: State, e: Event)
    requires Tracks(st.status.lastActivity, st.checks, st.clock) && (e.Reconciled? ==> Timely(st, e.p))
    ensures var st' := Apply(st, e); Tracks(st'.status.lastActivity, st'.checks, st'.clock)
  {
    if e.Reconciled? {
      PassShape(st, e.p);
      CheckTracks(st.status.lastActivity, st.checks, st.clock, CheckOf(e.p));
    }
  }

  lemma {:induction false} RunTracks(events: seq<Event>)
    requires TimelyRun(events)
    ensures var st := Run(events); Tracks(st.status.lastActivity, st.checks, st.clock)
  {
    if events != [] {
      var k := |events| - 1;
      PrefixTimely(events);
      RunTracks(events[..k]);
      StepTracks(Run(events[..k]), events[k]);
    }
  }

  lemma FiresOnRecord(st: State, p: Pass)
    requires Tracks(st.status.lastActivity, st.checks, st.clock)
    ensures DoPass(st, p).fired <==> Counts(p) && p.players <= 0 && p.scaleOk && IdleByRecord(st.checks, p.checked, p.idleTimeout)
  {
    var la := st.status.lastActivity;
    PassShape(st, p);
    if la.Some? {
      var k :| Baseline(st.checks, k) && st.checks[k].at == la.value;
    }
  }

  /**
   After any run, lifecycle edits included, a pass shuts the server down for idleness exactly when it
   gets that far on an answer of no players and the record shows no activity for the timeout of the day.
   */
  lemma FiresExactlyWhenIdle(events: seq<Event>, p: Pass)
    requires TimelyRun(events)
    ensures DoPass(Run(events), p).fired <==> Counts(p) && p.players <= 0 && p.scaleOk && IdleByRecord(Run(events).checks, p.checked, p.idleTimeout)
  {
    RunTracks(events);
    FiresOnRecord(Run(events), p);
  }

  /** Each pass that met a player left a check behind, recorded if its status write landed. */
  lemma {:induction false} SightingsAreChecked(events: seq<Event>, i: nat)
    requires i < |events| && events[i].Reconciled? && Counts(events[i].p)
    ensures CheckOf(events[i].p) in Run(events).checks
  {
    var k := |events| - 1;
    if events[k].Reconciled? {
      PassShape(Run(events[..k]), events[k].p);
    }
    if i < k {
      SightingsAreChecked(events[..k], i);
    }
  }

  lemma SightingIsOld(checks: seq<Check>, at: int, timeout: int, c: Check)
    requires IdleByRecord(checks, at, timeout) && c in checks && c.recorded && c.players > 0
    ensures at - c.at >= timeout
  {
    var j :| 0 <= j < |checks| && checks[j] == c;
    assert Baseline(checks, j);
  }

  /**
   An idle shutdown after any run: no players now, and every pass of the run that saw a player and
   could write it down was at least the current timeout ago.
   */
  lemma IdleShutdownIsEarned(events: seq<Event>, p: Pass)
    requires TimelyRun(events) && DoPass(Run(events), p).fired
    ensures p.players <= 0
    ensures forall i :: 0 <= i < |events| && SawPlayers(events[i]) && events[i].p.idleOk ==> p.checked - events[i].p.checked >= p.idleTimeout
  {
    FiresExactlyWhenIdle(events, p);
    var checks := Run(events).checks;
    forall i | 0 <= i < |events| && SawPlayers(events[i]) && events[i].p.idleOk ensures p.checked - events[i].p.checked >= p.idleTimeout {
      SightingsAreChecked(events, i);
      SightingIsOld(checks, p.checked, p.idleTimeout, CheckOf(events[i].p));
    }
  }

  predicate SawPlayers(e: Event) {
    e.Reconciled? && Counts(e.p) && e.p.players > 0
  }

  /** The write matters: when it is lost, a server is shut down although a pass just saw players on it. */
  lemma LostSightingShutsDown(p: Pass)
    requires Counts(p) && p.players == 0 && p.scaleOk && p.idleOk && p.now == 0 && p.checked == 0
    ensures var later := p.(now := p.idleTimeout, checked := p.idleTimeout);
      var events := [Reconciled(p), Reconciled(later.(players := 1, idleOk := false))];
      TimelyRun(events) && SawPlayers(events[1]) && DoPass(Run(events), later).fired
  {
    var later := p.(now := p.idleTimeout, checked := p.idleTimeout);
    var seen := later.(players := 1, idleOk := false);
    var events := [Reconciled(p), Reconciled(seen)];
    assert events[..0] == [] && events[..1] == [Reconciled(p)];
    var first := Run(events[..1]);
    assert events[..1][..0] == [];
    PassShape(INITIAL, p);
    PassShape(first, seen);
    PassShape(Run(events), later);
    forall i | 0 <= i < |events| && events[i].Reconciled? ensures TimelyAt(events, i) {
      assert i == 0 || i == 1;
    }
  }
}

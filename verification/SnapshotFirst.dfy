/** The first snapshot of a schedule: which passes take it, and why one that keeps to its own delays never does. */
module SnapshotFirst {
  import opened Common
  import opened SnapshotModel
  import opened SnapshotSchedule
  import opened SnapshotRuns

  /** A tick is less than a minute ahead. */
  predicate NearTick(next: Next, now: int) {
    next(now) - now < MINUTE
  }

  /** Consecutive ticks lie at least a minute apart, as those of five-field cron expressions do. */
  ghost predicate MinuteApart(next: Next) {
    forall x :: IsTick(next, x) ==> !NearTick(next, x)
  }

  /** A never-taken schedule answers yes only near a tick; otherwise its delay leads exactly onto that tick. */
  lemma FirstDecision(parse: string -> Option<Next>, schedule: string, next: Next, now: int)
    requires schedule != "" && parse(schedule) == Some(next)
    ensures var d := ShouldTake(parse, schedule, None, now);
      if NearTick(next, now) then d.Take? else d.Wait? && now + d.delay == next(now)
  {
  }

  // ------------------------------------------------- passes at their own delays

  /** When the n-th pass happens if the first is at t0 and each later one exactly when the delay before has elapsed. */
  function At(next: Next, t0: int, n: nat): int {
    if n == 0 then t0 else next(At(next, t0, n - 1))
  }

  /** Every pass but the first lands on a tick, from where the following tick is a whole gap away. */
  lemma {:induction false} LaterPassesAreFar(next: Next, t0: int, n: nat)
    requires ValidNext(next) && MinuteApart(next) && !NearTick(next, t0)
    ensures !NearTick(next, At(next, t0, n))
  {
    if n > 0 {
      var before := At(next, t0, n - 1);
      NextIsLeastTick(next, before, before);
    }
  }

  /** These are the instants the code asks for: each the delay of the one before later. */
  lemma DelaysLeadOn(parse: string -> Option<Next>, schedule: string, next: Next, t0: int, n: nat)
    requires schedule != "" && parse(schedule) == Some(next) && ValidNext(next) && MinuteApart(next) && !NearTick(next, t0)
    ensures var d := ShouldTake(parse, schedule, None, At(next, t0, n));
      d.Wait? && At(next, t0, n + 1) == At(next, t0, n) + d.delay
  {
    LaterPassesAreFar(next, t0, n);
    FirstDecision(parse, schedule, next, At(next, t0, n));
  }

  predicate TakesAt(parse: string -> Option<Next>, schedule: string, next: Next, t0: int, n: nat) {
    ShouldTake(parse, schedule, None, At(next, t0, n)).Take?
  }

  /** So a schedule left to its own delays takes its first snapshot at its very first pass or never. */
  lemma FirstPassOrNever(parse: string -> Option<Next>, schedule: string, next: Next, t0: int)
    requires schedule != "" && parse(schedule) == Some(next) && ValidNext(next) && MinuteApart(next)
    ensures (exists n: nat :: TakesAt(parse, schedule, next, t0, n)) <==> NearTick(next, t0)
  {
    FirstDecision(parse, schedule, next, t0);
    if NearTick(next, t0) {
      assert TakesAt(parse, schedule, next, t0, 0);
    } else {
      forall n: nat ensures !TakesAt(parse, schedule, next, t0, n) {
        LaterPassesAreFar(next, t0, n);
        FirstDecision(parse, schedule, next, At(next, t0, n));
      }
    }
  }

  // --------------------------------------------------------------------- runs

  /** No pass of the run reads the clock near a tick. */
  ghost predicate AlwaysFar(next: Next, events: seq<Event>) {
    forall i :: 0 <= i < |events| && events[i].Reconciled? ==> !NearTick(next, events[i].p.now)
  }

  ghost predicate Untaken(st: State) {
    st.status.last == None && st.status.snapshots == [] && st.takes == [] && st.log == [] && st.volumes == map[]
  }

  lemma FarPassTakesNothing(parse: string -> Option<Next>, snap: string, st: State, p: Pass, next: Next)
    requires p.spec.schedule != "" && parse(p.spec.schedule) == Some(next)
    requires Untaken(st) && !NearTick(next, p.now)
    ensures Untaken(DoPass(parse, snap, st, p))
  {
    FirstDecision(parse, p.spec.schedule, next, p.now);
  }

  /** Without a pass near a tick there is never a first snapshot, whatever else happens. */
  lemma {:induction false} FarPassesNeverTake(parse: string -> Option<Next>, snap: string, events: seq<Event>, schedule: string, next: Next)
    requires schedule != "" && parse(schedule) == Some(next)
    requires OneSchedule(events, schedule) && AlwaysFar(next, events)
    ensures Untaken(Run(parse, snap, events))
  {
    if events != [] {
      var k := |events| - 1;
      assert forall i :: 0 <= i < k ==> events[..k][i] == events[i];
      FarPassesNeverTake(parse, snap, events[..k], schedule, next);
      if events[k].Reconciled? {
        FarPassTakesNothing(parse, snap, Run(parse, snap, events[..k]), events[k].p, next);
      }
    }
  }

  /** Every pass of the run happens at t0 or when the delay of an earlier one has elapsed. */
  ghost predicate SelfScheduled(next: Next, t0: int, events: seq<Event>) {
    forall i :: 0 <= i < |events| && events[i].Reconciled? ==> exists n: nat :: events[i].p.now == At(next, t0, n)
  }

  /** A run that keeps to the returned delays and does not happen to start near a tick never takes a snapshot. */
  lemma SelfScheduledNeverStarts(parse: string -> Option<Next>, snap: string, events: seq<Event>, schedule: string, next: Next, t0: int)
    requires schedule != "" && parse(schedule) == Some(next) && ValidNext(next) && MinuteApart(next)
    requires OneSchedule(events, schedule) && SelfScheduled(next, t0, events) && !NearTick(next, t0)
    ensures Untaken(Run(parse, snap, events))
  {
    forall i | 0 <= i < |events| && events[i].Reconciled? ensures !NearTick(next, events[i].p.now) {
      var n: nat :| events[i].p.now == At(next, t0, n);
      LaterPassesAreFar(next, t0, n);
    }
    FarPassesNeverTake(parse, snap, events, schedule, next);
  }

  // ------------------------------------------------------------ an example

  const HOUR := 3600

  /** "On the hour." */
  function Hourly(t: int): int {
    (t / HOUR + 1) * HOUR
  }

  lemma HourlyIsASchedule()
    ensures ValidNext(Hourly) && MinuteApart(Hourly)
  {
    forall t, u | t <= u < Hourly(t) ensures Hourly(u) == Hourly(t) {
      assert u / HOUR == t / HOUR;
    }
    forall x | IsTick(Hourly, x) ensures !NearTick(Hourly, x) {
      var q := (x - 1) / HOUR + 1;
      assert x == q * HOUR;
      assert x / HOUR == q;
    }
  }

  /** An hourly schedule whose first pass is not in the last minute of an hour never takes a snapshot on its own. */
  lemma HourlyNeverStarts(parse: string -> Option<Next>, snap: string, events: seq<Event>, schedule: string, t0: int)
    requires schedule != "" && parse(schedule) == Some(Hourly)
    requires OneSchedule(events, schedule) && SelfScheduled(Hourly, t0, events) && t0 % HOUR <= HOUR - MINUTE
    ensures Untaken(Run(parse, snap, events))
  {
    HourlyIsASchedule();
    SelfScheduledNeverStarts(parse, snap, events, schedule, Hourly, t0);
  }
}

/** The cron scheduler: exact delays, and never more snapshots than ticks. */
module SnapshotSchedule {
  import opened Common
  import opened SnapshotModel

  /** Next really is the least tick after t. */
  lemma NextIsLeastTick(next: Next, t: int, x: int)
    requires ValidNext(next)
    ensures next(t) > t && IsTick(next, next(t))
    ensures t < x < next(t) ==> !IsTick(next, x)
  {
    var n := next(t);
    assert t <= n - 1 < n;
    assert next(n - 1) == next(t);
    if t < x < n {
      assert next(x - 1) == next(t);
    }
  }

  /** Once a snapshot exists the returned delay is exact: "not yet" until it has elapsed, "now" ever after. */
  lemma DelayIsExact(parse: string -> Option<Next>, schedule: string, last: int, now: int, later: int)
    requires schedule != "" && parse(schedule).Some?
    requires ShouldTake(parse, schedule, Some(last), now).Wait? && later >= now
    ensures ShouldTake(parse, schedule, Some(last), now).delay > 0
    ensures ShouldTake(parse, schedule, Some(last), later).Take? <==>
            later >= now + ShouldTake(parse, schedule, Some(last), now).delay
  {
  }

  /**
   The delay returned after a scheduled snapshot: up to the next tick after it, from which on the next
   one is due; no delay at all if that tick has already passed.
   */
  lemma DelayAfterSnapshot(parse: string -> Option<Next>, snap: string, st: State, p: Pass, later: int)
    requires p.serverOk && p.serverFound && p.spec.schedule != "" && parse(p.spec.schedule).Some?
    requires ShouldTake(parse, p.spec.schedule, st.status.last, p.now).Take? && !InProgress(st.status, p.checked)
    requires Succeeds(snap, st, p) && later >= p.retained
    ensures var tick, delay := parse(p.spec.schedule).value(p.recorded), Delay(parse, snap, st, p);
      && delay == (if p.retained < tick then tick - p.retained else 0)
      && (ShouldTake(parse, p.spec.schedule, Some(p.recorded), later).Take? <==> later >= p.retained + delay)
  {
  }

  /** The ticks in (a, b]. */
  ghost function Ticks(next: Next, a: int, b: int): set<int> {
    set x | a < x <= b && IsTick(next, x)
  }

  /** Snapshots i and i + 1 of one schedule: a tick lies after the earlier, up to the later. */
  ghost predicate TickAfter(next: Next, takes: seq<int>, i: nat)
    requires i + 1 < |takes|
  {
    takes[i] < next(takes[i]) <= takes[i + 1]
  }

  ghost predicate TickBetween(next: Next, takes: seq<int>) {
    forall i :: 0 <= i < |takes| - 1 ==> TickAfter(next, takes, i)
  }

  lemma OneMoreTick(next: Next, a: int, prev: int, last: int)
    requires a <= prev < next(prev) <= last && IsTick(next, next(prev))
    ensures |Ticks(next, a, last)| >= |Ticks(next, a, prev)| + 1
  {
    var before, after := Ticks(next, a, prev), Ticks(next, a, last);
    SubsetCardinality(before + {next(prev)}, after);
  }

  lemma {:induction false} TakesBoundedByTicks(next: Next, takes: seq<int>)
    requires ValidNext(next) && TickBetween(next, takes) && takes != []
    ensures takes[0] <= takes[|takes| - 1]
    ensures |takes| <= 1 + |Ticks(next, takes[0], takes[|takes| - 1])|
  {
    if |takes| > 1 {
      var k := |takes| - 1;
      assert TickAfter(next, takes, k - 1);
      forall i | 0 <= i < k - 1 ensures TickAfter(next, takes[..k], i) {
        assert TickAfter(next, takes, i);
      }
      TakesBoundedByTicks(next, takes[..k]);
      NextIsLeastTick(next, takes[k - 1], takes[k - 1]);
      OneMoreTick(next, takes[0], takes[k - 1], takes[k]);
    }
  }
}

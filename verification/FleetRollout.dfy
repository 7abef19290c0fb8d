/**
 The rolling update in closed form.  A pass may touch maxUnavailable minus the number of outdated
 servers, so the smaller the backlog the faster it shrinks, and a backlog that has reached the
 budget never shrinks at all.
 */
module FleetRollout {
  import opened Common
  import opened FleetModel
  import opened FleetScaleUp

  function Pow2(p: nat): nat {
    if p == 0 then 1 else 2 * Pow2(p - 1)
  }

  /** d doubled p times; it at least exceeds p once d is positive. */
  function Doubled(d: int, p: nat): (r: int)
    ensures d == 0 ==> r == 0
    ensures d > 0 ==> r > p
    ensures d >= 0 ==> r >= 0
  {
    if p == 0 then d else 2 * Doubled(d, p - 1)
  }

  lemma {:induction false} DoubledIsPower(d: int, p: nat)
    ensures Doubled(d, p) == Pow2(p) * d
  {
    if p > 0 {
      DoubledIsPower(d, p - 1);
    }
  }

  /** A fleet whose passes only roll out: right size, rolling strategy. */
  ghost predicate RollingOnly(f: Fleet, st: Store) {
    && ValidFleet(f)
    && Strategy(f) == "RollingUpdate"
    && |Members(st, f)| == f.replicas
  }

  /** One pass brings its batch up to date, refused servers aside: no more, no other servers, and none is lost. */
  lemma RolloutPass(f: Fleet, st: Store, o: Outcome, st': Store)
    requires RollingOnly(f, st) && PassStep(f, st, o, st')
    ensures Members(st', f) == Members(st, f) && RollingOnly(f, st')
    ensures OutdatedNames(st', f) == OutdatedNames(st, f) - (o.updated - o.refused)
    ensures |o.updated| == Batch(f, |OutdatedNames(st, f)|) && o.updated <= OutdatedNames(st, f)
  {
    RollingFrame(st, st, f, o, st');
    var u := o.updated - o.refused;
    forall n | n in st ensures n in st' && (Outdated(st'[n], f) <==> Outdated(st[n], f) && n !in u) &&
                               InFleet(st'[n], f) == InFleet(st[n], f) {
      if n in u {
        assert Unchanged(st, st, n) && st'[n] == UpdateFromTemplate(st[n], f);
      }
    }
    assert OutdatedNames(st', f) == OutdatedNames(st, f) - u;
  }

  /** No update of the run is refused: with no deletions about, each write lands. */
  ghost predicate Granted(outcomes: seq<Outcome>) {
    forall i :: 0 <= i < |outcomes| ==> outcomes[i].refused == {}
  }

  /**
   The batch of every budget m and backlog k: the slots left if there are any; otherwise none, unless
   the difference falls below the 32-bit range and comes out as a large positive number.
   */
  lemma BatchBound(f: Fleet, k: nat)
    requires ValidFleet(f) && k <= INT32_MAX
    ensures var m := if f.maxUnavailable == None then 1 else f.maxUnavailable.value;
      && (k < m ==> Batch(f, k) == Min(m - k, k))
      && (k >= m ==> (Batch(f, k) == 0 <==> k == 0 || m - k >= INT32_MIN))
      && (Wraps(m, k) ==> Batch(f, k) == Min(m + WRAP - k, k))
  {
  }

  const WRAP := 0x1_0000_0000

  /** The budget minus the backlog is below the 32-bit range. */
  predicate Wraps(m: int, k: int) {
    m - k < INT32_MIN
  }

  /** A fleet of the right size has no more outdated servers than an int32 counts. */
  lemma BacklogFits(f: Fleet, st: Store)
    requires RollingOnly(f, st)
    ensures |OutdatedNames(st, f)| <= INT32_MAX
  {
    SubsetCardinality(OutdatedNames(st, f), Members(st, f));
  }

  /** What remains of a backlog of k0 after p passes under budget m. */
  function Backlog(m: int, k0: nat, p: nat): nat {
    if k0 <= m then Max(0, m - Doubled(m - k0, p)) else k0
  }

  /** The backlog after one more pass, in the closed form's terms. */
  lemma BacklogStep(f: Fleet, m: int, k0: nat, p: nat)
    requires ValidFleet(f) && m == MaxUnavailable(f) && m - k0 >= INT32_MIN
    ensures Backlog(m, k0, p) - Batch(f, Backlog(m, k0, p)) == Backlog(m, k0, p + 1)
  {
    assert Doubled(m - k0, p + 1) == 2 * Doubled(m - k0, p);
  }

  lemma BacklogEmpties(m: int, k0: nat, p: nat)
    requires p >= m
    ensures Backlog(m, k0, p) == 0 <==> k0 == 0 || k0 < m
  {
  }

  /** The closed form itself: max(0, m - 2^p * (m - k0)). */
  lemma BacklogClosedForm(m: int, k0: nat, p: nat)
    requires k0 <= m
    ensures Backlog(m, k0, p) == Max(0, m - Pow2(p) * (m - k0))
  {
    DoubledIsPower(m - k0, p);
  }

  lemma RunStep(f: Fleet, states: seq<Store>, outcomes: seq<Outcome>, i: nat)
    requires ValidFleet(f) && PassRun(f, states, outcomes) && i < |outcomes|
    requires RollingOnly(f, states[i])
    ensures RollingOnly(f, states[i + 1])
    ensures OutdatedNames(states[i + 1], f) <= OutdatedNames(states[i], f)
    ensures outcomes[i].refused == {} ==> |OutdatedNames(states[i + 1], f)| == |OutdatedNames(states[i], f)| - Batch(f, |OutdatedNames(states[i], f)|)
  {
    assert PassAt(f, states, outcomes, i);
    RolloutPass(f, states[i], outcomes[i], states[i + 1]);
  }

  lemma {:induction false} RolloutBacklog(f: Fleet, states: seq<Store>, outcomes: seq<Outcome>, p: nat, m: int, k0: nat)
    requires ValidFleet(f) && PassRun(f, states, outcomes) && p < |states|
    requires Granted(outcomes)
    requires RollingOnly(f, states[0])
    requires m == MaxUnavailable(f) && k0 == |OutdatedNames(states[0], f)| && m - k0 >= INT32_MIN
    ensures RollingOnly(f, states[p])
    ensures |OutdatedNames(states[p], f)| == Backlog(m, k0, p)
    ensures OutdatedNames(states[p], f) <= OutdatedNames(states[0], f)
  {
    if p > 0 {
      RolloutBacklog(f, states, outcomes, p - 1, m, k0);
      RunStep(f, states, outcomes, p - 1);
      BacklogStep(f, m, k0, p - 1);
    }
  }

  /** The backlog after p doublings of the gap to budget m. */
  function Closed(m: int, k0: nat, p: nat): int {
    Max(0, m - Pow2(p) * (m - k0))
  }

  lemma ClosedStep(m: int, k0: nat, p: nat)
    requires Closed(m, k0, p) > 0
    ensures Closed(m, k0, p + 1) == Max(0, 2 * Closed(m, k0, p) - m)
  {
    assert Pow2(p + 1) * (m - k0) == 2 * (Pow2(p) * (m - k0));
  }

  predicate WrapsAfter(m: int, k0: nat, i: nat) {
    Wraps(m, Closed(m + WRAP, k0, i))
  }

  /** j is the first of p passes before which the difference no longer wraps, or p if it always does. */
  ghost predicate WrapsUpTo(m: int, k0: nat, j: nat, p: nat) {
    && j <= p
    && (forall i: nat :: i < j ==> WrapsAfter(m, k0, i))
    && (j < p ==> !WrapsAfter(m, k0, j))
  }

  /** A budget that wraps acts as one that is 2^32 larger until it no longer wraps; then nothing moves any more. */
  lemma {:induction false} WrappedBacklog(f: Fleet, states: seq<Store>, outcomes: seq<Outcome>, p: nat, m: int, k0: nat) returns (j: nat)
    requires ValidFleet(f) && PassRun(f, states, outcomes) && p < |states|
    requires Granted(outcomes)
    requires RollingOnly(f, states[0])
    requires m == MaxUnavailable(f) && k0 == |OutdatedNames(states[0], f)| && Wraps(m, k0)
    ensures RollingOnly(f, states[p])
    ensures WrapsUpTo(m, k0, j, p) && |OutdatedNames(states[p], f)| == Closed(m + WRAP, k0, j)
  {
    if p == 0 {
      j := 0;
    } else {
      j := WrappedBacklog(f, states, outcomes, p - 1, m, k0);
      RunStep(f, states, outcomes, p - 1);
      BacklogFits(f, states[p - 1]);
      BacklogFits(f, states[0]);
      var k := |OutdatedNames(states[p - 1], f)|;
      BatchBound(f, k);
      if Wraps(m, k) {
        ClosedStep(m + WRAP, k0, j);
        j := p;
      }
    }
  }

  /**
   After p passes of a fleet of fixed size and generation, starting with k0 outdated servers and
   budget m: exactly max(0, m - 2^p * (m - k0)) remain if k0 <= m, and all k0 remain if k0 >= m and
   the 32-bit difference does not wrap.  If it does, the form holds with 2^32 added to the budget, up
   to the pass at which the difference stops wrapping.
   */
  lemma RolloutClosedForm(f: Fleet, states: seq<Store>, outcomes: seq<Outcome>, p: nat)
    requires ValidFleet(f) && PassRun(f, states, outcomes) && p < |states|
    requires Granted(outcomes)
    requires RollingOnly(f, states[0])
    ensures var m, k0, k := MaxUnavailable(f), |OutdatedNames(states[0], f)|, |OutdatedNames(states[p], f)|;
      && (k0 <= m ==> k == Max(0, m - Pow2(p) * (m - k0)))
      && (k0 >= m && !Wraps(m, k0) ==> k == k0)
      && (Wraps(m, k0) ==> exists j :: WrapsUpTo(m, k0, j, p) && k == Closed(m + WRAP, k0, j))
  {
    var m, k0 := MaxUnavailable(f), |OutdatedNames(states[0], f)|;
    BacklogFits(f, states[0]);
    if Wraps(m, k0) {
      var j := WrappedBacklog(f, states, outcomes, p, m, k0);
    } else {
      RolloutBacklog(f, states, outcomes, p, m, k0);
      if k0 <= m {
        BacklogClosedForm(m, k0, p);
      }
    }
  }

  lemma {:induction false} NothingBecomesOutdated(f: Fleet, states: seq<Store>, outcomes: seq<Outcome>, q: nat, p: nat)
    requires ValidFleet(f) && PassRun(f, states, outcomes) && q <= p < |states|
    requires RollingOnly(f, states[q])
    ensures RollingOnly(f, states[p]) && OutdatedNames(states[p], f) <= OutdatedNames(states[q], f)
    decreases p
  {
    if q < p {
      NothingBecomesOutdated(f, states, outcomes, q, p - 1);
      RunStep(f, states, outcomes, p - 1);
    }
  }

  lemma NoSlotPass(f: Fleet, st: Store, o: Outcome, st': Store)
    requires RollingOnly(f, st) && PassStep(f, st, o, st')
    requires var k := |OutdatedNames(st, f)|; k >= MaxUnavailable(f) && !Wraps(MaxUnavailable(f), k)
    ensures RollingOnly(f, st') && OutdatedNames(st', f) == OutdatedNames(st, f)
  {
    RolloutPass(f, st, o, st');
    BacklogFits(f, st);
    BatchBound(f, |OutdatedNames(st, f)|);
  }

  /** Frozen whatever the API server refuses: no pass even tries to update a server. */
  lemma {:induction false} NoSlotNoUpdate(f: Fleet, states: seq<Store>, outcomes: seq<Outcome>, p: nat)
    requires ValidFleet(f) && PassRun(f, states, outcomes) && p < |states|
    requires RollingOnly(f, states[0])
    requires var k0 := |OutdatedNames(states[0], f)|; k0 >= MaxUnavailable(f) && !Wraps(MaxUnavailable(f), k0)
    ensures RollingOnly(f, states[p]) && OutdatedNames(states[p], f) == OutdatedNames(states[0], f)
  {
    if p > 0 {
      NoSlotNoUpdate(f, states, outcomes, p - 1);
      assert PassAt(f, states, outcomes, p - 1);
      NoSlotPass(f, states[p - 1], outcomes[p - 1], states[p]);
    }
  }

  /** A backlog that fills the budget is frozen, the very same servers staying outdated for ever, if and only if the difference does not wrap. */
  lemma FullBacklogIsFrozen(f: Fleet, states: seq<Store>, outcomes: seq<Outcome>, p: nat)
    requires ValidFleet(f) && PassRun(f, states, outcomes) && 1 <= p < |states|
    requires Granted(outcomes)
    requires RollingOnly(f, states[0])
    requires |OutdatedNames(states[0], f)| >= MaxUnavailable(f)
    ensures OutdatedNames(states[p], f) == OutdatedNames(states[0], f) <==> !Wraps(MaxUnavailable(f), |OutdatedNames(states[0], f)|)
  {
    var m, k0 := MaxUnavailable(f), |OutdatedNames(states[0], f)|;
    BacklogFits(f, states[0]);
    BatchBound(f, k0);
    NothingBecomesOutdated(f, states, outcomes, 0, p);
    if Wraps(m, k0) {
      RunStep(f, states, outcomes, 0);
      NothingBecomesOutdated(f, states, outcomes, 1, p);
      SubsetCardinality(OutdatedNames(states[p], f), OutdatedNames(states[1], f));
    } else {
      NoSlotNoUpdate(f, states, outcomes, p);
    }
  }

  /** A rollout finishes, within as many passes as the budget, exactly when its backlog is under budget. */
  lemma RolloutFinishesIff(f: Fleet, states: seq<Store>, outcomes: seq<Outcome>, p: nat)
    requires ValidFleet(f) && PassRun(f, states, outcomes)
    requires Granted(outcomes)
    requires RollingOnly(f, states[0])
    requires MaxUnavailable(f) - |OutdatedNames(states[0], f)| >= INT32_MIN
    requires MaxUnavailable(f) <= p < |states|
    ensures OutdatedNames(states[p], f) == {} <==>
            |OutdatedNames(states[0], f)| == 0 || |OutdatedNames(states[0], f)| < MaxUnavailable(f)
  {
    RolloutBacklog(f, states, outcomes, p, MaxUnavailable(f), |OutdatedNames(states[0], f)|);
    BacklogEmpties(MaxUnavailable(f), |OutdatedNames(states[0], f)|, p);
  }

  /** With no budget configured the default is one, and one outdated server already exhausts it. */
  lemma DefaultBudgetUpdatesNothing(f: Fleet, states: seq<Store>, outcomes: seq<Outcome>, p: nat)
    requires ValidFleet(f) && PassRun(f, states, outcomes) && p < |states|
    requires RollingOnly(f, states[0]) && f.maxUnavailable == None
    ensures OutdatedNames(states[p], f) == OutdatedNames(states[0], f)
  {
    BacklogFits(f, states[0]);
    NothingBecomesOutdated(f, states, outcomes, 0, p);
    if |OutdatedNames(states[0], f)| >= 1 {
      NoSlotNoUpdate(f, states, outcomes, p);
    }
  }

  /** A fleet that reports Ready is at rest: its next pass changes nothing. */
  lemma ReadyFleetIsAtRest(f: Fleet, st: Store, o: Outcome, st': Store)
    requires ValidFleet(f) && PassStep(f, st, o, st')
    requires |Members(st, f)| == f.replicas && OutdatedNames(st, f) == {}
    ensures st' == st && o.deleted == {} && o.updated == {}
  {
    if Strategy(f) == "RollingUpdate" {
      assert o.updated <= OutdatedNames(st, f);
      assert UpdateAll(st, st, f, {}) == st;
    }
  }
}

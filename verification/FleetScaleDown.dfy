/**
 Scale-down over a whole run.  Deleted servers stay listed, and counted, until their finalizer
 goes, and every pass selects afresh; the selections nevertheless never drift.
 */
module FleetScaleDown {
  import opened Common
  import opened FleetModel
  import opened FleetSelection
  import opened FleetScaleUp

  /** A pass, a finalizer that lets a deleted server go, or a change no deletion order depends on. */
  datatype Event = Pass(outcome: Outcome) | Finalized(name: string) | Touched(name: string, server: GameServer)

  ghost predicate Step(f: Fleet, st: Store, e: Event, st': Store)
    requires ValidFleet(f)
  {
    match e
    case Pass(o) => PassStep(f, st, o, st')
    case Finalized(n) => n in st && st[n].deleting && st' == st - {n}
    case Touched(n, s) => n in st && InFleet(s, f) == InFleet(st[n], f) && SameRank(st[n], s) && st' == st[n := s]
  }

  ghost predicate Run(f: Fleet, states: seq<Store>, events: seq<Event>)
    requires ValidFleet(f)
  {
    && |states| == |events| + 1
    && forall i :: 0 <= i < |events| ==> StepAt(f, states, events, i)
  }

  ghost predicate StepAt(f: Fleet, states: seq<Store>, events: seq<Event>, i: nat)
    requires ValidFleet(f) && |states| == |events| + 1 && i < |events|
  {
    Step(f, states[i], events[i], states[i + 1])
  }

  /** The names the passes of a run deleted. */
  function Deleted(events: seq<Event>): set<string> {
    if events == [] then {} else Deleted(events[..|events| - 1]) + DeletedBy(events[|events| - 1])
  }

  function DeletedBy(e: Event): set<string> {
    if e.Pass? then e.outcome.deleted else {}
  }

  /**
   A fleet about to scale down, or in the middle of it: enough servers, self-deleting, and those
   already on their way out, `gone`, are among the victims.
   */
  ghost predicate Shrinking(f: Fleet, st0: Store, v0: set<string>, gone: set<string>) {
    && |Members(st0, f)| >= f.replicas
    && Strategy(f) != "OnDelete"
    && IsVictims(st0, f, v0)
    && gone <= v0
    && forall n :: n in Members(st0, f) ==> (st0[n].deleting <==> n in gone)
  }

  /** A state later in a run from st0 in which d have been deleted so far. */
  ghost predicate Onward(f: Fleet, st0: Store, v0: set<string>, d: set<string>, st: Store) {
    && d <= v0
    && Members(st0, f) - d <= Members(st, f) <= Members(st0, f)
    && forall n :: n in Members(st, f) ==>
         && st[n].players == st0[n].players && st[n].created == st0[n].created && st[n].name == st0[n].name
         && (st[n].deleting <==> n in d)
  }

  /** Every later pass picks exactly the still-listed part of the first selection. */
  lemma LaterVictims(f: Fleet, st0: Store, v0: set<string>, gone: set<string>, d: set<string>, st: Store)
    requires ValidFleet(f) && Shrinking(f, st0, v0, gone) && Onward(f, st0, v0, d, st)
    ensures |Members(st, f)| >= f.replicas
    ensures Excess(st, f) == |v0 * Members(st, f)|
    ensures forall v :: IsVictims(st, f, v) <==> v == v0 * Members(st, f)
  {
    var now, start := Members(st, f), Members(st0, f);
    assert |start - v0| == f.replicas;
    SelectionShrinks(st0, start, v0, now);
    SelectionFrame(st0, st, now, |v0 * now|, v0 * now);
    forall v | IsVictims(st, f, v) ensures v == v0 * now {
      SelectionUnique(st, now, |v0 * now|, v, v0 * now);
    }
  }

  /** A pass that fails part-way deletes only from the full selection. */
  lemma PartialVictimsWithin(f: Fleet, st: Store, v: set<string>, d: set<string>)
    requires Strategy(f) != "OnDelete"
    requires IsVictims(st, f, v) && PartialVictims(st, f, d)
    ensures d <= v
  {
    if !(d <= v) {
      if v <= d { SubsetCardinality(v, d); }
      var x :| x in d && x !in v;
      var y :| y in v && y !in d;
      assert Before(st[x], st[y]) && Before(st[y], st[x]);
      BeforeTrichotomy(st[x], st[y]);
    }
  }

  lemma DeleteAllOnward(f: Fleet, st0: Store, v0: set<string>, d: set<string>, st: Store, e: set<string>)
    requires Onward(f, st0, v0, d, st) && e <= v0
    ensures Onward(f, st0, v0, d + e, DeleteAll(st, e))
  {
    var st' := DeleteAll(st, e);
    assert forall n :: n in st && n !in e ==> n in st' && st'[n] == st[n];
    assert forall n :: n in Members(st, f) && n !in e ==> n in Members(st', f);
  }

  lemma RollingOnward(f: Fleet, st0: Store, v0: set<string>, d: set<string>, listed: Store, st: Store, o: Outcome, st': Store)
    requires ValidFleet(f) && Onward(f, st0, v0, d, st)
    requires Rolling(listed, st, f, o, st')
    ensures Onward(f, st0, v0, d, st')
  {
    RollingFrame(listed, st, f, o, st');
  }

  lemma ShrinkOnward(f: Fleet, st0: Store, v0: set<string>, gone: set<string>, d: set<string>, st: Store, o: Outcome, st': Store)
    requires ValidFleet(f) && Shrinking(f, st0, v0, gone) && Onward(f, st0, v0, d, st)
    requires ShrinkStep(f, st, o, st')
    ensures Onward(f, st0, v0, d + o.deleted, st')
  {
    LaterVictims(f, st0, v0, gone, d, st);
    PartialVictimsWithin(f, st, v0 * Members(st, f), o.deleted);
    DeleteAllOnward(f, st0, v0, d, st, o.deleted);
    if IsVictims(st, f, o.deleted) {
      RollingOnward(f, st0, v0, d + o.deleted, st, DeleteAll(st, o.deleted), o, st');
    }
  }

  lemma PassOnward(f: Fleet, st0: Store, v0: set<string>, gone: set<string>, d: set<string>, st: Store, o: Outcome, st': Store)
    requires ValidFleet(f) && Shrinking(f, st0, v0, gone) && Onward(f, st0, v0, d, st)
    requires PassStep(f, st, o, st')
    ensures Onward(f, st0, v0, d + o.deleted, st')
  {
    LaterVictims(f, st0, v0, gone, d, st);
    if |Members(st, f)| > f.replicas {
      ShrinkOnward(f, st0, v0, gone, d, st, o, st');
    } else {
      assert d + o.deleted == d;
      RollingOnward(f, st0, v0, d, st, st, o, st');
    }
  }

  lemma FinalizedOnward(f: Fleet, st0: Store, v0: set<string>, d: set<string>, st: Store, n: string)
    requires Onward(f, st0, v0, d, st) && n in st && st[n].deleting
    ensures Onward(f, st0, v0, d, st - {n})
  {
    assert Members(st - {n}, f) == Members(st, f) - {n};
  }

  lemma TouchedOnward(f: Fleet, st0: Store, v0: set<string>, d: set<string>, st: Store, n: string, s: GameServer)
    requires Onward(f, st0, v0, d, st) && n in st && InFleet(s, f) == InFleet(st[n], f) && SameRank(st[n], s)
    ensures Onward(f, st0, v0, d, st[n := s])
  {
    assert Members(st[n := s], f) == Members(st, f);
  }

  lemma StepOnward(f: Fleet, st0: Store, v0: set<string>, gone: set<string>, d: set<string>, st: Store, e: Event, st': Store)
    requires ValidFleet(f) && Shrinking(f, st0, v0, gone) && Onward(f, st0, v0, d, st)
    requires Step(f, st, e, st')
    ensures Onward(f, st0, v0, d + DeletedBy(e), st')
  {
    match e
    case Pass(o) => PassOnward(f, st0, v0, gone, d, st, o, st');
    case Finalized(n) => assert d + DeletedBy(e) == d; FinalizedOnward(f, st0, v0, d, st, n);
    case Touched(n, s) => assert d + DeletedBy(e) == d; TouchedOnward(f, st0, v0, d, st, n, s);
  }

  lemma DeletedSoFar(gone: set<string>, events: seq<Event>, i: nat)
    requires 0 < i <= |events|
    ensures gone + Deleted(events[..i]) == gone + Deleted(events[..i - 1]) + DeletedBy(events[i - 1])
  {
    assert events[..i][..i - 1] == events[..i - 1];
  }

  lemma {:induction false} RunOnward(f: Fleet, states: seq<Store>, events: seq<Event>, v0: set<string>, gone: set<string>, i: nat)
    requires ValidFleet(f) && Run(f, states, events) && i < |states|
    requires Shrinking(f, states[0], v0, gone)
    ensures Onward(f, states[0], v0, gone + Deleted(events[..i]), states[i])
  {
    if i == 0 {
      assert gone + Deleted(events[..0]) == gone;
    } else {
      RunOnward(f, states, events, v0, gone, i - 1);
      assert StepAt(f, states, events, i - 1);
      var d := gone + Deleted(events[..i - 1]);
      StepOnward(f, states[0], v0, gone, d, states[i - 1], events[i - 1], states[i]);
      DeletedSoFar(gone, events, i);
    }
  }

  lemma {:induction false} DeletedMonotone(events: seq<Event>, i: nat, j: nat)
    requires i <= j <= |events|
    ensures Deleted(events[..i]) <= Deleted(events[..j])
  {
    if i < j {
      DeletedMonotone(events, i, j - 1);
      assert events[..j][..j - 1] == events[..j - 1];
    }
  }

  /** Event i is a pass none of whose deletions failed. */
  ghost predicate CompletePass(f: Fleet, states: seq<Store>, events: seq<Event>, i: nat)
    requires i < |events| && i < |states|
  {
    events[i].Pass? && IsVictims(states[i], f, events[i].outcome.deleted)
  }

  /**
   At every moment of a scale-down run, with failing deletes, half-gone servers and rolling updates
   mixed in: no pass has deleted outside the first selection, the survivors are all there, and the
   next selection is exactly the still-listed rest of the first.
   */
  lemma ScaleDownNeverDrifts(f: Fleet, states: seq<Store>, events: seq<Event>, v0: set<string>, gone: set<string>, i: nat)
    requires ValidFleet(f) && Run(f, states, events) && i < |states|
    requires Shrinking(f, states[0], v0, gone)
    ensures |v0| == Excess(states[0], f)
    ensures Deleted(events[..i]) <= v0
    ensures Members(states[0], f) - v0 <= Members(states[i], f)
    ensures |Members(states[i], f)| >= f.replicas
    ensures forall v :: IsVictims(states[i], f, v) <==> v == v0 * Members(states[i], f)
  {
    RunOnward(f, states, events, v0, gone, i);
    LaterVictims(f, states[0], v0, gone, gone + Deleted(events[..i]), states[i]);
  }

  lemma RunStaysWithin(f: Fleet, states: seq<Store>, events: seq<Event>, v0: set<string>, gone: set<string>, i: nat)
    requires ValidFleet(f) && Run(f, states, events) && i < |states|
    requires Shrinking(f, states[0], v0, gone)
    ensures gone + Deleted(events[..i]) <= v0
  {
    RunOnward(f, states, events, v0, gone, i);
  }

  /** After a complete pass nothing of the first selection is left to delete. */
  lemma CompleteExhausts(f: Fleet, st0: Store, v0: set<string>, gone: set<string>, d: set<string>, st: Store, deleted: set<string>)
    requires ValidFleet(f) && Shrinking(f, st0, v0, gone) && Onward(f, st0, v0, d, st)
    requires IsVictims(st, f, deleted)
    ensures v0 <= d + deleted
  {
    LaterVictims(f, st0, v0, gone, d, st);
  }

  /** One complete pass anywhere in the run, and exactly the first selection has been deleted or was going before. */
  lemma CompletePassDeletesAll(f: Fleet, states: seq<Store>, events: seq<Event>, v0: set<string>, gone: set<string>, i: nat)
    requires ValidFleet(f) && Run(f, states, events)
    requires Shrinking(f, states[0], v0, gone)
    requires i < |events| && CompletePass(f, states, events, i)
    ensures gone + Deleted(events[..i + 1]) == v0
  {
    RunOnward(f, states, events, v0, gone, i);
    CompleteExhausts(f, states[0], v0, gone, gone + Deleted(events[..i]), states[i], events[i].outcome.deleted);
    DeletedSoFar(gone, events, i + 1);
    RunStaysWithin(f, states, events, v0, gone, i + 1);
  }

  /**
   From the first complete pass on, at every moment of the run, exactly the first selection, the initial
   excess, has been deleted or was going before, however many passes follow.
   */
  lemma ScaleDownTotal(f: Fleet, states: seq<Store>, events: seq<Event>, v0: set<string>, gone: set<string>, i: nat, j: nat)
    requires ValidFleet(f) && Run(f, states, events)
    requires Shrinking(f, states[0], v0, gone)
    requires i < j <= |events| && CompletePass(f, states, events, i)
    ensures gone + Deleted(events[..j]) == v0 && |v0| == Excess(states[0], f)
  {
    CompletePassDeletesAll(f, states, events, v0, gone, i);
    DeletedMonotone(events, i + 1, j);
    RunStaysWithin(f, states, events, v0, gone, j);
  }

  /** And as soon as the last deleted server is gone, exactly the survivors of the first selection remain. */
  lemma ScaleDownSettles(f: Fleet, states: seq<Store>, events: seq<Event>, v0: set<string>, gone: set<string>, i: nat, j: nat)
    requires ValidFleet(f) && Run(f, states, events)
    requires Shrinking(f, states[0], v0, gone)
    requires i < j <= |events| && CompletePass(f, states, events, i)
    requires forall n :: n in Members(states[j], f) ==> !states[j][n].deleting
    ensures Members(states[j], f) == Members(states[0], f) - v0 && |Members(states[j], f)| == f.replicas
  {
    ScaleDownTotal(f, states, events, v0, gone, i, j);
    RunOnward(f, states, events, v0, gone, j);
    assert |Members(states[0], f) - v0| == f.replicas;
  }

  /** The condition on `gone` is needed: a survivor that is on its way out already goes, and no pass had to delete it. */
  lemma LeavingSurvivorIsLost(f: Fleet, st0: Store, v0: set<string>, n: string)
    requires ValidFleet(f) && IsVictims(st0, f, v0) && n in Members(st0, f) - v0 && st0[n].deleting
    ensures var states, events := [st0, st0 - {n}], [Finalized(n)];
      Run(f, states, events) && Deleted(events) == {} && !(Members(st0, f) - v0 <= Members(states[1], f))
  {
    var states, events := [st0, st0 - {n}], [Finalized(n)];
    assert Step(f, states[0], events[0], states[1]);
    assert StepAt(f, states, events, 0);
    assert n in Members(st0, f) - v0 && n !in Members(states[1], f);
    assert events[..0] == [];
  }
}

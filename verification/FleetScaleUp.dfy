/** Where scale-up settles: at the first taken name, in one pass, and for good. */
module FleetScaleUp {
  import opened Common
  import Decimal
  import opened FleetModel

  lemma ServerNameInjective(f: Fleet, i: nat, j: nat)
    requires ServerName(f, i) == ServerName(f, j)
    ensures i == j
  {
    var p := f.name + "-";
    assert ServerName(f, i)[|p|..] == Decimal.Dec(i) && ServerName(f, j)[|p|..] == Decimal.Dec(j);
    Decimal.DecInjective(i, j);
  }

  lemma InsertMember(st: Store, f: Fleet, name: string, s: GameServer)
    requires name !in st && InFleet(s, f)
    ensures |Members(st[name := s], f)| == |Members(st, f)| + 1
  {
    assert Members(st[name := s], f) == Members(st, f) + {name};
  }

  lemma {:induction false} CreateAllKeys(st: Store, servers: seq<GameServer>, n: string)
    ensures n in st ==> n in CreateAll(st, servers)
    ensures (forall j :: 0 <= j < |servers| ==> servers[j].name != n) ==> (n in CreateAll(st, servers) <==> n in st)
  {
    if servers != [] {
      CreateAllKeys(st, servers[..|servers| - 1], n);
    }
  }

  /** Creating servers under fresh, distinct names adds one member each. */
  lemma {:induction false} CreateAllCount(st: Store, f: Fleet, servers: seq<GameServer>)
    requires forall i :: 0 <= i < |servers| ==> servers[i].name !in st && InFleet(servers[i], f)
    requires forall i, j :: 0 <= i < j < |servers| ==> servers[i].name != servers[j].name
    ensures |Members(CreateAll(st, servers), f)| == |Members(st, f)| + |servers|
  {
    if servers != [] {
      var k := |servers| - 1;
      CreateAllCount(st, f, servers[..k]);
      CreateAllKeys(st, servers[..k], servers[k].name);
      InsertMember(CreateAll(st, servers[..k]), f, servers[k].name, servers[k]);
    }
  }

  lemma BuiltCount(st: Store, f: Fleet, from: nat, end: nat, now: int)
    requires ValidFleet(f) && from <= end
    requires forall j :: from <= j < end ==> ServerName(f, j) !in st
    ensures |Members(CreateAll(st, Built(f, from, end, now)), f)| == |Members(st, f)| + end - from
    ensures st.Keys <= CreateAll(st, Built(f, from, end, now)).Keys
  {
    var servers := Built(f, from, end, now);
    forall i, j | 0 <= i < j < |servers| ensures servers[i].name != servers[j].name {
      if ServerName(f, from + i) == ServerName(f, from + j) {
        ServerNameInjective(f, from + i, from + j);
      }
    }
    forall i | 0 <= i < |servers| ensures servers[i].name !in st && InFleet(servers[i], f) {
      assert servers[i] == BuildGameServer(f, from + i, now);
    }
    CreateAllCount(st, f, servers);
    forall n | n in st ensures n in CreateAll(st, servers) {
      CreateAllKeys(st, servers, n);
    }
  }

  /** A rolling update never changes who is in the fleet, nor anything a deletion order looks at. */
  lemma RollingFrame(listed: Store, st: Store, f: Fleet, o: Outcome, st': Store)
    requires ValidFleet(f) && Rolling(listed, st, f, o, st')
    ensures st'.Keys == st.Keys && Members(st', f) == Members(st, f)
    ensures forall n :: n in st ==> SameRank(st[n], st'[n]) && st'[n].finalizer == st[n].finalizer
  {
    forall n | n in st ensures n in st' && SameRank(st[n], st'[n]) && InFleet(st'[n], f) == InFleet(st[n], f) {
    }
  }

  /** Equal in everything deletion depends on. */
  predicate SameRank(a: GameServer, b: GameServer) {
    a.name == b.name && a.players == b.players && a.created == b.created && a.deleting == b.deleting
  }

  /** The first taken index, seen from any index up to it. */
  lemma FirstTakenFrom(st: Store, f: Fleet, from: nat, k: nat, end: nat)
    requires from <= end && from <= k <= FirstTaken(st, f, from, end)
    ensures FirstTaken(st, f, k, end) == FirstTaken(st, f, from, end)
    decreases k - from
  {
    if from < k {
      FirstTakenFrom(st, f, from + 1, k, end);
    }
  }

  /** Creating servers below an index does not take the names from it on. */
  lemma {:induction false} FirstTakenAfter(st: Store, st': Store, f: Fleet, k: nat, end: nat)
    requires k <= end
    requires forall j :: k <= j < end ==> (ServerName(f, j) in st <==> ServerName(f, j) in st')
    ensures FirstTaken(st', f, k, end) == FirstTaken(st, f, k, end)
    decreases end - k
  {
    if k < end {
      FirstTakenAfter(st, st', f, k + 1, end);
    }
  }

  lemma BuiltNames(st: Store, f: Fleet, from: nat, k: nat, now: int, j: nat)
    requires ValidFleet(f) && from <= k <= j
    ensures ServerName(f, j) in CreateAll(st, Built(f, from, k, now)) <==> ServerName(f, j) in st
  {
    var servers := Built(f, from, k, now);
    forall i | 0 <= i < |servers| ensures servers[i].name != ServerName(f, j) {
      if servers[i].name == ServerName(f, j) {
        ServerNameInjective(f, from + i, j);
      }
    }
    CreateAllKeys(st, servers, ServerName(f, j));
  }

  /** Where a fleet that is too small is heading: its target, or the first taken index from its size on. */
  function Goal(st: Store, f: Fleet): nat
    requires |Members(st, f)| <= f.replicas
  {
    FirstTaken(st, f, |Members(st, f)|, f.replicas)
  }

  /** Creation itself, as far as it got: the goal stays where it was. */
  lemma GrowthKeepsGoal(f: Fleet, st: Store, created: nat, now: int)
    requires ValidFleet(f) && |Members(st, f)| <= f.replicas && |Members(st, f)| + created <= Goal(st, f)
    ensures var grown := CreateAll(st, Built(f, |Members(st, f)|, |Members(st, f)| + created, now));
      && |Members(grown, f)| == |Members(st, f)| + created && st.Keys <= grown.Keys
      && Goal(grown, f) == Goal(st, f)
  {
    var current := |Members(st, f)|;
    var k := current + created;
    var grown := CreateAll(st, Built(f, current, k, now));
    BuiltCount(st, f, current, k, now);
    forall j | k <= j < f.replicas ensures ServerName(f, j) in st <==> ServerName(f, j) in grown {
      BuiltNames(st, f, current, k, now, j);
    }
    FirstTakenAfter(st, grown, f, k, f.replicas);
    FirstTakenFrom(st, f, current, k, f.replicas);
  }

  /** No creation of the pass failed but for a taken name. */
  ghost predicate FullGrowth(f: Fleet, st: Store, o: Outcome)
    requires |Members(st, f)| <= f.replicas
  {
    |Members(st, f)| + o.created == Goal(st, f)
  }

  lemma SameKeysSameGoal(f: Fleet, st: Store, st': Store)
    requires st'.Keys == st.Keys && Members(st', f) == Members(st, f) && |Members(st, f)| <= f.replicas
    ensures Goal(st', f) == Goal(st, f)
  {
    FirstTakenAfter(st, st', f, |Members(st, f)|, f.replicas);
  }

  /** A pass brings the fleet closer to its goal and never moves the goal; without a failed creation it gets there. */
  lemma ScaleUpPass(f: Fleet, st: Store, o: Outcome, st': Store)
    requires ValidFleet(f) && PassStep(f, st, o, st')
    requires |Members(st, f)| <= f.replicas
    ensures |Members(st', f)| == |Members(st, f)| + o.created <= Goal(st, f)
    ensures Goal(st', f) == Goal(st, f)
    ensures st.Keys <= st'.Keys
  {
    var current := |Members(st, f)|;
    if current < f.replicas {
      var grown := CreateAll(st, Built(f, current, current + o.created, o.now));
      GrowthKeepsGoal(f, st, o.created, o.now);
      if current + o.created == f.replicas {
        RollingFrame(st, grown, f, o, st');
        SameKeysSameGoal(f, grown, st');
      }
    } else {
      RollingFrame(st, st, f, o, st');
      SameKeysSameGoal(f, st, st');
    }
  }

  /** From st to st' the fleet has come closer to the same goal, and lost no server. */
  ghost predicate Closer(f: Fleet, st: Store, st': Store) {
    && |Members(st, f)| <= |Members(st', f)| <= f.replicas
    && Goal(st', f) == Goal(st, f) >= |Members(st', f)|
    && st.Keys <= st'.Keys
  }

  lemma CloserStill(f: Fleet, a: Store, b: Store, c: Store)
    requires Closer(f, a, b) && Closer(f, b, c)
    ensures Closer(f, a, c)
  {
  }

  lemma PassGetsCloser(f: Fleet, states: seq<Store>, outcomes: seq<Outcome>, i: nat)
    requires ValidFleet(f) && PassRun(f, states, outcomes) && i < |outcomes|
    requires |Members(states[i], f)| <= f.replicas
    ensures Closer(f, states[i], states[i + 1])
  {
    assert PassAt(f, states, outcomes, i);
    ScaleUpPass(f, states[i], outcomes[i], states[i + 1]);
  }

  /** At every moment of a run, creations failing as they may, the fleet is on its way to the goal it started with. */
  lemma {:induction false} ScaleUpNeverOvershoots(f: Fleet, states: seq<Store>, outcomes: seq<Outcome>, q: nat, p: nat)
    requires ValidFleet(f) && PassRun(f, states, outcomes)
    requires q <= p < |states| && |Members(states[q], f)| <= f.replicas
    ensures Closer(f, states[q], states[p])
    decreases p
  {
    if q < p {
      ScaleUpNeverOvershoots(f, states, outcomes, q, p - 1);
      PassGetsCloser(f, states, outcomes, p - 1);
      CloserStill(f, states[q], states[p - 1], states[p]);
    }
  }

  /** Pass i of the run creates all it can. */
  ghost predicate GrowsFully(f: Fleet, states: seq<Store>, outcomes: seq<Outcome>, i: nat)
    requires i < |outcomes| && i < |states|
  {
    |Members(states[i], f)| <= f.replicas && FullGrowth(f, states[i], outcomes[i])
  }

  /**
   One pass without a failed creation, and the fleet settles at exactly min(desired, least taken index
   >= initial count), where it stays under any number of further passes.
   */
  lemma ScaleUpSettles(f: Fleet, states: seq<Store>, outcomes: seq<Outcome>, i: nat, p: nat)
    requires ValidFleet(f) && PassRun(f, states, outcomes)
    requires |Members(states[0], f)| <= f.replicas
    requires i < p < |states| && GrowsFully(f, states, outcomes, i)
    ensures |Members(states[p], f)| == FirstTaken(states[0], f, |Members(states[0], f)|, f.replicas)
  {
    ScaleUpNeverOvershoots(f, states, outcomes, 0, i);
    assert PassAt(f, states, outcomes, i);
    ScaleUpPass(f, states[i], outcomes[i], states[i + 1]);
    ScaleUpNeverOvershoots(f, states, outcomes, i + 1, p);
  }

  /** The target is then reached exactly when no name in [current, desired) was taken. */
  lemma ScaleUpReachesTargetIff(f: Fleet, states: seq<Store>, outcomes: seq<Outcome>, i: nat, p: nat)
    requires ValidFleet(f) && PassRun(f, states, outcomes)
    requires |Members(states[0], f)| <= f.replicas
    requires i < p < |states| && GrowsFully(f, states, outcomes, i)
    ensures |Members(states[p], f)| == f.replicas <==>
            forall j :: |Members(states[0], f)| <= j < f.replicas ==> ServerName(f, j) !in states[0]
  {
    ScaleUpSettles(f, states, outcomes, i, p);
  }

  /** A blocked fleet no longer changes at all, not even its servers' templates. */
  lemma BlockedPassDoesNothing(f: Fleet, st: Store, o: Outcome, st': Store)
    requires ValidFleet(f) && PassStep(f, st, o, st')
    requires |Members(st, f)| < f.replicas && ServerName(f, |Members(st, f)|) in st
    ensures st' == st
  {
    assert o.created == 0;
  }

  /**
   The gap case: servers 0 and 2 exist, server 1 was removed by hand, three are wanted.  The next
   index is the current count, 2, whose name is taken, so the fleet stays at two forever.
   */
  lemma GapIsNeverFilled(f: Fleet, s0: GameServer, s2: GameServer, states: seq<Store>, outcomes: seq<Outcome>, p: nat)
    requires ValidFleet(f) && f.replicas == 3
    requires InFleet(s0, f) && InFleet(s2, f)
    requires PassRun(f, states, outcomes) && p < |states|
    requires states[0] == map[ServerName(f, 0) := s0, ServerName(f, 2) := s2]
    ensures |Members(states[p], f)| == 2
  {
    if ServerName(f, 0) == ServerName(f, 2) { ServerNameInjective(f, 0, 2); }
    assert Members(states[0], f) == {ServerName(f, 0), ServerName(f, 2)};
    ScaleUpNeverOvershoots(f, states, outcomes, 0, p);
    assert Goal(states[0], f) == 2;
  }
}

/** The life of one execution: the states it can pass through, how often its action is dispatched, when it is swept. */
module ActionLifecycle {
  import opened Common
  import opened ActionModel
  import opened ActionProtocol

  // --------------------------------------------------------------- lifecycle

  /** The histories the protocol intends, complete or cut short. */
  predicate Legal(trail: seq<State>) {
    || trail <= [New, Pending, Rejected]
    || trail <= [New, Pending, Running, Succeeded]
    || trail <= [New, Pending, Running, Failed]
  }

  /** Those, and, for an execution with a lost Running write, the ones that skip Running. */
  predicate Possible(trail: seq<State>, lost: nat) {
    Legal(trail) || (lost > 0 && (trail == [New, Pending, Succeeded] || trail == [New, Pending, Failed]))
  }

  /** While a pass is in flight its execution, unless deleted meanwhile, is stored as Running, or as Pending if that write was lost. */
  ghost predicate Lifecycle(c: Cluster) {
    && (forall u :: u in c.trail ==> Possible(c.trail[u], c.lost[u]))
    && (forall k :: k in c.inflight && k in c.execs && c.execs[k].uid == c.inflight[k].uid ==>
          c.execs[k].state == Running || (c.execs[k].state == Pending && c.lost[c.execs[k].uid] > 0))
  }

  /** The moves between stored states. */
  predicate Move(s: State, t: State, lost: nat) {
    || (s == New && t == Pending)
    || (s == Pending && (t == Rejected || t == Running))
    || (s == Running && (t == Succeeded || t == Failed))
    || (s == Pending && lost > 0 && (t == Succeeded || t == Failed))
  }

  lemma MoveIsPossible(trail: seq<State>, s: State, lost: nat)
    requires Possible(trail, lost) && trail != [] && Move(trail[|trail| - 1], s, lost)
    ensures Possible(trail + [s], lost)
  {
  }

  lemma WriteKeepsLifecycle(c: Cluster, key: Key, x: Exec)
    requires Bookkeeping(c) && Lifecycle(c) && key in c.execs && c.execs[key].uid == x.uid
    requires key in c.inflight ==> c.inflight[key].uid != x.uid
    requires Move(c.execs[key].state, x.state, c.lost[x.uid])
    ensures Lifecycle(Write(c, key, x))
  {
    assert OnTrail(c, c.execs[key]);
    MoveIsPossible(c.trail[x.uid], x.state, c.lost[x.uid]);
  }

  lemma PerformKeepsLifecycle(c: Cluster, key: Key, f: Effect)
    requires Bookkeeping(c) && Lifecycle(c) && Allowed(c, key, f)
    ensures Lifecycle(Perform(c, key, f))
  {
    if !f.Skip? {
      WriteKeepsLifecycle(c, key, f.x);
    }
  }

  lemma FinishKeepsLifecycle(c: Cluster, e: Event)
    requires Bookkeeping(c) && Lifecycle(c) && e.Finish?
    ensures Lifecycle(DoFinish(c, e))
  {
    if e.key in c.inflight {
      var landed, c' := c.(inflight := c.inflight - {e.key}), DoFinish(c, e);
      assert Bookkeeping(landed) && Lifecycle(landed);
      if e.writeOk && e.key in c.execs && c.execs[e.key].uid == c.inflight[e.key].uid {
        WriteKeepsLifecycle(landed, e.key, c'.execs[e.key]);
      }
    }
  }

  lemma StepKeepsLifecycle(w: World, c: Cluster, e: Event)
    requires Bookkeeping(c) && Lifecycle(c)
    ensures Lifecycle(Apply(w, c, e))
  {
    match e
    case Begin(key, _, _, _, _) => PerformKeepsLifecycle(c, key, BeginEffect(w, c, e));
    case Finish(_, _, _, _, _) => FinishKeepsLifecycle(c, e);
    case Create(key, _) => FreshUid(c);
    case _ => OtherStepsShed(w, c, e);
  }

  /** A new uid belongs to nobody, in the store or in flight. */
  lemma FreshUid(c: Cluster)
    requires Bookkeeping(c)
    ensures c.nextUid !in c.trail
    ensures forall k :: k in c.inflight ==> c.inflight[k].uid != c.nextUid
  {
  }

  lemma {:induction false} RunKeepsLifecycle(w: World, events: seq<Event>)
    ensures Lifecycle(Run(w, events))
  {
    if events != [] {
      var k := |events| - 1;
      RunKeepsLifecycle(w, events[..k]);
      RunKeepsBooks(w, events[..k]);
      StepKeepsLifecycle(w, Run(w, events[..k]), events[k]);
    }
  }

  /**
   Every execution ever created, deleted ones included, has passed only through
   "" -> Pending -> Rejected or "" -> Pending -> Running -> Succeeded/Failed; TimedOut is never reached.
   Only an execution whose own Running write was lost can go from Pending straight to its result.
   */
  lemma OnlyLegalHistories(w: World, events: seq<Event>, uid: nat)
    requires uid in Run(w, events).trail
    ensures Possible(Run(w, events).trail[uid], Run(w, events).lost[uid])
    ensures Run(w, events).lost[uid] == 0 ==> Legal(Run(w, events).trail[uid])
    ensures TimedOut !in Run(w, events).trail[uid]
  {
    RunKeepsLifecycle(w, events);
  }

  /** A terminal record is never written again: whatever happens next, it is kept, marked for deletion, or deleted. */
  lemma TerminalIsFinal(w: World, events: seq<Event>, e: Event, key: Key)
    requires key in Run(w, events).execs && Terminal(Run(w, events).execs[key].state)
    ensures var c' := Apply(w, Run(w, events), e);
      key in c'.execs ==> SameRecord(Run(w, events).execs[key], c'.execs[key])
  {
    RunKeepsLifecycle(w, events);
    var c := Run(w, events);
    match e
    case Begin(k, _, _, _, _) => PerformFrame(c, k, BeginEffect(w, c, e));
    case Finish(_, _, _, _, _) => FinishFrame(c, e);
    case Create(_, _) =>
    case _ => OtherStepsShed(w, c, e);
  }

  // ---------------------------------------------------------------- dispatch

  /** The execution has been stored as Running. */
  predicate Ran(c: Cluster, uid: nat) {
    uid in c.trail && Running in c.trail[uid]
  }

  function RanOnce(c: Cluster, uid: nat): nat {
    if Ran(c, uid) then 1 else 0
  }

  /** Each dispatch either lost its Running write or is the one that stored Running. */
  ghost predicate Accounted(c: Cluster) {
    forall u :: c.dispatches[u] == c.lost[u] + RanOnce(c, u)
  }

  /** Storing any state but Running leaves the account alone. */
  lemma WriteKeepsAccount(c: Cluster, key: Key, x: Exec)
    requires Accounted(c) && key in c.execs && c.execs[key].uid == x.uid && x.state != Running
    ensures Accounted(Write(c, key, x))
  {
    assert forall u :: Ran(Write(c, key, x), u) <==> Ran(c, u);
  }

  /** A Pending execution that has legal history has not been Running. */
  lemma PendingHasNotRun(c: Cluster, key: Key)
    requires Bookkeeping(c) && Lifecycle(c) && key in c.execs && c.execs[key].state == Pending
    ensures !Ran(c, c.execs[key].uid)
  {
    assert OnTrail(c, c.execs[key]);
  }

  lemma LaunchKeepsAccount(c: Cluster, c': Cluster, uid: nat, stored: bool)
    requires Accounted(c) && !Ran(c, uid)
    requires c'.dispatches == c.dispatches + multiset{uid}
    requires c'.lost == if stored then c.lost else c.lost + multiset{uid}
    requires forall u :: Ran(c', u) <==> Ran(c, u) || (stored && u == uid)
    ensures Accounted(c')
  {
  }

  lemma PerformKeepsAccount(c: Cluster, key: Key, f: Effect)
    requires Bookkeeping(c) && Lifecycle(c) && Accounted(c) && Allowed(c, key, f)
    ensures Accounted(Perform(c, key, f))
  {
    if f.Store? {
      WriteKeepsAccount(c, key, f.x);
    } else if f.Launch? {
      PendingHasNotRun(c, key);
      LaunchKeepsAccount(c, Perform(c, key, f), f.x.uid, f.stored);
    }
  }

  lemma FinishKeepsAccount(c: Cluster, e: Event)
    requires Accounted(c) && e.Finish?
    ensures Accounted(DoFinish(c, e))
  {
    if e.key in c.inflight {
      var landed := c.(inflight := c.inflight - {e.key});
      assert forall u :: Ran(landed, u) <==> Ran(c, u);
      if e.writeOk && e.key in c.execs && c.execs[e.key].uid == c.inflight[e.key].uid {
        WriteKeepsAccount(landed, e.key, DoFinish(c, e).execs[e.key]);
      }
    }
  }

  lemma StepKeepsAccount(w: World, c: Cluster, e: Event)
    requires Bookkeeping(c) && Lifecycle(c) && Accounted(c)
    ensures Accounted(Apply(w, c, e))
  {
    match e
    case Begin(key, _, _, _, _) => PerformKeepsAccount(c, key, BeginEffect(w, c, e));
    case Finish(_, _, _, _, _) => FinishKeepsAccount(c, e);
    case Create(_, _) => FreshUid(c); assert forall u :: Ran(Apply(w, c, e), u) <==> Ran(c, u);
    case _ => OtherStepsShed(w, c, e); assert forall u :: Ran(Apply(w, c, e), u) <==> Ran(c, u);
  }

  /**
   In every run an execution's dispatches are exactly its lost Running writes, plus one if Running was
   ever stored.  Crashes, deletions and sweeps add nothing.
   */
  lemma {:induction false} DispatchesAreAccounted(w: World, events: seq<Event>)
    ensures Accounted(Run(w, events))
  {
    if events != [] {
      var k := |events| - 1;
      DispatchesAreAccounted(w, events[..k]);
      RunKeepsBooks(w, events[..k]);
      RunKeepsLifecycle(w, events[..k]);
      StepKeepsAccount(w, Run(w, events[..k]), events[k]);
    }
  }

  /** So the agent is asked at most once exactly when no Running write was lost, or one was and none landed. */
  lemma DispatchedAtMostOnce(w: World, events: seq<Event>, uid: nat)
    ensures var c := Run(w, events);
      && (c.dispatches[uid] <= 1 <==> c.lost[uid] == 0 || (c.lost[uid] == 1 && !Ran(c, uid)))
      && c.dispatches[uid] <= 1 + c.lost[uid]
  {
    DispatchesAreAccounted(w, events);
    assert Run(w, events).dispatches[uid] == Run(w, events).lost[uid] + RanOnce(Run(w, events), uid);
  }

  // ------------------------------------------------------------------- sweep

  /** setState stamps: a terminal record has an end, a running one a start. */
  ghost predicate Stamped(c: Cluster) {
    forall k :: k in c.execs ==>
      && (Terminal(c.execs[k].state) ==> c.execs[k].endedAt.Some?)
      && (c.execs[k].state == Running ==> c.execs[k].startedAt.Some?)
  }

  lemma PerformKeepsStamps(c: Cluster, key: Key, f: Effect)
    requires Stamped(c) && Allowed(c, key, f)
    ensures Stamped(Perform(c, key, f))
  {
    PerformFrame(c, key, f);
  }

  lemma FinishKeepsStamps(c: Cluster, e: Event)
    requires Stamped(c) && e.Finish?
    ensures Stamped(DoFinish(c, e))
  {
    FinishFrame(c, e);
  }

  lemma StepKeepsStamps(w: World, c: Cluster, e: Event)
    requires Stamped(c)
    ensures Stamped(Apply(w, c, e))
  {
    match e
    case Begin(k, _, _, _, _) => PerformKeepsStamps(c, k, BeginEffect(w, c, e));
    case Finish(_, _, _, _, _) => FinishKeepsStamps(c, e);
    case Create(_, _) =>
    case _ => OtherStepsShed(w, c, e);
  }

  lemma {:induction false} RunKeepsStamps(w: World, events: seq<Event>)
    ensures Stamped(Run(w, events))
  {
    if events != [] {
      var k := |events| - 1;
      RunKeepsStamps(w, events[..k]);
      StepKeepsStamps(w, Run(w, events[..k]), events[k]);
    }
  }

  /**
   A sweep at time t, in any reachable state: what it removes was terminal and past its TTL; every
   terminal record it leaves, unless its own deletion failed, ended within its TTL; and no terminal
   record was passed over for want of an end time.
   */
  lemma SweepIsExact(w: World, events: seq<Event>, t: int, failing: set<Key>, k: Key)
    requires k in Run(w, events).execs
    ensures var c := Run(w, events);
      var c' := Apply(w, c, Sweep(t, failing));
      var x := c.execs[k];
      var ended := x.state == Succeeded || x.state == Failed || x.state == TimedOut || x.state == Rejected;
      var ttl := if x.state == Succeeded then 7 * 24 * 3600 else 30 * 24 * 3600;
      && (k in c'.execs ==> c'.execs[k] == x)
      && (k !in c'.execs ==> ended && x.endedAt.Some? && t - x.endedAt.value > ttl)
      && (k in c'.execs && ended && k !in failing ==> x.endedAt.Some? && t - x.endedAt.value <= ttl)
  {
    RunKeepsStamps(w, events);
  }
}

/** What every interleaving of creations, admissions, completions, crashes, deletions and sweeps keeps. */
module ActionProtocol {
  import opened Common
  import opened ActionModel

  // ------------------------------------------------------------- bookkeeping

  /** Uids identify executions, trails end in the stored state, flights carry their own Running copy. */
  ghost predicate Bookkeeping(c: Cluster) {
    && (forall k :: k in c.execs ==> OnTrail(c, c.execs[k]))
    && (forall j, k :: j in c.execs && k in c.execs && c.execs[j].uid == c.execs[k].uid ==> j == k)
    && (forall k :: k in c.inflight ==> c.inflight[k].uid in c.trail && c.inflight[k].state == Running)
    && (forall j, k :: j in c.inflight && k in c.execs && c.inflight[j].uid == c.execs[k].uid ==>
          j == k && c.inflight[j].spec == c.execs[k].spec)
    && (forall u :: u in c.trail ==> u < c.nextUid && c.trail[u] != [])
  }

  predicate OnTrail(c: Cluster, x: Exec) {
    x.uid in c.trail && c.trail[x.uid] != [] && c.trail[x.uid][|c.trail[x.uid]| - 1] == x.state
  }

  lemma WriteKeepsBooks(c: Cluster, key: Key, x: Exec)
    requires Bookkeeping(c) && key in c.execs && c.execs[key].uid == x.uid && c.execs[key].spec == x.spec
    ensures Bookkeeping(Write(c, key, x))
  {
    var c' := Write(c, key, x);
    forall k | k in c'.execs ensures OnTrail(c', c'.execs[k]) {
      if k != key { assert OnTrail(c, c.execs[k]) && c.execs[k].uid != x.uid; }
    }
  }

  lemma PerformKeepsBooks(c: Cluster, key: Key, f: Effect)
    requires Bookkeeping(c) && Allowed(c, key, f)
    ensures Bookkeeping(Perform(c, key, f))
  {
    if f.Store? || (f.Launch? && f.stored) {
      WriteKeepsBooks(c, key, f.x);
    }
    if f.Launch? {
      assert OnTrail(c, c.execs[key]);
    }
  }

  /** A pass touches its own execution only, and that only as its effect says. */
  lemma PerformFrame(c: Cluster, key: Key, f: Effect)
    requires Allowed(c, key, f)
    ensures var c' := Perform(c, key, f);
      && c'.execs.Keys == c.execs.Keys && c'.live == c.live
      && (forall k :: k in c.execs && k != key ==> c'.execs[k] == c.execs[k])
      && (key in c.execs ==> c'.execs[key] == if f.Store? || (f.Launch? && f.stored) then f.x else c.execs[key])
  {
  }

  /** A result write touches its own execution only, if that is still the one the pass started with. */
  lemma FinishFrame(c: Cluster, e: Event)
    requires e.Finish?
    ensures var c' := DoFinish(c, e);
      && c'.execs.Keys == c.execs.Keys && c'.live == c.live && c'.dispatches == c.dispatches && c'.lost == c.lost
      && c.trail.Keys <= c'.trail.Keys
      && (forall k :: k in c.execs && k != e.key ==> c'.execs[k] == c.execs[k])
      && (e.key in c.execs && c'.execs[e.key] != c.execs[e.key] ==>
            && e.key in c.inflight && c.inflight[e.key].uid == c.execs[e.key].uid
            && (c'.execs[e.key].state == Succeeded || c'.execs[e.key].state == Failed)
            && c'.execs[e.key].endedAt.Some?)
  {
  }

  lemma FinishKeepsBooks(c: Cluster, e: Event)
    requires Bookkeeping(c) && e.Finish?
    ensures Bookkeeping(DoFinish(c, e))
  {
    if e.key in c.inflight {
      var landed := c.(inflight := c.inflight - {e.key});
      assert Bookkeeping(landed);
      if e.writeOk && e.key in c.execs && c.execs[e.key].uid == c.inflight[e.key].uid {
        WriteKeepsBooks(landed, e.key, DoFinish(c, e).execs[e.key]);
      }
    }
  }

  /** The same record, deletion mark aside. */
  predicate SameRecord(x: Exec, y: Exec) {
    y == x.(deleting := y.deleting)
  }

  /** Records and flights may disappear, and records may be marked for deletion; nothing else changes. */
  ghost predicate Sheds(c: Cluster, c': Cluster) {
    && c'.trail == c.trail && c'.nextUid == c.nextUid && c'.dispatches == c.dispatches && c'.lost == c.lost
    && (forall k :: k in c'.execs ==> k in c.execs && SameRecord(c.execs[k], c'.execs[k]))
    && (forall k :: k in c'.inflight ==> k in c.inflight && c'.inflight[k] == c.inflight[k])
  }

  /** Deletions and their marks, crashes, sweeps and changes among the servers write no status. */
  lemma OtherStepsShed(w: World, c: Cluster, e: Event)
    requires !e.Create? && !e.Begin? && !e.Finish?
    ensures Sheds(c, Apply(w, c, e))
  {
  }

  lemma StepKeepsBooks(w: World, c: Cluster, e: Event)
    requires Bookkeeping(c)
    ensures Bookkeeping(Apply(w, c, e))
  {
    match e
    case Begin(_, _, _, _, _) => PerformKeepsBooks(c, e.key, BeginEffect(w, c, e));
    case Finish(_, _, _, _, _) => FinishKeepsBooks(c, e);
    case Create(key, spec) => CreateKeepsBooks(w, c, e);
    case _ => OtherStepsShed(w, c, e); DroppingKeepsBooks(c, Apply(w, c, e));
  }

  lemma CreateKeepsBooks(w: World, c: Cluster, e: Event)
    requires Bookkeeping(c) && e.Create?
    ensures Bookkeeping(Apply(w, c, e))
  {
    if e.key !in c.execs {
      var c' := Apply(w, c, e);
      AddingKeepsBooks(c, c', e.key, c'.execs[e.key]);
    }
  }

  lemma AddingKeepsBooks(c: Cluster, c': Cluster, key: Key, x: Exec)
    requires Bookkeeping(c) && key !in c.execs && x.uid == c.nextUid && x.state == New
    requires c'.execs == c.execs[key := x] && c'.trail == c.trail[x.uid := [New]] && c'.nextUid == c.nextUid + 1
    requires c'.inflight == c.inflight
    ensures Bookkeeping(c')
  {
    forall k | k in c'.execs ensures OnTrail(c', c'.execs[k]) {
      if k in c.execs { assert OnTrail(c, c.execs[k]); }
    }
    assert forall k :: k in c.execs ==> c.execs[k].uid in c.trail;
  }

  lemma DroppingKeepsBooks(c: Cluster, c': Cluster)
    requires Bookkeeping(c) && Sheds(c, c')
    ensures Bookkeeping(c')
  {
    forall k | k in c'.execs ensures OnTrail(c', c'.execs[k]) {
      assert OnTrail(c, c.execs[k]);
    }
  }

  lemma {:induction false} RunKeepsBooks(w: World, events: seq<Event>)
    ensures Bookkeeping(Run(w, events))
  {
    if events != [] {
      var k := |events| - 1;
      RunKeepsBooks(w, events[..k]);
      StepKeepsBooks(w, Run(w, events[..k]), events[k]);
    }
  }

  // -------------------------------------------------------- mutual exclusion

  /** At least one of the two could have been admitted while the other was running. */
  ghost predicate Compatible(w: World, server: Key, a: string, b: string) {
    var da, db := DeclOf(w, server, a), DeclOf(w, server, b);
    da.Some? && db.Some? && (!Conflicts(da.value, b, a) || !Conflicts(db.value, a, b))
  }

  ghost predicate RunningOn(c: Cluster, k: Key, server: Key) {
    k in c.execs && c.execs[k].state == Running && Target(k, c.execs[k].spec) == server
  }

  ghost predicate Exclusion(w: World, c: Cluster) {
    && (forall k :: k in c.execs ==> Local(k, c.execs[k].spec))
    && (forall k, s :: RunningOn(c, k, s) ==> DeclOf(w, s, c.execs[k].spec.action).Some?)
    && (forall j, k, s :: RunningOn(c, j, s) && RunningOn(c, k, s) && j != k ==>
          Compatible(w, s, c.execs[j].spec.action, c.execs[k].spec.action))
  }

  /** Writing anything but Running cannot create a conflict. */
  lemma RetiringKeepsExclusion(w: World, c: Cluster, key: Key, x: Exec)
    requires Exclusion(w, c) && key in c.execs && x.spec == c.execs[key].spec && x.uid == c.execs[key].uid
    requires x.state != Running
    ensures Exclusion(w, Write(c, key, x))
  {
    var c' := Write(c, key, x);
    assert forall k, s :: RunningOn(c', k, s) ==> RunningOn(c, k, s) && c'.execs[k] == c.execs[k];
  }

  /** What an admission has checked about every execution already running on its server. */
  lemma AdmissionCheck(w: World, c: Cluster, key: Key, j: Key)
    requires Exclusion(w, c) && key in c.execs && Verdict(w, c, key, true).None?
    requires j != key && RunningOn(c, j, Target(key, c.execs[key].spec))
    ensures var server := Target(key, c.execs[key].spec);
      var d := DeclOf(w, server, c.execs[key].spec.action);
      d.Some? && !Conflicts(d.value, c.execs[j].spec.action, c.execs[key].spec.action)
  {
    var server := Target(key, c.execs[key].spec);
    assert Local(j, c.execs[j].spec) && Local(key, c.execs[key].spec);
    assert j.ns == key.ns && j.name != key.name;
    assert Rival(c, key.name, server, j);
  }

  lemma AdmittingKeepsExclusion(w: World, c: Cluster, key: Key, x: Exec)
    requires Exclusion(w, c) && key in c.execs && x.spec == c.execs[key].spec && x.uid == c.execs[key].uid
    requires Verdict(w, c, key, true).None?
    ensures Exclusion(w, Write(c, key, x))
  {
    var c' := Write(c, key, x);
    var server := Target(key, x.spec);
    assert forall k, s :: k != key ==> (RunningOn(c', k, s) <==> RunningOn(c, k, s));
    forall j | j != key && RunningOn(c', j, server)
      ensures Compatible(w, server, x.spec.action, c'.execs[j].spec.action) && Compatible(w, server, c'.execs[j].spec.action, x.spec.action)
    {
      AdmissionCheck(w, c, key, j);
    }
  }

  lemma VerdictNeedsList(w: World, c: Cluster, key: Key, listOk: bool)
    requires key in c.execs && Verdict(w, c, key, listOk).None?
    ensures listOk
  {
  }

  lemma BeginKeepsExclusion(w: World, c: Cluster, e: Event)
    requires Exclusion(w, c) && e.Begin?
    ensures Exclusion(w, DoBegin(w, c, e))
  {
    var c', f := DoBegin(w, c, e), BeginEffect(w, c, e);
    if f.Store? {
      RetiringKeepsExclusion(w, c, e.key, f.x);
    } else if f.Launch? && f.stored {
      VerdictNeedsList(w, c, e.key, e.listOk);
      AdmittingKeepsExclusion(w, c, e.key, f.x);
      SameExecsSameExclusion(w, Write(c, e.key, f.x), c');
    } else {
      SameExecsSameExclusion(w, c, c');
    }
  }

  lemma SameExecsSameExclusion(w: World, c: Cluster, c': Cluster)
    requires Exclusion(w, c)
    requires forall k :: k in c'.execs ==> k in c.execs && SameRecord(c.execs[k], c'.execs[k])
    ensures Exclusion(w, c')
  {
    assert forall k, s :: RunningOn(c', k, s) ==> RunningOn(c, k, s);
  }

  /** A result lands on an execution of the same target and action. */
  lemma FinishKeepsSpec(c: Cluster, e: Event)
    requires Bookkeeping(c) && e.Finish?
    ensures forall k :: k in c.execs && k in DoFinish(c, e).execs ==> DoFinish(c, e).execs[k].spec == c.execs[k].spec
  {
  }

  lemma FinishKeepsExclusion(w: World, c: Cluster, e: Event)
    requires Exclusion(w, c) && Bookkeeping(c) && e.Finish?
    ensures Exclusion(w, DoFinish(c, e))
  {
    FinishFrame(c, e);
    FinishKeepsSpec(c, e);
    QuietKeepsExclusion(w, c, DoFinish(c, e));
  }

  /** Executions may stop running, but none starts and none changes what it is about. */
  lemma QuietKeepsExclusion(w: World, c: Cluster, c': Cluster)
    requires Exclusion(w, c) && c'.execs.Keys == c.execs.Keys
    requires forall k :: k in c.execs ==> c'.execs[k].spec == c.execs[k].spec && (c'.execs[k].state == Running ==> c.execs[k].state == Running)
    ensures Exclusion(w, c')
  {
    assert forall k, s :: RunningOn(c', k, s) ==> RunningOn(c, k, s);
  }

  lemma CreateKeepsExclusion(w: World, c: Cluster, e: Event)
    requires Exclusion(w, c) && e.Create? && Local(e.key, e.spec)
    ensures Exclusion(w, Apply(w, c, e))
  {
    var c' := Apply(w, c, e);
    assert forall k, s :: RunningOn(c', k, s) ==> RunningOn(c, k, s) && c'.execs[k] == c.execs[k];
  }

  lemma StepKeepsExclusion(w: World, c: Cluster, e: Event)
    requires Bookkeeping(c) && Exclusion(w, c)
    requires e.Create? ==> Local(e.key, e.spec)
    ensures Exclusion(w, Apply(w, c, e))
  {
    match e
    case Create(_, _) => CreateKeepsExclusion(w, c, e);
    case Begin(_, _, _, _, _) => BeginKeepsExclusion(w, c, e);
    case Finish(_, _, _, _, _) => FinishKeepsExclusion(w, c, e);
    case _ => OtherStepsShed(w, c, e); SameExecsSameExclusion(w, c, Apply(w, c, e));
  }

  lemma {:induction false} RunKeepsExclusion(w: World, events: seq<Event>)
    requires AllLocal(events)
    ensures Exclusion(w, Run(w, events))
  {
    if events != [] {
      var k := |events| - 1;
      RunKeepsExclusion(w, events[..k]);
      RunKeepsBooks(w, events[..k]);
      StepKeepsExclusion(w, Run(w, events[..k]), events[k]);
    }
  }

  /**
   In every interleaving, lost writes and crashes included: no two executions Running on one server
   share an action declared serialize or exclusive, and no two exclusive actions run there together.
   */
  lemma NoTwoRunning(w: World, events: seq<Event>, j: Key, k: Key, server: Key)
    requires AllLocal(events) && j != k
    requires RunningOn(Run(w, events), j, server) && RunningOn(Run(w, events), k, server)
    ensures var a, b := Run(w, events).execs[j].spec.action, Run(w, events).execs[k].spec.action;
      var da, db := DeclOf(w, server, a), DeclOf(w, server, b);
      && da.Some? && db.Some?
      && (a == b ==> da.value.concurrency != "serialize" && da.value.concurrency != "exclusive")
      && !(da.value.concurrency == "exclusive" && db.value.concurrency == "exclusive")
  {
    RunKeepsExclusion(w, events);
    assert Compatible(w, server, Run(w, events).execs[j].spec.action, Run(w, events).execs[k].spec.action);
  }

  /** An exclusive action enters Running only when nothing else is Running on its server. */
  lemma ExclusiveEntersAlone(w: World, events: seq<Event>, e: Event, key: Key, server: Key)
    requires AllLocal(events + [e])
    requires var c, c' := Run(w, events), Run(w, events + [e]);
      && RunningOn(c', key, server) && !RunningOn(c, key, server)
      && DeclOf(w, server, c'.execs[key].spec.action).Some?
      && DeclOf(w, server, c'.execs[key].spec.action).value.concurrency == "exclusive"
    ensures forall j :: j != key ==> !RunningOn(Run(w, events), j, server) && !RunningOn(Run(w, events + [e]), j, server)
  {
    var c := Run(w, events);
    assert (events + [e])[..|events|] == events;
    assert forall i :: 0 <= i < |events| ==> (events + [e])[i] == events[i];
    RunKeepsExclusion(w, events);
    RunKeepsBooks(w, events);
    EntersByAdmission(w, c, e, key, server);
    VerdictNeedsList(w, c, key, e.listOk);
    forall j | j != key ensures !RunningOn(c, j, server) {
      if RunningOn(c, j, server) {
        AdmissionCheck(w, c, key, j);
      }
    }
  }

  /** Admission by Begin is the only way into Running, and it touches one execution. */
  lemma EntersByAdmission(w: World, c: Cluster, e: Event, key: Key, server: Key)
    requires Bookkeeping(c)
    requires RunningOn(Apply(w, c, e), key, server) && !RunningOn(c, key, server)
    ensures e.Begin? && e.key == key && key in c.execs && Verdict(w, c, key, e.listOk).None?
    ensures Target(key, c.execs[key].spec) == server && Apply(w, c, e).execs[key].spec == c.execs[key].spec
    ensures forall j, s :: j != key ==> (RunningOn(Apply(w, c, e), j, s) <==> RunningOn(c, j, s))
  {
    match e
    case Begin(k, _, _, _, _) => PerformFrame(c, k, BeginEffect(w, c, e));
    case Finish(_, _, _, _, _) => FinishFrame(c, e);
    case Create(_, _) =>
    case _ => OtherStepsShed(w, c, e);
  }
}

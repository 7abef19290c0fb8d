/** What the action reconciler decides and writes, told by the fields of the execution, its server's profile and its rivals. */
module ActionMeaning {
  import opened Common
  import opened Conditions
  import opened ActionModel
  import opened ActionProtocol

  // ---------------------------------------------------------------- admission

  /** The server an execution is for: in the namespace it names, or in its own. */
  function ServerOf(key: Key, spec: Spec): Key {
    if spec.targetNs == "" then Key(key.ns, spec.targetName) else Key(spec.targetNs, spec.targetName)
  }

  /** d is the first declaration of that name in the profile the server is bound to. */
  ghost predicate Declared(w: World, server: Key, action: string, d: ActionDecl) {
    && server in w.profileOf && w.profileOf[server] in w.profiles
    && exists i :: FirstAt(w.profiles[w.profileOf[server]], action, d, i)
  }

  ghost predicate FirstAt(decls: seq<ActionDecl>, action: string, d: ActionDecl, i: int) {
    0 <= i < |decls| && decls[i] == d && d.name == action && forall j :: 0 <= j < i ==> decls[j].name != action
  }

  ghost predicate Supplied(d: ActionDecl, params: map<string, string>) {
    forall p :: p in d.params && d.params[p] ==> p in params
  }

  /** Running in the server's namespace for that server name, under another name than the caller's. */
  ghost predicate InTheWay(c: Cluster, key: Key, server: Key, k: Key) {
    k in c.execs && k.ns == server.ns && k.name != key.name && c.execs[k].state == Running && c.execs[k].spec.targetName == server.name
  }

  /** An exclusive action wants the server for itself, a serialized one wants no second of its kind. */
  ghost predicate Tolerates(d: ActionDecl, action: string, other: string) {
    d.concurrency != "exclusive" && !(d.concurrency == "serialize" && other == action)
  }

  ghost predicate MayRun(w: World, c: Cluster, key: Key, d: ActionDecl)
    requires key in c.execs
  {
    var spec := c.execs[key].spec;
    && Supplied(d, spec.params)
    && forall k :: InTheWay(c, key, ServerOf(key, spec), k) ==> Tolerates(d, spec.action, c.execs[k].spec.action)
  }

  lemma {:induction false} FindMeans(decls: seq<ActionDecl>, action: string)
    ensures FindDecl(decls, action).Some? ==> exists i :: FirstAt(decls, action, FindDecl(decls, action).value, i)
    ensures FindDecl(decls, action).None? ==> forall i :: 0 <= i < |decls| ==> decls[i].name != action
  {
    if decls != [] {
      if decls[0].name == action {
        assert FirstAt(decls, action, decls[0], 0);
      } else {
        FindMeans(decls[1..], action);
        if FindDecl(decls, action).Some? {
          var d := FindDecl(decls, action).value;
          var i :| FirstAt(decls[1..], action, d, i);
          assert forall j :: 1 <= j <= i ==> decls[j] == decls[1..][j - 1];
          assert FirstAt(decls, action, d, i + 1);
        }
        assert forall j :: 1 <= j < |decls| ==> decls[j] == decls[1..][j - 1];
      }
    }
  }

  lemma DeclaredMeans(w: World, server: Key, action: string, d: ActionDecl)
    ensures DeclOf(w, server, action) == Some(d) <==> Declared(w, server, action, d)
  {
    if server in w.profileOf && w.profileOf[server] in w.profiles {
      var decls := w.profiles[w.profileOf[server]];
      FindMeans(decls, action);
      if DeclOf(w, server, action).Some? {
        var e := DeclOf(w, server, action).value;
        var i :| FirstAt(decls, action, e, i);
        assert forall j :: FirstAt(decls, action, d, j) ==> j == i;
      }
    }
  }

  /**
   An execution is admitted if and only if its server is there and bound to an existing profile that
   declares the action, it supplies every required parameter, the executions could be listed, and
   everything running on that server is tolerated.
   */
  lemma AdmittedIff(w: World, c: Cluster, key: Key, listOk: bool)
    requires key in c.execs
    ensures var spec := c.execs[key].spec;
      Verdict(w, c, key, listOk).None? <==>
        listOk && ServerOf(key, spec) in c.live && exists d :: Declared(w, ServerOf(key, spec), spec.action, d) && MayRun(w, c, key, d)
  {
    var spec := c.execs[key].spec;
    var server := ServerOf(key, spec);
    forall d ensures Declared(w, server, spec.action, d) <==> DeclOf(w, server, spec.action) == Some(d) {
      DeclaredMeans(w, server, spec.action, d);
    }
    if DeclOf(w, server, spec.action).Some? {
      MayRunMeans(w, c, key, DeclOf(w, server, spec.action).value);
    }
  }

  lemma MayRunMeans(w: World, c: Cluster, key: Key, d: ActionDecl)
    requires key in c.execs
    ensures var spec := c.execs[key].spec;
      MayRun(w, c, key, d) <==> ParamsPresent(d, spec.params) && !Blocked(c, key.name, Target(key, spec), d, spec.action)
  {
    var spec := c.execs[key].spec;
    var server := Target(key, spec);
    forall k ensures InTheWay(c, key, server, k) <==> Rival(c, key.name, server, k) {
    }
    forall k | k in c.execs ensures Conflicts(d, c.execs[k].spec.action, spec.action) <==> !Tolerates(d, spec.action, c.execs[k].spec.action) {
    }
  }

  // ----------------------------------------------------- parameters, run by run

  /** The declaration of its action is satisfied by what the execution supplies. */
  ghost predicate WellSupplied(w: World, key: Key, spec: Spec) {
    exists d :: Declared(w, ServerOf(key, spec), spec.action, d) && Supplied(d, spec.params)
  }

  ghost predicate RunningAreSupplied(w: World, c: Cluster) {
    && (forall k :: k in c.execs && c.execs[k].state == Running ==> WellSupplied(w, k, c.execs[k].spec))
    && (forall k :: k in c.inflight ==> WellSupplied(w, k, c.inflight[k].spec))
  }

  lemma AdmittedIsSupplied(w: World, c: Cluster, key: Key, listOk: bool)
    requires key in c.execs && Verdict(w, c, key, listOk).None?
    ensures WellSupplied(w, key, c.execs[key].spec)
  {
    AdmittedIff(w, c, key, listOk);
  }

  lemma BeginKeepsSupplied(w: World, c: Cluster, e: Event)
    requires RunningAreSupplied(w, c) && e.Begin?
    ensures RunningAreSupplied(w, DoBegin(w, c, e))
  {
    var f := BeginEffect(w, c, e);
    if f.Launch? {
      AdmittedIsSupplied(w, c, e.key, e.listOk);
    }
    PerformFrame(c, e.key, f);
  }

  lemma FinishKeepsSupplied(w: World, c: Cluster, e: Event)
    requires RunningAreSupplied(w, c) && e.Finish?
    ensures RunningAreSupplied(w, DoFinish(c, e))
  {
    FinishFrame(c, e);
  }

  lemma StepKeepsSupplied(w: World, c: Cluster, e: Event)
    requires RunningAreSupplied(w, c)
    ensures RunningAreSupplied(w, Apply(w, c, e))
  {
    match e
    case Begin(_, _, _, _, _) => BeginKeepsSupplied(w, c, e);
    case Finish(_, _, _, _, _) => FinishKeepsSupplied(w, c, e);
    case Create(_, _) =>
    case _ => OtherStepsShed(w, c, e);
  }

  /** In every run whatever is stored as Running or handed to an agent supplies every parameter its action requires. */
  lemma {:induction false} RunningIsSupplied(w: World, events: seq<Event>)
    ensures RunningAreSupplied(w, Run(w, events))
  {
    if events != [] {
      var k := |events| - 1;
      RunningIsSupplied(w, events[..k]);
      StepKeepsSupplied(w, Run(w, events[..k]), events[k]);
    }
  }

  // ------------------------------------------------------------------ records

  /** What both kinds of status write leave: the answer, and a condition named after the state. */
  ghost predicate Says(x: Exec, response: string, error: string, ctype: string, now: int) {
    x.response == response && x.error == error && Lookup(x.conditions, ctype) == Some(Condition(ctype, "True", ctype, 0, now))
  }

  lemma WrittenSays(x: Exec, s: State, response: string, error: string, now: int)
    ensures Says(WithState(x, s, response, error, now), response, error, StateName(s), now)
  {
    SetIsMapUpdate(x.conditions, Condition(StateName(s), "True", StateName(s), 0, now), StateName(s));
  }

  /** A new execution becomes Pending and nothing else, unless it is being deleted. */
  lemma NewBecomesPending(w: World, c: Cluster, e: Event)
    requires e.Begin? && e.readOk && e.writeOk && e.key in c.execs && e.key !in c.inflight && c.execs[e.key].state == New
    ensures var x, c' := c.execs[e.key], Apply(w, c, e);
      c'.execs == c.execs[e.key := if x.deleting then x else x.(state := Pending)] && c'.inflight == c.inflight && c'.dispatches == c.dispatches
  {
  }

  /** An admitted execution is handed to the agent, and stored as Running since now if the write lands. */
  lemma AdmittedIsLaunched(w: World, c: Cluster, e: Event)
    requires e.Begin? && e.readOk && e.key in c.execs && e.key !in c.inflight && c.execs[e.key].state == Pending
    requires Verdict(w, c, e.key, e.listOk).None?
    ensures var x, c' := c.execs[e.key], Apply(w, c, e);
      && e.key in c'.inflight && c'.dispatches == c.dispatches + multiset{x.uid}
      && var y := c'.inflight[e.key];
         && y.state == Running && y.startedAt == Some(e.now) && y.endedAt == x.endedAt && y.spec == x.spec && y.uid == x.uid
         && Says(y, "", "", "Running", e.now)
         && c'.execs == if e.writeOk then c.execs[e.key := y] else c.execs
  {
    WrittenSays(c.execs[e.key], Running, "", "", e.now);
  }

  /** One that is not admitted is stored as Rejected since now, with the reason, and no agent hears of it. */
  lemma RefusedIsRejected(w: World, c: Cluster, e: Event)
    requires e.Begin? && e.readOk && e.writeOk && e.key in c.execs && e.key !in c.inflight && c.execs[e.key].state == Pending
    requires Verdict(w, c, e.key, e.listOk).Some?
    ensures var x, c' := c.execs[e.key], Apply(w, c, e);
      && e.key in c'.execs && c'.inflight == c.inflight && c'.dispatches == c.dispatches
      && var y := c'.execs[e.key];
         && y.state == Rejected && y.endedAt == Some(e.now) && y.startedAt == x.startedAt && y.spec == x.spec && y.uid == x.uid
         && Says(y, "", Verdict(w, c, e.key, e.listOk).value, "Rejected", e.now)
  {
    WrittenSays(c.execs[e.key], Rejected, "", Verdict(w, c, e.key, e.listOk).value, e.now);
  }

  /** A pass leaves everything as it is if the execution is neither new nor pending, is in flight already, is gone, or cannot be read. */
  lemma OtherwiseNothing(w: World, c: Cluster, e: Event)
    requires e.Begin?
    requires !e.readOk || e.key !in c.execs || e.key in c.inflight || (c.execs[e.key].state != New && c.execs[e.key].state != Pending)
    ensures Apply(w, c, e) == c
  {
  }

  /** The agent's answer is stored with the time it came, on the execution it was for, and the flight is over. */
  lemma AnswerIsStored(w: World, c: Cluster, e: Event)
    requires e.Finish? && e.writeOk && e.key in c.inflight && e.key in c.execs && c.execs[e.key].uid == c.inflight[e.key].uid
    ensures var x, c' := c.inflight[e.key], Apply(w, c, e);
      && e.key in c'.execs && c'.inflight == c.inflight - {e.key} && c'.dispatches == c.dispatches
      && var y := c'.execs[e.key];
         && y.endedAt == Some(e.now) && y.startedAt == x.startedAt && y.spec == x.spec && y.uid == x.uid
         && if e.agentOk then y.state == Succeeded && Says(y, e.response, "", "Succeeded", e.now)
            else y.state == Failed && Says(y, "", e.response, "Failed", e.now)
  {
    WrittenSays(c.inflight[e.key], Succeeded, e.response, "", e.now);
    WrittenSays(c.inflight[e.key], Failed, "", e.response, e.now);
  }
}

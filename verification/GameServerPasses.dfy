/** What every pass of the GameServer reconciler leaves behind: replicas, phase, endpoints and warnings agree. */
module GameServerPasses {
  import opened Common
  import opened Conditions
  import opened GameServerPorts
  import opened GameServerModel

  /** The phase a completed pass should report. */
  function PhaseFor(autoStart: bool, fired: bool, ready: bool): Phase {
    if !autoStart then Stopped else if fired then Idle else if ready then Running else Provisioning
  }

  /** Status and objects agree: the report matches what was asked of the StatefulSet, and the endpoints the Service. */
  ghost predicate Agrees(out: Outcome, p: Pass) {
    var st := out.st;
    && st.sts.Some? && st.service == Some(ServicePorts(p.profile))
    && st.sts.value.replicas == Some(if !p.autoStart || out.fired then 0 else 1)
    && (out.fired ==> p.autoStart && p.readyReplicas >= 1)
    && (IsTrue(st.status.conditions, "Ready") <==> p.autoStart && p.readyReplicas >= 1)
    && st.status.endpoints == (if p.autoStart then Endpoints(p.profile, Address(p.name, p.zone, p.ingress)) else [])
  }

  ghost predicate PhaseAgrees(out: Outcome, p: Pass) {
    out.st.status.phase == PhaseFor(p.autoStart, out.fired, p.readyReplicas >= 1)
  }

  lemma LiveConditions(s: Status, p: Pass, ready: bool)
    ensures var live := LiveStatus(s, p, ready);
      && (IsTrue(live.conditions, "Ready") <==> ready)
      && (IsTrue(AgentStatus(live, p).conditions, "Ready") <==> ready)
  {
    var c := Condition("Ready", GameServerModel.Verdict(ready), "StatefulSetReady", p.generation, p.now);
    var d := Condition("AgentReachable", "Unknown", "NotProbed", p.generation, p.now);
    SetIsMapUpdate(s.conditions, c, "Ready");
    SetIsMapUpdate(Set(s.conditions, c), d, "Ready");
    var live := LiveStatus(s, p, ready);
    var reason := if p.healthy then "AgentHealthy" else "AgentUnhealthy";
    SetIsMapUpdate(live.conditions, Condition("AgentReachable", GameServerModel.Verdict(p.healthy), reason, p.generation, p.now), "Ready");
  }

  lemma StoppedConditions(s: Status, p: Pass)
    ensures !IsTrue(StoppedStatus(s, p).conditions, "Ready")
  {
    SetIsMapUpdate(s.conditions, Condition("Ready", "False", "AutoStartDisabled", p.generation, p.now), "Ready");
  }

  lemma ProbeAgrees(st: State, mem: Status, p: Pass)
    requires p.autoStart && st.sts == Some(Sts(Some(1), p.readyReplicas)) && p.readyReplicas >= 1
    requires st.service == Some(ServicePorts(p.profile)) && st.status == mem
    requires mem.phase == Running && mem.endpoints == Endpoints(p.profile, Address(p.name, p.zone, p.ingress))
    requires IsTrue(mem.conditions, "Ready") && IsTrue(AgentStatus(mem, p).conditions, "Ready")
    ensures var out := Probe(st, mem, p);
      out.done && Agrees(out, p) && (PhaseAgrees(out, p) <==> !(out.fired && !p.idleOk))
  {
  }

  lemma ReportAgrees(st: State, p: Pass)
    requires st.sts == Some(Sts(Some(if p.autoStart then 1 else 0), p.readyReplicas))
    requires st.service == Some(ServicePorts(p.profile))
    ensures var out := Report(st, p);
      out.done ==> Agrees(out, p) && (PhaseAgrees(out, p) <==> !(out.fired && !p.idleOk))
  {
    if p.autoStart {
      var ready := Ready(st.sts.value);
      var live := LiveStatus(st.status, p, ready);
      LiveConditions(st.status, p, ready);
      if ready {
        ProbeAgrees(Stored(st, live, true), live, p);
      }
    } else {
      StoppedConditions(st.status, p);
    }
  }

  /**
   After every completed pass, whatever came before: replicas is 0 exactly when autoStart is off or this
   very pass fired the idle shutdown, and 1 otherwise; the phase says so, unless the one write that would
   report an idle shutdown was lost; the game Service and the endpoints follow the profile.
   */
  lemma CompletedPassAgrees(st: State, p: Pass)
    requires DoPass(st, p).done
    ensures Agrees(DoPass(st, p), p)
    ensures PhaseAgrees(DoPass(st, p), p) <==> !(DoPass(st, p).fired && !p.idleOk)
  {
    var begun := Logged(st, Began).(clock := p.checked);
    ReportAgrees(Prepared(begun, p), p);
  }

  /** A server stopped for idleness is started again by the next completed pass, unless that one stops it anew. */
  lemma IdleShutdownDoesNotPersist(st: State, p: Pass, q: Pass)
    requires DoPass(st, p).fired && q.autoStart && DoPass(DoPass(st, p).st, q).done
    ensures var next := DoPass(DoPass(st, p).st, q); ScaledDown(next.st.sts) <==> next.fired
  {
    CompletedPassAgrees(DoPass(st, p).st, q);
  }

  /** What players are told after a completed pass is what the Service in the cluster serves. */
  lemma PublishedIsServed(st: State, p: Pass)
    requires DoPass(st, p).done
    ensures var after := DoPass(st, p).st;
      after.status.endpoints != [] ==> after.service.Some? && PublishedNumbers(after.status.endpoints) == Numbers(after.service.value)
  {
    CompletedPassAgrees(st, p);
    EndpointsMatchService(p.profile, Address(p.name, p.zone, p.ingress));
  }

  // ------------------------------------------------------------ fair warning

  /** A StatefulSet that was up and non-zero is taken to zero. */
  predicate TakesDown(a: Act) {
    a.Scaled? && a.replicas == 0 && IsUp(a.before)
  }

  /** The StatefulSet is there, asks for replicas, and has as many ready. */
  predicate IsUp(sts: Option<Sts>) {
    sts.Some? && sts.value.replicas.Some? && 0 < sts.value.replicas.value <= sts.value.readyReplicas
  }

  /** Earlier in the same pass the agent was told to prepare. */
  ghost predicate Warned(log: seq<Act>, i: int)
    requires 0 <= i < |log|
  {
    exists j :: 0 <= j < i && log[j].PrepareShutdown? && forall k :: j <= k < i ==> log[k] != Began
  }

  ghost predicate AllWarned(log: seq<Act>) {
    forall i :: 0 <= i < |log| && TakesDown(log[i]) ==> Warned(log, i)
  }

  /** The log ends in a warning. */
  predicate JustWarned(log: seq<Act>) {
    log != [] && log[|log| - 1] == PrepareShutdown
  }

  lemma AppendWarned(log: seq<Act>, a: Act)
    requires AllWarned(log) && (TakesDown(a) ==> JustWarned(log))
    ensures AllWarned(log + [a])
  {
    var longer := log + [a];
    forall i | 0 <= i < |longer| && TakesDown(longer[i]) ensures Warned(longer, i) {
      if i < |log| {
        assert Warned(log, i);
        var j :| 0 <= j < i && log[j].PrepareShutdown? && forall k :: j <= k < i ==> log[k] != Began;
        assert longer[j].PrepareShutdown? && forall k :: j <= k < i ==> longer[k] != Began;
      } else {
        var j := |log| - 1;
        assert longer[j].PrepareShutdown? && forall k :: j <= k < i ==> longer[k] != Began;
      }
    }
  }

  lemma ProbeWarns(st: State, mem: Status, p: Pass)
    requires AllWarned(st.log)
    ensures AllWarned(Probe(st, mem, p).st.log)
  {
    var st' := Stored(st, AgentStatus(mem, p), p.healthOk);
    var told := Logged(st', PrepareShutdown);
    AppendWarned(st'.log, PrepareShutdown);
    AppendWarned(told.log, Scaled(st.sts, 0));
    assert Probe(st, mem, p).st.log in {st.log, told.log, told.log + [Scaled(st.sts, 0)]};
  }

  lemma GateWarns(st: State, p: Pass)
    requires AllWarned(st.log)
    ensures AllWarned(Gate(st, p).log) && AllWarned(Applied(Gate(st, p), p).log)
  {
    AppendWarned(st.log, PrepareShutdown);
    AppendWarned(Gate(st, p).log, Scaled(st.sts, if p.autoStart then 1 else 0));
  }

  lemma ReportWarns(st: State, p: Pass)
    requires st.sts.Some? && AllWarned(st.log)
    ensures AllWarned(Report(st, p).st.log)
  {
    var live := LiveStatus(st.status, p, Ready(st.sts.value));
    ProbeWarns(Stored(st, live, true), live, p);
  }

  lemma AbandonedWarns(st: State, p: Pass)
    requires AllWarned(st.log)
    ensures AllWarned(Abandoned(st, p).log) && AllWarned(Prepared(st, p).log)
  {
    GateWarns(st, p);
  }

  lemma PassWarns(st: State, p: Pass)
    requires AllWarned(st.log)
    ensures AllWarned(DoPass(st, p).st.log)
  {
    var begun := Logged(st, Began).(clock := p.checked);
    AppendWarned(st.log, Began);
    AbandonedWarns(begun, p);
    ReportWarns(Prepared(begun, p), p);
  }

  /** In every run no ready server goes to zero without its agent having been told earlier in that pass. */
  lemma {:induction false} NoShutdownUnannounced(events: seq<Event>)
    ensures AllWarned(Run(events).log)
  {
    if events != [] {
      var k := |events| - 1;
      NoShutdownUnannounced(events[..k]);
      if events[k].Reconciled? {
        PassWarns(Run(events[..k]), events[k].p);
      }
    }
  }
}

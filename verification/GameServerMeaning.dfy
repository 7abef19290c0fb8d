/** What a pass over a running GameServer does and reports, told by the fields of what it meets. */
module GameServerMeaning {
  import opened Common
  import opened Conditions
  import opened GameServerPorts
  import opened GameServerModel
  import opened GameServerPasses

  // ------------------------------------------------------------ how far it gets

  /** Everything up to the status is applied. */
  predicate AppliesAll(p: Pass) {
    p.prelude.Resolved? && (p.autoStart || p.gateOk) && p.stsOk && p.innerOk && p.serviceOk && p.restOk
  }

  /** The pass asks about players and hears that there are none, with the last activity the timeout ago. */
  predicate FindsIdle(la: Option<int>, p: Pass) {
    && AppliesAll(p) && p.statusOk && p.autoStart && p.idleTimeout > 0 && p.readyReplicas >= 1
    && p.playersOk && p.players <= 0 && la.Some? && p.checked - la.value >= p.idleTimeout
  }

  lemma DoneIff(st: State, p: Pass)
    ensures DoPass(st, p).done <==> AppliesAll(p) && p.statusOk
  {
  }

  // ----------------------------------------------------------- what it asks for

  /** The calls a pass makes to the agent and the StatefulSet, in order. */
  function Acts(before: Option<Sts>, la: Option<int>, p: Pass): seq<Act> {
    [Began]
    + (if !p.prelude.Resolved? || (!p.autoStart && !p.gateOk) then []
       else
         (if !p.autoStart && IsUp(before) then [PrepareShutdown] else [])
         + (if p.stsOk then [Scaled(before, if p.autoStart then 1 else 0)] else []))
    + (if !FindsIdle(la, p) then []
       else if p.scaleOk then [PrepareShutdown, Scaled(Some(Sts(Some(1), p.readyReplicas)), 0)]
       else [PrepareShutdown])
  }

  /** Exactly these calls: a warning before stopping a server that is up, one write of the replicas, and warning and write again when idle. */
  lemma PassActs(st: State, p: Pass)
    ensures DoPass(st, p).st.log == st.log + Acts(st.sts, st.status.lastActivity, p)
  {
    var begun := Logged(st, Began).(clock := p.checked);
    GateActs(begun, p);
    if Reaches(p) {
      ReportActs(Prepared(begun, p), p);
    }
    assert st.log + [Began] == begun.log;
  }

  lemma GateActs(st: State, p: Pass)
    ensures Gate(st, p).log == st.log + if !p.autoStart && IsUp(st.sts) then [PrepareShutdown] else []
    ensures Applied(Gate(st, p), p).log == Gate(st, p).log + [Scaled(st.sts, if p.autoStart then 1 else 0)]
    ensures Prepared(st, p).log == Applied(Gate(st, p), p).log
    ensures Prepared(st, p).status == st.status && Prepared(st, p).sts == Some(Sts(Some(if p.autoStart then 1 else 0), p.readyReplicas))
  {
  }

  lemma ReportActs(st: State, p: Pass)
    requires AppliesAll(p) && st.sts == Some(Sts(Some(if p.autoStart then 1 else 0), p.readyReplicas))
    ensures Report(st, p).st.log == st.log +
      (if !FindsIdle(st.status.lastActivity, p) then []
       else if p.scaleOk then [PrepareShutdown, Scaled(Some(Sts(Some(1), p.readyReplicas)), 0)]
       else [PrepareShutdown])
  {
    if p.autoStart {
      var live := LiveStatus(st.status, p, Ready(st.sts.value));
      ProbeActs(Stored(st, live, true), live, p);
    }
  }

  lemma ProbeActs(st: State, mem: Status, p: Pass)
    requires st.sts == Some(Sts(Some(1), p.readyReplicas))
    ensures var la := mem.lastActivity;
      Probe(st, mem, p).st.log == st.log +
        (if !(p.idleTimeout > 0 && p.playersOk && p.players <= 0 && la.Some? && p.checked - la.value >= p.idleTimeout) then []
         else if p.scaleOk then [PrepareShutdown, Scaled(Some(Sts(Some(1), p.readyReplicas)), 0)]
         else [PrepareShutdown])
  {
  }

  // ----------------------------------------------------------- what it reports

  /** The status speaks of that type with that verdict and reason, as of this pass. */
  ghost predicate Says(s: Status, ctype: string, verdict: string, reason: string, p: Pass) {
    Lookup(s.conditions, ctype) == Some(Condition(ctype, verdict, reason, p.generation, p.now))
  }

  /** A pass that does not complete leaves the status alone, but for one that cannot use the profile. */
  lemma UnfinishedStatus(st: State, p: Pass)
    requires !DoPass(st, p).done
    ensures var s, s' := st.status, DoPass(st, p).st.status;
      if p.prelude.Unresolved? && p.statusOk then
        && s'.phase == Error && s'.agentVersion == ""
        && Lookup(s'.conditions, "Ready") == Some(Condition("Ready", "False", "ProfileNotFound", p.generation, 0))
        && s' == s.(phase := s'.phase, agentVersion := "", conditions := s'.conditions)
      else s' == s
  {
    SetIsMapUpdate(st.status.conditions, Condition("Ready", "False", "ProfileNotFound", p.generation, 0), "Ready");
  }

  /** A stopped server: no version, endpoints or players are reported, and why it is not ready. */
  lemma StoppedMeans(st: State, p: Pass)
    requires DoPass(st, p).done && !p.autoStart
    ensures var s, s' := st.status, DoPass(st, p).st.status;
      && s'.phase == Stopped && s'.agentVersion == "" && s'.endpoints == [] && s'.players == 0
      && s'.capacity == s.capacity && s'.lastActivity == s.lastActivity
      && Says(s', "Ready", "False", "AutoStartDisabled", p)
      && Lookup(s'.conditions, "AgentReachable") == Lookup(s.conditions, "AgentReachable")
  {
    var c := Condition("Ready", "False", "AutoStartDisabled", p.generation, p.now);
    SetIsMapUpdate(st.status.conditions, c, "Ready");
    SetIsMapUpdate(st.status.conditions, c, "AgentReachable");
  }

  /** A server that is to run and is not up yet: nobody asks its agent anything. */
  lemma ProvisioningMeans(st: State, p: Pass)
    requires DoPass(st, p).done && p.autoStart && p.readyReplicas < 1
    ensures var s, s' := st.status, DoPass(st, p).st.status;
      && s'.phase == Provisioning && s'.agentVersion == ""
      && s'.players == s.players && s'.capacity == s.capacity && s'.lastActivity == s.lastActivity
      && Says(s', "Ready", "False", "StatefulSetReady", p) && Says(s', "AgentReachable", "Unknown", "NotProbed", p)
  {
    LiveSays(st.status, p, false);
  }

  lemma LiveSays(s: Status, p: Pass, ready: bool)
    ensures var live := LiveStatus(s, p, ready);
      && Says(live, "Ready", if ready then "True" else "False", "StatefulSetReady", p)
      && Says(live, "AgentReachable", "Unknown", "NotProbed", p)
  {
    var c := Condition("Ready", GameServerModel.Verdict(ready), "StatefulSetReady", p.generation, p.now);
    var d := Condition("AgentReachable", "Unknown", "NotProbed", p.generation, p.now);
    SetIsMapUpdate(s.conditions, c, "Ready");
    SetIsMapUpdate(Set(s.conditions, c), d, "Ready");
    SetIsMapUpdate(Set(s.conditions, c), d, "AgentReachable");
  }

  /** The agent was probed: its version, and whether it is healthy. */
  ghost predicate Probed(s: Status, p: Pass) {
    && s.agentVersion == p.version && Says(s, "Ready", "True", "StatefulSetReady", p)
    && (if p.healthy then Says(s, "AgentReachable", "True", "AgentHealthy", p) else Says(s, "AgentReachable", "False", "AgentUnhealthy", p))
  }

  lemma ProbedSays(s: Status, p: Pass)
    ensures Probed(AgentStatus(LiveStatus(s, p, true), p), p)
  {
    LiveSays(s, p, true);
    var live := LiveStatus(s, p, true);
    var reason := if p.healthy then "AgentHealthy" else "AgentUnhealthy";
    var c := Condition("AgentReachable", GameServerModel.Verdict(p.healthy), reason, p.generation, p.now);
    SetIsMapUpdate(live.conditions, c, "Ready");
    SetIsMapUpdate(live.conditions, c, "AgentReachable");
  }

  /** The idle check has something to write down: players, the start of the idle time, or the shutdown. */
  predicate Writes(la: Option<int>, p: Pass) {
    && p.idleTimeout > 0 && p.playersOk && p.idleOk
    && (p.players > 0 || la == None || (p.checked - la.value >= p.idleTimeout && p.scaleOk))
  }

  /**
   A server that is up: the agent's word is reported if one of the two writes that carry it lands, the
   player count if the idle check had something to write down, and activity if there was any.
   */
  lemma RunningMeans(st: State, p: Pass)
    requires DoPass(st, p).done && p.autoStart && p.readyReplicas >= 1
    ensures var s, s', writes := st.status, DoPass(st, p).st.status, Writes(st.status.lastActivity, p);
      && (if p.healthOk || writes then Probed(s', p)
          else s'.agentVersion == "" && Says(s', "Ready", "True", "StatefulSetReady", p) && Says(s', "AgentReachable", "Unknown", "NotProbed", p))
      && (if writes then s'.players == p.players && s'.capacity == p.capacity else s'.players == s.players && s'.capacity == s.capacity)
      && s'.lastActivity == (if writes && (p.players > 0 || s.lastActivity == None) then Some(p.checked) else s.lastActivity)
  {
    LiveSays(st.status, p, true);
    ProbedSays(st.status, p);
    var begun := Logged(st, Began).(clock := p.checked);
    var ready := Prepared(begun, p);
    var live := LiveStatus(st.status, p, true);
    UpReports(ready, p);
    ProbeStatus(Stored(ready, live, true), live, p);
  }

  lemma UpReports(st: State, p: Pass)
    requires p.autoStart && p.statusOk && p.readyReplicas >= 1 && st.sts == Some(Sts(Some(1), p.readyReplicas))
    ensures var live := LiveStatus(st.status, p, true); Report(st, p) == Probe(Stored(st, live, true), live, p)
  {
  }

  lemma ProbeStatus(st: State, mem: Status, p: Pass)
    requires st.status == mem && st.sts == Some(Sts(Some(1), p.readyReplicas))
    ensures var s', probed, writes := Probe(st, mem, p).st.status, AgentStatus(mem, p), Writes(mem.lastActivity, p);
      && s'.conditions == (if p.healthOk || writes then probed.conditions else mem.conditions)
      && s'.agentVersion == (if p.healthOk || writes then probed.agentVersion else mem.agentVersion)
      && s'.players == (if writes then p.players else mem.players) && s'.capacity == (if writes then p.capacity else mem.capacity)
      && s'.lastActivity == (if writes && (p.players > 0 || mem.lastActivity == None) then Some(p.checked) else mem.lastActivity)
  {
  }
}

/**
 The running side of a GameServer: the autoStart gate, replicas, status and idle shutdown, one
 reconcile pass at a time.  Every call of a pass may fail; the spec may be edited between passes.
 */
module GameServerModel {
  import opened Common
  import opened Conditions
  import opened GameServerPorts

  /** A StatefulSet: the replicas asked for and those ready. */
  datatype Sts = Sts(replicas: Option<int>, readyReplicas: int)

  predicate Ready(s: Sts) {
    s.replicas.Some? && s.readyReplicas >= s.replicas.value
  }

  predicate Up(s: Option<Sts>) {
    s.Some? && s.value.replicas.Some? && s.value.replicas.value > 0 && Ready(s.value)
  }

  predicate ScaledDown(s: Option<Sts>) {
    s.Some? && s.value.replicas == Some(0)
  }

  datatype Phase = Unset | Provisioning | Running | Idle | Stopped | Error

  datatype Status = Status(
    phase: Phase, agentVersion: string, endpoints: seq<Endpoint>,
    players: int, capacity: int, lastActivity: Option<int>, conditions: seq<Condition>)

  /** History: a pass begins, the agent is told to prepare for shutdown, the StatefulSet is written. */
  datatype Act = Began | PrepareShutdown | Scaled(before: Option<Sts>, replicas: int)

  /** History: an answered idle check, and whether the status write that goes with it landed. */
  datatype Check = Check(at: int, players: int, recorded: bool)

  datatype State = State(
    sts: Option<Sts>, service: Option<seq<ServicePort>>, status: Status,
    clock: int, log: seq<Act>, checks: seq<Check>)

  const INITIAL := State(None, None, Status(Unset, "", [], 0, 0, None, []), 0, [], [])

  /** What comes before the gate: fine, the profile is missing or unusable, or a call failed. */
  datatype Prelude = Resolved | Unresolved | Failed

  /** What one pass meets: the spec and profile of the day, its clock readings, and how its calls turn out. */
  datatype Pass = Pass(
    name: string, generation: int, autoStart: bool, idleTimeout: int, profile: Profile,
    zone: string, ingress: Option<Ingress>,
    now: int, checked: int, readyReplicas: int,
    prelude: Prelude, gateOk: bool, stsOk: bool, innerOk: bool, serviceOk: bool, restOk: bool, statusOk: bool,
    version: string, healthy: bool, healthOk: bool,
    playersOk: bool, players: int, capacity: int, scaleOk: bool, idleOk: bool)

  /** How a pass ends: completed or given up, having shut the server down for idleness or not. */
  datatype Outcome = Outcome(st: State, done: bool, fired: bool)

  // ------------------------------------------------------------------- status

  function ErrorStatus(s: Status, p: Pass): Status {
    s.(phase := Error, agentVersion := "", conditions := Set(s.conditions, Condition("Ready", "False", "ProfileNotFound", p.generation, 0)))
  }

  function StoppedStatus(s: Status, p: Pass): Status {
    s.(phase := Stopped, agentVersion := "", endpoints := [], players := 0,
       conditions := Set(s.conditions, Condition("Ready", "False", "AutoStartDisabled", p.generation, p.now)))
  }

  function Verdict(b: bool): string {
    if b then "True" else "False"
  }

  function LiveStatus(s: Status, p: Pass, ready: bool): Status {
    var conditions := Set(s.conditions, Condition("Ready", Verdict(ready), "StatefulSetReady", p.generation, p.now));
    s.(phase := if ready then Running else Provisioning, agentVersion := "",
       endpoints := Endpoints(p.profile, Address(p.name, p.zone, p.ingress)),
       conditions := Set(conditions, Condition("AgentReachable", "Unknown", "NotProbed", p.generation, p.now)))
  }

  function AgentStatus(s: Status, p: Pass): Status {
    var reason := if p.healthy then "AgentHealthy" else "AgentUnhealthy";
    s.(agentVersion := p.version,
       conditions := Set(s.conditions, Condition("AgentReachable", Verdict(p.healthy), reason, p.generation, p.now)))
  }

  // ---------------------------------------------------------------- the steps

  /** A status write: `mem` replaces the stored status if the write lands. */
  function Stored(st: State, mem: Status, ok: bool): State {
    if ok then st.(status := mem) else st
  }

  function Logged(st: State, a: Act): State {
    st.(log := st.log + [a])
  }

  function ScaledTo(st: State, replicas: int, readyReplicas: int): State {
    Logged(st, Scaled(st.sts, replicas)).(sts := Some(Sts(Some(replicas), readyReplicas)))
  }

  /** A ready server that is to be stopped is told so first. */
  function Gate(st: State, p: Pass): State {
    if !p.autoStart && Up(st.sts) then Logged(st, PrepareShutdown) else st
  }

  function Applied(st: State, p: Pass): State {
    ScaledTo(st, if p.autoStart then 1 else 0, p.readyReplicas)
  }

  function Serviced(st: State, p: Pass): State {
    st.(service := Some(ServicePorts(p.profile)))
  }

  predicate IdleLongEnough(mem: Status, p: Pass) {
    mem.lastActivity.Some? && p.checked - mem.lastActivity.value >= p.idleTimeout
  }

  /** The idle check proper, with `mem` the status in hand. */
  function IdleCheck(st: State, mem: Status, p: Pass): Outcome {
    if ScaledDown(st.sts) || !p.playersOk then Outcome(st, true, false)
    else
      var noted := st.(checks := st.checks + [Check(p.checked, p.players, p.idleOk)]);
      var counted := mem.(players := p.players, capacity := p.capacity);
      if p.players > 0 then
        Outcome(Stored(noted, counted.(lastActivity := Some(p.checked), phase := Running), p.idleOk), true, false)
      else if mem.lastActivity.None? then
        Outcome(Stored(noted, counted.(lastActivity := Some(p.checked)), p.idleOk), true, false)
      else if IdleLongEnough(mem, p) then
        var told := Logged(noted, PrepareShutdown);
        if p.scaleOk then Outcome(Stored(ScaledTo(told, 0, p.readyReplicas), counted.(phase := Idle), p.idleOk), true, true)
        else Outcome(told, true, false)
      else Outcome(noted, true, false)
  }

  /** The StatefulSet is up: probe the agent, then see about idleness. */
  function Probe(st: State, mem: Status, p: Pass): Outcome {
    var probed := AgentStatus(mem, p);
    var st' := Stored(st, probed, p.healthOk);
    if p.idleTimeout > 0 then IdleCheck(st', probed, p) else Outcome(st', true, false)
  }

  /** Once everything is applied: report. */
  function Report(st: State, p: Pass): Outcome
    requires st.sts.Some?
  {
    if !p.autoStart then Outcome(Stored(st, StoppedStatus(st.status, p), p.statusOk), p.statusOk, false)
    else
      var live := LiveStatus(st.status, p, Ready(st.sts.value));
      if !p.statusOk then Outcome(st, false, false)
      else if Ready(st.sts.value) then Probe(Stored(st, live, true), live, p)
      else Outcome(Stored(st, live, true), true, false)
  }

  /** Nothing stops the pass before it reports. */
  predicate Reaches(p: Pass) {
    p.prelude.Resolved? && (p.autoStart || p.gateOk) && p.stsOk && p.innerOk && p.serviceOk && p.restOk
  }

  /** What a pass that reports has applied before. */
  function Prepared(st: State, p: Pass): State {
    Serviced(Applied(Gate(st, p), p), p)
  }

  /** What a pass that is stopped leaves behind, depending on where. */
  function Abandoned(st: State, p: Pass): State {
    if p.prelude.Failed? then st
    else if p.prelude.Unresolved? then Stored(st, ErrorStatus(st.status, p), p.statusOk)
    else if !p.autoStart && !p.gateOk then st
    else if !p.stsOk then Gate(st, p)
    else if !p.innerOk || !p.serviceOk then Applied(Gate(st, p), p)
    else Prepared(st, p)
  }

  function Serve(st: State, p: Pass): Outcome {
    if Reaches(p) then Report(Prepared(st, p), p) else Outcome(Abandoned(st, p), false, false)
  }

  function DoPass(st: State, p: Pass): Outcome {
    Serve(Logged(st, Began).(clock := p.checked), p)
  }

  /** A pass, or somebody else (the StatefulSet controller, a user) changing the StatefulSet. */
  datatype Event = Reconciled(p: Pass) | Elsewhere(sts: Option<Sts>)

  function Apply(st: State, e: Event): State {
    match e
    case Reconciled(p) => DoPass(st, p).st
    case Elsewhere(sts) => st.(sts := sts)
  }

  function Run(events: seq<Event>): State {
    if events == [] then INITIAL else Apply(Run(events[..|events| - 1]), events[|events| - 1])
  }

  predicate Timely(st: State, p: Pass) {
    st.clock <= p.now <= p.checked
  }

  /** The clock never runs backwards during the run. */
  ghost predicate TimelyRun(events: seq<Event>) {
    forall i :: 0 <= i < |events| && events[i].Reconciled? ==> TimelyAt(events, i)
  }

  ghost predicate TimelyAt(events: seq<Event>, i: nat)
    requires i < |events| && events[i].Reconciled?
  {
    Timely(Run(events[..i]), events[i].p)
  }
}

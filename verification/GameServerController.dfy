/** The GameServer reconciler, statement by statement, against the pass of the model. */
module GameServerController {
  import opened Common
  import opened Conditions
  import opened GameServerPorts
  import opened GameServerModel

  method StsReady(sts: Sts) returns (r: bool)
    ensures r == Ready(sts)
  {
    if sts.replicas.None? {
      return false;
    }
    return sts.readyReplicas >= sts.replicas.value;
  }

  class Reconciler {
    var sts: Option<Sts>
    var service: Option<seq<ServicePort>>
    var stored: Status
    ghost var clock: int
    ghost var log: seq<Act>
    ghost var checks: seq<Check>

    constructor ()
      ensures View() == INITIAL
    {
      sts, service, stored := None, None, Status(Unset, "", [], 0, 0, None, []);
      clock, log, checks := 0, [], [];
    }

    ghost function View(): State
      reads this
    {
      State(sts, service, stored, clock, log, checks)
    }

    /** Status().Update. */
    method Write(mem: Status, ok: bool)
      modifies this`stored
      ensures View() == Stored(old(View()), mem, ok)
    {
      if ok {
        stored := mem;
      }
    }

    method SetProfileMissing(server: Status, p: Pass)
      modifies this`stored
      ensures View() == Stored(old(View()), ErrorStatus(server, p), p.statusOk)
    {
      var mem := server.(phase := Error, agentVersion := "");
      var conditions := SetCondition(mem.conditions, Condition("Ready", "False", "ProfileNotFound", p.generation, 0));
      Write(mem.(conditions := conditions), p.statusOk);
    }

    method UpdateStoppedStatus(server: Status, p: Pass)
      modifies this`stored
      ensures View() == Stored(old(View()), StoppedStatus(server, p), p.statusOk)
    {
      var mem := server.(phase := Stopped, agentVersion := "", endpoints := [], players := 0);
      var conditions := SetCondition(mem.conditions, Condition("Ready", "False", "AutoStartDisabled", p.generation, p.now));
      Write(mem.(conditions := conditions), p.statusOk);
    }

    method UpdateStatus(server: Status, p: Pass, ready: bool) returns (mem: Status)
      modifies this`stored
      ensures mem == LiveStatus(server, p, ready)
      ensures View() == Stored(old(View()), mem, p.statusOk)
    {
      mem := server.(phase := Provisioning);
      if ready {
        mem := mem.(phase := Running);
      }
      var endpoints := ResolveEndpoints(p.profile, p.name, p.zone, p.ingress);
      mem := mem.(agentVersion := "", endpoints := endpoints);
      var verdict := "False";
      if ready {
        verdict := "True";
      }
      var conditions := SetCondition(mem.conditions, Condition("Ready", verdict, "StatefulSetReady", p.generation, p.now));
      conditions := SetCondition(conditions, Condition("AgentReachable", "Unknown", "NotProbed", p.generation, p.now));
      mem := mem.(conditions := conditions);
      Write(mem, p.statusOk);
    }

    method UpdateAgentStatus(server: Status, p: Pass) returns (mem: Status)
      modifies this`stored
      ensures mem == AgentStatus(server, p)
      ensures View() == Stored(old(View()), mem, p.healthOk)
    {
      mem := server.(agentVersion := p.version);
      var verdict, reason := "True", "AgentHealthy";
      if !p.healthy {
        verdict, reason := "False", "AgentUnhealthy";
      }
      var conditions := SetCondition(mem.conditions, Condition("AgentReachable", verdict, reason, p.generation, p.now));
      mem := mem.(conditions := conditions);
      Write(mem, p.healthOk);
    }

    /** Ask for the player count; remember activity, start the idle clock, or shut the server down. */
    method CheckIdleTimeout(server: Status, p: Pass) returns (fired: bool)
      requires sts.Some?
      modifies this
      ensures IdleCheck(old(View()), server, p) == Outcome(View(), true, fired)
    {
      if sts.value.replicas == Some(0) {
        return false;
      }
      if !p.playersOk {
        return false;
      }
      checks := checks + [Check(p.checked, p.players, p.idleOk)];
      var mem := server.(players := p.players, capacity := p.capacity);
      if p.players > 0 {
        Write(mem.(lastActivity := Some(p.checked), phase := Running), p.idleOk);
        return false;
      }
      if mem.lastActivity.Some? {
        if p.checked - mem.lastActivity.value >= p.idleTimeout {
          log := log + [PrepareShutdown];
          if !p.scaleOk {
            return false;
          }
          Scale(0, p.readyReplicas);
          Write(mem.(phase := Idle), p.idleOk);
          return true;
        }
      } else {
        Write(mem.(lastActivity := Some(p.checked)), p.idleOk);
      }
      return false;
    }

    /** Write the StatefulSet. */
    method Scale(replicas: int, readyReplicas: int)
      modifies this`sts, this`log
      ensures View() == ScaledTo(old(View()), replicas, readyReplicas)
    {
      log := log + [Scaled(sts, replicas)];
      sts := Some(Sts(Some(replicas), readyReplicas));
    }

    /** Status, agent probe and idle check, once everything is applied. */
    method ReportStatus(p: Pass) returns (done: bool, fired: bool)
      requires sts.Some?
      modifies this
      ensures Report(old(View()), p) == Outcome(View(), done, fired)
    {
      if !p.autoStart {
        UpdateStoppedStatus(stored, p);
        return p.statusOk, false;
      }
      var ready := StsReady(sts.value);
      var mem := UpdateStatus(stored, p, ready);
      if !p.statusOk {
        return false, false;
      }
      fired := false;
      if ready {
        mem := UpdateAgentStatus(mem, p);
        if p.idleTimeout > 0 {
          fired := CheckIdleTimeout(mem, p);
        }
      }
      return true, fired;
    }

    /** The lifecycle gate: a ready server about to be stopped hears of it first. */
    method CallShutdownIfUp(p: Pass)
      modifies this`log
      ensures View() == Gate(old(View()), p)
    {
      if !p.autoStart && sts.Some? && sts.value.replicas.Some? && sts.value.replicas.value > 0 {
        var ready := StsReady(sts.value);
        if ready {
          log := log + [PrepareShutdown];
        }
      }
    }

    /** A pass over a live GameServer that already carries its finalizer. */
    method Reconcile(p: Pass) returns (done: bool, fired: bool)
      modifies this
      ensures DoPass(old(View()), p) == Outcome(View(), done, fired)
    {
      clock, log := p.checked, log + [Began];
      if p.prelude.Failed? {
        return false, false;
      }
      if p.prelude.Unresolved? {
        SetProfileMissing(stored, p);
        return false, false;
      }
      if !p.autoStart && !p.gateOk {
        return false, false;
      }
      CallShutdownIfUp(p);
      if !p.stsOk {
        return false, false;
      }
      Scale(if p.autoStart then 1 else 0, p.readyReplicas);
      if !p.innerOk || !p.serviceOk {
        return false, false;
      }
      var ports := BuildGameService(p.profile);
      service := Some(ports);
      if !p.restOk {
        return false, false;
      }
      done, fired := ReportStatus(p);
    }
  }
}

/** What the action protocol does not guarantee, for which declarations, and the runs that show it. */
module ActionLimits {
  import opened Common
  import opened ActionModel
  import opened ActionProtocol

  // ------------------------------------------------------- building runs

  lemma Extend(w: World, events: seq<Event>, e: Event)
    ensures Run(w, events + [e]) == Apply(w, Run(w, events), e)
  {
    assert (events + [e])[..|events|] == events;
  }

  /** The run that has done nothing but bring the server up. */
  lemma Started(w: World, server: Key) returns (events: seq<Event>)
    ensures AllLocal(events) && Run(w, events) == INITIAL.(live := {server})
  {
    Extend(w, [], Servers({server}));
    events := [] + [Servers({server})];
  }

  /** A request for an action that supplies every parameter its declaration knows. */
  function Request(w: World, server: Key, action: string): Spec
    requires DeclOf(w, server, action).Some?
  {
    Spec(server.name, "", action, map p | p in DeclOf(w, server, action).value.params :: "")
  }

  /** Nothing running stands in the way of the action. */
  ghost predicate Clear(w: World, c: Cluster, server: Key, action: string)
    requires DeclOf(w, server, action).Some?
  {
    forall k :: k in c.execs && c.execs[k].state == Running ==>
      !Conflicts(DeclOf(w, server, action).value, c.execs[k].spec.action, action)
  }

  /** A stored Pending request that nothing stands in the way of. */
  ghost predicate Ready(w: World, c: Cluster, key: Key, server: Key, action: string) {
    && key in c.execs && key !in c.inflight && server in c.live && key.ns == server.ns
    && DeclOf(w, server, action).Some? && Clear(w, c, server, action)
    && c.execs[key].state == Pending && c.execs[key].spec == Request(w, server, action)
  }

  lemma ReadyIsAdmitted(w: World, c: Cluster, key: Key, server: Key, action: string)
    requires Ready(w, c, key, server, action)
    ensures Verdict(w, c, key, true).None?
  {
    assert Target(key, c.execs[key].spec) == server;
  }

  /** Create a request and let one pass mark it Pending. */
  lemma Prepare(w: World, events: seq<Event>, key: Key, server: Key, action: string) returns (more: seq<Event>)
    requires AllLocal(events) && key.ns == server.ns && server in Run(w, events).live
    requires key !in Run(w, events).execs && key !in Run(w, events).inflight
    requires DeclOf(w, server, action).Some? && Clear(w, Run(w, events), server, action)
    ensures var c, c' := Run(w, events), Run(w, more);
      && AllLocal(more) && Ready(w, c', key, server, action)
      && c'.execs[key].uid == c.nextUid && c'.trail == c.trail[c.nextUid := [New, Pending]]
      && c'.dispatches == c.dispatches && c'.lost == c.lost && c'.inflight == c.inflight
      && c'.execs.Keys == c.execs.Keys + {key} && forall k :: k in c.execs ==> c'.execs[k] == c.execs[k]
  {
    var e1, e2 := Create(key, Request(w, server, action)), Begin(key, 0, true, true, true);
    Extend(w, events, e1);
    Extend(w, events + [e1], e2);
    more := events + [e1] + [e2];
    assert [New] + [Pending] == [New, Pending];
    assert Run(w, more).trail == Run(w, events).trail[Run(w, events).nextUid := [New, Pending]];
  }

  /** A pass over a ready request launches it, whether or not its write survives. */
  lemma Launches(w: World, events: seq<Event>, key: Key, server: Key, action: string, stored: bool) returns (more: seq<Event>)
    requires AllLocal(events) && Ready(w, Run(w, events), key, server, action)
    ensures AllLocal(more) && Run(w, more) == Perform(Run(w, events), key, Launch(WithState(Run(w, events).execs[key], Running, "", "", 1), stored))
  {
    var c, e := Run(w, events), Begin(key, 1, true, true, stored);
    ReadyIsAdmitted(w, c, key, server, action);
    Extend(w, events, e);
    more := events + [e];
  }

  // ------------------------------------------------------------ lost writes

  /** For every declared action: the Running write is lost, the operator restarts, and the execution is dispatched again. */
  lemma LostWriteDispatchesTwice(w: World, server: Key, action: string) returns (events: seq<Event>)
    requires DeclOf(w, server, action).Some?
    ensures AllLocal(events) && Run(w, events).dispatches[0] == 2 && Run(w, events).lost[0] == 1
  {
    var key := Key(server.ns, "a");
    events := Started(w, server);
    events := Prepare(w, events, key, server, action);
    events := Launches(w, events, key, server, action, false);
    Extend(w, events, Crash);
    events := events + [Crash];
    events := Launches(w, events, key, server, action, true);
  }

  /** For every declared action: the Running write is lost, the result is written, and Running was never stored. */
  lemma LostWriteSkipsRunning(w: World, server: Key, action: string, agentOk: bool) returns (events: seq<Event>)
    requires DeclOf(w, server, action).Some?
    ensures AllLocal(events) && 0 in Run(w, events).trail
    ensures Run(w, events).trail[0] == [New, Pending, if agentOk then Succeeded else Failed]
  {
    var key := Key(server.ns, "a");
    events := Started(w, server);
    events := Prepare(w, events, key, server, action);
    events := Launches(w, events, key, server, action, false);
    var e := Finish(key, agentOk, "", 2, true);
    Extend(w, events, e);
    events := events + [e];
  }

  // -------------------------------------------------------------- isolation

  /** While the action runs on the server, in any run, nothing else runs there. */
  ghost predicate Isolated(w: World, server: Key, a: string) {
    forall events, j, k ::
      (AllLocal(events) && RunningOn(Run(w, events), j, server) && RunningOn(Run(w, events), k, server) &&
       Run(w, events).execs[j].spec.action == a) ==> j == k
  }

  ghost predicate Exclusive(w: World, server: Key, a: string) {
    DeclOf(w, server, a).Some? && DeclOf(w, server, a).value.concurrency == "exclusive"
  }

  /** Every action of the server's catalog is exclusive. */
  ghost predicate AllExclusive(w: World, server: Key) {
    forall b :: DeclOf(w, server, b).Some? ==> Exclusive(w, server, b)
  }

  /** Only the newcomer's declaration is checked, so any action that is not exclusive joins a running exclusive one. */
  lemma NewcomerJoins(w: World, server: Key, a: string, b: string) returns (events: seq<Event>, j: Key, k: Key)
    requires Exclusive(w, server, a) && DeclOf(w, server, b).Some? && !Exclusive(w, server, b)
    ensures AllLocal(events) && j != k && RunningOn(Run(w, events), j, server) && RunningOn(Run(w, events), k, server)
    ensures Run(w, events).execs[j].spec.action == a && Run(w, events).execs[k].spec.action == b
  {
    j, k := Key(server.ns, "a"), Key(server.ns, "b");
    events := Started(w, server);
    events := Prepare(w, events, j, server, a);
    events := Launches(w, events, j, server, a, true);
    assert RunningOn(Run(w, events), j, server);
    events := Prepare(w, events, k, server, b);
    events := Launches(w, events, k, server, b, true);
  }

  /** A running exclusive action is isolated if and only if the whole catalog of its server is exclusive. */
  lemma IsolatedIffAllExclusive(w: World, server: Key, a: string)
    requires Exclusive(w, server, a)
    ensures Isolated(w, server, a) <==> AllExclusive(w, server)
  {
    if AllExclusive(w, server) {
      forall events, j, k |
        AllLocal(events) && RunningOn(Run(w, events), j, server) && RunningOn(Run(w, events), k, server) &&
        Run(w, events).execs[j].spec.action == a
        ensures j == k
      {
        if j != k {
          NoTwoRunning(w, events, j, k, server);
        }
      }
    } else {
      var b :| DeclOf(w, server, b).Some? && !Exclusive(w, server, b);
      var events, j, k := NewcomerJoins(w, server, a, b);
    }
  }

  // ------------------------------------------------------------------ orphans

  lemma OrphanStep(w: World, c: Cluster, e: Event, key: Key)
    requires Bookkeeping(c) && key in c.execs && c.execs[key].state == Running && key !in c.inflight
    requires e != Remove(key)
    ensures var c' := Apply(w, c, e); key in c'.execs && SameRecord(c.execs[key], c'.execs[key]) && key !in c'.inflight
  {
    if e.Begin? {
      var f := BeginEffect(w, c, e);
      assert Allowed(c, e.key, f);
    }
  }

  /** After a crash mid-action the execution stays Running for good: only its deletion ends that. */
  lemma {:induction false} OrphanStaysRunning(w: World, c: Cluster, events: seq<Event>, key: Key)
    requires Bookkeeping(c) && key in c.execs && c.execs[key].state == Running && key !in c.inflight
    requires forall i :: 0 <= i < |events| ==> events[i] != Remove(key)
    ensures var c' := RunFrom(w, c, events);
      Bookkeeping(c') && key in c'.execs && SameRecord(c.execs[key], c'.execs[key]) && key !in c'.inflight
  {
    if events != [] {
      var k := |events| - 1;
      OrphanStaysRunning(w, c, events[..k], key);
      StepKeepsBooks(w, RunFrom(w, c, events[..k]), events[k]);
      OrphanStep(w, RunFrom(w, c, events[..k]), events[k], key);
    }
  }

  /** So a crash during an action blocks every exclusive action on that server until someone deletes the orphan. */
  lemma OrphanBlocksExclusive(w: World, c: Cluster, events: seq<Event>, key: Key, other: Key)
    requires Bookkeeping(c) && key in c.execs && c.execs[key].state == Running && key !in c.inflight
    requires forall i :: 0 <= i < |events| ==> events[i] != Remove(key)
    requires var c' := RunFrom(w, c, events);
      && other in c'.execs && other.name != key.name
      && Target(other, c'.execs[other].spec) == Key(key.ns, c.execs[key].spec.targetName)
      && DeclOf(w, Target(other, c'.execs[other].spec), c'.execs[other].spec.action).Some?
      && DeclOf(w, Target(other, c'.execs[other].spec), c'.execs[other].spec.action).value.concurrency == "exclusive"
    ensures Verdict(w, RunFrom(w, c, events), other, true).Some?
  {
    OrphanStaysRunning(w, c, events, key);
    var c' := RunFrom(w, c, events);
    assert Rival(c', other.name, Target(other, c'.execs[other].spec), key);
  }
}

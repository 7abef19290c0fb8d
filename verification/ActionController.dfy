/** The ActionExecution reconciler and the TTL cleanup, statement by statement, against the event model. */
module ActionController {
  import opened Common
  import opened Conditions
  import opened ActionModel

  /** The catalog scan: the first declaration of that name. */
  method FindAction(decls: seq<ActionDecl>, name: string) returns (d: Option<ActionDecl>)
    ensures d == FindDecl(decls, name)
  {
    for i := 0 to |decls|
      invariant FindDecl(decls, name) == FindDecl(decls[i..], name)
    {
      if decls[i].name == name {
        return Some(decls[i]);
      }
    }
    return None;
  }

  /** The parameter scan, in whatever order the map iterates. */
  method ValidateParams(d: ActionDecl, params: map<string, string>) returns (ok: bool)
    ensures ok == ParamsPresent(d, params)
  {
    var todo := d.params.Keys;
    while todo != {}
      invariant todo <= d.params.Keys
      invariant forall p :: p in d.params && p !in todo && d.params[p] ==> p in params
      decreases todo
    {
      var p :| p in todo;
      todo := todo - {p};
      if d.params[p] && p !in params {
        return false;
      }
    }
    return true;
  }

  class Reconciler {
    var execs: map<Key, Exec>
    var live: set<Key>
    var inflight: map<Key, Exec>
    var nextUid: nat
    ghost var trail: map<nat, seq<State>>
    ghost var dispatches: multiset<nat>
    ghost var lost: multiset<nat>

    constructor ()
      ensures View() == INITIAL
    {
      execs, live, inflight, nextUid := map[], {}, map[], 0;
      trail, dispatches, lost := map[], multiset{}, multiset{};
    }

    ghost function View(): Cluster
      reads this
    {
      Cluster(execs, live, inflight, nextUid, trail, dispatches, lost)
    }

    /** Scan the server's namespace for a running execution that stands in the way. */
    method CheckConcurrency(name: string, server: Key, d: ActionDecl, action: string) returns (canRun: bool)
      ensures canRun == !Blocked(View(), name, server, d, action)
    {
      var todo := execs.Keys;
      while todo != {}
        invariant todo <= execs.Keys
        invariant forall k :: k in execs && k !in todo && Rival(View(), name, server, k) ==> !Conflicts(d, execs[k].spec.action, action)
        decreases todo
      {
        var k :| k in todo;
        todo := todo - {k};
        var other := execs[k];
        if k.ns != server.ns || k.name == name || other.state != Running || other.spec.targetName != server.name {
          continue;
        }
        if d.concurrency == "exclusive" {
          assert Rival(View(), name, server, k);
          return false;
        } else if d.concurrency == "serialize" {
          if other.spec.action == action {
            assert Rival(View(), name, server, k);
            return false;
          }
        }
      }
      return true;
    }

    /** setState: stamp the in-memory object, then try to write it; a failed write is discarded. */
    method SetState(key: Key, x: Exec, s: State, response: string, error: string, now: int, writeOk: bool) returns (y: Exec)
      modifies this`execs, this`trail
      ensures y == WithState(x, s, response, error, now)
      ensures if writeOk && key in old(execs) && old(execs)[key].uid == x.uid then View() == Write(old(View()), key, y)
              else View() == old(View())
    {
      y := x.(state := s);
      if s == Running {
        y := y.(startedAt := Some(now));
      }
      if s == Succeeded || s == Failed || s == TimedOut || s == Rejected {
        y := y.(endedAt := Some(now));
      }
      y := y.(response := response, error := error);
      var conditions := SetCondition(y.conditions, Condition(StateName(s), "True", StateName(s), 0, now));
      y := y.(conditions := conditions);
      Update(key, y, writeOk);
    }

    /** Status().Update: lands only on the object it was read from. */
    method Update(key: Key, y: Exec, writeOk: bool)
      modifies this`execs, this`trail
      ensures if writeOk && key in old(execs) && old(execs)[key].uid == y.uid then View() == Write(old(View()), key, y)
              else View() == old(View())
    {
      if writeOk && key in execs && execs[key].uid == y.uid {
        if y.state != execs[key].state {
          trail := trail[y.uid := (if y.uid in trail then trail[y.uid] else []) + [y.state]];
        }
        execs := execs[key := y];
      }
    }

    /** Decide a Pending execution: None to run it, or why it is rejected. */
    method Decide(w: World, key: Key, listOk: bool) returns (why: Option<string>)
      requires key in execs
      ensures why == Verdict(w, View(), key, listOk)
    {
      var spec := execs[key].spec;
      var server := Target(key, spec);
      if server !in live || server !in w.profileOf {
        return Some("target GameServer not found");
      }
      if w.profileOf[server] !in w.profiles {
        return Some("referenced GameProfile not found");
      }
      var d := FindAction(w.profiles[w.profileOf[server]], spec.action);
      if d.None? {
        return Some("action not found in profile");
      }
      var ok := ValidateParams(d.value, spec.params);
      if !ok {
        return Some("required param missing");
      }
      if !listOk {
        return Some("failed to list action executions");
      }
      var canRun := CheckConcurrency(key.name, server, d.value, spec.action);
      if !canRun {
        return Some("blocked by running execution");
      }
      return None;
    }

    /** A pass up to and including the hand-over to the agent. */
    method Begin(w: World, key: Key, now: int, readOk: bool, listOk: bool, writeOk: bool) returns (launched: bool)
      modifies this
      ensures View() == Apply(w, old(View()), Event.Begin(key, now, readOk, listOk, writeOk))
      ensures launched <==> BeginEffect(w, old(View()), Event.Begin(key, now, readOk, listOk, writeOk)).Launch?
    {
      if !readOk || key !in execs || key in inflight {
        return false;
      }
      var x := execs[key];
      if !x.deleting {
        if x.state == New {
          Update(key, x.(state := Pending), writeOk);
          return false;
        }
      }
      if x.state != Pending {
        return false;
      }
      var why := Decide(w, key, listOk);
      if why.Some? {
        var _ := SetState(key, x, Rejected, "", why.value, now, writeOk);
        return false;
      }
      LaunchAction(key, now, writeOk);
      return true;
    }

    /** Write Running, lose the write or not, and hand over to the agent either way. */
    method LaunchAction(key: Key, now: int, writeOk: bool)
      requires key in execs && key !in inflight && execs[key].state == Pending
      modifies this
      ensures View() == Perform(old(View()), key, Launch(WithState(old(execs)[key], Running, "", "", now), writeOk))
    {
      var x := execs[key];
      var y := SetState(key, x, Running, "", "", now, writeOk);
      if !writeOk {
        lost := lost + multiset{x.uid};
      }
      inflight := inflight[key := y];
      dispatches := dispatches + multiset{x.uid};
    }

    /** The rest of the pass, when the agent has answered. */
    method Finish(w: World, key: Key, agentOk: bool, response: string, now: int, writeOk: bool)
      modifies this
      ensures View() == Apply(w, old(View()), Event.Finish(key, agentOk, response, now, writeOk))
    {
      if key !in inflight {
        return;
      }
      var x := inflight[key];
      inflight := inflight - {key};
      if !agentOk {
        var _ := SetState(key, x, Failed, "", response, now, writeOk);
      } else {
        var _ := SetState(key, x, Succeeded, response, "", now, writeOk);
      }
    }

    /** The hourly sweep: list once, delete what is past its TTL, shrug at failures. */
    method Cleanup(w: World, now: int, failing: set<Key>)
      modifies this`execs
      ensures View() == Apply(w, old(View()), Sweep(now, failing))
    {
      var todo := execs.Keys;
      while todo != {}
        invariant todo <= old(execs).Keys
        invariant forall k :: k in execs ==> k in old(execs) && execs[k] == old(execs)[k]
        invariant forall k :: k in todo ==> k in execs
        invariant forall k :: k in old(execs) && k !in todo ==> (k in execs <==> k in failing || !Expired(old(execs)[k], now))
        decreases todo
      {
        var k :| k in todo;
        todo := todo - {k};
        var x := execs[k];
        if x.state != Succeeded && x.state != Failed && x.state != TimedOut && x.state != Rejected {
          continue;
        }
        if x.endedAt.None? {
          continue;
        }
        var ttl := FAILED_TTL;
        if x.state == Succeeded {
          ttl := SUCCESS_TTL;
        }
        if now - x.endedAt.value > ttl && k !in failing {
          execs := execs - {k};
        }
      }
      assert execs == DoSweep(old(execs), now, failing);
    }
  }
}

/** The GameSnapshot reconciler, statement by statement, against the pass of the model. */
module SnapshotController {
  import opened Common
  import opened Conditions
  import opened SnapshotModel
  import opened SnapshotRetention

  /** With one condition per type, any true one of that type is the one a lookup finds. */
  lemma {:induction false} FoundIsLookup(conditions: seq<Condition>, t: string, i: nat)
    requires UniqueTypes(conditions) && i < |conditions| && conditions[i].ctype == t
    ensures Lookup(conditions, t) == Some(conditions[i])
  {
    if i > 0 {
      FoundIsLookup(conditions[1..], t, i - 1);
    }
  }

  lemma {:induction false} LookupIsFound(conditions: seq<Condition>, t: string)
    requires Lookup(conditions, t).Some?
    ensures exists i :: 0 <= i < |conditions| && conditions[i] == Lookup(conditions, t).value && conditions[i].ctype == t
  {
    if conditions[0].ctype != t {
      LookupIsFound(conditions[1..], t);
      var i :| 0 <= i < |conditions[1..]| && conditions[1..][i] == Lookup(conditions[1..], t).value && conditions[1..][i].ctype == t;
      assert conditions[i + 1] == conditions[1..][i];
    }
  }

  class Reconciler {
    const name: string
    var snapshots: seq<Entry>
    var last: Option<int>
    var conditions: seq<Condition>
    var volumes: map<string, Volume>
    ghost var clock: int
    ghost var log: seq<Mark>
    ghost var takes: seq<int>

    constructor (name: string)
      ensures this.name == name && View() == INITIAL && Valid()
    {
      this.name := name;
      snapshots, last, conditions, volumes := [], None, [], map[];
      clock, log, takes := 0, [], [];
    }

    ghost predicate Valid()
      reads this
    {
      UniqueTypes(conditions)
    }

    ghost function View(): State
      reads this
    {
      State(Status(snapshots, last, conditions), volumes, clock, log, takes)
    }

    method Mark(ctype: string, verdict: string, reason: string, now: int)
      requires Valid()
      modifies this`conditions
      ensures Valid()
      ensures View().status == WithCondition(old(View().status), ctype, verdict, reason, now)
    {
      var c := Condition(ctype, verdict, reason, 0, now);
      SetKeepsList(conditions, c);
      conditions := SetCondition(conditions, c);
    }

    method ShouldTakeSnapshot(parse: string -> Option<Next>, schedule: string, now: int) returns (d: Decision)
      ensures d == ShouldTake(parse, schedule, last, now)
    {
      if schedule == "" {
        if last.None? {
          return Take;
        }
        return Wait(0);
      }
      var parsed := parse(schedule);
      if parsed.None? {
        return BadSchedule;
      }
      if last.None? {
        var next := parsed.value(now);
        if next - now < MINUTE {
          return Take;
        }
        return Wait(next - now);
      }
      var next := parsed.value(last.value);
      if now > next || now == next {
        return Take;
      }
      return Wait(next - now);
    }

    method IsSnapshotInProgress(now: int) returns (r: bool)
      requires Valid()
      ensures r == InProgress(View().status, now)
    {
      if |snapshots| == 0 {
        return false;
      }
      if now - snapshots[|snapshots| - 1].created < SNAPSHOT_TIMEOUT {
        for i := 0 to |conditions|
          invariant forall j :: 0 <= j < i ==> conditions[j].ctype != READY || conditions[j].status != "True"
        {
          if conditions[i].ctype == READY && conditions[i].status == "True" {
            FoundIsLookup(conditions, READY, i);
            return false;
          }
        }
        if Lookup(conditions, READY).Some? {
          LookupIsFound(conditions, READY);
        }
        return true;
      }
      return false;
    }

    /** The latest entry's VolumeSnapshot is ready: note the size, set the condition. */
    method NoteReady(v: Volume, now: int)
      requires Valid() && snapshots != []
      modifies this
      ensures Valid() && View() == Complete(old(View()), v, now)
    {
      var latest := snapshots[|snapshots| - 1];
      if v.size.Some? {
        snapshots := snapshots[|snapshots| - 1 := latest.(size := v.size.value)];
      }
      log := log + [SeenReady(latest.ref)];
      Mark(READY, "True", "SnapshotComplete", now);
    }

    method MonitorSnapshot(p: Pass) returns (delay: int)
      requires Valid() && snapshots != []
      modifies this
      ensures Valid() && View() == Monitor(old(View()), p)
      ensures delay == MonitorDelay(old(View()), p)
    {
      var latest := snapshots[|snapshots| - 1];
      if p.stamp - latest.created > SNAPSHOT_TIMEOUT {
        Mark(READY, "False", "SnapshotTimeout", p.stamp);
        return 0;
      }
      if !p.getOk {
        return 0;
      }
      if latest.ref !in volumes {
        return 10;
      }
      var v := volumes[latest.ref];
      if v.ready {
        NoteReady(v, p.stamp);
        return 0;
      }
      if v.fault.Message? && v.fault.text != "" {
        Mark(READY, "False", "SnapshotFailed", p.stamp);
        return 0;
      }
      return 15;
    }

    /** Create the VolumeSnapshot and record it. */
    method CreateVolumeSnapshot(p: Pass) returns (ok: bool)
      requires Valid()
      modifies this
      ensures Valid()
      ensures ok == (p.pvcOk && p.createOk && VolumeName(name, p.stamp) !in old(volumes))
      ensures View() == if ok then Recorded(old(View()), VolumeName(name, p.stamp), p) else old(View())
    {
      if !p.pvcOk {
        return false;
      }
      var vs := VolumeName(name, p.stamp);
      if !p.createOk || vs in volumes {
        return false;
      }
      volumes := volumes[vs := p.initial];
      snapshots := snapshots + [Entry(vs, p.created, 0)];
      last := Some(p.recorded);
      log, takes := log + [Created(vs, p.created)], takes + [p.recorded];
      return true;
    }

    /** One look at the VolumeSnapshot just created; pending is reported as a failure. */
    method WaitForSnapshotReady(p: Pass) returns (ok: bool)
      requires Valid() && snapshots != []
      modifies this
      ensures Valid()
      ensures ok == (p.getOk && p.initial.ready)
      ensures var st := old(View());
        View() == if ok then Complete(st, p.initial, p.recorded)
                  else if p.getOk && p.initial.fault.Items? && p.initial.fault.n > 0 then
                    st.(status := WithCondition(st.status, READY, "False", "SnapshotFailed", p.recorded))
                  else st
    {
      if !p.getOk {
        return false;
      }
      if p.initial.ready {
        NoteReady(p.initial, p.recorded);
        return true;
      }
      if p.initial.fault.Items? && p.initial.fault.n > 0 {
        Mark(READY, "False", "SnapshotFailed", p.recorded);
      }
      return false;
    }

    /** Save, snapshot, wait; retention if all of that went well. */
    method ExecuteSnapshot(p: Pass) returns (ok: bool)
      requires Valid()
      modifies this
      ensures Valid() && View() == Execute(name, old(View()), p)
      ensures ok == Succeeds(name, old(View()), p) && (ok ==> last == Some(p.recorded))
    {
      Mark(READY, "False", "Saving", p.checked);
      Mark(READY, "False", "Snapshotting", p.checked);
      ghost var saved := View();
      assert saved == Saving(old(View()), p);
      ok := CreateVolumeSnapshot(p);
      if !ok {
        Mark("Ready", "False", "SnapshotFailed", p.stamp);
        return false;
      }
      ok := WaitForSnapshotReady(p);
      if !ok {
        Mark("Ready", "False", "SnapshotFailed", p.recorded);
        return false;
      }
      Retain(p);
      return true;
    }

    /** Prune the list, delete what was pruned, shrug at failed deletions. */
    method Retain(p: Pass)
      requires Valid()
      modifies this`snapshots, this`volumes
      ensures View() == EnforceRetention(old(View()), p)
    {
      var keep, drop := Prune(snapshots, p.spec, p.retained);
      for i := 0 to |drop|
        invariant volumes == old(volumes) - (Refs(drop[..i]) - p.failing)
        invariant snapshots == old(snapshots)
      {
        assert Refs(drop[..i + 1]) == Refs(drop[..i]) + {drop[i].ref} by {
          assert drop[..i + 1] == drop[..i] + [drop[i]];
        }
        if drop[i].ref !in p.failing {
          volumes := volumes - {drop[i].ref};
        }
      }
      assert drop[..|drop|] == drop;
      snapshots := keep;
    }

    /** One pass over a live GameSnapshot that already carries its finalizer. */
    method Reconcile(parse: string -> Option<Next>, p: Pass) returns (delay: int)
      requires Valid()
      modifies this
      ensures Valid() && View() == Apply(parse, name, old(View()), Reconciled(p))
      ensures delay == Delay(parse, name, old(View()), p)
    {
      delay := Serve(parse, p);
      clock := p.retained;
    }

    method Serve(parse: string -> Option<Next>, p: Pass) returns (delay: int)
      requires Valid()
      modifies this
      ensures Valid() && View() == DoPass(parse, name, old(View()), p)
      ensures delay == Delay(parse, name, old(View()), p)
    {
      if !p.serverOk {
        return 0;
      }
      if !p.serverFound {
        Mark("Ready", "False", "GameServerNotFound", p.now);
        return 0;
      }
      var d := ShouldTakeSnapshot(parse, p.spec.schedule, p.now);
      if d.BadSchedule? {
        Mark("Ready", "False", "InvalidSchedule", p.now);
        return 0;
      }
      if d.Wait? {
        return d.delay;
      }
      delay := TakeOrMonitor(parse, p);
    }

    /** A snapshot is due: watch the one in progress, or take one and look ahead to the next. */
    method TakeOrMonitor(parse: string -> Option<Next>, p: Pass) returns (delay: int)
      requires Valid()
      modifies this
      ensures Valid()
      ensures var st := old(View());
        if InProgress(st.status, p.checked) then View() == Monitor(st, p) && delay == MonitorDelay(st, p)
        else
          && View() == Execute(name, st, p)
          && delay == if Succeeds(name, st, p) && p.spec.schedule != ""
                      then ScheduledDelay(parse, p.spec.schedule, p.recorded, p.retained) else 0
    {
      var busy := IsSnapshotInProgress(p.checked);
      if busy {
        delay := MonitorSnapshot(p);
        return;
      }
      delay := 0;
      var ok := ExecuteSnapshot(p);
      if ok && p.spec.schedule != "" {
        var d := ShouldTakeSnapshot(parse, p.spec.schedule, p.retained);
        if d.Wait? {
          delay := d.delay;
        }
      }
    }
  }
}

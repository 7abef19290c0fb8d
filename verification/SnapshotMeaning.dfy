/** What a snapshot pass does, told by the schedule, the list and the fields of what it meets. */
module SnapshotMeaning {
  import opened Common
  import opened Conditions
  import Decimal
  import opened SnapshotModel
  import opened SnapshotRetention
  import opened SnapshotRuns
  import opened SnapshotIndex

  // ------------------------------------------------------------ when it acts

  /** A snapshot is due: once if there is no schedule; else within a minute before the first tick, or from the tick after the last one on. */
  ghost predicate Due(parse: string -> Option<Next>, schedule: string, last: Option<int>, now: int) {
    if schedule == "" then last == None
    else if parse(schedule) == None then false
    else if last == None then parse(schedule).value(now) - now < 60
    else parse(schedule).value(last.value) <= now
  }

  /** The latest snapshot is less than ten minutes old and has not been reported ready. */
  ghost predicate Busy(s: Status, now: int) {
    && s.snapshots != [] && now - s.snapshots[|s.snapshots| - 1].created < 10 * 60
    && !(exists c :: Lookup(s.conditions, "SnapshotReady") == Some(c) && c.status == "True")
  }

  ghost predicate Acts(parse: string -> Option<Next>, st: State, p: Pass) {
    p.serverOk && p.serverFound && Due(parse, p.spec.schedule, st.status.last, p.now) && !Busy(st.status, p.checked)
  }

  lemma DueMeans(parse: string -> Option<Next>, schedule: string, last: Option<int>, now: int)
    ensures ShouldTake(parse, schedule, last, now).Take? <==> Due(parse, schedule, last, now)
    ensures ShouldTake(parse, schedule, last, now).BadSchedule? <==> schedule != "" && parse(schedule) == None
    ensures schedule == "" && last != None ==> ShouldTake(parse, schedule, last, now) == Wait(0)
  {
  }

  lemma BusyMeans(s: Status, now: int)
    ensures InProgress(s, now) <==> Busy(s, now)
  {
  }

  function NewName(snap: string, p: Pass): string {
    snap + "-" + Decimal.Dec(p.stamp)
  }

  /** The new VolumeSnapshot can be made: the claim is there, the call works, the name is free. */
  ghost predicate Makes(snap: string, st: State, p: Pass) {
    p.pvcOk && p.createOk && NewName(snap, p) !in st.volumes
  }

  /** A pass makes a snapshot if and only if one is due, none is in progress and the calls work. */
  lemma TakenIff(parse: string -> Option<Next>, snap: string, st: State, p: Pass)
    ensures var st' := DoPass(parse, snap, st, p);
      if Acts(parse, st, p) && Makes(snap, st, p)
      then st'.takes == st.takes + [p.recorded] && st'.status.last == Some(p.recorded)
      else st'.takes == st.takes && st'.status.last == st.status.last && Refs(st'.status.snapshots) == Refs(st.status.snapshots) && st'.volumes == st.volumes
  {
    DueMeans(parse, p.spec.schedule, st.status.last, p.now);
    BusyMeans(st.status, p.checked);
    if p.serverOk && p.serverFound && ShouldTake(parse, p.spec.schedule, st.status.last, p.now).Take? {
      if InProgress(st.status, p.checked) {
        MonitorKeepsRefs(st, p);
      } else {
        ExecuteTakes(snap, st, p);
      }
    }
  }

  lemma ExecuteTakes(snap: string, st: State, p: Pass)
    ensures var st' := Execute(snap, st, p);
      if Makes(snap, st, p) then st'.takes == st.takes + [p.recorded] && st'.status.last == Some(p.recorded)
      else st'.takes == st.takes && st'.status.last == st.status.last && st'.status.snapshots == st.status.snapshots && st'.volumes == st.volumes
  {
  }

  lemma MonitorKeepsRefs(st: State, p: Pass)
    requires st.status.snapshots != []
    ensures var st' := Monitor(st, p);
      && st'.takes == st.takes && st'.status.last == st.status.last && st'.volumes == st.volumes
      && Refs(st'.status.snapshots) == Refs(st.status.snapshots)
  {
    var ref := Latest(st.status).ref;
    var s := st.status.snapshots;
    assert s[|s| - 1 := s[|s| - 1]] == s;
    if ref in st.volumes {
      SizedRefs(st.status.snapshots, st.volumes[ref].size);
    }
  }

  /** The last entry with the size its VolumeSnapshot reports, if it reports one. */
  function Sized(s: seq<Entry>, size: Option<int>): seq<Entry>
    requires s != []
  {
    if size == None then s else s[|s| - 1 := s[|s| - 1].(size := size.value)]
  }

  lemma SizedRefs(s: seq<Entry>, size: Option<int>)
    requires s != []
    ensures Refs(Sized(s, size)) == Refs(s)
  {
    var k := |s| - 1;
    assert s == s[..k] + [s[k]];
    RefsSnoc(s[..k], s[k]);
    if size.Some? {
      assert Sized(s, size) == s[..k] + [s[k].(size := size.value)];
      RefsSnoc(s[..k], s[k].(size := size.value));
    }
  }

  // ----------------------------------------------- after a successful snapshot

  /** The snapshot is made and found ready at the first look. */
  ghost predicate MadeReady(snap: string, st: State, p: Pass) {
    Makes(snap, st, p) && p.getOk && p.initial.ready
  }

  /** The list before retention: the new entry at the end, with its size. */
  function Extended(snap: string, st: State, p: Pass): seq<Entry> {
    st.status.snapshots + [Entry(NewName(snap, p), p.created, if p.initial.size == None then 0 else p.initial.size.value)]
  }

  /** s' is what retention should leave of s: its longest suffix within the limits. */
  ghost predicate LongestWithin(s': seq<Entry>, s: seq<Entry>, spec: Spec, now: int) {
    exists k :: LongestFrom(s', s, spec, now, k)
  }

  ghost predicate LongestFrom(s': seq<Entry>, s: seq<Entry>, spec: Spec, now: int, k: int) {
    0 <= k <= |s| && s' == s[k..] && Within(s', spec, now) && forall j :: 0 <= j < k ==> !Within(s[j..], spec, now)
  }

  /** What a pass with a ready snapshot leaves: list and volumes pruned together, and the condition set. */
  ghost predicate Pruned(snap: string, st: State, p: Pass, st': State) {
    var full := Extended(snap, st, p);
    && LongestWithin(st'.status.snapshots, full, p.spec, p.retained)
    && (forall r :: r in st'.volumes ==> r in st.volumes || r == NewName(snap, p))
    && (forall e :: e in full && e.ref !in Refs(st'.status.snapshots) ==> e.ref in p.failing || e.ref !in st'.volumes)
    && (forall r :: (r in st.volumes || r == NewName(snap, p)) && r !in Refs(full) ==> r in st'.volumes)
    && Lookup(st'.status.conditions, "SnapshotReady") == Some(Condition("SnapshotReady", "True", "SnapshotComplete", 0, p.recorded))
  }

  lemma RetentionPrunes(st: State, p: Pass)
    requires SortedByTime(st.status.snapshots)
    ensures var s, st' := st.status.snapshots, EnforceRetention(st, p);
      && LongestWithin(st'.status.snapshots, s, p.spec, p.retained)
      && (forall r :: r in st'.volumes ==> r in st.volumes)
      && (forall e :: e in s && e.ref !in Refs(st'.status.snapshots) ==> e.ref in p.failing || e.ref !in st'.volumes)
      && (forall r :: r in st.volumes && r !in Refs(s) ==> r in st'.volumes)
      && st'.status.conditions == st.status.conditions
  {
    var s := st.status.snapshots;
    var k := RetentionKeepsLongestSuffix(s, p.spec, p.retained);
    assert LongestFrom(Kept(s, p.spec, p.retained), s, p.spec, p.retained, k);
    DroppedOrKept(s, p.spec, p.retained);
  }

  /** As sets: what is not kept is dropped, and nothing else is. */
  lemma DroppedOrKept(s: seq<Entry>, spec: Spec, now: int)
    ensures forall e :: e in s ==> e in Kept(s, spec, now) || e in Dropped(s, spec, now)
    ensures forall e :: e in Dropped(s, spec, now) ==> e in s
  {
    RetentionPartitions(s, spec, now);
    forall e | e in s ensures e in Kept(s, spec, now) || e in Dropped(s, spec, now) {
      assert e in multiset(s);
    }
    forall e | e in Dropped(s, spec, now) ensures e in s {
      assert e in multiset(Dropped(s, spec, now));
      assert e in multiset(s);
    }
  }

  /** The state a ready snapshot leads to just before retention. */
  lemma ReadyState(snap: string, st: State, p: Pass) returns (mid: State)
    requires MadeReady(snap, st, p)
    ensures Execute(snap, st, p) == EnforceRetention(mid, p)
    ensures mid.status.snapshots == Extended(snap, st, p) && mid.volumes.Keys == st.volumes.Keys + {NewName(snap, p)}
    ensures Lookup(mid.status.conditions, "SnapshotReady") == Some(Condition("SnapshotReady", "True", "SnapshotComplete", 0, p.recorded))
  {
    var recorded := Recorded(Saving(st, p), VolumeName(snap, p.stamp), p);
    mid := Complete(recorded, p.initial, p.recorded);
    SetIsMapUpdate(recorded.status.conditions, Condition("SnapshotReady", "True", "SnapshotComplete", 0, p.recorded), "SnapshotReady");
    var s, e := st.status.snapshots, Entry(NewName(snap, p), p.created, 0);
    assert (s + [e])[|s|] == e;
    assert forall x: Entry :: (s + [e])[|s| := x] == s + [x];
  }

  lemma AppendSorted(s: seq<Entry>, e: Entry)
    requires SortedByTime(s) && forall i :: 0 <= i < |s| ==> s[i].created <= e.created
    ensures SortedByTime(s + [e])
  {
  }

  /** A due snapshot that is made and ready at once: the limits hold afterwards, no more than needed is gone, and what left the list left the store. */
  lemma SuccessPrunes(parse: string -> Option<Next>, snap: string, st: State, p: Pass)
    requires Acts(parse, st, p) && MadeReady(snap, st, p)
    requires SortedByTime(st.status.snapshots) && forall i :: 0 <= i < |st.status.snapshots| ==> st.status.snapshots[i].created <= p.created
    ensures Pruned(snap, st, p, DoPass(parse, snap, st, p))
  {
    DueMeans(parse, p.spec.schedule, st.status.last, p.now);
    BusyMeans(st.status, p.checked);
    var mid := ReadyState(snap, st, p);
    AppendSorted(st.status.snapshots, Extended(snap, st, p)[|st.status.snapshots|]);
    RetentionPrunes(mid, p);
  }

  /** In particular no more than the count are listed, and the new one is the last of them unless it is too old itself. */
  lemma PrunedMeans(snap: string, st: State, p: Pass, st': State)
    requires Pruned(snap, st, p, st')
    ensures p.spec.count > 0 ==> |st'.status.snapshots| <= p.spec.count
    ensures !(p.spec.duration.Seconds? && p.retained - p.created > p.spec.duration.s) ==>
      && st'.status.snapshots != []
      && st'.status.snapshots[|st'.status.snapshots| - 1].ref == NewName(snap, p)
      && st'.status.snapshots[|st'.status.snapshots| - 1].created == p.created
  {
    var full := Extended(snap, st, p);
    var k :| LongestFrom(st'.status.snapshots, full, p.spec, p.retained, k);
    if k == |full| {
      assert !Within(full[k - 1..], p.spec, p.retained);
      assert full[k - 1..] == [full[k - 1]];
    }
  }

  /** The snapshot of event i is made and ready at once. */
  ghost predicate SucceedsAt(parse: string -> Option<Next>, snap: string, events: seq<Event>, i: nat)
    requires i < |events|
  {
    events[i].Reconciled? &&
    var st := Run(parse, snap, events[..i]); Acts(parse, st, events[i].p) && MadeReady(snap, st, events[i].p)
  }

  /** In every run, whatever failed before and whoever deleted: after each successful pass the limits of its spec hold. */
  lemma LimitsHoldAfterSuccess(parse: string -> Option<Next>, snap: string, events: seq<Event>, i: nat)
    requires ValidParser(parse) && TimelyRun(parse, snap, events)
    requires i < |events| && SucceedsAt(parse, snap, events, i)
    ensures var p, st, st' := events[i].p, Run(parse, snap, events[..i]), Run(parse, snap, events[..i + 1]);
      && Pruned(snap, st, p, st')
      && (p.spec.count > 0 ==> |st'.status.snapshots| <= p.spec.count)
  {
    var p, st := events[i].p, Run(parse, snap, events[..i]);
    TimelyPrefix(parse, snap, events, i);
    RunKeepsIndex(parse, snap, events[..i], Claim(false, false));
    assert TimelyAt(parse, snap, events, i);
    LastSnapshotIncreases(parse, snap, events[..i]);
    ListIsOlder(parse, snap, st, p);
    SuccessPrunes(parse, snap, st, p);
    assert events[..i + 1][..i] == events[..i];
    PrunedMeans(snap, st, p, DoPass(parse, snap, st, p));
  }

  lemma ListIsOlder(parse: string -> Option<Next>, snap: string, st: State, p: Pass)
    requires Index(snap, st.status.snapshots, st.status.last) && Increasing(st) && Timely(st, p)
    ensures SortedByTime(st.status.snapshots) && forall i :: 0 <= i < |st.status.snapshots| ==> st.status.snapshots[i].created <= p.created
  {
  }

  lemma TimelyPrefix(parse: string -> Option<Next>, snap: string, events: seq<Event>, n: nat)
    requires TimelyRun(parse, snap, events) && n <= |events|
    ensures TimelyRun(parse, snap, events[..n])
  {
    forall i | 0 <= i < n && events[..n][i].Reconciled? ensures TimelyAt(parse, snap, events[..n], i) {
      assert TimelyAt(parse, snap, events, i);
      assert events[..n][..i] == events[..i];
    }
  }

  // ------------------------------------------------------- other ways to end

  /** A snapshot that is made but not found ready: listed and kept, nothing pruned, and the pass reports failure. */
  lemma MadeNotReady(parse: string -> Option<Next>, snap: string, st: State, p: Pass)
    requires Acts(parse, st, p) && Makes(snap, st, p) && !(p.getOk && p.initial.ready)
    ensures var st' := DoPass(parse, snap, st, p);
      && st'.status.snapshots == st.status.snapshots + [Entry(NewName(snap, p), p.created, 0)]
      && st'.volumes == st.volumes[NewName(snap, p) := p.initial]
      && (exists c :: Lookup(st'.status.conditions, "Ready") == Some(c) && c.status == "False" && c.reason == "SnapshotFailed")
      && (exists c :: Lookup(st'.status.conditions, "SnapshotReady") == Some(c) && c.status == "False")
  {
    DueMeans(parse, p.spec.schedule, st.status.last, p.now);
    BusyMeans(st.status, p.checked);
    var recorded := Recorded(Saving(st, p), VolumeName(snap, p.stamp), p);
    SavingSays(st, p);
    var bad := WithCondition(recorded.status, READY, "False", "SnapshotFailed", p.recorded);
    SetIsMapUpdate(recorded.status.conditions, Condition("SnapshotReady", "False", "SnapshotFailed", 0, p.recorded), "SnapshotReady");
    FailingSays(recorded.status.conditions, p.recorded);
    FailingSays(bad.conditions, p.recorded);
  }

  lemma SavingSays(st: State, p: Pass)
    ensures Lookup(Saving(st, p).status.conditions, "SnapshotReady") == Some(Condition("SnapshotReady", "False", "Snapshotting", 0, p.checked))
  {
    var s := WithCondition(st.status, READY, "False", "Saving", p.checked);
    SetIsMapUpdate(s.conditions, Condition("SnapshotReady", "False", "Snapshotting", 0, p.checked), "SnapshotReady");
  }

  lemma FailingSays(conditions: seq<Condition>, now: int)
    ensures var r := Set(conditions, Condition("Ready", "False", "SnapshotFailed", 0, now));
      && Lookup(r, "Ready") == Some(Condition("Ready", "False", "SnapshotFailed", 0, now))
      && Lookup(r, "SnapshotReady") == Lookup(conditions, "SnapshotReady")
  {
    SetIsMapUpdate(conditions, Condition("Ready", "False", "SnapshotFailed", 0, now), "Ready");
    SetIsMapUpdate(conditions, Condition("Ready", "False", "SnapshotFailed", 0, now), "SnapshotReady");
  }

  /** One that cannot be made: list and store stay as they are, and both conditions say so. */
  lemma NotMade(parse: string -> Option<Next>, snap: string, st: State, p: Pass)
    requires Acts(parse, st, p) && !Makes(snap, st, p)
    ensures var st' := DoPass(parse, snap, st, p);
      && st'.status.snapshots == st.status.snapshots && st'.volumes == st.volumes && st'.status.last == st.status.last
      && Lookup(st'.status.conditions, "Ready") == Some(Condition("Ready", "False", "SnapshotFailed", 0, p.stamp))
      && Lookup(st'.status.conditions, "SnapshotReady") == Some(Condition("SnapshotReady", "False", "Snapshotting", 0, p.checked))
  {
    DueMeans(parse, p.spec.schedule, st.status.last, p.now);
    BusyMeans(st.status, p.checked);
    SavingSays(st, p);
    FailingSays(Saving(st, p).status.conditions, p.stamp);
  }

  /** A missing server and an unreadable schedule are reported; a pass that is not due, or cannot read its server, changes nothing. */
  lemma NotDue(parse: string -> Option<Next>, snap: string, st: State, p: Pass)
    ensures var st', schedule := DoPass(parse, snap, st, p), p.spec.schedule;
      && (p.serverOk && !p.serverFound ==>
            && st' == st.(status := st.status.(conditions := st'.status.conditions))
            && Lookup(st'.status.conditions, "Ready") == Some(Condition("Ready", "False", "GameServerNotFound", 0, p.now)))
      && (p.serverOk && p.serverFound && schedule != "" && parse(schedule) == None ==>
            && st' == st.(status := st.status.(conditions := st'.status.conditions))
            && Lookup(st'.status.conditions, "Ready") == Some(Condition("Ready", "False", "InvalidSchedule", 0, p.now)))
      && (!p.serverOk || (p.serverFound && (schedule == "" || parse(schedule).Some?) && !Due(parse, schedule, st.status.last, p.now)) ==> st' == st)
  {
    DueMeans(parse, p.spec.schedule, st.status.last, p.now);
    SetIsMapUpdate(st.status.conditions, Condition("Ready", "False", "GameServerNotFound", 0, p.now), "Ready");
    SetIsMapUpdate(st.status.conditions, Condition("Ready", "False", "InvalidSchedule", 0, p.now), "Ready");
  }

  /** Watching a snapshot in progress: after ten minutes it timed out; found ready it is complete, with its size; found failed it failed; else nothing changes. */
  lemma MonitorMeans(st: State, p: Pass)
    requires st.status.snapshots != []
    ensures var e, st' := st.status.snapshots[|st.status.snapshots| - 1], Monitor(st, p);
      var said := Lookup(st'.status.conditions, "SnapshotReady");
      if p.stamp - e.created > 10 * 60 then
        said == Some(Condition("SnapshotReady", "False", "SnapshotTimeout", 0, p.stamp)) && st'.status.snapshots == st.status.snapshots
      else if p.getOk && e.ref in st.volumes && st.volumes[e.ref].ready then
        said == Some(Condition("SnapshotReady", "True", "SnapshotComplete", 0, p.stamp)) && st'.status.snapshots == Sized(st.status.snapshots, st.volumes[e.ref].size)
      else if p.getOk && e.ref in st.volumes && st.volumes[e.ref].fault.Message? && st.volumes[e.ref].fault.text != "" then
        said == Some(Condition("SnapshotReady", "False", "SnapshotFailed", 0, p.stamp)) && st'.status.snapshots == st.status.snapshots
      else st' == st
  {
    var conditions := st.status.conditions;
    SetIsMapUpdate(conditions, Condition("SnapshotReady", "False", "SnapshotTimeout", 0, p.stamp), "SnapshotReady");
    SetIsMapUpdate(conditions, Condition("SnapshotReady", "False", "SnapshotFailed", 0, p.stamp), "SnapshotReady");
    SetIsMapUpdate(conditions, Condition("SnapshotReady", "True", "SnapshotComplete", 0, p.stamp), "SnapshotReady");
    var k := |st.status.snapshots| - 1;
    assert st.status.snapshots[k := st.status.snapshots[k]] == st.status.snapshots;
  }

  /** How soon a pass that watches asks to be repeated. */
  lemma MonitorDelayMeans(st: State, p: Pass)
    requires st.status.snapshots != []
    ensures var e := st.status.snapshots[|st.status.snapshots| - 1];
      MonitorDelay(st, p) ==
        if p.stamp - e.created > 10 * 60 || !p.getOk then 0
        else if e.ref !in st.volumes then 10
        else if !st.volumes[e.ref].ready && !(st.volumes[e.ref].fault.Message? && st.volumes[e.ref].fault.text != "") then 15
        else 0
  {
  }

  // --------------------------------------------------------------- one shot

  /** A one-shot schedule at most once taken, and with nothing listed before that. */
  ghost predicate OneShot(st: State) {
    |st.takes| <= 1 && (st.status.last == None <==> st.takes == []) && (st.takes == [] ==> st.status.snapshots == [])
  }

  lemma OneShotStep(parse: string -> Option<Next>, snap: string, st: State, p: Pass)
    requires p.spec.schedule == "" && OneShot(st)
    ensures var st' := DoPass(parse, snap, st, p);
      && OneShot(st')
      && (st'.takes == [] <==> st.takes == [] && !(p.serverOk && p.serverFound && Makes(snap, st, p)))
  {
    TakenIff(parse, snap, st, p);
    NothingListed(DoPass(parse, snap, st, p).status.snapshots);
  }

  lemma NothingListed(s: seq<Entry>)
    ensures Refs(s) == {} <==> s == []
  {
    if s != [] {
      assert s[0].ref in Refs(s);
    }
  }

  /** Event i is a pass that finds its server and can make the snapshot. */
  ghost predicate CanTake(parse: string -> Option<Next>, snap: string, events: seq<Event>, i: int)
    requires 0 <= i < |events|
  {
    events[i].Reconciled? && events[i].p.serverOk && events[i].p.serverFound && Makes(snap, Run(parse, snap, events[..i]), events[i].p)
  }

  ghost predicate NoneCanTake(parse: string -> Option<Next>, snap: string, events: seq<Event>) {
    forall i :: 0 <= i < |events| ==> !CanTake(parse, snap, events, i)
  }

  lemma NoneCanTakeSnoc(parse: string -> Option<Next>, snap: string, events: seq<Event>)
    requires events != []
    ensures var k := |events| - 1;
      NoneCanTake(parse, snap, events) <==> NoneCanTake(parse, snap, events[..k]) && !CanTake(parse, snap, events, k)
  {
    var k := |events| - 1;
    forall i | 0 <= i < k ensures CanTake(parse, snap, events[..k], i) <==> CanTake(parse, snap, events, i) {
      assert events[..k][..i] == events[..i];
    }
  }

  /** Without a schedule a run takes at most one snapshot, and takes it with the first pass that finds its server and can make it. */
  lemma {:induction false} OneShotTakesOnce(parse: string -> Option<Next>, snap: string, events: seq<Event>)
    requires OneSchedule(events, "")
    ensures OneShot(Run(parse, snap, events))
    ensures Run(parse, snap, events).takes == [] <==> NoneCanTake(parse, snap, events)
  {
    if events != [] {
      var k := |events| - 1;
      assert forall i :: 0 <= i < k ==> events[..k][i] == events[i];
      OneShotTakesOnce(parse, snap, events[..k]);
      NoneCanTakeSnoc(parse, snap, events);
      if events[k].Reconciled? {
        OneShotStep(parse, snap, Run(parse, snap, events[..k]), events[k].p);
      }
    }
  }
}

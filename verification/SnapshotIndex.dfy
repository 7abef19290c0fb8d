/** The status list as an index of the existing VolumeSnapshots. */
module SnapshotIndex {
  import opened Common
  import Decimal
  import opened SnapshotModel
  import opened SnapshotRetention
  import opened SnapshotRuns

  ghost predicate Ascending(s: seq<Entry>) {
    forall i, j :: 0 <= i < j < |s| ==> s[i].created < s[j].created && s[i].ref != s[j].ref
  }

  /** Names carry the second they were made in, none of them after `last`. */
  ghost predicate NamedBy(snap: string, ref: string, last: int) {
    exists stamp: nat :: stamp <= last && ref == VolumeName(snap, stamp)
  }

  /** In order of creation, no ref twice, nothing made after LastSnapshotAt. */
  ghost predicate Index(snap: string, s: seq<Entry>, last: Option<int>) {
    && Ascending(s)
    && (forall i :: 0 <= i < |s| ==> last.Some? && s[i].created <= last.value && NamedBy(snap, s[i].ref, last.value))
  }

  /** What a run may claim about the list and the VolumeSnapshots: that the listed exist, that the existing are listed. */
  datatype Claim = Claim(listedExist: bool, existingListed: bool)

  ghost predicate Indexed(snap: string, st: State, claim: Claim) {
    && Index(snap, st.status.snapshots, st.status.last)
    && (claim.listedExist ==> Refs(st.status.snapshots) <= st.volumes.Keys)
    && (claim.existingListed ==> st.volumes.Keys <= Refs(st.status.snapshots))
  }

  /** What each claim asks of a pass or of the others: deletions that succeed, and nobody deleting behind its back. */
  predicate Supports(e: Event, claim: Claim) {
    && (claim.existingListed && e.Reconciled? ==> e.p.failing == {})
    && (claim.listedExist ==> !e.Lost?)
  }

  lemma VolumeNameInjective(snap: string, a: nat, b: nat)
    requires VolumeName(snap, a) == VolumeName(snap, b)
    ensures a == b
  {
    var p := snap + "-";
    assert VolumeName(snap, a)[|p|..] == Decimal.Dec(a) && VolumeName(snap, b)[|p|..] == Decimal.Dec(b);
    Decimal.DecInjective(a, b);
  }

  /** The clock having moved past the last snapshot, the new name is on no list. */
  lemma NewNameIsNew(snap: string, s: seq<Entry>, last: Option<int>, stamp: nat, i: nat)
    requires Index(snap, s, last) && (last.Some? ==> last.value < stamp) && i < |s|
    ensures s[i].ref != VolumeName(snap, stamp)
  {
    assert NamedBy(snap, s[i].ref, last.value);
    var before: nat :| before <= last.value && s[i].ref == VolumeName(snap, before);
    if s[i].ref == VolumeName(snap, stamp) {
      VolumeNameInjective(snap, stamp, before);
    }
  }

  lemma StillNamed(snap: string, ref: string, last: int, later: int)
    requires NamedBy(snap, ref, last) && last <= later
    ensures NamedBy(snap, ref, later)
  {
    var stamp: nat :| stamp <= last && ref == VolumeName(snap, stamp);
    assert stamp <= later && ref == VolumeName(snap, stamp);
  }

  lemma AppendKeepsIndex(snap: string, s: seq<Entry>, last: Option<int>, stamp: nat, created: int, recorded: int)
    requires Index(snap, s, last)
    requires last.Some? ==> last.value < stamp
    requires stamp <= created <= recorded
    ensures Index(snap, s + [Entry(VolumeName(snap, stamp), created, 0)], Some(recorded))
  {
    var name := VolumeName(snap, stamp);
    var s' := s + [Entry(name, created, 0)];
    assert NamedBy(snap, name, recorded);
    forall i | 0 <= i < |s| ensures s'[i] == s[i] && s[i].ref != name && NamedBy(snap, s[i].ref, recorded) {
      NewNameIsNew(snap, s, last, stamp, i);
      StillNamed(snap, s[i].ref, last.value, recorded);
    }
  }

  lemma RefsSnoc(s: seq<Entry>, e: Entry)
    ensures Refs(s + [e]) == Refs(s) + {e.ref}
  {
    assert forall x :: x in s + [e] <==> x in s || x == e;
    assert e in s + [e];
  }

  lemma SuffixKeepsIndex(snap: string, s: seq<Entry>, last: Option<int>, k: nat)
    requires Index(snap, s, last) && k <= |s|
    ensures Index(snap, s[k..], last) && Refs(s[k..]) == Refs(s) - Refs(s[..k])
  {
    var head, tail := s[..k], s[k..];
    forall r | r in Refs(tail) ensures r in Refs(s) && r !in Refs(head) {
      var i :| 0 <= i < |tail| && tail[i].ref == r;
      assert s[k + i] in s;
    }
    forall r | r in Refs(s) && r !in Refs(head) ensures r in Refs(tail) {
      var e :| e in s && e.ref == r;
      assert s == head + tail;
      assert e in head || e in tail;
    }
    assert forall i :: 0 <= i < |tail| ==> tail[i] == s[k + i];
  }

  /** In a sorted list retention drops exactly the prefix it does not keep. */
  lemma DroppedIsPrefix(s: seq<Entry>, spec: Spec, now: int) returns (k: nat)
    requires SortedByTime(s)
    ensures k <= |s| && Kept(s, spec, now) == s[k..] && Dropped(s, spec, now) == s[..k]
  {
    var a := FindBoundary(s, Cutoff(spec, now));
    YoungIsSuffix(s, Cutoff(spec, now), a);
    var cut := Surplus(s[a..], spec.count);
    k := if Unlimited(spec) then 0 else a + cut;
    if !Unlimited(spec) {
      assert s[a..][cut..] == s[k..] && s[..a] + s[a..][..cut] == s[..k];
    }
  }

  lemma RetentionKeepsIndex(snap: string, st: State, p: Pass, claim: Claim)
    requires Indexed(snap, st, claim) && (claim.existingListed ==> p.failing == {})
    ensures Indexed(snap, EnforceRetention(st, p), claim)
  {
    var s := st.status.snapshots;
    var k := DroppedIsPrefix(s, p.spec, p.retained);
    SuffixKeepsIndex(snap, s, st.status.last, k);
    assert EnforceRetention(st, p).volumes.Keys == st.volumes.Keys - (Refs(s[..k]) - p.failing);
  }

  /** Noting a size changes neither order nor refs. */
  lemma SizeKeepsIndex(snap: string, s: seq<Entry>, last: Option<int>, e: Entry)
    requires Index(snap, s, last) && s != [] && e.ref == s[|s| - 1].ref && e.created == s[|s| - 1].created
    ensures Index(snap, s[|s| - 1 := e], last) && Refs(s[|s| - 1 := e]) == Refs(s)
  {
    var s' := s[|s| - 1 := e];
    forall r ensures r in Refs(s') <==> r in Refs(s) {
      if r in Refs(s) {
        var i :| 0 <= i < |s| && s[i].ref == r;
        assert s'[i] in s';
      }
      if r in Refs(s') {
        var i :| 0 <= i < |s'| && s'[i].ref == r;
        assert s[i] in s;
      }
    }
  }

  lemma CompleteKeepsIndex(snap: string, st: State, v: Volume, now: int, claim: Claim)
    requires Indexed(snap, st, claim) && st.status.snapshots != []
    ensures Indexed(snap, Complete(st, v, now), claim)
  {
    var s := st.status.snapshots;
    SizeKeepsIndex(snap, s, st.status.last, Complete(st, v, now).status.snapshots[|s| - 1]);
  }

  lemma LandingKeepsIndex(snap: string, st: State, p: Pass, claim: Claim)
    requires Indexed(snap, st, claim) && st.status.snapshots != [] && (claim.existingListed ==> p.failing == {})
    ensures Indexed(snap, Landing(st, p), claim)
  {
    if p.getOk && p.initial.ready {
      CompleteKeepsIndex(snap, st, p.initial, p.recorded, claim);
      RetentionKeepsIndex(snap, Complete(st, p.initial, p.recorded), p, claim);
    }
  }

  lemma ExecuteKeepsIndex(snap: string, st: State, p: Pass, claim: Claim)
    requires Indexed(snap, st, claim) && Timely(st, p) && (claim.existingListed ==> p.failing == {})
    requires st.status.last.Some? ==> st.status.last.value < p.now
    ensures Indexed(snap, Execute(snap, st, p), claim)
  {
    var saving, name := Saving(st, p), VolumeName(snap, p.stamp);
    if p.pvcOk && p.createOk && name !in st.volumes {
      AppendKeepsIndex(snap, st.status.snapshots, st.status.last, p.stamp, p.created, p.recorded);
      RefsSnoc(st.status.snapshots, Entry(name, p.created, 0));
      assert Recorded(saving, name, p).volumes.Keys == st.volumes.Keys + {name};
      LandingKeepsIndex(snap, Recorded(saving, name, p), p, claim);
    }
  }

  lemma DueMeansLater(parse: string -> Option<Next>, schedule: string, last: Option<int>, now: int)
    requires ValidParser(parse) && ShouldTake(parse, schedule, last, now).Take? && last.Some?
    ensures last.value < now
  {
    ParsedIsValid(parse, schedule);
  }

  lemma MonitorKeepsIndex(snap: string, st: State, p: Pass, claim: Claim)
    requires Indexed(snap, st, claim) && st.status.snapshots != []
    ensures Indexed(snap, Monitor(st, p), claim)
  {
    var ref := Latest(st.status).ref;
    if ref in st.volumes {
      CompleteKeepsIndex(snap, st, st.volumes[ref], p.stamp, claim);
    }
  }

  lemma StepKeepsIndex(parse: string -> Option<Next>, snap: string, st: State, e: Event, claim: Claim)
    requires ValidParser(parse) && Indexed(snap, st, claim) && Supports(e, claim)
    requires e.Reconciled? ==> Timely(st, e.p)
    ensures Indexed(snap, Apply(parse, snap, st, e), claim)
  {
    if e.Reconciled? {
      var p := e.p;
      if p.serverOk && p.serverFound && ShouldTake(parse, p.spec.schedule, st.status.last, p.now).Take? {
        if st.status.last.Some? {
          DueMeansLater(parse, p.spec.schedule, st.status.last, p.now);
        }
        if InProgress(st.status, p.checked) {
          MonitorKeepsIndex(snap, st, p, claim);
        } else {
          ExecuteKeepsIndex(snap, st, p, claim);
        }
      }
    } else if e.Reported? {
      assert Apply(parse, snap, st, e).volumes.Keys == st.volumes.Keys;
    }
  }

  /** Each claim holds in every run whose events support it; the order of the list needs no support at all. */
  lemma {:induction false} RunKeepsIndex(parse: string -> Option<Next>, snap: string, events: seq<Event>, claim: Claim)
    requires ValidParser(parse) && TimelyRun(parse, snap, events)
    requires forall i :: 0 <= i < |events| ==> Supports(events[i], claim)
    ensures Indexed(snap, Run(parse, snap, events), claim)
  {
    if events != [] {
      var k := |events| - 1;
      PrefixTimely(parse, snap, events);
      RunKeepsIndex(parse, snap, events[..k], claim);
      StepKeepsIndex(parse, snap, Run(parse, snap, events[..k]), events[k], claim);
    }
  }

  /** In every run, whatever fails and whoever deletes, the list is sorted by creation time and has distinct refs. */
  lemma ListIsAlwaysSorted(parse: string -> Option<Next>, snap: string, events: seq<Event>)
    requires ValidParser(parse) && TimelyRun(parse, snap, events)
    ensures Ascending(Run(parse, snap, events).status.snapshots)
  {
    RunKeepsIndex(parse, snap, events, Claim(false, false));
  }

  /** Unless somebody else deletes VolumeSnapshots, every listed one exists, even when deletions fail. */
  lemma ListedVolumesExist(parse: string -> Option<Next>, snap: string, events: seq<Event>)
    requires ValidParser(parse) && TimelyRun(parse, snap, events)
    requires forall i :: 0 <= i < |events| ==> !events[i].Lost?
    ensures Refs(Run(parse, snap, events).status.snapshots) <= Run(parse, snap, events).volumes.Keys
  {
    RunKeepsIndex(parse, snap, events, Claim(true, false));
  }

  /** If deletions succeed, every existing one is listed, whoever else deletes. */
  lemma ExistingVolumesAreListed(parse: string -> Option<Next>, snap: string, events: seq<Event>)
    requires ValidParser(parse) && TimelyRun(parse, snap, events)
    requires forall i :: 0 <= i < |events| && events[i].Reconciled? ==> events[i].p.failing == {}
    ensures Run(parse, snap, events).volumes.Keys <= Refs(Run(parse, snap, events).status.snapshots)
  {
    RunKeepsIndex(parse, snap, events, Claim(false, true));
  }

  /** With both, the status list is exactly the index of the VolumeSnapshots that exist. */
  lemma StatusIsAnIndex(parse: string -> Option<Next>, snap: string, events: seq<Event>)
    requires ValidParser(parse) && TimelyRun(parse, snap, events)
    requires forall i :: 0 <= i < |events| ==> !events[i].Lost? && (events[i].Reconciled? ==> events[i].p.failing == {})
    ensures var st := Run(parse, snap, events);
      Index(snap, st.status.snapshots, st.status.last) && Refs(st.status.snapshots) == st.volumes.Keys
  {
    RunKeepsIndex(parse, snap, events, Claim(true, true));
  }
}

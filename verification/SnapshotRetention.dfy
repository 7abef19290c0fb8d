/** Retention: which snapshots survive pruning, for any list and for the sorted lists the controller keeps. */
module SnapshotRetention {
  import opened Common
  import opened SnapshotModel

  ghost predicate SortedByTime(s: seq<Entry>) {
    forall i, j :: 0 <= i < j < |s| ==> s[i].created <= s[j].created
  }

  /** Made longer ago than the spec's duration, if that says anything. */
  predicate TooOld(e: Entry, spec: Spec, now: int) {
    spec.duration.Seconds? && now - e.created > spec.duration.s
  }

  /** Both limits hold of a list. */
  ghost predicate Within(s: seq<Entry>, spec: Spec, now: int) {
    && (forall i :: 0 <= i < |s| ==> !TooOld(s[i], spec, now))
    && (spec.count > 0 ==> |s| <= spec.count)
  }

  lemma SplitLast(s: seq<Entry>, k: nat)
    requires s != [] && k < |s|
    ensures s[..|s| - 1][k..] + [s[|s| - 1]] == s[k..]
    ensures s[..|s| - 1][..k] == s[..k]
    ensures s[..|s| - 1] + [s[|s| - 1]] == s
  {
  }

  /** In a sorted list the aged entries form a prefix of length k. */
  ghost predicate Boundary(s: seq<Entry>, cutoff: Option<int>, k: nat) {
    && k <= |s|
    && (forall i :: 0 <= i < k ==> Aged(s[i], cutoff))
    && (forall i :: k <= i < |s| ==> !Aged(s[i], cutoff))
  }

  lemma {:induction false} YoungIsSuffix(s: seq<Entry>, cutoff: Option<int>, k: nat)
    requires Boundary(s, cutoff, k)
    ensures Young(s, cutoff) == s[k..] && Old(s, cutoff) == s[..k]
  {
    if s != [] {
      var n := |s| - 1;
      YoungIsSuffix(s[..n], cutoff, Min(k, n));
      SplitLast(s, Min(k, n));
    }
  }

  lemma {:induction false} FindBoundary(s: seq<Entry>, cutoff: Option<int>) returns (k: nat)
    requires SortedByTime(s)
    ensures Boundary(s, cutoff, k)
  {
    k := 0;
    while k < |s| && Aged(s[k], cutoff)
      invariant k <= |s|
      invariant forall i :: 0 <= i < k ==> Aged(s[i], cutoff)
    {
      k := k + 1;
    }
    assert forall i :: k <= i < |s| ==> s[k].created <= s[i].created;
  }

  /** Retention keeps the longest suffix that satisfies both the age and the count limit. */
  lemma RetentionKeepsLongestSuffix(s: seq<Entry>, spec: Spec, now: int) returns (k: nat)
    requires SortedByTime(s)
    ensures k <= |s| && Kept(s, spec, now) == s[k..]
    ensures Within(s[k..], spec, now)
    ensures forall j :: 0 <= j < k ==> !Within(s[j..], spec, now)
  {
    var a := FindBoundary(s, Cutoff(spec, now));
    YoungIsSuffix(s, Cutoff(spec, now), a);
    var cut := Surplus(s[a..], spec.count);
    k := if Unlimited(spec) then 0 else a + cut;
    assert !Unlimited(spec) ==> s[a..][cut..] == s[k..];
    assert Unlimited(spec) ==> s[0..] == s;
    forall j | 0 <= j < k ensures !Within(s[j..], spec, now) {
      if j < a {
        assert Aged(s[j..][0], Cutoff(spec, now));
      }
    }
  }

  lemma {:induction false} YoungOldPartition(s: seq<Entry>, cutoff: Option<int>)
    ensures multiset(s) == multiset(Young(s, cutoff)) + multiset(Old(s, cutoff))
  {
    if s != [] {
      var init, last := s[..|s| - 1], s[|s| - 1];
      YoungOldPartition(init, cutoff);
      assert s == init + [last];
      var young, old' := Young(init, cutoff), Old(init, cutoff);
      PartitionSnoc(init, young, old', last);
      if Aged(last, cutoff) {
        assert Young(s, cutoff) == young && Old(s, cutoff) == old' + [last];
      } else {
        assert Young(s, cutoff) == young + [last] && Old(s, cutoff) == old';
      }
    }
  }

  lemma PartitionSnoc(s: seq<Entry>, a: seq<Entry>, b: seq<Entry>, x: Entry)
    requires multiset(s) == multiset(a) + multiset(b)
    ensures multiset(s + [x]) == multiset(a + [x]) + multiset(b)
    ensures multiset(s + [x]) == multiset(a) + multiset(b + [x])
  {
  }

  /** Every entry is either kept or dropped, none twice, whatever the order of the list. */
  lemma RetentionPartitions(s: seq<Entry>, spec: Spec, now: int)
    ensures multiset(s) == multiset(Kept(s, spec, now)) + multiset(Dropped(s, spec, now))
  {
    if !Unlimited(spec) {
      var young := Young(s, Cutoff(spec, now));
      YoungOldPartition(s, Cutoff(spec, now));
      var cut := Surplus(young, spec.count);
      assert young == young[..cut] + young[cut..];
    }
  }

  lemma {:induction false} YoungOfYoung(s: seq<Entry>, cutoff: Option<int>)
    requires forall i :: 0 <= i < |s| ==> !Aged(s[i], cutoff)
    ensures Young(s, cutoff) == s && Old(s, cutoff) == []
  {
    if s != [] {
      YoungOfYoung(s[..|s| - 1], cutoff);
    }
  }

  lemma {:induction false} YoungAreYoung(s: seq<Entry>, cutoff: Option<int>)
    ensures forall i :: 0 <= i < |Young(s, cutoff)| ==> !Aged(Young(s, cutoff)[i], cutoff)
  {
    if s != [] {
      YoungAreYoung(s[..|s| - 1], cutoff);
    }
  }

  /** Pruning twice at one instant is pruning once. */
  lemma RetentionIdempotent(s: seq<Entry>, spec: Spec, now: int)
    ensures Kept(Kept(s, spec, now), spec, now) == Kept(s, spec, now)
    ensures Dropped(Kept(s, spec, now), spec, now) == []
  {
    if !Unlimited(spec) {
      YoungAreYoung(s, Cutoff(spec, now));
      YoungOfYoung(Kept(s, spec, now), Cutoff(spec, now));
    }
  }

  /** The newest snapshot is dropped only if it is itself past the age limit, and then nothing is kept. */
  lemma NewestSurvives(s: seq<Entry>, spec: Spec, now: int)
    requires SortedByTime(s) && s != []
    ensures Kept(s, spec, now) == [] <==> TooOld(s[|s| - 1], spec, now)
    ensures Kept(s, spec, now) != [] ==> Kept(s, spec, now)[|Kept(s, spec, now)| - 1] == s[|s| - 1]
  {
    var k := RetentionKeepsLongestSuffix(s, spec, now);
    if k == |s| {
      assert !Within(s[|s| - 1..], spec, now);
    }
    if k < |s| {
      assert s[k..][|s| - k - 1] == s[|s| - 1];
    }
  }

  /** The partition loop and the count cut of enforceRetention. */
  method Prune(s: seq<Entry>, spec: Spec, now: int) returns (keep: seq<Entry>, drop: seq<Entry>)
    ensures keep == Kept(s, spec, now) && drop == Dropped(s, spec, now)
  {
    if spec.count <= 0 && spec.duration.Unset? {
      return s, [];
    }
    var cutoff := None;
    if spec.duration.Seconds? {
      cutoff := Some(now - spec.duration.s);
    }
    keep, drop := [], [];
    for i := 0 to |s|
      invariant keep == Young(s[..i], cutoff) && drop == Old(s[..i], cutoff)
    {
      assert s[..i + 1][..i] == s[..i];
      if cutoff.Some? && s[i].created < cutoff.value {
        drop := drop + [s[i]];
      } else {
        keep := keep + [s[i]];
      }
    }
    assert s[..|s|] == s;
    if spec.count > 0 && |keep| > spec.count {
      drop := drop + keep[..|keep| - spec.count];
      keep := keep[|keep| - spec.count..];
    }
  }
}

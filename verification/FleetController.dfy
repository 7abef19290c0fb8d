/** The fleet reconciler's code, statement by statement, against the transition relation. */
module FleetController {
  import opened Common
  import opened Sorting
  import opened Conditions
  import opened FleetModel
  import opened FleetSelection
  import opened FleetScaleUp

  datatype FleetStatus = FleetStatus(replicas: int, ready: int, updated: int, conditions: seq<Condition>)

  /** What List with the fleet label returns: each member once, as stored, in no particular order. */
  ghost predicate Listing(items: seq<GameServer>, st: Store, f: Fleet) {
    && DistinctNames(items)
    && NamesOf(items) == Members(st, f)
    && forall i :: 0 <= i < |items| ==> items[i].name in st && st[items[i].name] == items[i]
  }

  ghost predicate IsSortOf(sorted: seq<GameServer>, items: seq<GameServer>) {
    multiset(sorted) == multiset(items) && Ordered(sorted, Before)
  }

  lemma ArrangementKeepsItems(items: seq<GameServer>, sorted: seq<GameServer>)
    requires multiset(sorted) == multiset(items) && DistinctNames(items)
    ensures SameServers(sorted, items) && NamesOf(sorted) == NamesOf(items) && DistinctNames(sorted)
    ensures forall i :: 0 <= i < |sorted| ==> sorted[i] in items
  {
    assert |sorted| == |multiset(sorted)| == |items|;
    assert forall x :: x in sorted <==> x in multiset(sorted);
    assert forall x :: x in items <==> x in multiset(items);
    NamesOfSame(items, sorted);
    DistinctByCount(items, sorted);
  }

  lemma NamesOfSame(s: seq<GameServer>, t: seq<GameServer>)
    requires forall x :: x in s <==> x in t
    ensures NamesOf(s) == NamesOf(t)
  {
    forall n | n in NamesOf(s) ensures n in NamesOf(t) {
      var i :| 0 <= i < |s| && s[i].name == n;
      assert s[i] in t;
    }
    forall n | n in NamesOf(t) ensures n in NamesOf(s) {
      var i :| 0 <= i < |t| && t[i].name == n;
      assert t[i] in s;
    }
  }

  /** A list with as many names as elements repeats no name. */
  lemma DistinctByCount(s: seq<GameServer>, t: seq<GameServer>)
    requires DistinctNames(s) && |s| == |t| && NamesOf(s) == NamesOf(t)
    ensures DistinctNames(t)
  {
    NamesCardinality(s);
    forall i, j | 0 <= i < j < |t| ensures t[i].name != t[j].name {
      if t[i].name == t[j].name {
        var rest := t[..j] + t[j + 1..];
        NamesBound(rest);
        assert NamesOf(t) <= NamesOf(rest) by {
          forall n | n in NamesOf(t) ensures n in NamesOf(rest) {
            var k :| 0 <= k < |t| && t[k].name == n;
            var k' := if k < j then k else if k == j then i else k - 1;
            assert rest[k'].name == n;
          }
        }
        SubsetCardinality(NamesOf(t), NamesOf(rest));
      }
    }
  }

  lemma {:induction false} NamesBound(s: seq<GameServer>)
    ensures |NamesOf(s)| <= |s|
  {
    if s != [] {
      var k := |s| - 1;
      NamesBound(s[..k]);
      assert NamesOf(s) <= NamesOf(s[..k]) + {s[k].name} by {
        forall n | n in NamesOf(s) ensures n in NamesOf(s[..k]) + {s[k].name} {
          var i :| 0 <= i < |s| && s[i].name == n;
          if i < k { assert s[..k][i].name == n; }
        }
      }
      SubsetCardinality(NamesOf(s), NamesOf(s[..k]) + {s[k].name});
    }
  }

  /** The head of a sorted listing goes before its rest, and in order. */
  lemma HeadIsDeletedFirst(items: seq<GameServer>, sorted: seq<GameServer>, k: nat)
    requires DistinctNames(items) && IsSortOf(sorted, items) && k <= |sorted|
    ensures DistinctNames(sorted[..k]) && forall x :: x in sorted[..k] ==> x in items
    ensures forall x, y :: x in sorted[..k] && y in items && y !in sorted[..k] ==> DeletedFirst(x, y)
    ensures forall i, j :: 0 <= i < j < k ==> DeletedFirst(sorted[i], sorted[j])
  {
    ArrangementKeepsItems(items, sorted);
    SortedGoBefore(sorted);
    forall i, j | 0 <= i < j < |sorted| ensures DeletedFirst(sorted[i], sorted[j]) {
      BeforeMeans(sorted[i], sorted[j]);
    }
    assert forall j :: 0 <= j < k ==> sorted[j] in sorted[..k];
    forall x, y | x in sorted[..k] && y in items && y !in sorted[..k] ensures DeletedFirst(x, y) {
      var i :| 0 <= i < k && sorted[i] == x;
      assert y in sorted;
      var j :| 0 <= j < |sorted| && sorted[j] == y;
    }
  }

  /**
   Victim selection: a copy of the listing is sorted and its head is cut off.  The result is the
   head of every correct sort of the listing, so neither the sort nor the listing order shows.
   */
  method SelectServersToDelete(items: seq<GameServer>, desired: int, strategy: string) returns (chosen: seq<GameServer>)
    requires DistinctNames(items) && |items| <= INT32_MAX && 0 <= desired <= INT32_MAX
    ensures strategy == "OnDelete" ==> chosen == []
    ensures strategy != "OnDelete" ==>
      && |chosen| == Max(0, |items| - desired)
      && exists sorted :: IsSortOf(sorted, items) && |chosen| <= |sorted| && chosen == sorted[..|chosen|]
    ensures forall sorted :: IsSortOf(sorted, items) ==> |chosen| <= |sorted| && chosen == sorted[..|chosen|]
    ensures DistinctNames(chosen) && forall x :: x in chosen ==> x in items
    ensures forall x, y :: x in chosen && y in items && y !in chosen ==> DeletedFirst(x, y)
    ensures forall i, j :: 0 <= i < j < |chosen| ==> DeletedFirst(chosen[i], chosen[j])
  {
    if strategy == "OnDelete" {
      return [];
    }
    var a := new GameServer[|items|](i requires 0 <= i < |items| => items[i]);
    assert a[..] == items;
    BeforeIsStrictWeak();
    SortSlice(a, Before);
    ghost var result := a[..];
    assert IsSortOf(result, items);
    ArrangementKeepsItems(items, result);
    forall sorted | IsSortOf(sorted, items) ensures sorted == result {
      ArrangementKeepsItems(items, sorted);
      SortedUnique(result, sorted);
    }
    var excess := ToInt32(a.Length - desired);
    if excess <= 0 {
      return [];
    }
    HeadIsDeletedFirst(items, result, excess);
    return a[..excess];
  }

  /** Listings of the same servers in different orders lead to the same victims, in the same order. */
  lemma SelectionIgnoresListingOrder(items: seq<GameServer>, items': seq<GameServer>, k: nat, sorted: seq<GameServer>, sorted': seq<GameServer>)
    requires DistinctNames(items) && multiset(items) == multiset(items')
    requires IsSortOf(sorted, items) && IsSortOf(sorted', items') && k <= |items|
    ensures |sorted| == |sorted'| == |items| && sorted[..k] == sorted'[..k]
  {
    ArrangementKeepsItems(items, sorted);
    ArrangementKeepsItems(items, sorted');
    SortedUnique(sorted, sorted');
  }

  // ------------------------------------------------------------- helper facts

  lemma CreateAllSnoc(st: Store, servers: seq<GameServer>, s: GameServer)
    ensures CreateAll(st, servers + [s]) == CreateAll(st, servers)[s.name := s]
  {
    assert (servers + [s])[..|servers|] == servers;
  }

  lemma BuiltSnoc(f: Fleet, from: nat, i: nat, now: int)
    requires ValidFleet(f) && from <= i
    ensures Built(f, from, i + 1, now) == Built(f, from, i, now) + [BuildGameServer(f, i, now)]
  {
  }

  /** A listing of part of the store: the servers of the given names. */
  ghost predicate PartialListing(items: seq<GameServer>, st: Store, names: set<string>) {
    && DistinctNames(items)
    && NamesOf(items) == names
    && forall i :: 0 <= i < |items| ==> items[i].name in st && st[items[i].name] == items[i]
  }

  lemma PartialListingSnoc(items: seq<GameServer>, st: Store, names: set<string>, n: string)
    requires PartialListing(items, st, names) && n in st && st[n].name == n && n !in names
    ensures PartialListing(items + [st[n]], st, names + {n})
  {
    var more := items + [st[n]];
    NamesSnoc(more, |items|);
    assert more[..|items|] == items && more[..|items| + 1] == more;
    assert forall i :: 0 <= i < |items| ==> items[i].name in NamesOf(items);
  }

  lemma DeleteAllSnoc(st: Store, d: set<string>, n: string)
    requires n !in d
    ensures DeleteOne(DeleteAll(st, d), n) == DeleteAll(st, d + {n})
  {
  }

  lemma DeleteAllNone(st: Store)
    ensures DeleteAll(st, {}) == st
  {
  }

  lemma NamesSnoc(items: seq<GameServer>, i: nat)
    requires i < |items|
    ensures NamesOf(items[..i + 1]) == NamesOf(items[..i]) + {items[i].name}
  {
    assert items[..i + 1] == items[..i] + [items[i]];
    forall n | n in NamesOf(items[..i + 1]) ensures n in NamesOf(items[..i]) + {items[i].name} {
      var j :| 0 <= j < i + 1 && items[..i + 1][j].name == n;
      if j < i { assert items[..i][j].name == n; }
    }
    forall n | n in NamesOf(items[..i]) ensures n in NamesOf(items[..i + 1]) {
      var j :| 0 <= j < i && items[..i][j].name == n;
      assert items[..i + 1][j].name == n;
    }
    assert items[..i + 1][i].name == items[i].name;
  }

  lemma NamesOfDistinctPrefix(items: seq<GameServer>, i: nat)
    requires DistinctNames(items) && i < |items|
    ensures items[i].name !in NamesOf(items[..i])
  {
  }

  /** The chosen head of a sorted listing is the relation's notion of victims, prefix by prefix. */
  lemma ChosenAreVictims(st: Store, f: Fleet, items: seq<GameServer>, sorted: seq<GameServer>, k: nat)
    requires ValidFleet(f) && Strategy(f) != "OnDelete"
    requires Listing(items, st, f) && IsSortOf(sorted, items) && |items| > f.replicas
    requires k <= |items| - f.replicas
    ensures k <= |sorted|
    ensures |NamesOf(sorted[..k])| == k && PartialVictims(st, f, NamesOf(sorted[..k]))
    ensures IsVictims(st, f, NamesOf(sorted[..k])) <==> k == |items| - f.replicas
  {
    ArrangementKeepsItems(items, sorted);
    NamesCardinality(items);
    SortedPrefixIsSelection(st, sorted, k);
  }

  /** The listed servers that do not carry the fleet's generation, in listing order. */
  function Stale(items: seq<GameServer>, f: Fleet): (r: seq<GameServer>)
    ensures |r| <= |items|
    ensures forall i :: 0 <= i < |r| ==> r[i] in items && Outdated(r[i], f)
    ensures forall x :: x in items && Outdated(x, f) ==> x in r
  {
    if items == [] then []
    else
      var k := |items| - 1;
      Stale(items[..k], f) + (if Outdated(items[k], f) then [items[k]] else [])
  }

  lemma {:induction false} StaleDistinct(items: seq<GameServer>, f: Fleet)
    requires DistinctNames(items)
    ensures DistinctNames(Stale(items, f))
  {
    if items != [] {
      var k := |items| - 1;
      StaleDistinct(items[..k], f);
      assert forall i :: 0 <= i < |Stale(items[..k], f)| ==> Stale(items[..k], f)[i] in items[..k];
    }
  }

  lemma StaleNames(items: seq<GameServer>, st: Store, f: Fleet)
    requires Listing(items, st, f)
    ensures NamesOf(Stale(items, f)) == OutdatedNames(st, f)
  {
    var r := Stale(items, f);
    forall n | n in NamesOf(r) ensures n in OutdatedNames(st, f) {
      var i :| 0 <= i < |r| && r[i].name == n;
      var j :| 0 <= j < |items| && items[j] == r[i];
      assert items[j].name in NamesOf(items);
    }
    forall n | n in OutdatedNames(st, f) ensures n in NamesOf(r) {
      assert n in NamesOf(items);
      var j :| 0 <= j < |items| && items[j].name == n;
      var i :| 0 <= i < |r| && r[i] == items[j];
      assert r[i].name in NamesOf(r);
    }
  }

  /** Nothing left behind by a cut of a sorted listing comes earlier than anything cut off. */
  lemma CutRespectsOrder(sorted: seq<GameServer>, st: Store, k: nat)
    requires Ordered(sorted, Earlier) && k <= |sorted|
    requires PartialListing(sorted, st, NamesOf(sorted))
    ensures forall a, b :: a in NamesOf(sorted[..k]) && b in NamesOf(sorted) - NamesOf(sorted[..k]) ==>
              a in st && b in st && !Earlier(st[b], st[a])
  {
    var u := NamesOf(sorted[..k]);
    assert forall j :: 0 <= j < k ==> sorted[..k][j].name in u;
    forall a, b | a in u && b in NamesOf(sorted) - u ensures a in st && b in st && !Earlier(st[b], st[a]) {
      var i :| 0 <= i < k && sorted[..k][i].name == a;
      var j :| 0 <= j < |sorted| && sorted[j].name == b;
      assert sorted[i].name == a;
    }
  }

  lemma BacklogListing(items: seq<GameServer>, sorted: seq<GameServer>, st: Store, f: Fleet)
    requires Listing(items, st, f) && multiset(sorted) == multiset(Stale(items, f))
    ensures PartialListing(sorted, st, OutdatedNames(st, f)) && |sorted| == |OutdatedNames(st, f)|
  {
    StaleDistinct(items, f);
    StaleNames(items, st, f);
    ArrangementKeepsItems(Stale(items, f), sorted);
    NamesCardinality(sorted);
  }

  /** The head of the sorted backlog is a batch in the relation's sense. */
  lemma HeadIsBatch(items: seq<GameServer>, sorted: seq<GameServer>, st: Store, f: Fleet)
    requires Listing(items, st, f)
    requires multiset(sorted) == multiset(Stale(items, f)) && Ordered(sorted, Earlier)
    ensures PartialListing(sorted, st, OutdatedNames(st, f)) && |sorted| == |OutdatedNames(st, f)|
    ensures IsBatch(st, f, NamesOf(sorted[..Batch(f, |sorted|)]))
  {
    BacklogListing(items, sorted, st, f);
    var k := Batch(f, |sorted|);
    PrefixNames(sorted, k);
    NamesCardinality(sorted[..k]);
    CutRespectsOrder(sorted, st, k);
  }

  lemma PlannedBatch(items: seq<GameServer>, sorted: seq<GameServer>, st: Store, f: Fleet, k: nat)
    requires Listing(items, st, f)
    requires multiset(sorted) == multiset(Stale(items, f)) && Ordered(sorted, Earlier)
    requires k <= |sorted| && k == Batch(f, |sorted|)
    ensures PartialListing(sorted, st, NamesOf(sorted)) && IsBatch(st, f, NamesOf(sorted[..k]))
  {
    HeadIsBatch(items, sorted, st, f);
  }

  lemma UpdateAllNone(listed: Store, st: Store, f: Fleet)
    requires ValidFleet(f)
    ensures UpdateAll(listed, st, f, {}) == st
  {
  }

  lemma UpdateAllSnoc(listed: Store, st: Store, f: Fleet, u: set<string>, n: string)
    requires ValidFleet(f) && n !in u && n in listed
    ensures var cur := UpdateAll(listed, st, f, u);
      UpdateAll(listed, st, f, u + {n}) ==
        if n in cur && cur[n] == listed[n] then cur[n := UpdateFromTemplate(listed[n], f)] else cur
  {
  }

  function Running(items: seq<GameServer>): nat {
    if items == [] then 0
    else Running(items[..|items| - 1]) + if items[|items| - 1].state == "Running" then 1 else 0
  }

  lemma CountStep(items: seq<GameServer>, f: Fleet, i: nat)
    requires i < |items|
    ensures Running(items[..i + 1]) == Running(items[..i]) + (if items[i].state == "Running" then 1 else 0)
    ensures |Stale(items[..i + 1], f)| == |Stale(items[..i], f)| + (if Outdated(items[i], f) then 1 else 0)
  {
    assert items[..i + 1][..i] == items[..i];
  }

  /** Where in the listing the running servers are. */
  function RunningAt(items: seq<GameServer>): set<int> {
    set i | 0 <= i < |items| && items[i].state == "Running"
  }

  lemma RunningAtSnoc(items: seq<GameServer>)
    requires items != []
    ensures var k := |items| - 1;
      RunningAt(items) == RunningAt(items[..k]) + (if items[k].state == "Running" then {k} else {}) && k !in RunningAt(items[..k])
  {
  }

  lemma {:induction false} RunningCounts(items: seq<GameServer>)
    ensures Running(items) == |RunningAt(items)|
  {
    if items != [] {
      RunningCounts(items[..|items| - 1]);
      RunningAtSnoc(items);
    }
  }

  /** Ready is reported exactly for a fleet of the right size without outdated servers. */
  ghost predicate ReportsReady(s: FleetStatus) {
    IsTrue(s.conditions, "Ready")
  }

  /** How the calls of a pass turn out: the listing, the index whose creation fails, the position of the deletion that fails, the updates refused. */
  datatype Calls = Calls(listOk: bool, createFailAt: nat, deleteFailAt: nat, refused: set<string>)

  /** No call that ends the pass fails: the names it needs are free, and its creations or deletions all succeed. */
  ghost predicate Completes(f: Fleet, st: Store, calls: Calls)
    requires ValidFleet(f)
  {
    var current := |Members(st, f)|;
    && calls.listOk
    && FreeNames(st, f, current, f.replicas)
    && !(current <= calls.createFailAt < f.replicas)
    && (current > f.replicas ==> Strategy(f) == "OnDelete" || calls.deleteFailAt >= Excess(st, f))
  }

  /** A pass that has scaled without a failing call and has yet to roll out. */
  ghost predicate Scaled(f: Fleet, st: Store, o: Outcome, st': Store)
    requires ValidFleet(f)
  {
    var current := |Members(st, f)|;
    if current < f.replicas then
      && o.deleted == {} && current + o.created == f.replicas == FirstTaken(st, f, current, f.replicas)
      && st' == CreateAll(st, Built(f, current, current + o.created, o.now))
    else if current > f.replicas then o.created == 0 && IsVictims(st, f, o.deleted) && st' == DeleteAll(st, o.deleted)
    else o.created == 0 && o.deleted == {} && st' == st
  }

  /** Rolling out after scaling completes a pass. */
  lemma ScaledThenRolled(f: Fleet, st: Store, o: Outcome, mid: Store, st': Store)
    requires ValidFleet(f) && Scaled(f, st, o, mid) && Rolling(st, mid, f, o, st')
    ensures PassStep(f, st, o, st')
  {
    if |Members(st, f)| < f.replicas {
      assert GrowStep(f, st, o, st');
    } else if |Members(st, f)| > f.replicas {
      VictimsArePartial(st, f, o.deleted);
      assert ShrinkStep(f, st, o, st');
    }
  }

  lemma VictimsArePartial(st: Store, f: Fleet, d: set<string>)
    requires IsVictims(st, f, d)
    ensures PartialVictims(st, f, d)
  {
  }

  /** Which servers a pass goes on to update makes no difference to what it has scaled. */
  lemma ScaledFrame(f: Fleet, st: Store, o: Outcome, mid: Store, updated: set<string>)
    requires ValidFleet(f) && Scaled(f, st, o, mid)
    ensures Scaled(f, st, o.(updated := updated), mid)
  {
  }

  /** st with the servers of the indices [from, i) created. */
  ghost predicate Grown(grown: Store, st: Store, f: Fleet, from: nat, i: nat, now: int)
    requires ValidFleet(f) && from <= i
  {
    grown == CreateAll(st, Built(f, from, i, now))
  }

  lemma GrowOne(grown: Store, st: Store, f: Fleet, from: nat, i: nat, now: int)
    requires ValidFleet(f) && from <= i && Grown(grown, st, f, from, i, now)
    ensures Grown(grown[ServerName(f, i) := BuildGameServer(f, i, now)], st, f, from, i + 1, now)
    ensures ServerName(f, i) in grown <==> ServerName(f, i) in st
  {
    BuiltNames(st, f, from, i, now, i);
    BuiltSnoc(f, from, i, now);
    CreateAllSnoc(st, Built(f, from, i, now), BuildGameServer(f, i, now));
  }

  lemma CountsOfListing(items: seq<GameServer>, st: Store, f: Fleet)
    requires Listing(items, st, f)
    ensures |items| == |Members(st, f)| && |Stale(items, f)| == |OutdatedNames(st, f)|
    ensures Stale(items, f) == [] <==> OutdatedNames(st, f) == {}
  {
    NamesCardinality(items);
    StaleNames(items, st, f);
    StaleDistinct(items, f);
    NamesCardinality(Stale(items, f));
  }

  /** The names of the indices [from, end) are all free. */
  ghost predicate FreeNames(st: Store, f: Fleet, from: nat, end: int) {
    forall j :: from <= j < end ==> ServerName(f, j) !in st
  }

  /** An index with only free names below it is no further than the first taken one. */
  lemma FirstTakenBound(st: Store, f: Fleet, from: nat, end: nat, k: nat)
    requires from <= k <= end
    requires FreeNames(st, f, from, k)
    ensures k <= FirstTaken(st, f, from, end)
    decreases end - from
  {
    if from < k {
      FirstTakenBound(st, f, from + 1, end, k);
    }
  }

  // ----------------------------------------------------------- the reconciler

  class Reconciler {
    var servers: Store
    var status: FleetStatus

    constructor (servers: Store)
      ensures this.servers == servers
    {
      this.servers := servers;
      this.status := FleetStatus(0, 0, 0, []);
    }

    method List(f: Fleet) returns (items: seq<GameServer>)
      requires ValidStore(servers)
      ensures Listing(items, servers, f)
      ensures |items| <= INT32_MAX
    {
      items := [];
      var todo := Members(servers, f);
      while todo != {}
        invariant todo <= Members(servers, f)
        invariant PartialListing(items, servers, Members(servers, f) - todo)
        decreases todo
      {
        var n :| n in todo;
        PartialListingSnoc(items, servers, Members(servers, f) - todo, n);
        assert Members(servers, f) - todo + {n} == Members(servers, f) - (todo - {n});
        items := items + [servers[n]];
        todo := todo - {n};
      }
      assert Members(servers, f) - todo == Members(servers, f);
      NamesCardinality(items);
      SubsetCardinality(Members(servers, f), servers.Keys);
    }

    /** Create missing servers from the current count on; a taken name, or a failing call for index failAt, ends the pass. */
    method ScaleUp(f: Fleet, current: nat, now: int, failAt: nat) returns (next: nat)
      requires ValidFleet(f) && current <= f.replicas
      modifies this`servers
      ensures current <= next <= f.replicas
      ensures FreeNames(old(servers), f, current, next)
      ensures !(current <= failAt < next)
      ensures next < f.replicas ==> ServerName(f, next) in old(servers) || next == failAt
      ensures Grown(servers, old(servers), f, current, next, now)
    {
      for i := current to f.replicas
        invariant Grown(servers, old(servers), f, current, i, now)
        invariant FreeNames(old(servers), f, current, i)
        invariant !(current <= failAt < i)
      {
        GrowOne(servers, old(servers), f, current, i, now);
        var ok := CreateServer(f, i, now, i != failAt);
        if !ok {
          return i;
        }
      }
      return f.replicas;
    }

    /** One Create call, which works unless the name is taken or the API server fails. */
    method CreateServer(f: Fleet, index: nat, now: int, callOk: bool) returns (ok: bool)
      requires ValidFleet(f)
      modifies this`servers
      ensures ok == (callOk && ServerName(f, index) !in old(servers))
      ensures servers == if ok then old(servers)[ServerName(f, index) := BuildGameServer(f, index, now)] else old(servers)
    {
      var server := BuildGameServer(f, index, now);
      if !callOk || server.name in servers {
        return false;
      }
      servers := servers[server.name := server];
      return true;
    }

    /** Delete the excess in selection order; the call at position failAt, if reached, fails. */
    method ScaleDown(f: Fleet, items: seq<GameServer>, failAt: nat) returns (ok: bool, ghost deleted: set<string>)
      requires ValidFleet(f) && Listing(items, servers, f) && f.replicas < |items| <= INT32_MAX
      modifies this`servers
      ensures PartialVictims(old(servers), f, deleted)
      ensures servers == DeleteAll(old(servers), deleted)
      ensures ok == IsVictims(old(servers), f, deleted)
      ensures ok <==> Strategy(f) == "OnDelete" || failAt >= |items| - f.replicas
    {
      var chosen := SelectServersToDelete(items, f.replicas, Strategy(f));
      if Strategy(f) == "OnDelete" {
        DeleteAllNone(servers);
        return true, {};
      }
      ghost var sorted :| IsSortOf(sorted, items) && |chosen| <= |sorted| && chosen == sorted[..|chosen|];
      ArrangementKeepsItems(items, sorted);
      var done := DeleteInOrder(chosen, failAt);
      assert chosen[..done] == sorted[..done];
      ChosenAreVictims(old(servers), f, items, sorted, done);
      return done == |chosen|, NamesOf(chosen[..done]);
    }

    /** How many of the chosen servers were deleted before a call failed. */
    method DeleteInOrder(chosen: seq<GameServer>, failAt: nat) returns (done: nat)
      requires DistinctNames(chosen)
      modifies this`servers
      ensures done == Min(failAt, |chosen|)
      ensures servers == DeleteAll(old(servers), NamesOf(chosen[..done]))
    {
      DeleteAllNone(servers);
      assert NamesOf(chosen[..0]) == {};
      for i := 0 to |chosen|
        invariant i <= failAt
        invariant servers == DeleteAll(old(servers), NamesOf(chosen[..i]))
      {
        if i == failAt {
          return i;
        }
        NamesOfDistinctPrefix(chosen, i);
        NamesSnoc(chosen, i);
        DeleteAllSnoc(old(servers), NamesOf(chosen[..i]), chosen[i].name);
        servers := DeleteOne(servers, chosen[i].name);
      }
      return |chosen|;
    }

    method FindStale(f: Fleet, items: seq<GameServer>) returns (updating: nat, stale: seq<GameServer>)
      ensures stale == Stale(items, f) && updating == |stale|
    {
      updating, stale := 0, [];
      for i := 0 to |items|
        invariant stale == Stale(items[..i], f) && updating == |stale|
      {
        assert items[..i + 1][..i] == items[..i];
        if Outdated(items[i], f) {
          updating := updating + 1;
          stale := stale + [items[i]];
        }
      }
      assert items[..|items|] == items;
    }

    method SortForUpdate(stale: seq<GameServer>) returns (sorted: seq<GameServer>)
      ensures multiset(sorted) == multiset(stale) && |sorted| == |stale|
      ensures Ordered(sorted, Earlier)
    {
      var a := new GameServer[|stale|](i requires 0 <= i < |stale| => stale[i]);
      assert a[..] == stale;
      EarlierIsStrictWeak();
      SortSlice(a, Earlier);
      sorted := a[..];
    }

    /** Bring the first few outdated servers up to the template, as the budget allows; some updates may be refused. */
    method HandleRollingUpdate(f: Fleet, items: seq<GameServer>, ghost listed: Store, refused: set<string>) returns (ghost updated: set<string>)
      requires ValidFleet(f) && Listing(items, listed, f) && |items| <= INT32_MAX
      modifies this`servers
      ensures IsBatch(listed, f, updated)
      ensures servers == UpdateAll(listed, old(servers), f, updated - refused)
    {
      var updating, stale := FindStale(f, items);
      var sorted := SortForUpdate(stale);
      var slots := ToInt32(MaxUnavailable(f) - updating);
      var k := Min(Max(0, slots), |sorted|);
      PlannedBatch(items, sorted, listed, f, k);
      updated := UpdateHead(f, sorted, k, listed, refused);
    }

    method UpdateHead(f: Fleet, sorted: seq<GameServer>, k: nat, ghost listed: Store, refused: set<string>) returns (ghost updated: set<string>)
      requires ValidFleet(f) && k <= |sorted| && PartialListing(sorted, listed, NamesOf(sorted))
      modifies this`servers
      ensures updated == NamesOf(sorted[..k])
      ensures servers == UpdateAll(listed, old(servers), f, updated - refused)
    {
      updated := {};
      UpdateAllNone(listed, servers, f);
      assert NamesOf(sorted[..0]) == {} && {} - refused == {};
      for i := 0 to k
        invariant updated == NamesOf(sorted[..i])
        invariant servers == UpdateAll(listed, old(servers), f, updated - refused)
      {
        var server := sorted[i];
        NamesOfDistinctPrefix(sorted, i);
        NamesSnoc(sorted, i);
        UpdateAllSnoc(listed, old(servers), f, updated - refused, server.name);
        assert updated + {server.name} - refused == if server.name in refused then updated - refused else updated - refused + {server.name};
        if server.name !in refused && server.name in servers && servers[server.name] == server {
          servers := servers[server.name := UpdateFromTemplate(server, f)];
        }
        updated := updated + {server.name};
      }
    }

    method CountServers(f: Fleet, items: seq<GameServer>) returns (ready: nat, upToDate: nat)
      ensures upToDate == |items| - |Stale(items, f)| && ready == Running(items)
    {
      ready, upToDate := 0, 0;
      for i := 0 to |items|
        invariant upToDate == i - |Stale(items[..i], f)| && ready == Running(items[..i])
      {
        CountStep(items, f, i);
        if items[i].state == "Running" {
          ready := ready + 1;
        }
        if !Outdated(items[i], f) {
          upToDate := upToDate + 1;
        }
      }
      assert items[..|items|] == items;
    }

    /** Counters and the Ready condition, from the listing the pass started with. */
    method UpdateStatus(f: Fleet, items: seq<GameServer>, now: int)
      modifies this`status
      ensures status.replicas == |items|
      ensures status.updated == |items| - |Stale(items, f)| && status.ready == |RunningAt(items)|
      ensures ReportsReady(status) <==> |items| == f.replicas && Stale(items, f) == []
      ensures Lookup(status.conditions, "Ready") == Some(
        if Stale(items, f) != [] then Condition("Ready", "False", "Updating", f.generation, now)
        else if |items| != f.replicas then Condition("Ready", "False", "Scaling", f.generation, now)
        else Condition("Ready", "True", "Reconciled", f.generation, now))
      ensures forall t :: t != "Ready" ==> Lookup(status.conditions, t) == Lookup(old(status.conditions), t)
    {
      var ready, upToDate := CountServers(f, items);
      RunningCounts(items);
      var verdict, reason := "True", "Reconciled";
      if |items| != f.replicas {
        verdict, reason := "False", "Scaling";
      }
      if upToDate < |items| {
        verdict, reason := "False", "Updating";
      }
      var c := Condition("Ready", verdict, reason, f.generation, now);
      forall t { SetIsMapUpdate(status.conditions, c, t); }
      var conditions := SetCondition(status.conditions, c);
      status := FleetStatus(|items|, ready, upToDate, conditions);
    }

    /** One pass over a live fleet: list, scale, roll out, report. */
    method Reconcile(f: Fleet, now: int, calls: Calls) returns (ok: bool, ghost outcome: Outcome)
      requires ValidFleet(f) && ValidStore(servers)
      modifies this
      ensures if calls.listOk then PassStep(f, old(servers), outcome, servers) else servers == old(servers)
      ensures calls.listOk ==> outcome.refused == calls.refused
      ensures ok <==> Completes(f, old(servers), calls)
      ensures ok ==> status.replicas == |Members(old(servers), f)| && status.updated == |Members(old(servers), f)| - |OutdatedNames(old(servers), f)|
      ensures ok ==> (ReportsReady(status) <==> |Members(old(servers), f)| == f.replicas && OutdatedNames(old(servers), f) == {})
      ensures !ok ==> status == old(status)
    {
      outcome := Outcome(0, {}, {}, calls.refused, now);
      if !calls.listOk {
        return false, outcome;
      }
      var items := List(f);
      CountsOfListing(items, servers, f);
      ok, outcome := Scale(f, items, now, calls);
      if !ok {
        return;
      }
      outcome := RollOut(f, items, old(servers), calls.refused, outcome);
      UpdateStatus(f, items, now);
    }

    method RollOut(f: Fleet, items: seq<GameServer>, ghost listed: Store, refused: set<string>, ghost o: Outcome) returns (ghost outcome: Outcome)
      requires ValidFleet(f) && Listing(items, listed, f) && |items| <= INT32_MAX
      requires Scaled(f, listed, o, servers) && o.updated == {} && o.refused == refused
      modifies this`servers
      ensures PassStep(f, listed, outcome, servers) && outcome.refused == refused
    {
      outcome := o;
      if Strategy(f) == "RollingUpdate" {
        ghost var updated := HandleRollingUpdate(f, items, listed, refused);
        outcome := o.(updated := updated);
      }
      ScaledFrame(f, listed, o, old(servers), outcome.updated);
      ScaledThenRolled(f, listed, outcome, old(servers), servers);
    }

    /** Create or delete what is missing or too much; the outcome so far, with nothing updated yet. */
    method Scale(f: Fleet, items: seq<GameServer>, now: int, calls: Calls) returns (ok: bool, ghost o: Outcome)
      requires ValidFleet(f) && ValidStore(servers) && Listing(items, servers, f) && |items| == |Members(servers, f)| <= INT32_MAX
      modifies this`servers
      ensures ok <==> Completes(f, old(servers), calls.(listOk := true))
      ensures o.updated == {} && o.refused == calls.refused
      ensures !ok ==> PassStep(f, old(servers), o, servers)
      ensures ok ==> Scaled(f, old(servers), o, servers)
    {
      o := Outcome(0, {}, {}, calls.refused, now);
      ok := true;
      if |items| < f.replicas {
        var next := ScaleUp(f, |items|, now, calls.createFailAt);
        FirstTakenBound(old(servers), f, |items|, f.replicas, next);
        o := o.(created := next - |items|);
        ok := next == f.replicas;
      } else if |items| > f.replicas {
        ghost var deleted;
        ok, deleted := ScaleDown(f, items, calls.deleteFailAt);
        o := o.(deleted := deleted);
      }
    }
  }
}

/** What one pass does to each server, told by the server's own fields. */
module FleetMeaning {
  import opened Common
  import Decimal
  import opened FleetModel
  import opened FleetSelection
  import opened FleetScaleUp

  // -------------------------------------------------------------- templates

  /** r has what top says, and what base says about everything else. */
  ghost predicate Overlaid(r: map<string, string>, base: map<string, string>, top: map<string, string>) {
    && (forall k :: k in top ==> k in r && r[k] == top[k])
    && (forall k :: k !in top ==> (k in r <==> k in base) && (k in r ==> r[k] == base[k]))
  }

  /** r is s brought up to the template: its profile and generation, and whatever the template says over whatever s said. */
  ghost predicate IsUpdateOf(r: GameServer, s: GameServer, f: Fleet) {
    && r.profile == f.profile
    && Overlaid(r.env, s.env, f.templateEnv)
    && Overlaid(r.annotations, s.annotations, f.templateAnnotations)
    && Overlaid(r.labels, s.labels["minato.io/fleet-generation" := Decimal.Dec(f.generation)], f.templateLabels)
  }

  lemma UpdateIsOfTemplate(s: GameServer, f: Fleet)
    requires ValidFleet(f)
    ensures var r := UpdateFromTemplate(s, f); IsUpdateOf(r, s, f) && !Behind(r, f) && r.name == s.name && r.state == s.state
  {
  }

  /** s is a new server of the fleet, under the name of that index, with the template's settings. */
  ghost predicate IsNewOf(s: GameServer, f: Fleet, index: nat) {
    && s.name == f.name + "-" + Decimal.Dec(index)
    && s.profile == f.profile && s.env == f.templateEnv && s.annotations == f.templateAnnotations
    && Overlaid(s.labels, map[
         "app.kubernetes.io/name" := "minato", "minato.io/fleet" := f.name, "minato.io/profile" := f.profile,
         "minato.io/managed-by" := "gameserverfleet", "minato.io/fleet-generation" := Decimal.Dec(f.generation)], f.templateLabels)
    && Belongs(s, f) && !Behind(s, f)
  }

  lemma NewServerIsOfTemplate(f: Fleet, index: nat, now: int)
    requires ValidFleet(f)
    ensures IsNewOf(BuildGameServer(f, index, now), f, index)
  {
  }

  // ------------------------------------------------------------- membership

  predicate Belongs(s: GameServer, f: Fleet) {
    "minato.io/fleet" in s.labels && s.labels["minato.io/fleet"] == f.name
  }

  /** Its generation label is not the fleet's generation in decimal, or it has none. */
  predicate Behind(s: GameServer, f: Fleet) {
    "minato.io/fleet-generation" !in s.labels || s.labels["minato.io/fleet-generation"] != Decimal.Dec(f.generation)
  }

  lemma MembersMean(st: Store, f: Fleet)
    ensures forall n :: n in Members(st, f) <==> n in st && Belongs(st[n], f)
    ensures forall n :: n in OutdatedNames(st, f) <==> n in st && Belongs(st[n], f) && Behind(st[n], f)
  {
    NumeralIsNotEmpty(f.generation);
  }

  lemma NumeralIsNotEmpty(n: nat)
    ensures Decimal.Dec(n) != ""
  {
  }

  // ---------------------------------------------------------------- deletion

  /** The victims: as many members as there are too many, each of them going before every other member. */
  lemma VictimsMean(st: Store, f: Fleet, v: set<string>)
    requires IsVictims(st, f, v)
    ensures forall a :: a in v ==> a in st && Belongs(st[a], f)
    ensures f.strategy == "OnDelete" ==> v == {}
    ensures f.strategy != "OnDelete" ==> |v| == Max(0, |set n | n in st && Belongs(st[n], f)| - f.replicas)
    ensures forall a, b :: a in v && b in st && Belongs(st[b], f) && b !in v ==> DeletedFirst(st[a], st[b])
  {
    MembersMean(st, f);
    assert (set n | n in st && Belongs(st[n], f)) == Members(st, f);
    forall a, b | a in v && b in st && Belongs(st[b], f) && b !in v ensures DeletedFirst(st[a], st[b]) {
      assert b in Members(st, f) - v;
      BeforeMeans(st[a], st[b]);
    }
  }

  /** After a pass that deletes: a victim is gone, or marked if a finalizer holds it; everybody else is still there, no newly marked one among them. */
  lemma DeletionMeans(f: Fleet, st: Store, o: Outcome, st': Store, n: string)
    requires ValidFleet(f) && ShrinkStep(f, st, o, st') && n in st
    ensures n in o.deleted ==> (n in st' <==> st[n].finalizer) && (n in st' ==> st'[n].deleting)
    ensures n !in o.deleted ==> n in st' && st'[n].deleting == st[n].deleting
  {
    if IsVictims(st, f, o.deleted) {
      RollingFrame(st, DeleteAll(st, o.deleted), f, o, st');
    }
  }

  /** An OnDelete fleet deletes and updates nothing; only the rolling strategy, named or by default, updates. */
  lemma StrategyMeans(f: Fleet, st: Store, o: Outcome, st': Store)
    requires ValidFleet(f) && PassStep(f, st, o, st')
    ensures f.strategy == "OnDelete" ==> o.deleted == {} && o.updated == {}
    ensures f.strategy != "" && f.strategy != "RollingUpdate" ==> o.updated == {}
  {
  }

  // ---------------------------------------------------------------- creation

  lemma {:induction false} CreateAllHas(st: Store, servers: seq<GameServer>, i: nat)
    requires i < |servers| && Distinct(servers)
    ensures servers[i].name in CreateAll(st, servers) && CreateAll(st, servers)[servers[i].name] == servers[i]
  {
    var k := |servers| - 1;
    if i < k {
      CreateAllHas(st, servers[..k], i);
    }
  }

  ghost predicate Distinct(servers: seq<GameServer>) {
    forall j, k :: 0 <= j < k < |servers| ==> servers[j].name != servers[k].name
  }

  lemma BuiltAreDistinct(f: Fleet, from: nat, end: nat, now: int)
    requires ValidFleet(f) && from <= end
    ensures Distinct(Built(f, from, end, now))
  {
    var servers := Built(f, from, end, now);
    forall j, k | 0 <= j < k < |servers| ensures servers[j].name != servers[k].name {
      if servers[j].name == servers[k].name {
        ServerNameInjective(f, from + j, from + k);
      }
    }
  }

  lemma GrownHas(st: Store, servers: seq<GameServer>, i: nat, server: GameServer)
    requires Distinct(servers) && i < |servers| && servers[i] == server
    ensures server.name in CreateAll(st, servers) && CreateAll(st, servers)[server.name] == server
  {
    CreateAllHas(st, servers, i);
  }

  /** A server that was not listed is not updated. */
  lemma UnlistedStays(listed: Store, st: Store, f: Fleet, o: Outcome, st': Store, n: string)
    requires ValidFleet(f) && Rolling(listed, st, f, o, st') && n in st && n !in listed
    ensures n in st' && st'[n] == st[n]
  {
  }

  lemma FreeBelowTaken(st: Store, f: Fleet, from: nat, end: nat, i: nat)
    requires from <= end && from <= i < FirstTaken(st, f, from, end)
    ensures ServerName(f, i) !in st
  {
  }

  /** What creation left behind is still there at the end of the pass. */
  lemma GrownStays(f: Fleet, st: Store, o: Outcome, grown: Store, st': Store, n: string)
    requires ValidFleet(f) && |Members(st, f)| < f.replicas && GrowStep(f, st, o, st')
    requires grown == CreateAll(st, Built(f, |Members(st, f)|, |Members(st, f)| + o.created, o.now))
    requires n in grown && n !in st
    ensures n in st' && st'[n] == grown[n]
  {
    if |Members(st, f)| + o.created == f.replicas {
      UnlistedStays(st, grown, f, o, st', n);
    }
  }

  lemma CreatedStays(f: Fleet, st: Store, o: Outcome, st': Store, i: nat, current: nat, server: GameServer)
    requires ValidFleet(f) && current == |Members(st, f)| < f.replicas && GrowStep(f, st, o, st')
    requires current <= i < current + o.created && server == BuildGameServer(f, i, o.now)
    ensures server.name == ServerName(f, i) && server.name !in st && server.name in st' && st'[server.name] == server
  {
    var servers := Built(f, current, current + o.created, o.now);
    FreeBelowTaken(st, f, current, f.replicas, i);
    BuiltAreDistinct(f, current, current + o.created, o.now);
    GrownHas(st, servers, i - current, server);
    GrownStays(f, st, o, CreateAll(st, servers), st', server.name);
  }

  /** Each index a pass creates has a new server of its own, built from the template of the day. */
  lemma CreationMeans(f: Fleet, st: Store, o: Outcome, st': Store, i: nat)
    requires ValidFleet(f) && |Members(st, f)| < f.replicas && GrowStep(f, st, o, st')
    requires |Members(st, f)| <= i < |Members(st, f)| + o.created
    ensures var n := f.name + "-" + Decimal.Dec(i); n !in st && n in st' && IsNewOf(st'[n], f, i)
  {
    CreatedStays(f, st, o, st', i, |Members(st, f)|, BuildGameServer(f, i, o.now));
    NewServerIsOfTemplate(f, i, o.now);
  }

  // ------------------------------------------------------------------ update

  /** The servers a rollout picks: behind, and no member left behind has fewer players, or as few and is older. */
  lemma BatchMeans(st: Store, f: Fleet, u: set<string>)
    requires IsBatch(st, f, u)
    ensures forall a :: a in u ==> a in st && Belongs(st[a], f) && Behind(st[a], f)
    ensures forall a, b :: a in u && b in st && Belongs(st[b], f) && Behind(st[b], f) && b !in u ==>
      st[a].players < st[b].players || (st[a].players == st[b].players && st[a].created <= st[b].created)
  {
    MembersMean(st, f);
    assert forall b :: b in st && Belongs(st[b], f) && Behind(st[b], f) && b !in u ==> b in OutdatedNames(st, f) - u;
  }

  /** What the rollout part of a pass makes of each server: the template's, if picked, accepted and unchanged since the listing; itself otherwise. */
  lemma UpdateMeans(listed: Store, st: Store, f: Fleet, o: Outcome, st': Store, n: string)
    requires ValidFleet(f) && Rolling(listed, st, f, o, st') && n in st
    ensures n in st'
    ensures if n in o.updated && n !in o.refused && n in listed && listed[n] == st[n]
            then IsUpdateOf(st'[n], st[n], f) && !Behind(st'[n], f) && st'[n].state == st[n].state
            else st'[n] == st[n]
  {
    if Strategy(f) == "RollingUpdate" {
      UpdateIsOfTemplate(st[n], f);
    }
  }

  /** In a pass that only rolls out, exactly the picked and accepted servers come to the template's profile and settings. */
  lemma RolloutMeans(f: Fleet, st: Store, o: Outcome, st': Store, n: string)
    requires ValidFleet(f) && PassStep(f, st, o, st') && |Members(st, f)| == f.replicas && n in st
    ensures n in st'
    ensures if n in o.updated && n !in o.refused
            then st'[n].profile == f.profile && IsUpdateOf(st'[n], st[n], f) && !Behind(st'[n], f)
            else st'[n] == st[n]
  {
    UpdateMeans(st, st, f, o, st', n);
  }
}

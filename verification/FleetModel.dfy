/**
 The GameServerFleet reconciler as a transition relation over the GameServers of one namespace.
 A pass is labelled with the names it deleted and the names it tried to update, because the
 order in which the API server lists objects, and the order sort.Slice leaves ties in, are not
 determined by the state.
 */
module FleetModel {
  import opened Common
  import Decimal

  const FLEET_LABEL := "minato.io/fleet"
  const GENERATION_LABEL := "minato.io/fleet-generation"

  datatype GameServer = GameServer(
    name: string,
    labels: map<string, string>,
    annotations: map<string, string>,
    profile: string,
    env: map<string, string>,
    players: int,
    created: int,
    state: string,
    deleting: bool,
    finalizer: bool)

  datatype Fleet = Fleet(
    name: string,
    generation: nat,
    profile: string,
    replicas: int,
    strategy: string,
    maxUnavailable: Option<int>,
    templateLabels: map<string, string>,
    templateAnnotations: map<string, string>,
    templateEnv: map<string, string>)

  /** The namespace's GameServers, keyed by name as the API server keys them. */
  type Store = map<string, GameServer>

  /** Store[..] agrees with object names; a fleet's listing fits Go's int32 counters. */
  ghost predicate ValidStore(st: Store) {
    && (forall n :: n in st ==> st[n].name == n)
    && |st| <= INT32_MAX
  }

  /** The API handlers keep replicas non-negative; the template leaves the reserved labels alone. */
  predicate ValidFleet(f: Fleet) {
    && 0 <= f.replicas <= INT32_MAX
    && (f.maxUnavailable.Some? ==> IsInt32(f.maxUnavailable.value))
    && FLEET_LABEL !in f.templateLabels
    && GENERATION_LABEL !in f.templateLabels
  }

  /** Go's map index: the zero value for an absent key. */
  function Label(s: GameServer, key: string): string {
    if key in s.labels then s.labels[key] else ""
  }

  predicate InFleet(s: GameServer, f: Fleet) {
    FLEET_LABEL in s.labels && s.labels[FLEET_LABEL] == f.name
  }

  function Members(st: Store, f: Fleet): set<string> {
    set n | n in st && InFleet(st[n], f)
  }

  function Strategy(f: Fleet): string {
    if f.strategy == "" then "RollingUpdate" else f.strategy
  }

  // ---------------------------------------------------------------- scale up

  function ServerName(f: Fleet, index: nat): string {
    f.name + "-" + Decimal.Dec(index)
  }

  function BuildGameServer(f: Fleet, index: nat, now: int): (s: GameServer)
    requires ValidFleet(f)
    ensures InFleet(s, f) && !Outdated(s, f)
    ensures s.profile == f.profile && s.env == f.templateEnv && s.annotations == f.templateAnnotations
    ensures s.players == 0 && s.created == now && s.state == "" && !s.deleting && !s.finalizer
  {
    var labels := map[
      "app.kubernetes.io/name" := "minato",
      FLEET_LABEL := f.name,
      "minato.io/profile" := f.profile,
      "minato.io/managed-by" := "gameserverfleet",
      GENERATION_LABEL := Decimal.Dec(f.generation)] + f.templateLabels;
    GameServer(ServerName(f, index), labels, f.templateAnnotations, f.profile, f.templateEnv, 0, now, "", false, false)
  }

  /** The least index in [from, end] that is `end` itself or whose name is already taken. */
  function FirstTaken(st: Store, f: Fleet, from: nat, end: nat): (k: nat)
    requires from <= end
    ensures from <= k <= end
    ensures forall j :: from <= j < k ==> ServerName(f, j) !in st
    ensures k < end ==> ServerName(f, k) in st
    decreases end - from
  {
    if from == end || ServerName(f, from) in st then from else FirstTaken(st, f, from + 1, end)
  }

  /** The servers a scale-up creates for the indices [from, end). */
  function Built(f: Fleet, from: nat, end: nat, now: int): (s: seq<GameServer>)
    requires ValidFleet(f) && from <= end
    ensures |s| == end - from
    ensures forall i :: 0 <= i < |s| ==> s[i] == BuildGameServer(f, from + i, now)
  {
    seq(end - from, i requires 0 <= i => BuildGameServer(f, from + i, now))
  }

  function CreateAll(st: Store, servers: seq<GameServer>): Store {
    if servers == [] then st
    else var last := servers[|servers| - 1];
      CreateAll(st, servers[..|servers| - 1])[last.name := last]
  }

  // -------------------------------------------------------------- scale down

  /** Go's string comparison. */
  predicate StringLess(a: string, b: string) {
    b != "" && (a == "" || a[0] < b[0] || (a[0] == b[0] && StringLess(a[1..], b[1..])))
  }

  /** Deletion order: fewest players, then oldest, then by name. */
  predicate Before(a: GameServer, b: GameServer) {
    if a.players != b.players then a.players < b.players
    else if a.created != b.created then a.created < b.created
    else StringLess(a.name, b.name)
  }

  /** `chosen` is the set of the first k of `names` in deletion order. */
  ghost predicate IsSelection(st: Store, names: set<string>, k: nat, chosen: set<string>)
    requires names <= st.Keys
  {
    && chosen <= names
    && |chosen| == k
    && forall v, w :: v in chosen && w in names - chosen ==> Before(st[v], st[w])
  }

  function Excess(st: Store, f: Fleet): nat {
    Max(0, |Members(st, f)| - f.replicas)
  }

  /** The victims of a pass: OnDelete fleets never choose any. */
  ghost predicate IsVictims(st: Store, f: Fleet, v: set<string>) {
    if Strategy(f) == "OnDelete" then v == {} else IsSelection(st, Members(st, f), Excess(st, f), v)
  }

  /** Delete on the API server: a finalizer turns it into a deletion mark. */
  function DeleteOne(st: Store, n: string): Store {
    if n !in st then st
    else if st[n].finalizer then st[n := st[n].(deleting := true)]
    else st - {n}
  }

  function DeleteAll(st: Store, d: set<string>): Store {
    map n | n in st && (n in d ==> st[n].finalizer) :: if n in d then st[n].(deleting := true) else st[n]
  }

  // ----------------------------------------------------------- rolling update

  predicate Outdated(s: GameServer, f: Fleet) {
    Label(s, GENERATION_LABEL) != Decimal.Dec(f.generation)
  }

  function OutdatedNames(st: Store, f: Fleet): set<string> {
    set n | n in st && InFleet(st[n], f) && Outdated(st[n], f)
  }

  /** Rollout order: fewest players, then oldest; ties are left to the sort. */
  predicate Earlier(a: GameServer, b: GameServer) {
    if a.players != b.players then a.players < b.players else a.created < b.created
  }

  function MaxUnavailable(f: Fleet): int {
    if f.maxUnavailable.Some? then f.maxUnavailable.value else 1
  }

  /** How many servers one pass may touch when k are outdated; the subtraction is 32 bits wide. */
  function Batch(f: Fleet, k: nat): nat {
    Min(Max(0, ToInt32(MaxUnavailable(f) - k)), k)
  }

  function UpdateFromTemplate(s: GameServer, f: Fleet): (r: GameServer)
    requires ValidFleet(f)
    ensures !Outdated(r, f)
    ensures InFleet(r, f) == InFleet(s, f)
    ensures r.name == s.name && r.players == s.players && r.created == s.created
    ensures r.deleting == s.deleting && r.finalizer == s.finalizer && r.state == s.state
    ensures r.profile == f.profile
  {
    s.(labels := s.labels[GENERATION_LABEL := Decimal.Dec(f.generation)] + f.templateLabels,
       profile := f.profile,
       env := s.env + f.templateEnv,
       annotations := s.annotations + f.templateAnnotations)
  }

  ghost predicate IsBatch(st: Store, f: Fleet, u: set<string>) {
    var stale := OutdatedNames(st, f);
    && u <= stale
    && |u| == Batch(f, |stale|)
    && forall a, b :: a in u && b in stale - u ==> !Earlier(st[b], st[a])
  }

  /** Optimistic concurrency: a write lands only on an object that has not changed since it was listed. */
  predicate Unchanged(listed: Store, st: Store, n: string) {
    n in listed && n in st && st[n] == listed[n]
  }

  function UpdateAll(listed: Store, st: Store, f: Fleet, u: set<string>): Store
    requires ValidFleet(f)
  {
    map n | n in st :: if n in u && Unchanged(listed, st, n) then UpdateFromTemplate(st[n], f) else st[n]
  }

  /** The rollout part of a pass; the API server refuses the updates of `o.refused`. */
  ghost predicate Rolling(listed: Store, st: Store, f: Fleet, o: Outcome, st': Store)
    requires ValidFleet(f)
  {
    if Strategy(f) == "RollingUpdate" then IsBatch(listed, f, o.updated) && st' == UpdateAll(listed, st, f, o.updated - o.refused)
    else o.updated == {} && st' == st
  }

  // -------------------------------------------------------------------- pass

  /**
   What one pass reports: how many servers it created, the names it deleted, the names it tried to
   update, which of these the API server refused for other reasons than a conflict, and when it ran.
   */
  datatype Outcome = Outcome(created: nat, deleted: set<string>, updated: set<string>, refused: set<string>, now: int)

  /** One reconcile pass on a live fleet, every branch of it; a failed creation or deletion ends the pass. */
  ghost predicate PassStep(f: Fleet, st: Store, o: Outcome, st': Store)
    requires ValidFleet(f)
  {
    var current := |Members(st, f)|;
    if current < f.replicas then GrowStep(f, st, o, st')
    else if current > f.replicas then ShrinkStep(f, st, o, st')
    else o.created == 0 && o.deleted == {} && Rolling(st, st, f, o, st')
  }

  /** Creation stops at the first taken name, or earlier if a call fails for another reason. */
  ghost predicate GrowStep(f: Fleet, st: Store, o: Outcome, st': Store)
    requires ValidFleet(f) && |Members(st, f)| < f.replicas
  {
    var current := |Members(st, f)|;
    var k := current + o.created;
    && o.deleted == {}
    && k <= FirstTaken(st, f, current, f.replicas)
    && var grown := CreateAll(st, Built(f, current, k, o.now));
       if k < f.replicas then o.updated == {} && st' == grown else Rolling(st, grown, f, o, st')
  }

  ghost predicate ShrinkStep(f: Fleet, st: Store, o: Outcome, st': Store)
    requires ValidFleet(f)
  {
    && o.created == 0
    && PartialVictims(st, f, o.deleted)
    && if IsVictims(st, f, o.deleted) then Rolling(st, DeleteAll(st, o.deleted), f, o, st')
       else o.updated == {} && st' == DeleteAll(st, o.deleted)
  }

  /** A pass whose deletions fail part-way has deleted the first few victims. */
  ghost predicate PartialVictims(st: Store, f: Fleet, d: set<string>) {
    if Strategy(f) == "OnDelete" then d == {}
    else |d| <= Excess(st, f) && IsSelection(st, Members(st, f), |d|, d)
  }

  /** A run of passes with nothing happening in between. */
  ghost predicate PassRun(f: Fleet, states: seq<Store>, outcomes: seq<Outcome>)
    requires ValidFleet(f)
  {
    && |states| == |outcomes| + 1
    && forall i :: 0 <= i < |outcomes| ==> PassAt(f, states, outcomes, i)
  }

  /** The i-th pass of a run. */
  ghost predicate PassAt(f: Fleet, states: seq<Store>, outcomes: seq<Outcome>, i: nat)
    requires ValidFleet(f) && |states| == |outcomes| + 1 && i < |outcomes|
  {
    PassStep(f, states[i], outcomes[i], states[i + 1])
  }
}

/**
 ActionExecutions as a concurrent protocol.  A reconcile pass is two atomic events: Begin reads,
 checks and writes Running (or Rejected) and hands the action to the agent; Finish writes the
 result.  Between them anything may happen: other passes, deletions, TTL sweeps, an operator crash.
 */
module ActionModel {
  import opened Common
  import opened Conditions

  /** New is the empty state of a freshly created object. */
  datatype State = New | Pending | Running | Succeeded | Failed | TimedOut | Rejected

  datatype Key = Key(ns: string, name: string)

  /** params maps a parameter name to whether it is required. */
  datatype ActionDecl = ActionDecl(name: string, params: map<string, bool>, concurrency: string)

  datatype Spec = Spec(targetName: string, targetNs: string, action: string, params: map<string, string>)

  datatype Exec = Exec(
    uid: nat,
    spec: Spec,
    deleting: bool,
    state: State,
    startedAt: Option<int>,
    endedAt: Option<int>,
    response: string,
    error: string,
    conditions: seq<Condition>)

  /** GameServers' profile bindings and the profiles' action catalogs: fixed during a run. */
  datatype World = World(profileOf: map<Key, string>, profiles: map<string, seq<ActionDecl>>)

  /**
   The stored executions, the GameServers that exist, the passes in flight with their private copy
   of the execution, and three histories: every state an execution has had, every dispatch to an
   agent, and every dispatch whose Running write was lost.
   */
  datatype Cluster = Cluster(
    execs: map<Key, Exec>,
    live: set<Key>,
    inflight: map<Key, Exec>,
    nextUid: nat,
    trail: map<nat, seq<State>>,
    dispatches: multiset<nat>,
    lost: multiset<nat>)

  const INITIAL := Cluster(map[], {}, map[], 0, map[], multiset{}, multiset{})

  datatype Event =
    | Create(key: Key, spec: Spec)
    | MarkDeleted(key: Key)
    | Remove(key: Key)
    | Servers(live: set<Key>)
    | Begin(key: Key, now: int, readOk: bool, listOk: bool, writeOk: bool)
    | Finish(key: Key, agentOk: bool, response: string, now: int, writeOk: bool)
    | Crash
    | Sweep(now: int, failing: set<Key>)

  predicate Terminal(s: State) {
    s == Succeeded || s == Failed || s == TimedOut || s == Rejected
  }

  function StateName(s: State): string {
    match s
    case New => "" case Pending => "Pending" case Running => "Running" case Succeeded => "Succeeded"
    case Failed => "Failed" case TimedOut => "TimedOut" case Rejected => "Rejected"
  }

  /** setState on the in-memory object. */
  function WithState(x: Exec, s: State, response: string, error: string, now: int): Exec {
    x.(state := s,
       startedAt := if s == Running then Some(now) else x.startedAt,
       endedAt := if Terminal(s) then Some(now) else x.endedAt,
       response := response,
       error := error,
       conditions := Set(x.conditions, Condition(StateName(s), "True", StateName(s), 0, now)))
  }

  // ---------------------------------------------------------------- admission

  function Target(key: Key, spec: Spec): Key {
    Key(if spec.targetNs == "" then key.ns else spec.targetNs, spec.targetName)
  }

  /** The API creates executions in their target's namespace. */
  predicate Local(key: Key, spec: Spec) {
    Target(key, spec).ns == key.ns
  }

  function FindDecl(decls: seq<ActionDecl>, name: string): Option<ActionDecl> {
    if decls == [] then None
    else if decls[0].name == name then Some(decls[0])
    else FindDecl(decls[1..], name)
  }

  function DeclOf(w: World, server: Key, action: string): Option<ActionDecl> {
    if server in w.profileOf && w.profileOf[server] in w.profiles
    then FindDecl(w.profiles[w.profileOf[server]], action) else None
  }

  predicate ParamsPresent(d: ActionDecl, params: map<string, string>) {
    forall p :: p in d.params && d.params[p] ==> p in params
  }

  /** Whether a running execution of action `other` stands in the way of a newcomer declared d. */
  predicate Conflicts(d: ActionDecl, other: string, newcomer: string) {
    d.concurrency == "exclusive" || (d.concurrency == "serialize" && other == newcomer)
  }

  /** The executions checkConcurrency looks at: the server's namespace, not the caller, Running, same target name. */
  predicate Rival(c: Cluster, name: string, server: Key, k: Key) {
    k in c.execs && k.ns == server.ns && k.name != name && c.execs[k].state == Running && c.execs[k].spec.targetName == server.name
  }

  predicate Blocked(c: Cluster, name: string, server: Key, d: ActionDecl, action: string) {
    exists k :: k in c.execs && Rival(c, name, server, k) && Conflicts(d, c.execs[k].spec.action, action)
  }

  /** The verdict of a pass over a Pending execution: run it, or reject it with a reason. */
  function Verdict(w: World, c: Cluster, key: Key, listOk: bool): Option<string>
    requires key in c.execs
  {
    var spec := c.execs[key].spec;
    var server := Target(key, spec);
    if server !in c.live || server !in w.profileOf then Some("target GameServer not found")
    else if w.profileOf[server] !in w.profiles then Some("referenced GameProfile not found")
    else
      var d := FindDecl(w.profiles[w.profileOf[server]], spec.action);
      if d.None? then Some("action not found in profile")
      else if !ParamsPresent(d.value, spec.params) then Some("required param missing")
      else if !listOk then Some("failed to list action executions")
      else if Blocked(c, key.name, server, d.value, spec.action) then Some("blocked by running execution")
      else None
  }

  // ------------------------------------------------------------------- events

  /** A status write; the trail records the state if it is a new one. */
  function Write(c: Cluster, key: Key, x: Exec): Cluster
    requires key in c.execs && c.execs[key].uid == x.uid
  {
    c.(execs := c.execs[key := x],
       trail := if x.state == c.execs[key].state then c.trail
                else c.trail[x.uid := (if x.uid in c.trail then c.trail[x.uid] else []) + [x.state]])
  }

  /** What a pass does up to the agent call: nothing, one status write, or a launch whose write may be lost. */
  datatype Effect = Skip | Store(x: Exec) | Launch(x: Exec, stored: bool)

  function BeginEffect(w: World, c: Cluster, e: Event): (f: Effect)
    requires e.Begin?
    ensures Allowed(c, e.key, f)
  {
    if !e.readOk || e.key !in c.execs || e.key in c.inflight then Skip
    else
      var x := c.execs[e.key];
      if !x.deleting && x.state == New then
        if e.writeOk then Store(x.(state := Pending)) else Skip
      else if x.state != Pending then Skip
      else
        var why := Verdict(w, c, e.key, e.listOk);
        if why.None? then Launch(WithState(x, Running, "", "", e.now), e.writeOk)
        else if e.writeOk then Store(WithState(x, Rejected, "", why.value, e.now))
        else Skip
  }

  /** An effect a pass can have on this execution in this state. */
  predicate Allowed(c: Cluster, key: Key, f: Effect) {
    f.Skip? ||
    (&& key in c.execs && key !in c.inflight
     && f.x.uid == c.execs[key].uid && f.x.spec == c.execs[key].spec
     && match (c.execs[key].state, f.x.state)
        case (New, Pending) => f.Store?
        case (Pending, Rejected) => f.Store? && f.x.endedAt.Some?
        case (Pending, Running) => f.Launch? && f.x.startedAt.Some?
        case _ => false)
  }

  function Perform(c: Cluster, key: Key, f: Effect): Cluster
    requires Allowed(c, key, f)
  {
    match f
    case Skip => c
    case Store(x) => Write(c, key, x)
    case Launch(x, stored) =>
      var c' := if stored then Write(c, key, x) else c.(lost := c.lost + multiset{x.uid});
      c'.(inflight := c'.inflight[key := x], dispatches := c'.dispatches + multiset{x.uid})
  }

  function DoBegin(w: World, c: Cluster, e: Event): Cluster
    requires e.Begin?
  {
    Perform(c, e.key, BeginEffect(w, c, e))
  }

  function DoFinish(c: Cluster, e: Event): Cluster
    requires e.Finish?
  {
    if e.key !in c.inflight then c
    else
      var x := c.inflight[e.key];
      var y := if e.agentOk then WithState(x, Succeeded, e.response, "", e.now)
               else WithState(x, Failed, "", e.response, e.now);
      var c' := c.(inflight := c.inflight - {e.key});
      if e.writeOk && e.key in c.execs && c.execs[e.key].uid == x.uid then Write(c', e.key, y) else c'
  }

  const SUCCESS_TTL := 604800
  const FAILED_TTL := 2592000

  predicate Expired(x: Exec, now: int) {
    && Terminal(x.state)
    && x.endedAt.Some?
    && now - x.endedAt.value > (if x.state == Succeeded then SUCCESS_TTL else FAILED_TTL)
  }

  function DoSweep(execs: map<Key, Exec>, now: int, failing: set<Key>): map<Key, Exec> {
    map k | k in execs && (k in failing || !Expired(execs[k], now)) :: execs[k]
  }

  function Apply(w: World, c: Cluster, e: Event): Cluster {
    match e
    case Create(key, spec) =>
      if key in c.execs then c
      else c.(execs := c.execs[key := Exec(c.nextUid, spec, false, New, None, None, "", "", [])],
              nextUid := c.nextUid + 1,
              trail := c.trail[c.nextUid := [New]])
    case MarkDeleted(key) =>
      if key in c.execs then c.(execs := c.execs[key := c.execs[key].(deleting := true)]) else c
    case Remove(key) => c.(execs := c.execs - {key})
    case Servers(live) => c.(live := live)
    case Begin(_, _, _, _, _) => DoBegin(w, c, e)
    case Finish(_, _, _, _, _) => DoFinish(c, e)
    case Crash => c.(inflight := map[])
    case Sweep(now, failing) => c.(execs := DoSweep(c.execs, now, failing))
  }

  function RunFrom(w: World, c: Cluster, events: seq<Event>): Cluster {
    if events == [] then c
    else Apply(w, RunFrom(w, c, events[..|events| - 1]), events[|events| - 1])
  }

  function Run(w: World, events: seq<Event>): Cluster {
    RunFrom(w, INITIAL, events)
  }

  /** Every execution the run creates lives in its target's namespace. */
  ghost predicate AllLocal(events: seq<Event>) {
    forall i :: 0 <= i < |events| && events[i].Create? ==> Local(events[i].key, events[i].spec)
  }
}

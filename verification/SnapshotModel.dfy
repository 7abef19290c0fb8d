/**
 The GameSnapshot reconciler: when a snapshot is due, whether one is still in progress, taking one,
 and pruning old ones.  Times are seconds; a pass reads the clock several times because saving the
 game may take minutes.  Status writes succeed; every other call may fail.
 */
module SnapshotModel {
  import opened Common
  import opened Conditions
  import Decimal

  const MINUTE := 60
  const SNAPSHOT_TIMEOUT := 600
  const READY := "SnapshotReady"

  // ----------------------------------------------------------------- schedule

  /** A parsed cron schedule is its Next function. */
  type Next = int -> int

  /** Next(t) is the least tick after t. */
  ghost predicate ValidNext(next: Next) {
    && (forall t :: next(t) > t)
    && (forall t, u :: t <= u < next(t) ==> next(u) == next(t))
  }

  /** The ticks of a schedule: the instants that Next steps onto. */
  predicate IsTick(next: Next, x: int) {
    next(x - 1) == x
  }

  datatype Decision = Take | Wait(delay: int) | BadSchedule

  function ShouldTake(parse: string -> Option<Next>, schedule: string, last: Option<int>, now: int): Decision {
    if schedule == "" then
      if last.None? then Take else Wait(0)
    else
      var parsed := parse(schedule);
      if parsed.None? then BadSchedule
      else
        var next := parsed.value;
        if last.None? then
          if next(now) - now < MINUTE then Take else Wait(next(now) - now)
        else if now >= next(last.value) then Take
        else Wait(next(last.value) - now)
  }

  // ------------------------------------------------------------------- status

  datatype Entry = Entry(ref: string, created: int, size: int)

  /** What a VolumeSnapshot says in status.error: nothing, a list, or an object with a message. */
  datatype Fault = NoFault | Items(n: nat) | Message(text: string)

  datatype Volume = Volume(ready: bool, size: Option<int>, fault: Fault)

  datatype Duration = Unset | Invalid | Seconds(s: int)

  datatype Spec = Spec(schedule: string, count: int, duration: Duration)

  datatype Status = Status(snapshots: seq<Entry>, last: Option<int>, conditions: seq<Condition>)

  function Latest(s: Status): Entry
    requires s.snapshots != []
  {
    s.snapshots[|s.snapshots| - 1]
  }

  predicate InProgress(s: Status, now: int) {
    s.snapshots != [] && now - Latest(s).created < SNAPSHOT_TIMEOUT && !IsTrue(s.conditions, READY)
  }

  function WithCondition(s: Status, ctype: string, verdict: string, reason: string, now: int): Status {
    s.(conditions := Set(s.conditions, Condition(ctype, verdict, reason, 0, now)))
  }

  // ---------------------------------------------------------------- retention

  function Cutoff(spec: Spec, now: int): Option<int> {
    if spec.duration.Seconds? then Some(now - spec.duration.s) else None
  }

  predicate Aged(e: Entry, cutoff: Option<int>) {
    cutoff.Some? && e.created < cutoff.value
  }

  /** The entries young enough to keep, in order, and the others, in order. */
  function Young(s: seq<Entry>, cutoff: Option<int>): seq<Entry> {
    if s == [] then []
    else Young(s[..|s| - 1], cutoff) + if Aged(s[|s| - 1], cutoff) then [] else [s[|s| - 1]]
  }

  function Old(s: seq<Entry>, cutoff: Option<int>): seq<Entry> {
    if s == [] then []
    else Old(s[..|s| - 1], cutoff) + if Aged(s[|s| - 1], cutoff) then [s[|s| - 1]] else []
  }

  /** How many of the oldest young entries the count limit cuts off. */
  function Surplus(young: seq<Entry>, count: int): nat {
    if count > 0 && |young| > count then |young| - count else 0
  }

  predicate Unlimited(spec: Spec) {
    spec.count <= 0 && spec.duration.Unset?
  }

  function Kept(s: seq<Entry>, spec: Spec, now: int): seq<Entry> {
    if Unlimited(spec) then s
    else var young := Young(s, Cutoff(spec, now)); young[Surplus(young, spec.count)..]
  }

  function Dropped(s: seq<Entry>, spec: Spec, now: int): seq<Entry> {
    if Unlimited(spec) then []
    else var young := Young(s, Cutoff(spec, now)); Old(s, Cutoff(spec, now)) + young[..Surplus(young, spec.count)]
  }

  function Refs(s: seq<Entry>): set<string> {
    set e | e in s :: e.ref
  }

  // --------------------------------------------------------------------- pass

  /** Creation of a VolumeSnapshot, or the controller observing one readyToUse. */
  datatype Mark = Created(ref: string, at: int) | SeenReady(ref: string)

  /** The object, the VolumeSnapshots, and two histories: the marks, and every value LastSnapshotAt has had. */
  datatype State = State(status: Status, volumes: map<string, Volume>, clock: int, log: seq<Mark>, takes: seq<int>)

  const INITIAL := State(Status([], None, []), map[], 0, [], [])

  /** What one pass meets: the spec of the day, its clock readings in order, and how its calls turn out. */
  datatype Pass = Pass(
    spec: Spec,
    now: int, checked: int, stamp: nat, created: int, recorded: int, retained: int,
    serverOk: bool, serverFound: bool, pvcOk: bool, createOk: bool, getOk: bool,
    initial: Volume,
    failing: set<string>)

  predicate Timely(st: State, p: Pass) {
    st.clock <= p.now <= p.checked <= p.stamp <= p.created <= p.recorded <= p.retained
  }

  function VolumeName(snap: string, stamp: nat): string {
    snap + "-" + Decimal.Dec(stamp)
  }

  /** The latest entry's VolumeSnapshot was found ready: note its size, say so. */
  function Complete(st: State, v: Volume, now: int): State
    requires st.status.snapshots != []
  {
    var k := |st.status.snapshots| - 1;
    var e := st.status.snapshots[k];
    var sized := if v.size.Some? then e.(size := v.size.value) else e;
    st.(status := WithCondition(st.status.(snapshots := st.status.snapshots[k := sized]), READY, "True", "SnapshotComplete", now),
        log := st.log + [SeenReady(e.ref)])
  }

  function Monitor(st: State, p: Pass): State
    requires st.status.snapshots != []
  {
    var e := Latest(st.status);
    if p.stamp - e.created > SNAPSHOT_TIMEOUT then
      st.(status := WithCondition(st.status, READY, "False", "SnapshotTimeout", p.stamp))
    else if !p.getOk || e.ref !in st.volumes then st
    else if st.volumes[e.ref].ready then Complete(st, st.volumes[e.ref], p.stamp)
    else if st.volumes[e.ref].fault.Message? && st.volumes[e.ref].fault.text != "" then
      st.(status := WithCondition(st.status, READY, "False", "SnapshotFailed", p.stamp))
    else st
  }

  function Failing(st: State, now: int): State {
    st.(status := WithCondition(st.status, "Ready", "False", "SnapshotFailed", now))
  }

  /** The save request: advisory, but it resets SnapshotReady, twice. */
  function Saving(st: State, p: Pass): State {
    var s := WithCondition(st.status, READY, "False", "Saving", p.checked);
    st.(status := WithCondition(s, READY, "False", "Snapshotting", p.checked))
  }

  function Recorded(st: State, name: string, p: Pass): State {
    st.(status := st.status.(snapshots := st.status.snapshots + [Entry(name, p.created, 0)], last := Some(p.recorded)),
        volumes := st.volumes[name := p.initial],
        log := st.log + [Created(name, p.created)],
        takes := st.takes + [p.recorded])
  }

  function EnforceRetention(st: State, p: Pass): State {
    st.(status := st.status.(snapshots := Kept(st.status.snapshots, p.spec, p.retained)),
        volumes := st.volumes - (Refs(Dropped(st.status.snapshots, p.spec, p.retained)) - p.failing))
  }

  function Execute(snap: string, st: State, p: Pass): State {
    var saving := Saving(st, p);
    var name := VolumeName(snap, p.stamp);
    if !p.pvcOk || !p.createOk || name in st.volumes then Failing(saving, p.stamp)
    else
      Landing(Recorded(saving, name, p), p)
  }

  /** What remains of a pass once its VolumeSnapshot is recorded: one look at it, and retention if it is ready. */
  function Landing(recorded: State, p: Pass): State
    requires recorded.status.snapshots != []
  {
    if !p.getOk then Failing(recorded, p.recorded)
    else if p.initial.ready then EnforceRetention(Complete(recorded, p.initial, p.recorded), p)
    else if p.initial.fault.Items? && p.initial.fault.n > 0 then
      Failing(recorded.(status := WithCondition(recorded.status, READY, "False", "SnapshotFailed", p.recorded)), p.recorded)
    else Failing(recorded, p.recorded)
  }

  function DoPass(parse: string -> Option<Next>, snap: string, st: State, p: Pass): State {
    if !p.serverOk then st
    else if !p.serverFound then st.(status := WithCondition(st.status, "Ready", "False", "GameServerNotFound", p.now))
    else
      match ShouldTake(parse, p.spec.schedule, st.status.last, p.now)
      case BadSchedule => st.(status := WithCondition(st.status, "Ready", "False", "InvalidSchedule", p.now))
      case Wait(_) => st
      case Take => if InProgress(st.status, p.checked) then Monitor(st, p) else Execute(snap, st, p)
  }

  /** A new VolumeSnapshot is made, recorded and found ready within the pass. */
  predicate Succeeds(snap: string, st: State, p: Pass) {
    p.pvcOk && p.createOk && VolumeName(snap, p.stamp) !in st.volumes && p.getOk && p.initial.ready
  }

  /** When a pass asks to be repeated, in seconds; 0 if it does not ask. */
  function Delay(parse: string -> Option<Next>, snap: string, st: State, p: Pass): int {
    if !p.serverOk || !p.serverFound then 0
    else
      match ShouldTake(parse, p.spec.schedule, st.status.last, p.now)
      case BadSchedule => 0
      case Wait(delay) => delay
      case Take =>
        if InProgress(st.status, p.checked) then MonitorDelay(st, p)
        else if Succeeds(snap, st, p) && p.spec.schedule != "" then ScheduledDelay(parse, p.spec.schedule, p.recorded, p.retained)
        else 0
  }

  function MonitorDelay(st: State, p: Pass): int
    requires st.status.snapshots != []
  {
    var e := Latest(st.status);
    if p.stamp - e.created > SNAPSHOT_TIMEOUT || !p.getOk then 0
    else if e.ref !in st.volumes then 10
    else
      var v := st.volumes[e.ref];
      if v.ready || (v.fault.Message? && v.fault.text != "") then 0 else 15
  }

  function ScheduledDelay(parse: string -> Option<Next>, schedule: string, last: int, now: int): int {
    var d := ShouldTake(parse, schedule, Some(last), now);
    if d.Wait? then d.delay else 0
  }

  /** A pass, the storage driver reporting on a VolumeSnapshot, or somebody deleting one. */
  datatype Event = Reconciled(p: Pass) | Reported(ref: string, v: Volume) | Lost(ref: string)

  function Apply(parse: string -> Option<Next>, snap: string, st: State, e: Event): State {
    match e
    case Reconciled(p) => DoPass(parse, snap, st, p).(clock := p.retained)
    case Reported(ref, v) => if ref in st.volumes then st.(volumes := st.volumes[ref := v]) else st
    case Lost(ref) => st.(volumes := st.volumes - {ref})
  }

  function Run(parse: string -> Option<Next>, snap: string, events: seq<Event>): State {
    if events == [] then INITIAL
    else Apply(parse, snap, Run(parse, snap, events[..|events| - 1]), events[|events| - 1])
  }

  /** The clock never runs backwards during the run. */
  ghost predicate TimelyRun(parse: string -> Option<Next>, snap: string, events: seq<Event>) {
    forall i :: 0 <= i < |events| && events[i].Reconciled? ==> TimelyAt(parse, snap, events, i)
  }

  ghost predicate TimelyAt(parse: string -> Option<Next>, snap: string, events: seq<Event>, i: nat)
    requires i < |events| && events[i].Reconciled?
  {
    Timely(Run(parse, snap, events[..i]), events[i].p)
  }

  /** The library's parser yields only schedules whose Next is the least later tick. */
  ghost predicate ValidParser(parse: string -> Option<Next>) {
    forall s :: parse(s).Some? ==> ValidNext(parse(s).value)
  }
}

/**
 The life of a GameServer and its six children, one API call at a time.  Any call may fail, the
 operator may crash between any two calls, and others use the API server in between.
 */
module GameServerLifecycle {
  import opened Common

  datatype Child = StatefulSet | HeadlessService | AgentService | GameService | Claim | SftpSecret

  /** `foreign`: somebody else's finalizer is present too. */
  datatype Server = Server(uid: nat, version: nat, finalizer: bool, foreign: bool, deleting: bool)

  /** The objects under one server name.  A child maps to true once it is marked for deletion but held by a finalizer of its own. */
  datatype Store = Store(server: Option<Server>, children: map<Child, bool>, nextUid: nat)

  const EMPTY := Store(None, map[], 0)

  // ------------------------------------------------------------------- calls

  function Touch(s: Server): Server {
    s.(version := s.version + 1)
  }

  /** What remains of a server once a finalizer has been taken off it. */
  function Released(s: Server): Option<Server> {
    if s.deleting && !s.finalizer && !s.foreign then None else Some(Touch(s))
  }

  function DeleteChild(children: map<Child, bool>, c: Child, lingers: bool): map<Child, bool> {
    if c !in children then children
    else if children[c] || lingers then children[c := true]
    else children - {c}
  }

  function ApplyChild(children: map<Child, bool>, c: Child): map<Child, bool> {
    if c in children then children else children[c := false]
  }

  /** An update lands only on the version it was read from. */
  predicate Current(st: Store, seen: Server) {
    st.server.Some? && st.server.value.uid == seen.uid && st.server.value.version == seen.version
  }

  function AddFinalizer(st: Store, seen: Server): Store {
    if Current(st, seen) then st.(server := Some(Touch(st.server.value.(finalizer := true)))) else st
  }

  function RemoveFinalizer(st: Store, seen: Server): Store {
    if Current(st, seen) then st.(server := Released(st.server.value.(finalizer := false))) else st
  }

  // ------------------------------------------------------------------- others

  datatype Other =
    | CreateServer(held: bool)
    | DeleteServer
    | EditServer
    | ReleaseServer
    | RemoveChild(c: Child, lingers: bool)
    | ReleaseChild(c: Child)

  /** What users, the garbage collector and other controllers do. */
  function Disturb(st: Store, o: Other): Store {
    match o
    case CreateServer(held) =>
      if st.server.Some? then st
      else st.(server := Some(Server(st.nextUid, 0, false, held, false)), nextUid := st.nextUid + 1)
    case DeleteServer =>
      if st.server.None? then st
      else st.(server := Released(st.server.value.(deleting := true)))
    case EditServer =>
      if st.server.None? then st else st.(server := Some(Touch(st.server.value)))
    case ReleaseServer =>
      if st.server.None? then st else st.(server := Released(st.server.value.(foreign := false)))
    case RemoveChild(c, lingers) => st.(children := DeleteChild(st.children, c, lingers))
    case ReleaseChild(c) =>
      if c in st.children && st.children[c] then st.(children := st.children - {c}) else st
  }

  // --------------------------------------------------------------------- pass

  /** Where the pass is: between passes, about to add the finalizer, applying children, or deleting them and then releasing the server. */
  datatype Pc = Idle | Adding(seen: Server) | Creating(todo: seq<Child>) | Cleaning(gone: seq<Child>, seen: Server)

  datatype World = World(store: Store, pc: Pc)

  datatype Event =
    | Theirs(other: Other)
    | Read(readOk: bool, sftp: bool)
    | Add(addOk: bool)
    | Patch(patchOk: bool)
    | Delete(deleteOk: bool, lingers: bool)
    | Remove(removeOk: bool)
    | Stop

  const WORKLOAD := [StatefulSet, HeadlessService, AgentService, GameService, Claim]

  function CreationOrder(sftp: bool): seq<Child> {
    (if sftp then [SftpSecret] else []) + WORKLOAD
  }

  const CLEANUP_ORDER := WORKLOAD + [SftpSecret]

  function Begin(st: Store, sftp: bool): Pc {
    if st.server.None? then Idle
    else
      var s := st.server.value;
      if !s.deleting then
        if !s.finalizer then Adding(s) else Creating(CreationOrder(sftp))
      else if s.finalizer then Cleaning(CLEANUP_ORDER, s)
      else Idle
  }

  function Apply(w: World, e: Event): World {
    match e
    case Theirs(o) => w.(store := Disturb(w.store, o))
    case Read(ok, sftp) => if w.pc.Idle? && ok then w.(pc := Begin(w.store, sftp)) else w
    case Add(ok) =>
      if !w.pc.Adding? then w
      else World(if ok then AddFinalizer(w.store, w.pc.seen) else w.store, Idle)
    case Patch(ok) =>
      if !w.pc.Creating? || w.pc.todo == [] then w
      else if !ok then w.(pc := Idle)
      else World(w.store.(children := ApplyChild(w.store.children, w.pc.todo[0])), Creating(w.pc.todo[1..]))
    case Delete(ok, lingers) =>
      if !w.pc.Cleaning? || w.pc.gone == [] then w
      else if !ok then w.(pc := Idle)
      else World(w.store.(children := DeleteChild(w.store.children, w.pc.gone[0], lingers)), w.pc.(gone := w.pc.gone[1..]))
    case Remove(ok) =>
      if !w.pc.Cleaning? || w.pc.gone != [] then w
      else World(if ok then RemoveFinalizer(w.store, w.pc.seen) else w.store, Idle)
    case Stop => w.(pc := Idle)
  }

  function Run(events: seq<Event>): World {
    if events == [] then World(EMPTY, Idle)
    else Apply(Run(events[..|events| - 1]), events[|events| - 1])
  }

  // ---------------------------------------------------------------- invariant

  ghost predicate Protected(st: Store) {
    st.server.Some? && st.server.value.finalizer
  }

  /** A child nobody has asked to go. */
  predicate Standing(st: Store, c: Child) {
    c in st.children && !st.children[c]
  }

  ghost predicate Safe(w: World) {
    && (forall c :: Standing(w.store, c) ==> Protected(w.store))
    && (w.pc.Creating? ==> Protected(w.store))
    && (w.pc.Cleaning? ==>
          && Protected(w.store) && w.store.server.value.deleting
          && forall c :: Standing(w.store, c) ==> c in w.pc.gone)
  }

  /** Others can take a protected server no further than its deletion mark, and can create no child. */
  lemma DisturbanceIsHarmless(w: World, o: Other)
    requires Safe(w)
    ensures Safe(w.(store := Disturb(w.store, o)))
  {
    assert forall c :: Standing(Disturb(w.store, o), c) ==> Standing(w.store, c);
    assert Protected(w.store) ==> Protected(Disturb(w.store, o));
  }

  lemma CallsKeepSafe(w: World, e: Event)
    requires Safe(w) && (e.Patch? || e.Delete?)
    ensures Safe(Apply(w, e))
  {
    var w' := Apply(w, e);
    if e.Delete? && w.pc.Cleaning? && w.pc.gone != [] {
      var gone := w.pc.gone;
      assert forall c :: Standing(w'.store, c) ==> Standing(w.store, c) && (e.deleteOk ==> c != gone[0]);
      assert forall c :: c in gone ==> c == gone[0] || c in gone[1..];
    }
  }

  lemma FinalizerCallsKeepSafe(w: World, e: Event)
    requires Safe(w) && (e.Add? || e.Remove?)
    ensures Safe(Apply(w, e))
  {
    assert forall c :: Standing(Apply(w, e).store, c) ==> Standing(w.store, c);
  }

  lemma StepKeepsSafe(w: World, e: Event)
    requires Safe(w)
    ensures Safe(Apply(w, e))
  {
    match e
    case Theirs(o) => DisturbanceIsHarmless(w, o);
    case Read(_, _) => AllSix();
    case Patch(_) => CallsKeepSafe(w, e);
    case Delete(_, _) => CallsKeepSafe(w, e);
    case Stop =>
    case _ => FinalizerCallsKeepSafe(w, e);
  }

  lemma AllSix()
    ensures forall c: Child :: c in CLEANUP_ORDER
  {
    forall c: Child ensures c in CLEANUP_ORDER {
      var i := match c
        case StatefulSet => 0
        case HeadlessService => 1
        case AgentService => 2
        case GameService => 3
        case Claim => 4
        case SftpSecret => 5;
      assert CLEANUP_ORDER[i] == c;
    }
  }

  lemma {:induction false} RunKeepsSafe(events: seq<Event>)
    ensures Safe(Run(events))
  {
    if events != [] {
      RunKeepsSafe(events[..|events| - 1]);
      StepKeepsSafe(Run(events[..|events| - 1]), events[|events| - 1]);
    }
  }

  /**
   In every run, crashes, failed calls, deletions and recreations included: while any of the six
   children stands, the GameServer is there and carries the finalizer; once it does not, every child
   still listed has its deletion mark.
   */
  lemma ChildrenAreNeverOrphaned(events: seq<Event>)
    ensures var st := Run(events).store;
      !Protected(st) ==> forall c :: c in st.children ==> st.children[c]
  {
    RunKeepsSafe(events);
    assert forall c :: c in Run(events).store.children ==> Run(events).store.children[c] || Standing(Run(events).store, c);
  }

  /** No child is held by a finalizer of its own. */
  ghost predicate NothingLingers(events: seq<Event>) {
    forall i :: 0 <= i < |events| ==>
      && !(events[i].Delete? && events[i].lingers)
      && !(events[i].Theirs? && events[i].other.RemoveChild? && events[i].other.lingers)
  }

  lemma {:induction false} NothingIsMarked(events: seq<Event>, c: Child)
    requires NothingLingers(events) && c in Run(events).store.children
    ensures Standing(Run(events).store, c)
  {
    var k := |events| - 1;
    var w := Run(events[..k]);
    if c in w.store.children {
      NothingIsMarked(events[..k], c);
    }
  }

  /** If deletions take effect at once: with the finalizer gone all six are gone. */
  lemma FinalizerGoneMeansAllGone(events: seq<Event>)
    requires NothingLingers(events)
    ensures var st := Run(events).store; !Protected(st) ==> st.children == map[]
  {
    RunKeepsSafe(events);
    var st := Run(events).store;
    forall c | c in st.children ensures Protected(st) {
      NothingIsMarked(events, c);
    }
  }

  /** Applying the children one after the other, undisturbed, leaves each of them there. */
  lemma {:induction false} PatchAll(events: seq<Event>, w: World) returns (longer: seq<Event>, next: World)
    requires Run(events) == w && w.pc.Creating?
    ensures Run(longer) == next && next.pc == Creating([]) && next.store.server == w.store.server
    ensures next.store.children.Keys == w.store.children.Keys + set c | c in w.pc.todo
    decreases |w.pc.todo|
  {
    longer, next := events, w;
    if w.pc.todo != [] {
      assert w.pc.todo == [w.pc.todo[0]] + w.pc.todo[1..];
      longer, next := Then(events, w, Patch(true));
      longer, next := PatchAll(longer, next);
    } else {
      assert w.pc == Creating([]);
    }
  }

  /** Deleting them while each is held by a finalizer of its own leaves each of them marked. */
  lemma {:induction false} HeldDeletes(events: seq<Event>, w: World) returns (longer: seq<Event>, next: World)
    requires Run(events) == w && w.pc.Cleaning?
    ensures Run(longer) == next && next.pc == Cleaning([], w.pc.seen) && next.store.server == w.store.server
    ensures next.store.children.Keys == w.store.children.Keys
    ensures forall c :: c in next.store.children && (c in w.pc.gone || w.store.children[c]) ==> next.store.children[c]
    decreases |w.pc.gone|
  {
    longer, next := events, w;
    if w.pc.gone != [] {
      assert w.pc.gone == [w.pc.gone[0]] + w.pc.gone[1..];
      longer, next := Then(events, w, Delete(true, true));
      longer, next := HeldDeletes(longer, next);
    } else {
      assert w.pc == Cleaning([], w.pc.seen);
    }
  }

  /** Two undisturbed passes over a new server: it carries the finalizer and its claim is there. */
  lemma ServerIsBuilt() returns (events: seq<Event>, w: World)
    ensures Run(events) == w && w.pc == Idle && Claim in w.store.children
    ensures w.store.server == Some(Server(0, 1, true, false, false))
  {
    events, w := Then([], World(EMPTY, Idle), Theirs(CreateServer(false)));
    events, w := Then(events, w, Read(true, false));
    events, w := Then(events, w, Add(true));
    events, w := Then(events, w, Read(true, false));
    assert Claim in w.pc.todo by { assert CreationOrder(false)[4] == Claim; }
    events, w := PatchAll(events, w);
    events, w := Then(events, w, Stop);
  }

  /** Without that the claim fails: a PersistentVolumeClaim still in use outlives its server. */
  lemma UsedClaimOutlivesServer()
    ensures exists events ::
      var st := Run(events).store; st.server.None? && Claim in st.children && st.children[Claim]
  {
    var events, w := ServerIsBuilt();
    events, w := Then(events, w, Theirs(DeleteServer));
    events, w := Then(events, w, Read(true, false));
    AllSix();
    events, w := HeldDeletes(events, w);
    events, w := Then(events, w, Remove(true));
  }

  // --------------------------------------------------------- refused calls

  /** An update of a server that has been edited, or recreated, since it was read changes nothing. */
  lemma StaleWriteIsRefused(st: Store, seen: Server)
    requires st.server == None || st.server.value.uid != seen.uid || st.server.value.version != seen.version
    ensures AddFinalizer(st, seen) == st && RemoveFinalizer(st, seen) == st
  {
  }

  /** A failed call changes nothing and ends the pass. */
  lemma FailedCallEndsPass(w: World, e: Event)
    requires (w.pc.Adding? && e == Add(false)) || (w.pc.Creating? && w.pc.todo != [] && e == Patch(false))
      || (w.pc.Cleaning? && w.pc.gone != [] && e.Delete? && !e.deleteOk) || (w.pc.Cleaning? && w.pc.gone == [] && e == Remove(false))
    ensures Apply(w, e) == World(w.store, Idle)
  {
  }

  // ------------------------------------------------------- the secret first

  /** From event i, which starts a pass on a profile with SFTP, to event j the pass goes on applying children. */
  ghost predicate InSftpPass(events: seq<Event>, i: nat, j: nat) {
    && i < j <= |events| && events[i] == Read(true, true) && Run(events[..i]).pc == Idle
    && forall m :: i < m <= j ==> CreatingAfter(events, m)
  }

  ghost predicate CreatingAfter(events: seq<Event>, m: int)
    requires 0 <= m <= |events|
  {
    Run(events[..m]).pc.Creating?
  }

  /** Event m applies that child. */
  ghost predicate Applies(events: seq<Event>, m: int, c: Child)
    requires 0 <= m < |events|
  {
    events[m] == Patch(true) && Run(events[..m]).pc.Creating? && Run(events[..m]).pc.todo != [] && Run(events[..m]).pc.todo[0] == c
  }

  /** Others take the secret away in event m. */
  predicate TakesSecret(e: Event) {
    e.Theirs? && ((e.other.RemoveChild? && e.other.c == SftpSecret) || (e.other.ReleaseChild? && e.other.c == SftpSecret))
  }

  /** The secret was applied in between, and is there unless somebody took it since. */
  ghost predicate SecretStands(events: seq<Event>, i: int, j: int)
    requires 0 <= i < j <= |events|
  {
    exists m :: i < m < j && Applies(events, m, SftpSecret)
      && ((forall q :: m < q < j ==> !TakesSecret(events[q])) ==> SftpSecret in Run(events[..j]).store.children)
  }

  lemma SecretStep(events: seq<Event>, i: nat, j: nat)
    requires InSftpPass(events, i, j + 1) && i < j
    requires SecretStands(events, i, j)
    ensures SecretStands(events, i, j + 1)
  {
    var m :| i < m < j && Applies(events, m, SftpSecret)
      && ((forall q :: m < q < j ==> !TakesSecret(events[q])) ==> SftpSecret in Run(events[..j]).store.children);
    assert events[..j + 1][..j] == events[..j];
    assert CreatingAfter(events, j) && CreatingAfter(events, j + 1);
    if forall q :: m < q < j + 1 ==> !TakesSecret(events[q]) {
      assert !TakesSecret(events[j]);
      KeepsSecret(Run(events[..j]), events[j]);
    }
  }

  lemma KeepsSecret(w: World, e: Event)
    requires w.pc.Creating? && SftpSecret in w.store.children && !TakesSecret(e)
    ensures SftpSecret in Apply(w, e).store.children
  {
  }

  lemma {:induction false} SecretOrUntouched(events: seq<Event>, i: nat, j: nat)
    requires InSftpPass(events, i, j)
    ensures Run(events[..j]).pc == Creating(CreationOrder(true)) || (CreatingAfter(events, j) && SecretStands(events, i, j) && SftpSecret !in Run(events[..j]).pc.todo)
    decreases j
  {
    assert CreatingAfter(events, j);
    assert events[..j][..j - 1] == events[..j - 1];
    if j > i + 1 {
      assert CreatingAfter(events, j - 1);
      SecretOrUntouched(events, i, j - 1);
      var w, e := Run(events[..j - 1]), events[j - 1];
      if w.pc == Creating(CreationOrder(true)) {
        if e == Patch(true) {
          assert Applies(events, j - 1, SftpSecret);
          assert Run(events[..j]).pc.todo == WORKLOAD;
        }
      } else {
        SecretStep(events, i, j - 1);
      }
    }
  }

  /** With SFTP on, whenever a pass gets to the StatefulSet it has applied the secret before, and the secret is there unless somebody took it. */
  lemma SecretStandsBeforeStatefulSet(events: seq<Event>, i: nat, j: nat)
    requires j < |events| && InSftpPass(events, i, j) && Applies(events, j, StatefulSet)
    ensures SecretStands(events, i, j)
  {
    SecretOrUntouched(events, i, j);
    assert CreationOrder(true)[0] == SftpSecret;
  }

  lemma Then(events: seq<Event>, w: World, e: Event) returns (longer: seq<Event>, next: World)
    requires Run(events) == w
    ensures longer == events + [e] && next == Apply(w, e) && Run(longer) == next
  {
    longer, next := events + [e], Apply(w, e);
    assert longer[..|events|] == events;
  }
}

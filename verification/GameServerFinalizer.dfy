/** The finalizer and child-resource part of the GameServer reconciler, call by call, against the lifecycle model. */
module GameServerFinalizer {
  import opened Common
  import opened GameServerLifecycle

  /** What happens around one API call: others go first, the call works or fails, a deleted child may linger. */
  datatype Turn = Turn(others: seq<Other>, ok: bool, lingers: bool)

  type Script = nat -> Turn

  ghost predicate Quiet(script: Script) {
    forall n :: script(n) == Turn([], true, false)
  }

  /** What a pass that nobody disturbs makes of the store. */
  ghost function Settled(st: Store, sftp: bool): Store {
    if st.server.None? then st
    else
      var s := st.server.value;
      if !s.deleting && !s.finalizer then st.(server := Some(Touch(s.(finalizer := true))))
      else if !s.deleting then st.(children := With(st.children, CreationOrder(sftp)))
      else if s.finalizer then
        st.(server := Released(s.(finalizer := false)), children := Without(st.children, CLEANUP_ORDER))
      else st
  }

  ghost function With(children: map<Child, bool>, some: seq<Child>): map<Child, bool> {
    map c | c in children.Keys + (set x | x in some) :: c in children && children[c]
  }

  /** Without those children, except the ones already on their way out. */
  ghost function Without(children: map<Child, bool>, some: seq<Child>): map<Child, bool> {
    map c | c in children && (children[c] || c !in some) :: children[c]
  }

  /** What an undisturbed pass does, child by child and field by field. */
  ghost predicate DoesItsWork(before: Store, after: Store, sftp: bool) {
    match before.server
    case None => after == before
    case Some(s) =>
      if !s.deleting && !s.finalizer then
        && after.children == before.children
        && after.server.Some? && after.server.value.finalizer && !after.server.value.deleting
        && after.server.value.uid == s.uid && after.server.value.foreign == s.foreign
      else if !s.deleting then
        && after.server == before.server
        && {StatefulSet, HeadlessService, AgentService, GameService, Claim} <= after.children.Keys
        && (sftp ==> SftpSecret in after.children)
        && (SftpSecret in after.children ==> sftp || SftpSecret in before.children)
        && (forall c :: c in before.children ==> c in after.children && after.children[c] == before.children[c])
        && (forall c :: c in after.children && c !in before.children ==> !after.children[c])
      else if s.finalizer then
        && (forall c :: c in after.children <==> c in before.children && before.children[c])
        && (forall c :: c in after.children ==> after.children[c])
        && (if s.foreign then after.server.Some? && !after.server.value.finalizer && after.server.value.deleting else after.server == None)
      else after == before
  }

  lemma SettledMeans(st: Store, sftp: bool)
    ensures DoesItsWork(st, Settled(st, sftp), sftp)
  {
    AllSix();
    var order := CreationOrder(sftp);
    var k := if sftp then 1 else 0;
    assert order[k] == StatefulSet && order[k + 1] == HeadlessService && order[k + 2] == AgentService;
    assert order[k + 3] == GameService && order[k + 4] == Claim && (sftp ==> order[0] == SftpSecret);
    assert !sftp ==> SftpSecret !in order;
  }

  lemma WithStep(children: map<Child, bool>, some: seq<Child>, c: Child)
    ensures With(children, some + [c]) == ApplyChild(With(children, some), c)
  {
  }

  lemma WithoutStep(children: map<Child, bool>, some: seq<Child>, c: Child)
    ensures Without(children, some + [c]) == DeleteChild(Without(children, some), c, false)
  {
  }

  class Reconciler {
    var api: Store
    ghost var pc: Pc
    ghost var trace: seq<Event>

    constructor ()
      ensures Valid() && pc == Idle && trace == [] && api == EMPTY
    {
      api, pc, trace := EMPTY, Idle, [];
    }

    /** The store and the place in the code are what the recorded calls lead to. */
    ghost predicate Valid()
      reads this
    {
      World(api, pc) == Run(trace)
    }

    /** Note a call and go on as the model does. */
    ghost method Note(e: Event)
      requires World(api, Apply(Run(trace), e).pc) == Apply(Run(trace), e)
      modifies this`pc, this`trace
      ensures Valid() && trace == old(trace) + [e] && pc == Apply(Run(old(trace)), e).pc
    {
      assert (trace + [e])[..|trace|] == trace;
      pc := Apply(Run(trace), e).pc;
      trace := trace + [e];
    }

    method Others(others: seq<Other>)
      requires Valid()
      modifies this
      ensures Valid() && pc == old(pc) && old(trace) <= trace
      ensures others == [] ==> api == old(api)
    {
      for i := 0 to |others|
        invariant Valid() && pc == old(pc) && old(trace) <= trace
        invariant others == [] ==> api == old(api)
      {
        api := Disturb(api, others[i]);
        Note(Theirs(others[i]));
      }
    }

    /** One pass over the object: add the finalizer, or apply the children, or clean up and let go. */
    method Reconcile(script: Script, sftp: bool)
      requires Valid() && pc == Idle
      modifies this
      ensures Valid() && pc == Idle && old(trace) <= trace
      ensures Safe(World(api, pc))
      ensures Quiet(script) ==> api == Settled(old(api), sftp) && DoesItsWork(old(api), api, sftp)
    {
      SettledMeans(api, sftp);
      Others(script(0).others);
      var server := api.server;
      Note(Read(script(0).ok, sftp));
      if script(0).ok && server.Some? {
        if !server.value.deleting {
          if !server.value.finalizer {
            ProtectServer(script, server.value);
          } else {
            ApplyChildren(script, CreationOrder(sftp));
          }
        } else if server.value.finalizer {
          CleanUp(script, CLEANUP_ORDER, server.value);
        }
      }
      RunKeepsSafe(trace);
    }

    method ProtectServer(script: Script, seen: Server)
      requires Valid() && pc == Adding(seen)
      modifies this
      ensures Valid() && pc == Idle && old(trace) <= trace
      ensures Quiet(script) ==> api == AddFinalizer(old(api), seen)
    {
      Others(script(1).others);
      if script(1).ok && Current(api, seen) {
        api := api.(server := Some(Touch(api.server.value.(finalizer := true))));
      }
      Note(Add(script(1).ok));
    }

    /** Apply the children in order, up to the first failure. */
    method ApplyChildren(script: Script, todo: seq<Child>)
      requires Valid() && pc == Creating(todo)
      modifies this
      ensures Valid() && pc == Idle && old(trace) <= trace
      ensures Quiet(script) ==> api == old(api).(children := With(old(api).children, todo))
    {
      assert With(api.children, []) == api.children;
      for i := 0 to |todo|
        invariant Valid() && pc == Creating(todo[i..]) && old(trace) <= trace
        invariant Quiet(script) ==> api == old(api).(children := With(old(api).children, todo[..i]))
      {
        WithStep(old(api).children, todo[..i], todo[i]);
        assert todo[..i] + [todo[i]] == todo[..i + 1];
        var ok := ApplyOne(script(1 + i), todo[i]);
        if !ok {
          return;
        }
      }
      assert todo[..|todo|] == todo;
      Note(Stop);
    }

    method ApplyOne(turn: Turn, c: Child) returns (ok: bool)
      requires Valid() && pc.Creating? && pc.todo != [] && pc.todo[0] == c
      modifies this
      ensures Valid() && old(trace) <= trace && ok == turn.ok
      ensures pc == if ok then Creating(old(pc).todo[1..]) else Idle
      ensures ok && turn.others == [] ==> api == old(api).(children := ApplyChild(old(api).children, c))
    {
      Others(turn.others);
      ok := turn.ok;
      if ok && c !in api.children {
        api := api.(children := api.children[c := false]);
      }
      Note(Patch(ok));
    }

    /** Delete the six, whatever the profile says today; stop at the first failure; then remove the finalizer. */
    method CleanUp(script: Script, six: seq<Child>, seen: Server)
      requires Valid() && pc == Cleaning(six, seen)
      modifies this
      ensures Valid() && pc == Idle && old(trace) <= trace
      ensures Quiet(script) ==> api == RemoveFinalizer(old(api).(children := Without(old(api).children, six)), seen)
    {
      assert Without(api.children, []) == api.children;
      for i := 0 to |six|
        invariant Valid() && pc == Cleaning(six[i..], seen) && old(trace) <= trace
        invariant Quiet(script) ==> api == old(api).(children := Without(old(api).children, six[..i]))
      {
        WithoutStep(old(api).children, six[..i], six[i]);
        assert six[..i] + [six[i]] == six[..i + 1];
        var ok := DeleteOne(script(1 + i), six[i]);
        if !ok {
          return;
        }
      }
      assert six[..|six|] == six;
      ReleaseProtection(script(1 + |six|), seen);
    }

    method DeleteOne(turn: Turn, c: Child) returns (ok: bool)
      requires Valid() && pc.Cleaning? && pc.gone != [] && pc.gone[0] == c
      modifies this
      ensures Valid() && old(trace) <= trace && ok == turn.ok
      ensures pc == if ok then Cleaning(old(pc).gone[1..], old(pc).seen) else Idle
      ensures ok && turn.others == [] ==> api == old(api).(children := DeleteChild(old(api).children, c, turn.lingers))
    {
      Others(turn.others);
      ok := turn.ok;
      if ok {
        api := api.(children := DeleteChild(api.children, c, turn.lingers));
      }
      Note(Delete(ok, turn.lingers));
    }

    method ReleaseProtection(turn: Turn, seen: Server)
      requires Valid() && pc == Cleaning([], seen)
      modifies this
      ensures Valid() && pc == Idle && old(trace) <= trace
      ensures turn.ok && turn.others == [] ==> api == RemoveFinalizer(old(api), seen)
    {
      Others(turn.others);
      if turn.ok && Current(api, seen) {
        api := api.(server := Released(api.server.value.(finalizer := false)));
      }
      Note(Remove(turn.ok));
    }
  }
}

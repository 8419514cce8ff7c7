/**
 * Membership and key rotation of one group: the SQL statements of any number of concurrent Remove,
 * Leave and Add calls interleave, and any statement may fail.
 */
module GroupMachine {
  import opened Options

  /** The rotation columns of the group_chats row. */
  datatype Group = Group(keyVersion: nat, needsRotation: bool, inProgress: bool, rotationBy: Option<string>)

  /** A group_members row; left says whether left_at is set. */
  datatype Member = Member(role: string, left: bool)

  /** A user_group_keys row. */
  datatype Seed = Seed(encryptedSeed: string, encryptedBy: string, keyVersion: nat)

  datatype Op =
    | Remove(user: string, actor: string)
    | Leave(user: string)
    | Add(user: string, actor: string, seed: string)

  datatype Failure = InvalidInput | NotAdmin | NotGroupMember | AlreadyMember | Database

  datatype Reply = Version(v: nat) | Ok | Error(failure: Failure)

  /** The statement a call runs next. */
  datatype Pc =
    | CheckActor
    | CheckTarget
    | Depart
    | Acquire
    | ReadVersion
    | Increment
    | Release(v: nat)
    | ReleaseAfterError
    | ReadGroup
    | Insert
    | ReadSeedVersion
    | SaveSeed(v: nat)
    | Done(reply: Reply)

  datatype Call = Call(op: Op, pc: Pc)

  datatype State = State(
    group: Group, members: map<string, Member>, seeds: map<string, Seed>, calls: map<nat, Call>,
    // History, read by no statement:
    leftAt: map<string, nat>,  // key_version when the user's left_at was written
    missed: bool)              // a call gave up on a due rotation, and no increment has followed

  predicate IsActive(members: map<string, Member>, user: string) {
    user in members && !members[user].left
  }

  function Rotator(op: Op): string {
    match op
    case Remove(_, actor) => actor
    case Leave(user) => user
    case Add(_, actor, _) => actor
  }

  predicate Valid(op: Op) {
    op.user != "" && (op.Leave? || op.actor != "")
  }

  /** The reply once membership is written: a rotation error is only logged. */
  function Departed(op: Op, v: nat): Reply {
    if op.Remove? then Version(v) else Ok
  }

  function Start(s: State, c: nat, op: Op): State {
    if c in s.calls then s
    else s.(calls := s.calls[c := Call(op, if !Valid(op) then Done(Error(InvalidInput))
                                           else if op.Leave? then CheckTarget else CheckActor)])
  }

  function Goto(s: State, c: nat, pc: Pc): State
    requires c in s.calls
  {
    s.(calls := s.calls[c := s.calls[c].(pc := pc)])
  }

  /** UPDATE group_members SET left_at, and the trigger it fires when the row was active. */
  function Leaving(s: State, user: string): (s': State)
    ensures s'.calls == s.calls
  {
    if !IsActive(s.members, user) then s
    else s.(members := s.members[user := s.members[user].(left := true)],
            group := s.group.(needsRotation := true),
            leftAt := s.leftAt[user := s.group.keyVersion])
  }

  /** INSERT ... ON CONFLICT DO NOTHING. */
  function Joining(s: State, user: string): (s': State)
    ensures s' == s.(members := s'.members)
  {
    if user in s.members then s else s.(members := s.members[user := Member("member", false)])
  }

  function Unlock(s: State): State {
    s.(group := s.group.(inProgress := false, rotationBy := None))
  }

  /** Only call c moves, and it stays the same operation. */
  predicate Moves(s: State, s': State, c: nat) {
    c in s.calls && c in s'.calls && s'.calls == s.calls[c := s'.calls[c]] && s'.calls[c].op == s.calls[c].op
  }

  predicate Entering(pc: Pc) {
    pc.CheckActor? || pc.CheckTarget? || pc.Depart?
  }

  predicate InRotation(pc: Pc) {
    pc.Acquire? || pc.ReadVersion? || InLock(pc)
  }

  /** Between acquiring and releasing the rotation lock. */
  predicate InLock(pc: Pc) {
    pc.Increment? || pc.Release? || pc.ReleaseAfterError?
  }

  predicate Admitting(pc: Pc) {
    pc.ReadGroup? || pc.Insert? || pc.ReadSeedVersion? || pc.SaveSeed?
  }

  /** What a membership check leads to. */
  function AfterCheck(op: Op, pc: Pc, ok: bool, isMember: bool): Pc {
    if !ok then Done(Error(Database))
    else if pc.CheckActor? then
      if isMember then CheckTarget else Done(Error(if op.Remove? then NotAdmin else NotGroupMember))
    else if op.Add? then
      if isMember then Done(Error(AlreadyMember)) else ReadGroup
    else
      if isMember then Depart else Done(Error(NotGroupMember))
  }

  /** The membership checks and the departure itself. */
  function Begin(s: State, c: nat, ok: bool): (s': State)
    requires c in s.calls && Entering(s.calls[c].pc)
    ensures Moves(s, s', c) && !InLock(s'.calls[c].pc) && s'.seeds == s.seeds && s'.missed == s.missed
    ensures s' == s.(calls := s'.calls) || (s' == Leaving(s, s.calls[c].op.user).(calls := s'.calls) && s'.calls[c].pc == Acquire)
    ensures !s'.calls[c].pc.SaveSeed?
  {
    var op := s.calls[c].op;
    match s.calls[c].pc
    case CheckActor => Goto(s, c, AfterCheck(op, CheckActor, ok, IsActive(s.members, Rotator(op))))
    case CheckTarget => Goto(s, c, AfterCheck(op, CheckTarget, ok, IsActive(s.members, op.user)))
    case Depart =>
      if ok then Goto(Leaving(s, op.user), c, Acquire) else Goto(s, c, Done(Error(Database)))
  }

  /** tryKeyRotation. */
  function Rotate(s: State, c: nat, ok: bool): (s': State)
    requires c in s.calls && InRotation(s.calls[c].pc)
    ensures Moves(s, s', c) && s'.members == s.members && s'.seeds == s.seeds && s'.leftAt == s.leftAt
    ensures !s'.calls[c].pc.SaveSeed?
  {
    var op := s.calls[c].op;
    match s.calls[c].pc
    case Acquire =>
      if !ok then Goto(s.(missed := s.missed || s.group.needsRotation), c, Done(Departed(op, 0)))
      else if s.group.needsRotation && !s.group.inProgress then
        Goto(s.(group := s.group.(inProgress := true, rotationBy := Some(Rotator(op)))), c, Increment)
      else
        Goto(s.(missed := s.missed || s.group.needsRotation), c, ReadVersion)
    case ReadVersion =>
      Goto(s, c, Done(Departed(op, if ok then s.group.keyVersion else 0)))
    case Increment =>
      if !ok then Goto(s.(missed := s.missed || s.group.needsRotation), c, ReleaseAfterError)
      else
        var v := s.group.keyVersion + 1;
        Goto(s.(group := s.group.(keyVersion := v, needsRotation := false), missed := false), c, Release(v))
    case Release(v) =>
      Goto(if ok then Unlock(s) else s, c, Done(Departed(op, v)))
    case ReleaseAfterError =>
      Goto(if ok then Unlock(s) else s, c, Done(Departed(op, 0)))
  }

  /** The rest of AddGroupMember. */
  function Admit(s: State, c: nat, ok: bool): (s': State)
    requires c in s.calls && Admitting(s.calls[c].pc)
    ensures Moves(s, s', c) && !InRotation(s'.calls[c].pc)
    ensures s'.group == s.group && s'.leftAt == s.leftAt && s'.missed == s.missed
    ensures s'.members == s.members || s'.members == Joining(s, s.calls[c].op.user).members
    ensures s'.calls[c].pc.SaveSeed? ==> s'.calls[c].pc.v == s.group.keyVersion
    ensures forall u :: u in s'.seeds ==>
              || (u in s.seeds && s'.seeds[u] == s.seeds[u])
              || (s.calls[c].pc.SaveSeed? && s'.seeds[u].keyVersion == s.calls[c].pc.v)
  {
    var op := s.calls[c].op;
    if !ok || !op.Add? then Goto(s, c, Done(Error(Database)))
    else
      match s.calls[c].pc
      case ReadGroup => Goto(s, c, Insert)
      case Insert => Goto(Joining(s, op.user), c, ReadSeedVersion)
      case ReadSeedVersion => Goto(s, c, SaveSeed(s.group.keyVersion))
      case SaveSeed(v) => Goto(s.(seeds := s.seeds[op.user := Seed(op.seed, op.actor, v)]), c, Done(Ok))
  }

  /** The next statement of call c succeeds or fails. */
  function Next(s: State, c: nat, ok: bool): State {
    if c !in s.calls then s
    else if Entering(s.calls[c].pc) then Begin(s, c, ok)
    else if InRotation(s.calls[c].pc) then Rotate(s, c, ok)
    else if Admitting(s.calls[c].pc) then Admit(s, c, ok)
    else s
  }

  datatype Step = StepStart(c: nat, op: Op) | StepNext(c: nat, ok: bool)

  function Apply(s: State, step: Step): State {
    match step
    case StepStart(c, op) => Start(s, c, op)
    case StepNext(c, ok) => Next(s, c, ok)
  }

  function Run(s: State, steps: seq<Step>): State
    decreases |steps|
  {
    if steps == [] then s else Apply(Run(s, steps[..|steps| - 1]), steps[|steps| - 1])
  }

  lemma {:induction false} RunConcat(s: State, a: seq<Step>, b: seq<Step>)
    ensures Run(s, a + b) == Run(Run(s, a), b)
    decreases |b|
  {
    if b == [] {
      assert a + b == a;
    } else {
      var front := b[..|b| - 1];
      assert (a + b)[..|a + b| - 1] == a + front && (a + b)[|a + b| - 1] == b[|b| - 1];
      RunConcat(s, a, front);
    }
  }

  /** A group as CreateGroup leaves it: any members, nobody left, nobody rotating. */
  ghost predicate Initial(s: State) {
    && s.group == Group(0, false, false, None)
    && s.calls == map[] && s.leftAt == map[] && !s.missed
    && (forall u :: u in s.members ==> !s.members[u].left)
    && (forall u :: u in s.seeds ==> s.seeds[u].keyVersion == 0)
  }

  // ---- What every interleaving keeps ----

  /** Call c is between acquiring and releasing the rotation lock. */
  predicate Holds(s: State, c: nat) {
    c in s.calls && InLock(s.calls[c].pc)
  }

  /** At most one holder, and the lock columns name it. */
  ghost predicate LockSound(s: State) {
    && (forall c :: Holds(s, c) ==> s.group.inProgress && s.group.rotationBy == Some(Rotator(s.calls[c].op)))
    && (forall c, d :: Holds(s, c) && Holds(s, d) ==> c == d)
    && (forall c :: c in s.calls && s.calls[c].pc.Increment? ==> s.group.needsRotation)
  }

  function LeftUsers(members: map<string, Member>): set<string> {
    set u | u in members && members[u].left
  }

  /** Every departure is covered: a rotation is still due, or the version has risen since. */
  ghost predicate Covered(s: State) {
    && s.leftAt.Keys == LeftUsers(s.members)
    && forall u :: u in s.leftAt ==>
         s.leftAt[u] < s.group.keyVersion || (s.group.needsRotation && s.leftAt[u] == s.group.keyVersion)
  }

  ghost predicate VersionsSound(s: State) {
    && s.group.keyVersion + (if s.group.needsRotation then 1 else 0) <= |LeftUsers(s.members)|
    && (forall u :: u in s.seeds ==> s.seeds[u].keyVersion <= s.group.keyVersion)
    && (forall c :: c in s.calls && s.calls[c].pc.SaveSeed? ==> s.calls[c].pc.v <= s.group.keyVersion)
  }

  ghost predicate Inv(s: State) {
    LockSound(s) && Covered(s) && VersionsSound(s)
  }

  lemma InitialInv(s: State)
    requires Initial(s)
    ensures Inv(s)
  {
    assert LeftUsers(s.members) == {};
  }

  lemma {:induction false} LeavingKeeps(s: State, user: string)
    requires Covered(s) && VersionsSound(s)
    ensures Covered(Leaving(s, user)) && VersionsSound(Leaving(s, user))
  {
    if IsActive(s.members, user) {
      OneMoreLeft(s, user);
      hide LeftUsers;
    }
  }

  lemma {:induction false} OneMoreLeft(s: State, user: string)
    requires IsActive(s.members, user)
    ensures user !in LeftUsers(s.members) && LeftUsers(Leaving(s, user).members) == LeftUsers(s.members) + {user}
  {
  }

  lemma {:induction false} JoiningKeeps(s: State, user: string)
    ensures LeftUsers(Joining(s, user).members) == LeftUsers(s.members)
  {
  }

  lemma {:induction false} LeavingInv(s: State, user: string)
    requires Inv(s)
    ensures Inv(Leaving(s, user))
  {
    LeavingKeeps(s, user);
    assert forall c :: Holds(Leaving(s, user), c) <==> Holds(s, c);
  }

  /** Moving one call among statements outside the lock. */
  lemma {:induction false} Relabel(s: State, s': State, c: nat)
    requires Inv(s) && Moves(s, s', c) && s' == s.(calls := s'.calls)
    requires !Holds(s, c) && !InLock(s'.calls[c].pc)
    requires s'.calls[c].pc.SaveSeed? ==> s'.calls[c].pc.v <= s.group.keyVersion
    ensures Inv(s')
  {
    assert forall d :: Holds(s', d) ==> Holds(s, d) && s'.calls[d] == s.calls[d];
  }

  lemma {:induction false} BeginKeeps(s: State, c: nat, ok: bool)
    requires Inv(s) && c in s.calls && Entering(s.calls[c].pc)
    ensures Inv(Begin(s, c, ok))
  {
    var s' := Begin(s, c, ok);
    hide Begin, Inv;
    if s' == s.(calls := s'.calls) {
      Relabel(s, s', c);
    } else {
      LeavingInv(s, s.calls[c].op.user);
      Relabel(Leaving(s, s.calls[c].op.user), s', c);
    }
  }

  lemma {:induction false} RotateKeepsLock(s: State, c: nat, ok: bool)
    requires Inv(s) && c in s.calls && InRotation(s.calls[c].pc)
    ensures LockSound(Rotate(s, c, ok))
  {
    var s' := Rotate(s, c, ok);
    forall d | Holds(s', d)
      ensures d != c ==> Holds(s, d) && s'.calls[d] == s.calls[d]
      ensures s'.group.inProgress && s'.group.rotationBy == Some(Rotator(s'.calls[d].op))
      ensures s'.calls[d].pc.Increment? ==> s'.group.needsRotation
    {
      assert d != c ==> Holds(s, d) && !Holds(s, c);
    }
    forall d, e | Holds(s', d) && Holds(s', e)
      ensures d == e
    {
      assert d != c ==> Holds(s, d) && s.group.inProgress;
      assert e != c ==> Holds(s, e) && s.group.inProgress;
      assert Holds(s', c) && !Holds(s, c) ==> !s.group.inProgress;
    }
    assert forall d :: d in s'.calls && s'.calls[d].pc.Increment? ==> Holds(s', d);
  }

  lemma {:induction false} RotateKeeps(s: State, c: nat, ok: bool)
    requires Inv(s) && c in s.calls && InRotation(s.calls[c].pc)
    ensures Inv(Rotate(s, c, ok))
  {
    RotateKeepsLock(s, c, ok);
  }

  lemma {:induction false} AdmitKeeps(s: State, c: nat, ok: bool)
    requires Inv(s) && c in s.calls && Admitting(s.calls[c].pc)
    ensures Inv(Admit(s, c, ok))
  {
    var s' := Admit(s, c, ok);
    hide Admit;
    JoiningKeeps(s, s.calls[c].op.user);
    hide Joining;
    var t := s.(members := s'.members, seeds := s'.seeds);
    assert Inv(t) by {
      assert forall d :: Holds(t, d) <==> Holds(s, d);
    }
    Relabel(t, s', c);
  }

  lemma {:induction false} StartFrame(s: State, c: nat, op: Op)
    ensures var s' := Start(s, c, op);
            && s' == s.(calls := s'.calls)
            && (s' == s || (c in s'.calls && s'.calls == s.calls[c := s'.calls[c]] && !InLock(s'.calls[c].pc)
                            && !s'.calls[c].pc.SaveSeed?))
  {
  }

  lemma {:induction false} StartKeeps(s: State, c: nat, op: Op)
    requires Inv(s)
    ensures Inv(Start(s, c, op))
  {
    var s' := Start(s, c, op);
    StartFrame(s, c, op);
    hide Start;
    assert forall d :: Holds(s', d) ==> Holds(s, d) && s'.calls[d] == s.calls[d];
    assert s' != s ==> c in s'.calls && !s'.calls[c].pc.SaveSeed? && !s'.calls[c].pc.Increment?;
  }

  lemma {:induction false} StepKeeps(s: State, step: Step)
    requires Inv(s)
    ensures Inv(Apply(s, step))
  {
    hide Inv, Begin, Rotate, Admit, Start;
    if step.StepStart? {
      StartKeeps(s, step.c, step.op);
    } else if step.c in s.calls {
      if Entering(s.calls[step.c].pc) {
        BeginKeeps(s, step.c, step.ok);
      } else if InRotation(s.calls[step.c].pc) {
        RotateKeeps(s, step.c, step.ok);
      } else if Admitting(s.calls[step.c].pc) {
        AdmitKeeps(s, step.c, step.ok);
      }
    }
  }

  /**
   * Safety of rotation. In every interleaving, whatever fails: at most one call holds the lock and the
   * columns name its user; every departed member is covered; the version plus the pending rotation never
   * exceeds the number of departed members; and no stored seed is ahead of the version.
   */
  lemma {:induction false} RotationSafe(s: State, steps: seq<Step>)
    requires Inv(s)
    ensures Inv(Run(s, steps))
    decreases |steps|
  {
    if steps != [] {
      RotationSafe(s, steps[..|steps| - 1]);
      StepKeeps(Run(s, steps[..|steps| - 1]), steps[|steps| - 1]);
    }
  }

  /** What one or more steps may change: versions rise, members leave for good, nobody's row disappears. */
  ghost predicate Advances(s: State, s': State) {
    && s.group.keyVersion <= s'.group.keyVersion
    && (forall u :: u in s.members ==>
          && u in s'.members && s'.members[u].role == s.members[u].role
          && (s.members[u].left ==> s'.members[u].left))
    && (forall u :: u in s.leftAt ==> u in s'.leftAt && s'.leftAt[u] == s.leftAt[u])
  }

  lemma {:induction false} BeginAdvances(s: State, c: nat, ok: bool)
    requires Inv(s) && c in s.calls && Entering(s.calls[c].pc)
    ensures Advances(s, Begin(s, c, ok)) && Begin(s, c, ok).group.keyVersion == s.group.keyVersion
  {
    hide Begin;
    assert forall u :: u in s.leftAt ==> u in s.members && s.members[u].left;
  }

  lemma {:induction false} NextAdvances(s: State, c: nat, ok: bool)
    requires Inv(s)
    ensures Advances(s, Next(s, c, ok))
    ensures Next(s, c, ok).group.keyVersion != s.group.keyVersion ==>
              Holds(s, c) && Next(s, c, ok).group.keyVersion == s.group.keyVersion + 1
  {
    hide Begin, Admit, Inv;
    if c in s.calls && Entering(s.calls[c].pc) {
      BeginAdvances(s, c, ok);
    }
  }

  /**
   * Over every run the version never falls, only the lock holder raises it, and a row only goes absent,
   * active, left: re-adding a former member leaves the row as it was.
   */
  lemma {:induction false} RunAdvances(s: State, steps: seq<Step>)
    requires Inv(s)
    ensures Advances(s, Run(s, steps))
    decreases |steps|
  {
    if steps != [] {
      var front, last := Run(s, steps[..|steps| - 1]), steps[|steps| - 1];
      RunAdvances(s, steps[..|steps| - 1]);
      RotationSafe(s, steps[..|steps| - 1]);
      if last.StepNext? {
        NextAdvances(front, last.c, last.ok);
      }
    }
  }

  /** Hence the version never exceeds the number of users the group ever had. */
  lemma {:induction false} VersionBounded(s: State, steps: seq<Step>)
    requires Inv(s)
    ensures Run(s, steps).group.keyVersion <= |Run(s, steps).members.Keys|
  {
    RotationSafe(s, steps);
    var t := Run(s, steps);
    assert t.members.Keys == LeftUsers(t.members) + (t.members.Keys - LeftUsers(t.members));
  }

  // ---- The lock that is never released ----

  ghost predicate Leaked(s: State) {
    s.group.inProgress && forall c :: !Holds(s, c)
  }

  /** Once a release has failed, no later run rotates the key again: the lock stays, the version is frozen. */
  lemma {:induction false} LeakIsForever(s: State, steps: seq<Step>)
    requires Leaked(s)
    ensures Leaked(Run(s, steps)) && Run(s, steps).group.keyVersion == s.group.keyVersion
    decreases |steps|
  {
    if steps != [] {
      LeakIsForever(s, steps[..|steps| - 1]);
      LeakedStep(Run(s, steps[..|steps| - 1]), steps[|steps| - 1]);
    }
  }

  lemma {:induction false} LeakedStep(s: State, step: Step)
    requires Leaked(s)
    ensures Leaked(Apply(s, step)) && Apply(s, step).group.keyVersion == s.group.keyVersion
  {
    hide Begin, Admit, Rotate, Start;
    assert !Holds(s, step.c);
    if step.StepStart? {
      StartFrame(s, step.c, step.op);
      LeakKept(s, Start(s, step.c, step.op), step.c);
    } else if step.c in s.calls {
      if InRotation(s.calls[step.c].pc) {
        RotateWhileLocked(s, step.c, step.ok);
      }
      LeakKept(s, Next(s, step.c, step.ok), step.c);
    }
  }

  lemma {:induction false} RotateWhileLocked(s: State, c: nat, ok: bool)
    requires c in s.calls && InRotation(s.calls[c].pc) && !Holds(s, c) && s.group.inProgress
    ensures Rotate(s, c, ok).group == s.group && !InLock(Rotate(s, c, ok).calls[c].pc)
  {
  }

  lemma {:induction false} LeakKept(s: State, s': State, c: nat)
    requires Leaked(s) && s'.group.inProgress && s'.group.keyVersion == s.group.keyVersion
    requires s'.calls == s.calls || (c in s'.calls && s'.calls == s.calls[c := s'.calls[c]] && !InLock(s'.calls[c].pc))
    ensures Leaked(s')
  {
    forall d
      ensures !Holds(s', d)
    {
      assert !Holds(s, d);
    }
  }

  lemma {:induction false} ReleaseLeaks(s: State, c: nat, ok: bool)
    requires Inv(s) && c in s.calls && (s.calls[c].pc.Release? || s.calls[c].pc.ReleaseAfterError?)
    ensures Leaked(Rotate(s, c, ok)) <==> !ok
  {
    var s' := Rotate(s, c, ok);
    assert Holds(s, c);
    forall d
      ensures !Holds(s', d)
    {
      assert d != c ==> !Holds(s, d);
    }
  }

  /** The lock leaks in just one way: its holder's release fails. */
  lemma {:induction false} LeakCause(s: State, c: nat, ok: bool)
    requires Inv(s) && !Leaked(s)
    ensures Leaked(Next(s, c, ok)) <==>
              !ok && c in s.calls && (s.calls[c].pc.Release? || s.calls[c].pc.ReleaseAfterError?)
  {
    hide Begin, Admit, Rotate, Inv;
    if c in s.calls && (s.calls[c].pc.Release? || s.calls[c].pc.ReleaseAfterError?) {
      hide Leaked;
      ReleaseLeaks(s, c, ok);
    } else {
      KeepsHolder(s, c, ok);
    }
  }

  lemma {:induction false} KeepsHolder(s: State, c: nat, ok: bool)
    requires Inv(s) && !Leaked(s) && (c in s.calls ==> !s.calls[c].pc.Release? && !s.calls[c].pc.ReleaseAfterError?)
    ensures !Leaked(Next(s, c, ok))
  {
    hide Begin, Admit;
    var s' := Next(s, c, ok);
    if s'.group.inProgress {
      if s.group.inProgress {
        var d :| Holds(s, d);
        assert Holds(s', d);
      } else {
        assert Holds(s', c);
      }
    }
  }

  /** A release statement of the run has failed. */
  ghost predicate ReleaseFailed(s: State, steps: seq<Step>) {
    exists i :: 0 <= i < |steps| && FailsRelease(Run(s, steps[..i]), steps[i])
  }

  predicate FailsRelease(s: State, step: Step) {
    step.StepNext? && !step.ok && step.c in s.calls && (s.calls[step.c].pc.Release? || s.calls[step.c].pc.ReleaseAfterError?)
  }

  lemma {:induction false} ReleaseFailedSnoc(s: State, steps: seq<Step>)
    requires steps != []
    ensures var front, last := steps[..|steps| - 1], steps[|steps| - 1];
            ReleaseFailed(s, steps) <==> ReleaseFailed(s, front) || FailsRelease(Run(s, front), last)
  {
    var n := |steps| - 1;
    var front := steps[..n];
    assert forall i :: 0 <= i <= n ==> front[..i] == steps[..i];
    if ReleaseFailed(s, front) {
      var i :| 0 <= i < n && FailsRelease(Run(s, front[..i]), front[i]);
      assert FailsRelease(Run(s, steps[..i]), steps[i]);
    }
    if ReleaseFailed(s, steps) {
      var i :| 0 <= i < |steps| && FailsRelease(Run(s, steps[..i]), steps[i]);
      assert i < n ==> FailsRelease(Run(s, front[..i]), front[i]);
    }
  }

  /** Over a whole run the lock has leaked exactly when a release statement has failed in it. */
  lemma {:induction false} LeakedIffReleaseFailed(s: State, steps: seq<Step>)
    requires Inv(s) && !Leaked(s)
    ensures Leaked(Run(s, steps)) <==> ReleaseFailed(s, steps)
    decreases |steps|
  {
    if steps != [] {
      var front, last := steps[..|steps| - 1], steps[|steps| - 1];
      var t := Run(s, front);
      LeakedIffReleaseFailed(s, front);
      ReleaseFailedSnoc(s, steps);
      RotationSafe(s, front);
      hide Inv, Leaked, Next, Start;
      if Leaked(t) {
        LeakedStep(t, last);
      } else if last.StepNext? {
        LeakCause(t, last.c, last.ok);
      } else {
        StartLeaksNothing(t, last.c, last.op);
      }
    }
  }

  lemma {:induction false} StartLeaksNothing(s: State, c: nat, op: Op)
    requires !Leaked(s)
    ensures !Leaked(Start(s, c, op))
  {
    StartFrame(s, c, op);
    StartIsNew(s, c, op);
    hide Start;
    if s.group.inProgress {
      var d :| Holds(s, d);
      assert Holds(Start(s, c, op), d);
    }
  }

  lemma {:induction false} StartIsNew(s: State, c: nat, op: Op)
    ensures forall d :: d in s.calls ==> d in Start(s, c, op).calls && Start(s, c, op).calls[d] == s.calls[d]
  {
  }

  // ---- Rotations left due ----

  predicate AllOk(steps: seq<Step>) {
    forall i :: 0 <= i < |steps| && steps[i].StepNext? ==> steps[i].ok
  }

  ghost predicate SomeRotator(s: State) {
    exists c :: c in s.calls && (s.calls[c].pc.Acquire? || s.calls[c].pc.Increment?)
  }

  /** A due rotation has a call about to try it, or one that gave up on it. */
  ghost predicate Live(s: State) {
    && (s.missed ==> s.group.needsRotation)
    && (s.group.needsRotation ==> s.missed || SomeRotator(s))
  }

  /** Other calls keep a rotator; a departure makes one. */
  lemma {:induction false} RotatorStays(s: State, s': State, c: nat)
    requires Live(s) && Moves(s, s', c) && s'.missed == s.missed && !InRotation(s.calls[c].pc)
    requires s'.group == s.group || (s'.group.needsRotation && s'.calls[c].pc.Acquire?)
    ensures Live(s')
  {
    if s'.group.needsRotation && !s'.missed {
      if s'.group == s.group {
        var d :| d in s.calls && (s.calls[d].pc.Acquire? || s.calls[d].pc.Increment?);
        assert s'.calls[d] == s.calls[d];
      } else {
        assert s'.calls[c].pc.Acquire?;
      }
    }
  }

  lemma {:induction false} RotateLive(s: State, c: nat, ok: bool)
    requires Inv(s) && Live(s) && c in s.calls && InRotation(s.calls[c].pc)
    ensures Live(Rotate(s, c, ok))
  {
    var s' := Rotate(s, c, ok);
    if s'.group.needsRotation && !s'.missed {
      var d :| d in s.calls && (s.calls[d].pc.Acquire? || s.calls[d].pc.Increment?);
      assert d != c || s.calls[c].pc.Acquire?;
      assert s'.calls[if s.calls[c].pc.Acquire? && s'.calls[c].pc.Increment? then c else d].pc in {Acquire, Increment};
    }
  }

  lemma {:induction false} NextLive(s: State, c: nat, ok: bool)
    requires Inv(s) && Live(s)
    ensures Live(Next(s, c, ok))
  {
    hide Begin, Rotate, Admit, Inv, Live;
    if c in s.calls {
      if InRotation(s.calls[c].pc) {
        RotateLive(s, c, ok);
      } else if Entering(s.calls[c].pc) || Admitting(s.calls[c].pc) {
        RotatorStays(s, Next(s, c, ok), c);
      }
    }
  }

  lemma {:induction false} RunLive(s: State, steps: seq<Step>)
    requires Inv(s) && Live(s)
    ensures Inv(Run(s, steps)) && Live(Run(s, steps))
    decreases |steps|
  {
    RotationSafe(s, steps);
    if steps != [] {
      var front, last := Run(s, steps[..|steps| - 1]), steps[|steps| - 1];
      RunLive(s, steps[..|steps| - 1]);
      if last.StepNext? {
        NextLive(front, last.c, last.ok);
      } else {
        StartLive(front, last.c, last.op);
      }
    }
  }

  lemma {:induction false} StartLive(s: State, c: nat, op: Op)
    requires Live(s)
    ensures Live(Start(s, c, op))
  {
    if SomeRotator(s) {
      var d :| d in s.calls && (s.calls[d].pc.Acquire? || s.calls[d].pc.Increment?);
      assert Start(s, c, op).calls[d] == s.calls[d];
    }
  }

  ghost predicate Quiet(s: State) {
    forall c :: c in s.calls ==> s.calls[c].pc.Done?
  }

  /** A call gives up on a due rotation: it finds the lock set, or its acquire or increment fails. */
  predicate GivesUp(s: State, step: Step) {
    && step.StepNext? && step.c in s.calls && s.group.needsRotation
    && ((s.calls[step.c].pc.Acquire? && (!step.ok || s.group.inProgress)) || (s.calls[step.c].pc.Increment? && !step.ok))
  }

  predicate Increments(s: State, step: Step) {
    step.StepNext? && step.ok && step.c in s.calls && s.calls[step.c].pc.Increment?
  }

  /** In step i of the run a call gave up, and no later step increments. */
  ghost predicate GaveUpAt(s: State, steps: seq<Step>, i: nat) {
    && i < |steps| && GivesUp(Run(s, steps[..i]), steps[i])
    && forall j :: i < j < |steps| ==> !Increments(Run(s, steps[..j]), steps[j])
  }

  ghost predicate GaveUp(s: State, steps: seq<Step>) {
    exists i: nat :: GaveUpAt(s, steps, i)
  }

  lemma {:induction false} MissedStep(s: State, step: Step)
    ensures Apply(s, step).missed <==> GivesUp(s, step) || (s.missed && !Increments(s, step))
  {
    hide Begin, Admit;
  }

  lemma {:induction false} GaveUpSnoc(s: State, steps: seq<Step>)
    requires steps != []
    ensures var front, last := steps[..|steps| - 1], steps[|steps| - 1];
            GaveUp(s, steps) <==> GivesUp(Run(s, front), last) || (GaveUp(s, front) && !Increments(Run(s, front), last))
  {
    hide Run, GivesUp, Increments;
    var n := |steps| - 1;
    var front := steps[..n];
    assert forall i :: 0 <= i <= n ==> front[..i] == steps[..i];
    if GivesUp(Run(s, front), steps[n]) {
      assert GaveUpAt(s, steps, n);
    } else if GaveUp(s, front) && !Increments(Run(s, front), steps[n]) {
      var i: nat :| GaveUpAt(s, front, i);
      forall j | i < j < |steps|
        ensures !Increments(Run(s, steps[..j]), steps[j])
      {
        assert j < n ==> front[j] == steps[j];
      }
      assert GaveUpAt(s, steps, i);
    }
    if GaveUp(s, steps) {
      var i: nat :| GaveUpAt(s, steps, i);
      if i < n {
        forall j | i < j < n
          ensures !Increments(Run(s, front[..j]), front[j])
        {
          assert front[j] == steps[j];
        }
        assert GaveUpAt(s, front, i);
        assert !Increments(Run(s, steps[..n]), steps[n]);
      }
    }
  }

  /** The history flag is a statement about the run. */
  lemma {:induction false} MissedMeansGaveUp(s: State, steps: seq<Step>)
    requires !s.missed
    ensures Run(s, steps).missed <==> GaveUp(s, steps)
    decreases |steps|
  {
    hide Apply, GivesUp, Increments;
    if steps != [] {
      var front := steps[..|steps| - 1];
      MissedMeansGaveUp(s, front);
      GaveUpSnoc(s, steps);
      MissedStep(Run(s, front), steps[|steps| - 1]);
    }
  }

  /**
   * Whatever fails: once all calls have ended, the lock is still set exactly when a release has failed, and a
   * rotation is still due exactly when some call gave up on it and no later step incremented. Nobody comes back
   * for it.
   */
  lemma {:induction false} DueIffMissed(s: State, steps: seq<Step>)
    requires Initial(s) && Quiet(Run(s, steps))
    ensures var t := Run(s, steps);
            (t.group.inProgress <==> ReleaseFailed(s, steps)) && (t.group.needsRotation <==> GaveUp(s, steps))
  {
    hide Run, ReleaseFailed, GaveUp;
    InitialInv(s);
    RunLive(s, steps);
    LeakedIffReleaseFailed(s, steps);
    MissedMeansGaveUp(s, steps);
    var t := Run(s, steps);
    assert forall c :: !Holds(t, c);
  }

  /** One departure up to the statement after its increment. */
  lemma {:induction false} LeaveToRelease(s: State, a: string)
    requires Initial(s) && a != "" && IsActive(s.members, a)
    ensures var n0 := StepNext(0, true);
            Run(s, [StepStart(0, Leave(a)), n0, n0, n0, n0])
            == s.(group := Group(1, false, true, Some(a)), members := s.members[a := s.members[a].(left := true)],
                  leftAt := map[a := 0], calls := map[0 := Call(Leave(a), Release(1))])
  {
    var n0 := StepNext(0, true);
    FiveSteps(s, StepStart(0, Leave(a)), n0, n0, n0, n0);
    var s1 := Start(s, 0, Leave(a));
    assert s1.calls == map[0 := Call(Leave(a), CheckTarget)];
    var s2 := Next(s1, 0, true);
    assert s2.calls == map[0 := Call(Leave(a), Depart)];
    var s3 := Next(s2, 0, true);
    assert s3.calls == map[0 := Call(Leave(a), Acquire)] && s3.group == Group(0, true, false, None) && s3.leftAt == map[a := 0];
    var s4 := Next(s3, 0, true);
    assert s4.calls == map[0 := Call(Leave(a), Increment)] && s4.group == Group(0, true, true, Some(a));
    assert Next(s4, 0, true).calls == map[0 := Call(Leave(a), Release(1))];
  }

  /** Another departure while the first call still holds the lock. */
  lemma {:induction false} LeaveWhileLocked(s: State, a: string, b: string)
    requires s.group == Group(1, false, true, Some(a)) && s.calls == map[0 := Call(Leave(a), Release(1))]
    requires b != "" && IsActive(s.members, b)
    ensures var n1 := StepNext(1, true);
            Run(s, [StepStart(1, Leave(b)), n1, n1, n1, n1])
            == s.(group := Group(1, true, true, Some(a)), members := s.members[b := s.members[b].(left := true)],
                  leftAt := s.leftAt[b := 1], missed := true,
                  calls := map[0 := Call(Leave(a), Release(1)), 1 := Call(Leave(b), Done(Ok))])
  {
    var n1, first := StepNext(1, true), Call(Leave(a), Release(1));
    FiveSteps(s, StepStart(1, Leave(b)), n1, n1, n1, n1);
    var s1 := Start(s, 1, Leave(b));
    assert s1.calls == map[0 := first, 1 := Call(Leave(b), CheckTarget)];
    var s2 := Next(s1, 1, true);
    assert s2.calls == map[0 := first, 1 := Call(Leave(b), Depart)];
    var s3 := Next(s2, 1, true);
    assert s3.calls == map[0 := first, 1 := Call(Leave(b), Acquire)] && s3.group == Group(1, true, true, Some(a));
    var s4 := Next(s3, 1, true);
    assert s4.calls == map[0 := first, 1 := Call(Leave(b), ReadVersion)] && s4.missed;
    assert Next(s4, 1, true).calls == map[0 := first, 1 := Call(Leave(b), Done(Ok))];
  }

  lemma {:induction false} ReleaseLast(s: State, a: string, b: string)
    requires s.group == Group(1, true, true, Some(a))
    requires s.calls == map[0 := Call(Leave(a), Release(1)), 1 := Call(Leave(b), Done(Ok))]
    ensures Run(s, [StepNext(0, true)])
            == s.(group := Group(1, true, false, None), calls := map[0 := Call(Leave(a), Done(Ok)), 1 := Call(Leave(b), Done(Ok))])
  {
    var last := [StepNext(0, true)];
    assert last[..0] == [] && Run(s, last) == Apply(Run(s, []), last[0]);
    assert Next(s, 0, true).calls == map[0 := Call(Leave(a), Done(Ok)), 1 := Call(Leave(b), Done(Ok))];
  }

  /** A run in which that happens: b leaves while a's call is between its increment and its release. */
  lemma {:induction false} MissedRotation(s: State, a: string, b: string)
    requires Initial(s) && a != b && a != "" && b != "" && IsActive(s.members, a) && IsActive(s.members, b)
    ensures exists steps ::
              && AllOk(steps) && Quiet(Run(s, steps)) && Run(s, steps).group == Group(1, true, false, None)
              && Run(s, steps).leftAt == map[a := 0, b := 1]
  {
    hide Apply;
    var n0, n1 := StepNext(0, true), StepNext(1, true);
    var first, second := [StepStart(0, Leave(a)), n0, n0, n0, n0], [StepStart(1, Leave(b)), n1, n1, n1, n1];
    LeaveToRelease(s, a);
    LeaveWhileLocked(Run(s, first), a, b);
    ReleaseLast(Run(Run(s, first), second), a, b);
    RunConcat(s, first, second);
    RunConcat(s, first + second, [n0]);
    assert AllOk(first + second + [n0]);
  }

  /** And a run that ends rotation for good: the release of a lone departure fails. */
  lemma {:induction false} LeakedRun(s: State, a: string)
    requires Initial(s) && a != "" && IsActive(s.members, a)
    ensures exists steps :: Leaked(Run(s, steps)) && Quiet(Run(s, steps))
  {
    hide Apply, Run, Leaked;
    var n0, fail := StepNext(0, true), StepNext(0, false);
    var first := [StepStart(0, Leave(a)), n0, n0, n0, n0];
    LeaveToRelease(s, a);
    var t := Run(s, first);
    InitialInv(s);
    RotationSafe(s, first);
    ReleaseLeaks(t, 0, false);
    RunConcat(s, first, [fail]);
    LastFails(t, a);
  }

  lemma {:induction false} LastFails(s: State, a: string)
    requires s.calls == map[0 := Call(Leave(a), Release(1))]
    ensures Run(s, [StepNext(0, false)]) == Rotate(s, 0, false) && Quiet(Rotate(s, 0, false))
  {
    var last := [StepNext(0, false)];
    assert last[..0] == [] && Run(s, last) == Apply(Run(s, []), last[0]);
  }

  lemma {:induction false} FiveSteps(s: State, a: Step, b: Step, c: Step, d: Step, e: Step)
    ensures Run(s, [a, b, c, d, e]) == Apply(Apply(Apply(Apply(Apply(s, a), b), c), d), e)
  {
    hide Apply;
    assert [a, b, c, d, e][..4] == [a, b, c, d] && [a, b, c, d][..3] == [a, b, c];
    assert [a, b, c][..2] == [a, b] && [a, b][..1] == [a] && [a][..0] == [];
    assert Run(s, [a]) == Apply(Run(s, []), a);
    assert Run(s, [a, b]) == Apply(Run(s, [a]), b);
    assert Run(s, [a, b, c]) == Apply(Run(s, [a, b]), c);
    assert Run(s, [a, b, c, d]) == Apply(Run(s, [a, b, c]), d);
  }

  // ---- One call after the other ----

  /** The call runs by itself until it ends; seven statements are enough for any call. */
  function Alone(s: State, c: nat, n: nat): State
    decreases n
  {
    if n == 0 then s else Alone(Next(s, c, true), c, n - 1)
  }

  function InTurn(s: State, c: nat, ops: seq<Op>): State
    decreases |ops|
  {
    if ops == [] then s else InTurn(Alone(Start(s, c, ops[0]), c, 7), c + 1, ops[1..])
  }

  ghost predicate Settled(s: State) {
    !s.group.needsRotation && !s.group.inProgress && s.group.keyVersion == |LeftUsers(s.members)|
  }

  /** Where a lone call stands, statement by statement. */
  ghost predicate LoneCall(s: State, c: nat, left: nat) {
    && c in s.calls
    && var due := |LeftUsers(s.members)| - s.group.keyVersion;
       match s.calls[c].pc
       case CheckActor => Settled(s) && left >= 6
       case CheckTarget => Settled(s) && left >= 5
       case Depart => Settled(s) && left >= 4
       case Acquire => !s.group.inProgress && due == (if s.group.needsRotation then 1 else 0) && left >= 3
       case ReadVersion => Settled(s) && left >= 1
       case Increment => s.group.inProgress && s.group.needsRotation && due == 1 && left >= 2
       case Release(_) => s.group.inProgress && !s.group.needsRotation && due == 0 && left >= 1
       case ReleaseAfterError => false
       case ReadGroup => Settled(s) && left >= 4
       case Insert => Settled(s) && left >= 3
       case ReadSeedVersion => Settled(s) && left >= 2
       case SaveSeed(_) => Settled(s) && left >= 1
       case Done(_) => Settled(s)
  }

  lemma {:induction false} LoneBegin(s: State, c: nat, left: nat)
    requires LoneCall(s, c, left) && left > 0 && Entering(s.calls[c].pc)
    ensures LoneCall(Begin(s, c, true), c, left - 1)
  {
    var user := s.calls[c].op.user;
    if s.calls[c].pc.Depart? && IsActive(s.members, user) {
      assert LeftUsers(Leaving(s, user).members) == LeftUsers(s.members) + {user};
    }
  }

  lemma {:induction false} LoneRotate(s: State, c: nat, left: nat)
    requires LoneCall(s, c, left) && left > 0 && InRotation(s.calls[c].pc)
    ensures LoneCall(Rotate(s, c, true), c, left - 1)
  {
  }

  lemma {:induction false} LoneAdmit(s: State, c: nat, left: nat)
    requires LoneCall(s, c, left) && left > 0 && Admitting(s.calls[c].pc)
    ensures LoneCall(Admit(s, c, true), c, left - 1)
  {
    JoiningKeeps(s, s.calls[c].op.user);
  }

  lemma {:induction false} LoneStep(s: State, c: nat, left: nat)
    requires LoneCall(s, c, left) && left > 0
    ensures LoneCall(Next(s, c, true), c, left - 1)
  {
    hide Begin, Rotate, Admit;
    if Entering(s.calls[c].pc) {
      LoneBegin(s, c, left);
    } else if InRotation(s.calls[c].pc) {
      LoneRotate(s, c, left);
    } else if Admitting(s.calls[c].pc) {
      LoneAdmit(s, c, left);
    }
  }

  lemma {:induction false} LoneCallSettles(s: State, c: nat, n: nat)
    requires LoneCall(s, c, n)
    ensures LoneCall(Alone(s, c, n), c, 0)
    decreases n
  {
    if n > 0 {
      LoneStep(s, c, n);
      LoneCallSettles(Next(s, c, true), c, n - 1);
    }
  }

  lemma {:induction false} AloneKeepsCalls(s: State, c: nat, n: nat)
    ensures Alone(s, c, n).calls.Keys == s.calls.Keys
    decreases n
  {
    if n > 0 {
      AloneKeepsCalls(Next(s, c, true), c, n - 1);
    }
  }

  lemma {:induction false} LoneStart(s: State, c: nat, op: Op)
    requires Settled(s) && c !in s.calls
    ensures LoneCall(Start(s, c, op), c, 7)
  {
  }

  /** In failure-free sequential runs the version counts the departed members exactly. */
  lemma {:induction false} SequentialVersions(s: State, c: nat, ops: seq<Op>)
    requires Settled(s) && forall d :: d in s.calls ==> d < c
    ensures Settled(InTurn(s, c, ops))
    decreases |ops|
  {
    if ops != [] {
      hide Next;
      var s1 := Start(s, c, ops[0]);
      var s2 := Alone(s1, c, 7);
      LoneStart(s, c, ops[0]);
      LoneCallSettles(s1, c, 7);
      AloneKeepsCalls(s1, c, 7);
      SequentialVersions(s2, c + 1, ops[1..]);
    }
  }

  // ---- Adding a former member ----

  lemma {:induction false} AloneStep(s: State, c: nat, n: nat)
    requires n > 0
    ensures Alone(s, c, n) == Alone(Next(s, c, true), c, n - 1)
  {
  }

  /**
   * AddGroupMember by an active member, of a user who is not active, run alone with nothing failing: it
   * replies Ok and stores a seed at the current version, and the user is a member again exactly when no
   * row of a past membership is in the way.
   */
  lemma {:induction false} ReAddingIsNoOp(s: State, c: nat, user: string, actor: string, seed: string)
    requires c !in s.calls && user != "" && IsActive(s.members, actor) && actor != "" && !IsActive(s.members, user)
    ensures var t := Alone(Start(s, c, Add(user, actor, seed)), c, 6);
            && c in t.calls && t.calls[c].pc == Done(Ok)
            && t.seeds == s.seeds[user := Seed(seed, actor, s.group.keyVersion)]
            && t.members == (if user in s.members then s.members else s.members[user := Member("member", false)])
            && (IsActive(t.members, user) <==> user !in s.members)
  {
    var op := Add(user, actor, seed);
    AddChecks(s, c, op);
    AddWrites(s.(calls := s.calls[c := Call(op, Insert)]), c, op);
    SixAlone(Start(s, c, op), c);
    hide Next, Start;
    assert Joining(s, user).seeds == s.seeds;
  }

  lemma {:induction false} AddChecks(s: State, c: nat, op: Op)
    requires c !in s.calls && op.Add? && Valid(op) && IsActive(s.members, op.actor) && !IsActive(s.members, op.user)
    ensures Next(Next(Next(Start(s, c, op), c, true), c, true), c, true) == s.(calls := s.calls[c := Call(op, Insert)])
  {
    var s1 := Next(Start(s, c, op), c, true);
    assert s1 == s.(calls := s.calls[c := Call(op, CheckTarget)]);
    var s2 := Next(s1, c, true);
    assert s2 == s.(calls := s.calls[c := Call(op, ReadGroup)]);
  }

  lemma {:induction false} AddWrites(s: State, c: nat, op: Op)
    requires c in s.calls && s.calls[c] == Call(op, Insert) && op.Add?
    ensures var t := Next(Next(Next(s, c, true), c, true), c, true);
            && c in t.calls && t.calls[c].pc == Done(Ok) && t.members == Joining(s, op.user).members
            && t.seeds == s.seeds[op.user := Seed(op.seed, op.actor, s.group.keyVersion)]
  {
    var s1 := Next(s, c, true);
    assert s1.calls[c] == Call(op, ReadSeedVersion) && s1.group == s.group && s1.seeds == s.seeds;
    var s2 := Next(s1, c, true);
    assert s2.calls[c] == Call(op, SaveSeed(s.group.keyVersion)) && s2.members == s1.members && s2.seeds == s.seeds;
  }

  lemma {:induction false} SixAlone(s: State, c: nat)
    ensures Alone(s, c, 6)
            == Next(Next(Next(Next(Next(Next(s, c, true), c, true), c, true), c, true), c, true), c, true)
  {
    hide Next;
    var s1 := Next(s, c, true);
    var s2 := Next(s1, c, true);
    var s3 := Next(s2, c, true);
    var s4 := Next(s3, c, true);
    var s5 := Next(s4, c, true);
    AloneStep(s, c, 6);
    AloneStep(s1, c, 5);
    AloneStep(s2, c, 4);
    AloneStep(s3, c, 3);
    AloneStep(s4, c, 2);
    AloneStep(s5, c, 1);
  }
}

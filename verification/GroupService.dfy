/**
 * The group calls as written, statement by statement. Between any two statements of a call, Interleave
 * stands for whatever other calls do meanwhile. A ghost trace records the statements: every state the
 * service can be in is the state of a run of the machine, so what holds of all runs holds of it.
 */
module GroupService {
  import opened Options
  import opened GroupMachine

  lemma Snoc(s: State, steps: seq<Step>, step: Step)
    ensures Run(s, steps + [step]) == Apply(Run(s, steps), step)
  {
    assert (steps + [step])[..|steps|] == steps;
  }

  class Service {
    var group: Group
    var members: map<string, Member>
    var seeds: map<string, Seed>
    ghost const origin: State
    ghost var trace: seq<Step>

    /** The run so far. */
    ghost function Now(): State
      reads this
    {
      Run(origin, trace)
    }

    ghost predicate Valid()
      reads this
    {
      && Initial(origin)
      && Now().group == group && Now().members == members && Now().seeds == seeds
    }

    /** The latest statement. */
    ghost function Last(): Step
      reads this
    {
      if trace == [] then StepNext(0, false) else trace[|trace| - 1]
    }

    /** Call c is about to run the statement pc. */
    ghost predicate At(c: nat, op: Op, pc: Pc)
      reads this
    {
      Valid() && c in Now().calls && Now().calls[c] == Call(op, pc)
    }

    constructor (members: map<string, Member>, seeds: map<string, Seed>)
      requires forall u :: u in members ==> !members[u].left
      requires forall u :: u in seeds ==> seeds[u].keyVersion == 0
      ensures Valid() && trace == [] && this.members == members && this.seeds == seeds
    {
      this.group, this.members, this.seeds := Group(0, false, false, None), members, seeds;
      this.origin, this.trace := State(Group(0, false, false, None), members, seeds, map[], map[], false), [];
    }

    /** Any statements of other calls: call c stays where it is. */
    method Interleave(ghost c: nat)
      requires Valid() && c in Now().calls
      modifies this
      ensures Valid() && old(trace) <= trace
      ensures c in Now().calls && Now().calls[c] == old(Now().calls[c])
    {
    }

    ghost method Record(c: nat, ok: bool)
      modifies this`trace
      ensures trace == old(trace) + [StepNext(c, ok)] && Now() == Next(old(Now()), c, ok)
    {
      Snoc(origin, trace, StepNext(c, ok));
      trace := trace + [StepNext(c, ok)];
    }

    // ---- The statements; each waits for its turn while other calls run theirs ----

    method CheckGroupMembership(user: string, ok: bool, ghost c: nat, ghost op: Op) returns (isMember: bool)
      requires At(c, op, CheckActor) || At(c, op, CheckTarget)
      requires user == if At(c, op, CheckActor) then Rotator(op) else op.user
      modifies this
      ensures old(trace) <= trace && Last() == StepNext(c, ok)
      ensures At(c, op, AfterCheck(op, old(Now().calls[c].pc), ok, isMember))
      ensures isMember <==> IsActive(members, user)
    {
      Interleave(c);
      Record(c, ok);
      isMember := user in members && !members[user].left;
    }

    /** UPDATE group_members SET left_at, with its trigger. */
    method RemoveMember(user: string, ok: bool, ghost c: nat, ghost op: Op)
      requires At(c, op, Depart) && op.user == user
      modifies this
      ensures old(trace) <= trace && Last() == StepNext(c, ok)
      ensures At(c, op, if ok then Acquire else Done(Error(Database)))
    {
      Interleave(c);
      Record(c, ok);
      if ok && user in members && !members[user].left {
        members := members[user := members[user].(left := true)];
        group := group.(needsRotation := true);
      }
    }

    method TryAcquireRotationLock(user: string, ok: bool, ghost c: nat, ghost op: Op) returns (acquired: bool)
      requires At(c, op, Acquire) && Rotator(op) == user
      modifies this
      ensures old(trace) <= trace && Last() == StepNext(c, ok)
      ensures At(c, op, if !ok then Done(Departed(op, 0)) else if acquired then Increment else ReadVersion)
    {
      Interleave(c);
      Record(c, ok);
      acquired := ok && !group.inProgress && group.needsRotation;
      if acquired {
        group := group.(inProgress := true, rotationBy := Some(user));
      }
    }

    method GetCurrentKeyVersion(ok: bool, ghost c: nat, ghost op: Op) returns (v: nat)
      requires At(c, op, ReadVersion) || (At(c, op, ReadSeedVersion) && op.Add?)
      modifies this
      ensures old(trace) <= trace && Last() == StepNext(c, ok)
      ensures At(c, op, if old(Now().calls[c].pc) == ReadVersion then Done(Departed(op, if ok then v else 0))
                        else if ok then SaveSeed(v) else Done(Error(Database)))
      ensures v == group.keyVersion
    {
      Interleave(c);
      Record(c, ok);
      v := group.keyVersion;
    }

    method IncrementKeyVersion(ok: bool, ghost c: nat, ghost op: Op) returns (v: nat)
      requires At(c, op, Increment)
      modifies this
      ensures old(trace) <= trace && Last() == StepNext(c, ok)
      ensures At(c, op, if ok then Release(v) else ReleaseAfterError)
    {
      Interleave(c);
      Record(c, ok);
      v := group.keyVersion + 1;
      if ok {
        group := group.(keyVersion := v, needsRotation := false);
      }
    }

    method ReleaseRotationLock(ok: bool, ghost c: nat, ghost op: Op, ghost pc: Pc)
      requires At(c, op, pc) && (pc.Release? || pc.ReleaseAfterError?)
      modifies this
      ensures old(trace) <= trace && Last() == StepNext(c, ok)
      ensures At(c, op, Done(Departed(op, if pc.Release? then pc.v else 0)))
    {
      Interleave(c);
      Record(c, ok);
      if ok {
        group := group.(inProgress := false, rotationBy := None);
      }
    }

    method GetGroupByID(ok: bool, ghost c: nat, ghost op: Op)
      requires At(c, op, ReadGroup) && op.Add?
      modifies this
      ensures old(trace) <= trace && Last() == StepNext(c, ok)
      ensures At(c, op, if ok then Insert else Done(Error(Database)))
    {
      Interleave(c);
      Record(c, ok);
    }

    /** INSERT ... ON CONFLICT DO NOTHING. */
    method AddMember(user: string, ok: bool, ghost c: nat, ghost op: Op)
      requires At(c, op, Insert) && op.Add? && op.user == user
      modifies this
      ensures old(trace) <= trace && Last() == StepNext(c, ok)
      ensures At(c, op, if ok then ReadSeedVersion else Done(Error(Database)))
    {
      Interleave(c);
      Record(c, ok);
      if ok && user !in members {
        members := members[user := Member("member", false)];
      }
    }

    method SaveGroupKeySeed(user: string, seed: string, encryptedBy: string, v: nat, ok: bool, ghost c: nat, ghost op: Op)
      requires At(c, op, SaveSeed(v)) && op == Add(user, encryptedBy, seed)
      modifies this
      ensures old(trace) <= trace && Last() == StepNext(c, ok)
      ensures At(c, op, if ok then Done(Ok) else Done(Error(Database)))
    {
      Interleave(c);
      Record(c, ok);
      if ok {
        seeds := seeds[user := Seed(seed, encryptedBy, v)];
      }
    }

    // ---- The calls; ok[i] says whether the i-th statement succeeds ----

    /** tryKeyRotation: the version, or 0 where the code returns an error. */
    method TryKeyRotation(user: string, ok: seq<bool>, ghost c: nat, ghost op: Op) returns (v: nat)
      requires |ok| >= 3 && At(c, op, Acquire) && Rotator(op) == user
      modifies this
      ensures old(trace) <= trace && At(c, op, Done(Departed(op, v)))
    {
      hide Next, Run;
      var acquired := TryAcquireRotationLock(user, ok[0], c, op);
      if !ok[0] {
        return 0;
      }
      if !acquired {
        v := GetCurrentKeyVersion(ok[1], c, op);
        if !ok[1] {
          v := 0;
        }
        return;
      }
      v := IncrementKeyVersion(ok[1], c, op);
      if !ok[1] {
        ReleaseRotationLock(ok[2], c, op, ReleaseAfterError);
        return 0;
      }
      ReleaseRotationLock(ok[2], c, op, Release(v));
    }

    ghost method Begin(c: nat, op: Op)
      requires Valid() && c !in Now().calls
      modifies this`trace
      ensures trace == old(trace) + [StepStart(c, op)] && Now() == Start(old(Now()), c, op)
      ensures At(c, op, if !GroupMachine.Valid(op) then Done(Error(InvalidInput))
                        else if op.Leave? then CheckTarget else CheckActor)
    {
      Snoc(origin, trace, StepStart(c, op));
      trace := trace + [StepStart(c, op)];
    }

    method RemoveGroupMember(user: string, removedBy: string, ok: seq<bool>, ghost c: nat) returns (reply: Reply)
      requires |ok| >= 6 && Valid() && c !in Now().calls
      modifies this
      ensures old(trace) <= trace && At(c, Remove(user, removedBy), Done(reply))
      ensures reply == Error(InvalidInput) <==> user == "" || removedBy == ""
    {
      ghost var op := Remove(user, removedBy);
      Begin(c, op);
      hide Next, Run, Start;
      if user == "" || removedBy == "" {
        return Error(InvalidInput);
      }
      var isAdmin := CheckGroupMembership(removedBy, ok[0], c, op);
      if !ok[0] {
        return Error(Database);
      }
      if !isAdmin {
        return Error(NotAdmin);
      }
      var isMember := CheckGroupMembership(user, ok[1], c, op);
      if !ok[1] {
        return Error(Database);
      }
      if !isMember {
        return Error(NotGroupMember);
      }
      RemoveMember(user, ok[2], c, op);
      if !ok[2] {
        return Error(Database);
      }
      var v := TryKeyRotation(removedBy, ok[3..], c, op);
      reply := Version(v);
    }

    method LeaveGroup(user: string, ok: seq<bool>, ghost c: nat) returns (reply: Reply)
      requires |ok| >= 5 && Valid() && c !in Now().calls
      modifies this
      ensures old(trace) <= trace && At(c, Leave(user), Done(reply))
      ensures reply == Error(InvalidInput) <==> user == ""
    {
      ghost var op := Leave(user);
      Begin(c, op);
      hide Next, Run, Start;
      if user == "" {
        return Error(InvalidInput);
      }
      var isMember := CheckGroupMembership(user, ok[0], c, op);
      if !ok[0] {
        return Error(Database);
      }
      if !isMember {
        return Error(NotGroupMember);
      }
      RemoveMember(user, ok[1], c, op);
      if !ok[1] {
        return Error(Database);
      }
      var v := TryKeyRotation(user, ok[2..], c, op);
      reply := Ok;
    }

    method AddGroupMember(user: string, addedBy: string, seed: string, ok: seq<bool>, ghost c: nat) returns (reply: Reply)
      requires |ok| >= 6 && Valid() && c !in Now().calls
      modifies this
      ensures old(trace) <= trace && At(c, Add(user, addedBy, seed), Done(reply))
      ensures reply == Error(InvalidInput) <==> user == "" || addedBy == ""
    {
      ghost var op := Add(user, addedBy, seed);
      Begin(c, op);
      hide Next, Run, Start;
      if user == "" || addedBy == "" {
        return Error(InvalidInput);
      }
      var isMember := CheckGroupMembership(addedBy, ok[0], c, op);
      if !ok[0] {
        return Error(Database);
      }
      if !isMember {
        return Error(NotGroupMember);
      }
      var already := CheckGroupMembership(user, ok[1], c, op);
      if !ok[1] {
        return Error(Database);
      }
      if already {
        return Error(AlreadyMember);
      }
      GetGroupByID(ok[2], c, op);
      if !ok[2] {
        return Error(Database);
      }
      reply := Admit(user, addedBy, seed, ok[3..], c);
    }

    /** The second half of AddGroupMember: the row, then the seed at the current version. */
    method Admit(user: string, addedBy: string, seed: string, ok: seq<bool>, ghost c: nat) returns (reply: Reply)
      requires |ok| >= 3 && At(c, Add(user, addedBy, seed), Insert)
      modifies this
      ensures old(trace) <= trace && At(c, Add(user, addedBy, seed), Done(reply))
      ensures reply == Ok || reply == Error(Database)
    {
      hide Next, Run;
      ghost var op := Add(user, addedBy, seed);
      AddMember(user, ok[0], c, op);
      if !ok[0] {
        return Error(Database);
      }
      var v := GetCurrentKeyVersion(ok[1], c, op);
      if !ok[1] {
        return Error(Database);
      }
      SaveGroupKeySeed(user, seed, addedBy, v, ok[2], c, op);
      reply := if ok[2] then Ok else Error(Database);
    }
  }

  /** Whatever calls have run and however they interleaved, the service is in a safe state. */
  lemma ServiceIsSafe(service: Service)
    requires service.Valid()
    ensures Inv(service.Now()) && service.group.keyVersion <= |service.members.Keys|
  {
    InitialInv(service.origin);
    RotationSafe(service.origin, service.trace);
    VersionBounded(service.origin, service.trace);
  }

  /** And nobody who left comes back: what holds at one time of departures holds at every later time. */
  lemma {:induction false} DeparturesAreFinal(origin: State, before: seq<Step>, later: seq<Step>, user: string)
    requires Initial(origin) && user in Run(origin, before).members && Run(origin, before).members[user].left
    ensures var t := Run(origin, before + later);
            && user in t.members && t.members[user].left
            && user in t.leftAt
            && (t.group.needsRotation || t.leftAt[user] < t.group.keyVersion)
  {
    InitialInv(origin);
    RotationSafe(origin, before);
    RotationSafe(origin, before + later);
    RunConcat(origin, before, later);
    RunAdvances(Run(origin, before), later);
    assert user in LeftUsers(Run(origin, before + later).members);
  }
}

/** Who may change the membership of a group, and what a lone call does. */
module GroupGuards {
  import opened Options
  import opened GroupMachine

  // ---- Who may remove a member ----

  /** The rotation attempt of a lone call ends within three statements and touches no membership. */
  lemma {:induction false} LoneRotationEnds(s: State, c: nat)
    requires c in s.calls && s.calls[c].pc.Acquire?
    ensures var t := Alone(s, c, 3);
            && t.members == s.members && c in t.calls
            && t.calls[c].pc.Done? && t.calls[c].pc.reply == Departed(s.calls[c].op, t.group.keyVersion)
  {
    var s1 := Next(s, c, true);
    var s2 := Next(s1, c, true);
    AloneStep(s, c, 3);
    AloneStep(s1, c, 2);
    AloneStep(s2, c, 1);
    hide Begin, Admit;
    assert s1.members == s.members && (s1.calls[c].pc.Increment? || s1.calls[c].pc.ReadVersion?);
    assert s2.members == s.members && (s2.calls[c].pc.Release? || s2.calls[c].pc.Done?);
  }

  /**
   * RemoveGroupMember, run alone with nothing failing: the removal goes through exactly when both users are active
   * members. The role of the one who removes is not looked at.
   */
  lemma {:induction false} RemovalIgnoresRoles(s: State, c: nat, user: string, actor: string)
    requires c !in s.calls && user != "" && actor != ""
    ensures var t := Alone(Start(s, c, Remove(user, actor)), c, 6);
            && c in t.calls
            && (if IsActive(s.members, actor) && IsActive(s.members, user)
                then t.members == s.members[user := s.members[user].(left := true)] && t.calls[c].pc == Done(Version(t.group.keyVersion))
                else t.members == s.members
                     && t.calls[c].pc == Done(Error(if IsActive(s.members, actor) then NotGroupMember else NotAdmin)))
  {
    var op := Remove(user, actor);
    var s0 := Start(s, c, op);
    var s1 := Next(s0, c, true);
    var s2 := Next(s1, c, true);
    var s3 := Next(s2, c, true);
    AloneStep(s0, c, 6);
    AloneStep(s1, c, 5);
    AloneStep(s2, c, 4);
    assert s0 == s.(calls := s.calls[c := Call(op, CheckActor)]);
    if IsActive(s.members, actor) && IsActive(s.members, user) {
      RemovalDeparts(s, c, op);
      LoneRotationEnds(s3, c);
    } else {
      RemovalRefused(s, c, op);
      EndedStays(s2, c, 4);
    }
  }

  lemma {:induction false} RemovalDeparts(s: State, c: nat, op: Op)
    requires c !in s.calls && op.Remove? && Valid(op) && IsActive(s.members, op.actor) && IsActive(s.members, op.user)
    ensures var t := Next(Next(Next(Start(s, c, op), c, true), c, true), c, true);
            c in t.calls && t.calls[c] == Call(op, Acquire) && t.members == s.members[op.user := s.members[op.user].(left := true)]
  {
    var s1 := Next(Start(s, c, op), c, true);
    assert s1 == s.(calls := s.calls[c := Call(op, CheckTarget)]);
    var s2 := Next(s1, c, true);
    assert s2 == s.(calls := s.calls[c := Call(op, Depart)]);
  }

  lemma {:induction false} RemovalRefused(s: State, c: nat, op: Op)
    requires c !in s.calls && op.Remove? && Valid(op) && !(IsActive(s.members, op.actor) && IsActive(s.members, op.user))
    ensures var t := Next(Next(Start(s, c, op), c, true), c, true);
            && c in t.calls && t.members == s.members
            && t.calls[c].pc == Done(Error(if IsActive(s.members, op.actor) then NotGroupMember else NotAdmin))
  {
    var s1 := Next(Start(s, c, op), c, true);
    if IsActive(s.members, op.actor) {
      assert s1 == s.(calls := s.calls[c := Call(op, CheckTarget)]);
    }
  }

  lemma {:induction false} EndedStays(s: State, c: nat, n: nat)
    requires c in s.calls && s.calls[c].pc.Done?
    ensures Alone(s, c, n) == s
    decreases n
  {
    if n > 0 {
      EndedStays(s, c, n - 1);
    }
  }

  /** So a plain member can remove the admin. */
  lemma {:induction false} MemberRemovesAdmin(admin: string, member: string)
    requires admin != member && admin != "" && member != ""
    ensures var s := State(Group(0, false, false, None),
                           map[admin := Member("admin", false), member := Member("member", false)], map[], map[], map[], false);
            Initial(s) && Alone(Start(s, 0, Remove(admin, member)), 0, 6).members[admin] == Member("admin", true)
  {
    hide Next, Start, Alone;
    var members := map[admin := Member("admin", false), member := Member("member", false)];
    var s := State(Group(0, false, false, None), members, map[], map[], map[], false);
    assert IsActive(members, admin) && IsActive(members, member);
    RemovalIgnoresRoles(s, 0, admin, member);
  }

  /** Call c has run the check pc in these steps, and the user was an active member then, or was not. */
  ghost predicate Checked(s: State, steps: seq<Step>, c: nat, pc: Pc, user: string, active: bool) {
    exists i :: 0 <= i < |steps| && ChecksNow(Run(s, steps[..i]), steps[i], c, pc, user, active)
  }

  predicate ChecksNow(s: State, step: Step, c: nat, pc: Pc, user: string, active: bool) {
    && step == StepNext(c, true) && c in s.calls && s.calls[c].pc == pc
    && (active <==> user in s.members && !s.members[user].left)
  }

  lemma {:induction false} CheckedGrows(s: State, steps: seq<Step>, c: nat, pc: Pc, user: string, active: bool)
    requires steps != []
    requires Checked(s, steps[..|steps| - 1], c, pc, user, active)
             || ChecksNow(Run(s, steps[..|steps| - 1]), steps[|steps| - 1], c, pc, user, active)
    ensures Checked(s, steps, c, pc, user, active)
  {
    var n := |steps| - 1;
    var front := steps[..n];
    assert forall i :: 0 <= i <= n ==> front[..i] == steps[..i];
    if Checked(s, front, c, pc, user, active) {
      var i :| 0 <= i < n && ChecksNow(Run(s, front[..i]), front[i], c, pc, user, active);
      assert ChecksNow(Run(s, steps[..i]), steps[i], c, pc, user, active);
    } else {
      assert ChecksNow(Run(s, steps[..n]), steps[n], c, pc, user, active);
    }
  }

  /** What a call has checked by the time it checks its target, departs, or admits. */
  ghost predicate ChecksMade(s: State, steps: seq<Step>, c: nat, call: Call) {
    && (call.pc.CheckTarget? && !call.op.Leave? ==> Checked(s, steps, c, CheckActor, call.op.actor, true))
    && (call.pc.Depart? ==>
          && !call.op.Add?
          && Checked(s, steps, c, CheckTarget, call.op.user, true)
          && (call.op.Remove? ==> Checked(s, steps, c, CheckActor, call.op.actor, true)))
    && (Admitting(call.pc) ==>
          && call.op.Add?
          && Checked(s, steps, c, CheckTarget, call.op.user, false)
          && Checked(s, steps, c, CheckActor, call.op.actor, true))
  }

  lemma {:induction false} NoReentry(s: State, c: nat, ok: bool)
    requires c in s.calls && (InRotation(s.calls[c].pc) || Admitting(s.calls[c].pc))
    ensures c in Next(s, c, ok).calls && !Entering(Next(s, c, ok).calls[c].pc)
  {
    hide Begin;
  }

  lemma {:induction false} StaysAdmitting(s: State, c: nat, ok: bool)
    requires c in s.calls && (InRotation(s.calls[c].pc) || Admitting(s.calls[c].pc))
    ensures Admitting(Next(s, c, ok).calls[c].pc) ==> Admitting(s.calls[c].pc) && Next(s, c, ok).calls[c].op == s.calls[c].op
  {
    hide Begin, Joining;
  }

  /** What a successful check, and nothing else, leads to. */
  lemma {:induction false} BeginChecks(s: State, c: nat, ok: bool)
    requires c in s.calls && Entering(s.calls[c].pc)
    ensures var call := Begin(s, c, ok).calls[c];
            && (call.pc.CheckTarget? ==>
                  ChecksNow(s, StepNext(c, ok), c, CheckActor, Rotator(call.op), true))
            && (call.pc.Depart? ==> !call.op.Add? && s.calls[c].pc.CheckTarget? && ChecksNow(s, StepNext(c, ok), c, CheckTarget, call.op.user, true))
            && (Admitting(call.pc) ==> call.op.Add? && s.calls[c].pc.CheckTarget? && ChecksNow(s, StepNext(c, ok), c, CheckTarget, call.op.user, false))
  {
    hide Leaving;
  }

  /** How one step brings a call to its next check, to its departure, or to admitting. */
  lemma {:induction false} ReachesCheck(s: State, step: Step, c: nat)
    requires c in Apply(s, step).calls && (c !in s.calls || Apply(s, step).calls[c] != s.calls[c])
    ensures var call := Apply(s, step).calls[c];
            && (call.pc.CheckTarget? && !call.op.Leave? ==>
                  c in s.calls && s.calls[c].op == call.op && ChecksNow(s, step, c, CheckActor, call.op.actor, true))
            && (call.pc.Depart? ==>
                  && !call.op.Add? && c in s.calls && s.calls[c].op == call.op && s.calls[c].pc.CheckTarget?
                  && ChecksNow(s, step, c, CheckTarget, call.op.user, true))
            && (Admitting(call.pc) ==>
                  && c in s.calls && s.calls[c].op == call.op
                  && (Admitting(s.calls[c].pc)
                      || (call.op.Add? && s.calls[c].pc.CheckTarget? && ChecksNow(s, step, c, CheckTarget, call.op.user, false))))
  {
    hide Begin, Rotate, Admit, ChecksNow;
    if step.StepNext? {
      assert step.c == c;
      if Entering(s.calls[c].pc) {
        BeginChecks(s, c, step.ok);
      } else {
        NoReentry(s, c, step.ok);
        StaysAdmitting(s, c, step.ok);
      }
    }
  }

  lemma {:induction false} RunChecks(s: State, steps: seq<Step>, c: nat)
    requires s.calls == map[] && c in Run(s, steps).calls
    ensures ChecksMade(s, steps, c, Run(s, steps).calls[c])
    decreases |steps|
  {
    if steps != [] {
      hide Apply, Checked, ChecksNow;
      var front, last := steps[..|steps| - 1], steps[|steps| - 1];
      var t, call := Run(s, front), Run(s, steps).calls[c];
      if c in t.calls {
        RunChecks(s, front, c);
      }
      if c !in t.calls || call != t.calls[c] {
        ReachesCheck(t, last, c);
      }
      CarryChecks(s, steps, c);
    }
  }

  /** Checks made before, or in the last step, are checks of the whole run. */
  lemma {:induction false} CarryChecks(s: State, steps: seq<Step>, c: nat)
    requires steps != []
    ensures forall pc, user, active ::
              (Checked(s, steps[..|steps| - 1], c, pc, user, active)
               || ChecksNow(Run(s, steps[..|steps| - 1]), steps[|steps| - 1], c, pc, user, active))
              ==> Checked(s, steps, c, pc, user, active)
  {
    forall pc, user, active | Checked(s, steps[..|steps| - 1], c, pc, user, active)
                      || ChecksNow(Run(s, steps[..|steps| - 1]), steps[|steps| - 1], c, pc, user, active)
      ensures Checked(s, steps, c, pc, user, active)
    {
      CheckedGrows(s, steps, c, pc, user, active);
    }
  }

  /**
   * In every interleaving, whatever fails: a member only leaves by the departure of a call of their own, or of a
   * removal by someone who was an active member, of any role, when that call checked; and it was checked before
   * that the member was active.
   */
  lemma {:induction false} OnlyCheckedDepartures(s: State, steps: seq<Step>, step: Step, user: string)
    requires Initial(s) && IsActive(Run(s, steps).members, user) && !IsActive(Apply(Run(s, steps), step).members, user)
    ensures step.StepNext? && step.ok && step.c in Run(s, steps).calls
    ensures var call := Run(s, steps).calls[step.c];
            && call.pc == Depart && (call.op == Leave(user) || (call.op.Remove? && call.op.user == user))
            && Checked(s, steps, step.c, CheckTarget, user, true)
            && (call.op.Remove? ==> Checked(s, steps, step.c, CheckActor, call.op.actor, true))
  {
    var t := Run(s, steps);
    DepartureStep(t, step, user);
    RunChecks(s, steps, step.c);
  }

  lemma {:induction false} DepartureStep(s: State, step: Step, user: string)
    requires IsActive(s.members, user) && !IsActive(Apply(s, step).members, user)
    ensures step.StepNext? && step.ok && step.c in s.calls && s.calls[step.c].pc == Depart && s.calls[step.c].op.user == user
  {
    hide Admit, Rotate, Start;
    if step.StepStart? {
      StartFrame(s, step.c, step.op);
    }
  }

  /**
   * In every interleaving, whatever fails: a row only appears, as an active plain member, by the insert of an Add
   * whose actor was an active member when checked and whose user was checked not to be one.
   */
  lemma {:induction false} OnlyCheckedAdditions(s: State, steps: seq<Step>, step: Step, user: string)
    requires Initial(s) && user !in Run(s, steps).members && user in Apply(Run(s, steps), step).members
    ensures Apply(Run(s, steps), step).members == Run(s, steps).members[user := Member("member", false)]
    ensures step.StepNext? && step.ok && step.c in Run(s, steps).calls
    ensures var call := Run(s, steps).calls[step.c];
            && call.pc == Insert && call.op.Add? && call.op.user == user
            && Checked(s, steps, step.c, CheckActor, call.op.actor, true)
            && Checked(s, steps, step.c, CheckTarget, user, false)
  {
    InsertStep(Run(s, steps), step, user);
    RunChecks(s, steps, step.c);
  }

  lemma {:induction false} InsertStep(s: State, step: Step, user: string)
    requires user !in s.members && user in Apply(s, step).members
    ensures Apply(s, step).members == s.members[user := Member("member", false)]
    ensures step.StepNext? && step.ok && step.c in s.calls && s.calls[step.c].pc == Insert && s.calls[step.c].op.user == user
  {
    hide Rotate, Start, Begin;
    if step.StepStart? {
      StartFrame(s, step.c, step.op);
    }
  }

  /** And a seed only changes by the last statement of such an Add, to the seed it carries. */
  lemma {:induction false} OnlyCheckedSeeds(s: State, steps: seq<Step>, step: Step)
    requires Initial(s) && Apply(Run(s, steps), step).seeds != Run(s, steps).seeds
    ensures step.StepNext? && step.ok && step.c in Run(s, steps).calls
    ensures var call := Run(s, steps).calls[step.c];
            && call.pc.SaveSeed? && call.op.Add?
            && Apply(Run(s, steps), step).seeds
               == Run(s, steps).seeds[call.op.user := Seed(call.op.seed, call.op.actor, call.pc.v)]
            && Checked(s, steps, step.c, CheckActor, call.op.actor, true)
            && Checked(s, steps, step.c, CheckTarget, call.op.user, false)
  {
    SeedStep(Run(s, steps), step);
    RunChecks(s, steps, step.c);
  }

  lemma {:induction false} SeedStep(s: State, step: Step)
    requires Apply(s, step).seeds != s.seeds
    ensures step.StepNext? && step.ok && step.c in s.calls && s.calls[step.c].pc.SaveSeed? && s.calls[step.c].op.Add?
    ensures var call := s.calls[step.c];
            Apply(s, step).seeds == s.seeds[call.op.user := Seed(call.op.seed, call.op.actor, call.pc.v)]
  {
    hide Rotate, Start, Begin;
    if step.StepStart? {
      StartFrame(s, step.c, step.op);
    }
  }

  // ---- Lone calls ----

  predicate Active(members: map<string, Member>, user: string) {
    user in members && !members[user].left
  }

  /** A call with an empty user is refused. */
  lemma {:induction false} EmptyIsRefused(s: State, c: nat, op: Op)
    requires c !in s.calls && (op.user == "" || (op.Remove? && op.actor == "") || (op.Add? && op.actor == ""))
    ensures Start(s, c, op) == s.(calls := s.calls[c := Call(op, Done(Error(InvalidInput)))])
  {
  }

  /**
   * AddGroupMember, run alone with nothing failing: it goes through exactly when the one who adds is an active member
   * and the one added is not; otherwise nothing changes.
   */
  lemma {:induction false} AddIsGuarded(s: State, c: nat, user: string, actor: string, seed: string)
    requires c !in s.calls && user != "" && actor != ""
    ensures var t := Alone(Start(s, c, Add(user, actor, seed)), c, 6);
            && c in t.calls
            && (if !Active(s.members, actor) then t.calls[c].pc == Done(Error(NotGroupMember)) && t.members == s.members && t.seeds == s.seeds
                else if Active(s.members, user) then t.calls[c].pc == Done(Error(AlreadyMember)) && t.members == s.members && t.seeds == s.seeds
                else t.calls[c].pc == Done(Ok)
                     && t.members == (if user in s.members then s.members else s.members[user := Member("member", false)])
                     && t.seeds == s.seeds[user := Seed(seed, actor, s.group.keyVersion)])
  {
    var op := Add(user, actor, seed);
    if Active(s.members, actor) && !Active(s.members, user) {
      ReAddingIsNoOp(s, c, user, actor, seed);
    } else {
      var s0 := Start(s, c, op);
      var s1 := Next(s0, c, true);
      AloneStep(s0, c, 6);
      AloneStep(s1, c, 5);
      AddRefused(s, c, op);
      EndedStays(Next(s1, c, true), c, 4);
    }
  }

  lemma {:induction false} AddRefused(s: State, c: nat, op: Op)
    requires c !in s.calls && op.Add? && GroupMachine.Valid(op) && (!Active(s.members, op.actor) || Active(s.members, op.user))
    ensures var t := Next(Next(Start(s, c, op), c, true), c, true);
            && c in t.calls && t.members == s.members && t.seeds == s.seeds
            && t.calls[c].pc == Done(Error(if Active(s.members, op.actor) then AlreadyMember else NotGroupMember))
  {
    var s1 := Next(Start(s, c, op), c, true);
    if Active(s.members, op.actor) {
      assert s1 == s.(calls := s.calls[c := Call(op, CheckTarget)]);
    }
  }

  /** LeaveGroup, run alone with nothing failing: an active member leaves, anybody else is refused. */
  lemma {:induction false} LeaveIsGuarded(s: State, c: nat, user: string)
    requires c !in s.calls && user != ""
    ensures var t := Alone(Start(s, c, Leave(user)), c, 5);
            && c in t.calls && t.seeds == s.seeds
            && (if Active(s.members, user)
                then t.calls[c].pc == Done(Ok) && t.members == s.members[user := Member(s.members[user].role, true)]
                else t.calls[c].pc == Done(Error(NotGroupMember)) && t.members == s.members)
  {
    var op := Leave(user);
    var s0 := Start(s, c, op);
    var s1 := Next(s0, c, true);
    AloneStep(s0, c, 5);
    LeaveChecks(s, c, op);
    if Active(s.members, user) {
      AloneStep(s1, c, 4);
      LoneRotationEnds(Next(s1, c, true), c);
    } else {
      EndedStays(s1, c, 4);
    }
  }

  lemma {:induction false} LeaveChecks(s: State, c: nat, op: Op)
    requires c !in s.calls && op.Leave? && op.user != ""
    ensures var s1 := Next(Start(s, c, op), c, true);
            var s2 := Next(s1, c, true);
            && c in s1.calls && c in s2.calls
            && (if Active(s.members, op.user)
                then s2.calls[c] == Call(op, Acquire) && s2.members == s.members[op.user := Member(s.members[op.user].role, true)] && s2.seeds == s.seeds
                else s1.calls[c].pc == Done(Error(NotGroupMember)) && s1.members == s.members && s1.seeds == s.seeds)
  {
    var s1 := Next(Start(s, c, op), c, true);
    if Active(s.members, op.user) {
      assert s1 == s.(calls := s.calls[c := Call(op, Depart)]);
    }
  }

  /** A statement that fails outside the rotation ends the call with a database error and changes nothing. */
  lemma {:induction false} FailureEnds(s: State, c: nat)
    requires c in s.calls && (Entering(s.calls[c].pc) || Admitting(s.calls[c].pc))
    ensures Next(s, c, false) == s.(calls := s.calls[c := Call(s.calls[c].op, Done(Error(Database)))])
  {
  }

  /** A rotation that fails is only logged: the departure stands, with version 0 or the one the increment gave. */
  lemma {:induction false} FailedRotationIsLogged(s: State, c: nat)
    requires c in s.calls && InRotation(s.calls[c].pc) && !s.calls[c].pc.Increment?
    ensures var v := if s.calls[c].pc.Release? then s.calls[c].pc.v else 0;
            && Next(s, c, false).group == s.group && Next(s, c, false).members == s.members
            && Next(s, c, false).calls[c].pc == Done(if s.calls[c].op.Remove? then Version(v) else Ok)
  {
  }
}

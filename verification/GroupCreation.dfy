/** CreateGroup: a group row, its members, and the seeds handed out to them. */
module GroupCreation {
  import opened Options
  import opened GroupMachine

  datatype SeedDistribution = SeedDistribution(userId: string, encryptedSeed: string, encryptedBy: string)

  // ---- What the call is meant to do ----

  /** The creator and the named users: the creator is the only admin. */
  ghost function Roster(createdBy: string, memberIds: set<string>): map<string, Member> {
    map u | u in memberIds + {createdBy} && u != "" :: Member(if u == createdBy then "admin" else "member", false)
  }

  /** The last distribution for each user. */
  function LastSeeds(dists: seq<SeedDistribution>): map<string, SeedDistribution> {
    if dists == [] then map[]
    else LastSeeds(dists[..|dists| - 1])[dists[|dists| - 1].userId := dists[|dists| - 1]]
  }

  /** Each member that a distribution names holds it, at version 0. */
  ghost function Handed(users: set<string>, dists: seq<SeedDistribution>): map<string, Seed> {
    var last := LastSeeds(dists);
    map u | u in users && u in last :: Seed(last[u].encryptedSeed, last[u].encryptedBy, 0)
  }

  ghost function Elements(ids: seq<string>): set<string> {
    set id | id in ids
  }

  /** LastSeeds keeps, for a user, the distribution nobody comes after. */
  lemma {:induction false} LastSeedIsLast(dists: seq<SeedDistribution>, u: string)
    ensures u in LastSeeds(dists) <==> exists i :: 0 <= i < |dists| && dists[i].userId == u
    ensures u in LastSeeds(dists) ==>
              exists i :: 0 <= i < |dists| && dists[i] == LastSeeds(dists)[u] && dists[i].userId == u
                          && forall j :: i < j < |dists| ==> dists[j].userId != u
    decreases |dists|
  {
    if dists != [] {
      var front, last := dists[..|dists| - 1], dists[|dists| - 1];
      LastSeedIsLast(front, u);
      if last.userId == u {
        assert dists[|dists| - 1] == LastSeeds(dists)[u];
      } else if u in LastSeeds(front) {
        var i :| 0 <= i < |front| && front[i] == LastSeeds(front)[u] && front[i].userId == u
                 && forall j :: i < j < |front| ==> front[j].userId != u;
        assert dists[i] == front[i];
        forall j | i < j < |dists|
          ensures dists[j].userId != u
        {
          assert j < |front| ==> dists[j] == front[j];
        }
      } else {
        forall i | 0 <= i < |dists|
          ensures dists[i].userId != u
        {
          assert i < |front| ==> dists[i] == front[i];
        }
      }
    }
  }

  ghost predicate Named(dists: seq<SeedDistribution>, u: string) {
    exists i :: 0 <= i < |dists| && dists[i].userId == u
  }

  /** The seed is that of the last distribution for the user, at version 0. */
  ghost predicate HoldsLast(dists: seq<SeedDistribution>, u: string, seed: Seed) {
    exists i :: 0 <= i < |dists| && dists[i].userId == u && (forall j :: i < j < |dists| ==> dists[j].userId != u)
                && seed == Seed(dists[i].encryptedSeed, dists[i].encryptedBy, 0)
  }

  lemma {:induction false} HandedMeans(users: set<string>, dists: seq<SeedDistribution>)
    ensures forall u :: u in Handed(users, dists) <==> u in users && Named(dists, u)
    ensures forall u :: u in Handed(users, dists) ==> HoldsLast(dists, u, Handed(users, dists)[u])
  {
    forall u
      ensures u in LastSeeds(dists) <==> Named(dists, u)
      ensures u in Handed(users, dists) ==> HoldsLast(dists, u, Handed(users, dists)[u])
    {
      LastSeedIsLast(dists, u);
    }
  }

  // ---- The call ----

  /** The tables of the new group. */
  class NewGroup {
    var members: map<string, Member>
    var seeds: map<string, Seed>
    var statements: nat

    constructor ()
      ensures members == map[] && seeds == map[] && statements == 0
    {
      members, seeds, statements := map[], map[], 0;
    }

    /** The next statement; the one numbered failAt fails, and so does one that is given an empty uuid. */
    method Execute(failAt: Option<nat>, userId: string) returns (ok: bool)
      modifies this`statements
      ensures ok ==> userId != ""
      ensures failAt.None? && userId != "" ==> ok
    {
      ok := failAt != Some(statements) && userId != "";
      statements := statements + 1;
    }

    method AddGroupMember(userId: string, role: string, failAt: Option<nat>) returns (ok: bool)
      modifies this`members, this`statements
      ensures members == if ok && userId !in old(members) then old(members)[userId := Member(role, false)] else old(members)
      ensures ok ==> userId != ""
      ensures failAt.None? && userId != "" ==> ok
    {
      ok := Execute(failAt, userId);
      if ok && userId !in members {
        members := members[userId := Member(role, false)];
      }
    }

    method SaveGroupKeySeed(userId: string, sd: SeedDistribution, failAt: Option<nat>) returns (ok: bool)
      modifies this`seeds, this`statements
      ensures seeds == if ok then old(seeds)[userId := Seed(sd.encryptedSeed, sd.encryptedBy, 0)] else old(seeds)
      ensures ok ==> userId != ""
      ensures failAt.None? && userId != "" ==> ok
    {
      ok := Execute(failAt, userId);
      if ok {
        seeds := seeds[userId := Seed(sd.encryptedSeed, sd.encryptedBy, 0)];
      }
    }

    /** The first loop: every new non-empty id becomes a member. */
    method AddMembers(createdBy: string, allMembers: seq<string>, failAt: Option<nat>) returns (ok: bool)
      requires createdBy != "" && members == Roster(createdBy, {})
      modifies this`members, this`statements
      ensures ok ==> members == Roster(createdBy, Elements(allMembers))
      ensures failAt.None? ==> ok
    {
      var seen: set<string> := {};
      var i := 0;
      while i < |allMembers|
        invariant 0 <= i <= |allMembers|
        invariant seen == Elements(allMembers[..i]) - {""}
        invariant members == Roster(createdBy, Elements(allMembers[..i]))
      {
        var uid := allMembers[i];
        assert Elements(allMembers[..i + 1]) == Elements(allMembers[..i]) + {uid} by {
          assert allMembers[..i + 1] == allMembers[..i] + [uid];
        }
        i := i + 1;
        if uid == "" || uid in seen {
          continue;
        }
        seen := seen + {uid};
        if uid == createdBy {
          continue;
        }
        ok := AddGroupMember(uid, "member", failAt);
        if !ok {
          return;
        }
      }
      assert allMembers[..|allMembers|] == allMembers;
      ok := true;
    }

    /** The second loop: the distributions indexed by user, later ones winning. */
    method IndexSeeds(dists: seq<SeedDistribution>) returns (seedMap: map<string, SeedDistribution>)
      ensures seedMap == LastSeeds(dists)
    {
      seedMap := map[];
      var i := 0;
      while i < |dists|
        invariant 0 <= i <= |dists|
        invariant seedMap == LastSeeds(dists[..i])
      {
        assert dists[..i + 1][..i] == dists[..i];
        seedMap := seedMap[dists[i].userId := dists[i]];
        i := i + 1;
      }
      assert dists[..|dists|] == dists;
    }

    /** The third loop: each listed member gets the seed meant for it. */
    method HandOut(allMembers: seq<string>, dists: seq<SeedDistribution>, failAt: Option<nat>) returns (ok: bool)
      requires seeds == map[]
      modifies this`seeds, this`statements
      ensures ok ==> seeds == Handed(Elements(allMembers), dists)
      ensures ok ==> !("" in allMembers && "" in LastSeeds(dists))
      ensures failAt.None? && !("" in allMembers && "" in LastSeeds(dists)) ==> ok
    {
      var seedMap := IndexSeeds(dists);
      var i := 0;
      while i < |allMembers|
        invariant 0 <= i <= |allMembers|
        invariant seeds == Handed(Elements(allMembers[..i]), dists)
        invariant !("" in allMembers[..i] && "" in LastSeeds(dists))
      {
        var uid := allMembers[i];
        assert allMembers[..i + 1] == allMembers[..i] + [uid];
        assert Elements(allMembers[..i + 1]) == Elements(allMembers[..i]) + {uid};
        i := i + 1;
        if uid !in seedMap {
          continue;
        }
        ok := SaveGroupKeySeed(uid, seedMap[uid], failAt);
        if !ok {
          return;
        }
      }
      assert allMembers[..|allMembers|] == allMembers;
      ok := true;
    }

    /**
     * CreateGroup. On success the members are exactly the creator and the named users, the creator alone
     * being admin, and each listed member holds the last seed distributed to it: a function of the set of
     * ids, so the order and the repetitions of memberIds do not matter.
     */
    method CreateGroup(name: string, createdBy: string, memberIds: seq<string>, dists: seq<SeedDistribution>,
                       failAt: Option<nat>) returns (failure: Option<Failure>)
      requires members == map[] && seeds == map[]
      modifies this
      ensures failure == Some(InvalidInput) <==> name == "" || createdBy == ""
      ensures failure.None? ==>
                && members == Roster(createdBy, Elements(memberIds))
                && seeds == Handed(Elements(memberIds) + {createdBy}, dists)
      ensures failure.None? ==>
                && (forall u :: u in members <==> (u == createdBy || u in memberIds) && u != "")
                && (forall u :: u in members ==> members[u] == Member(if u == createdBy then "admin" else "member", false))
      ensures failure.None? ==>
                && (forall u :: u in seeds <==> (u == createdBy || u in memberIds) && Named(dists, u))
                && (forall u :: u in seeds ==> HoldsLast(dists, u, seeds[u]))
      ensures failAt.None? ==>
                (failure.None? <==> name != "" && createdBy != "" && !("" in memberIds && "" in LastSeeds(dists)))
    {
      if name == "" || createdBy == "" {
        return Some(InvalidInput);
      }
      HandedMeans(Elements(memberIds) + {createdBy}, dists);
      var ok := Execute(failAt, createdBy);
      if !ok {
        return Some(Database);
      }
      ok := AddGroupMember(createdBy, "admin", failAt);
      if !ok {
        return Some(Database);
      }
      var allMembers := [createdBy] + memberIds;
      assert Elements(allMembers) == Elements(memberIds) + {createdBy};
      ok := AddMembers(createdBy, allMembers, failAt);
      if !ok {
        return Some(Database);
      }
      ok := HandOut(allMembers, dists, failAt);
      if !ok {
        return Some(Database);
      }
      ok := Execute(failAt, createdBy);
      if !ok {
        return Some(Database);
      }
      return None;
    }
  }

  /** A successful creation is a legal start of the rotation machine. */
  lemma CreatedIsInitial(createdBy: string, memberIds: seq<string>, dists: seq<SeedDistribution>)
    ensures Initial(State(Group(0, false, false, None), Roster(createdBy, Elements(memberIds)),
                          Handed(Elements(memberIds) + {createdBy}, dists), map[], map[], false))
  {
  }
}

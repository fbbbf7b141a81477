/** What the repair of roles keeps. */
module RoleKeeping {
  // The kept roles and groups (applications/timem/src/worker_roles.rs), told from the damaged library alone, and when the
  // repaired library passes validation.

  import opened Wrappers
  import opened RoleLibrary
  import opened RoleRecovery
  import F = FirstKept

  function RoleKey(role: Role, lower: Lowering): F.Key {
    F.Key(RoleOk(role), role.id, lower(role.name))
  }

  function GroupKey(group: Group, lower: Lowering): F.Key {
    F.Key(GroupOk(group), group.id, lower(group.name))
  }

  function RoleKeys(roles: seq<Role>, lower: Lowering): (ks: seq<F.Key>)
    ensures |ks| == |roles|
    ensures forall i :: 0 <= i < |ks| ==> ks[i] == RoleKey(roles[i], lower)
  {
    if roles == [] then [] else RoleKeys(roles[..|roles| - 1], lower) + [RoleKey(roles[|roles| - 1], lower)]
  }

  function GroupKeys(groups: seq<Group>, lower: Lowering): (ks: seq<F.Key>)
    ensures |ks| == |groups|
    ensures forall i :: 0 <= i < |ks| ==> ks[i] == GroupKey(groups[i], lower)
  {
    if groups == [] then [] else GroupKeys(groups[..|groups| - 1], lower) + [GroupKey(groups[|groups| - 1], lower)]
  }

  // ----- roles -----

  predicate Points(at: seq<nat>, kept: seq<Role>, roles: seq<Role>) {
    |at| == |kept| && forall k :: 0 <= k < |at| ==> at[k] < |roles| && roles[at[k]] == kept[k]
  }

  lemma LastPoint(at: seq<nat>, kept: seq<Role>, before: seq<Role>, role: Role)
    requires Points(at, kept, before)
    ensures Points(at, kept, before + [role]) && Points(at + [|before|], kept + [role], before + [role])
  {
  }

  /** What the repair has seen and kept of the roles, in terms of their keys. */
  predicate RolesMatch(roles: seq<Role>, lower: Lowering) {
    var ks, kept := RoleKeys(roles, lower), RecoverRoles(roles, lower);
    && SeenIds(roles) == F.SeenIds(ks)
    && Names(kept, lower) == F.FirstNames(ks)
    && Ids(kept) == F.KeptIds(ks)
    && Points(F.KeptAt(ks), kept, roles)
  }

  lemma RoleStep(before: seq<Role>, role: Role, lower: Lowering)
    requires RolesMatch(before, lower)
    ensures KeepsRole(before, role, lower) <==> F.IsKept(RoleKeys(before, lower) + [RoleKey(role, lower)], |before|)
  {
    F.FirstSnoc(RoleKeys(before, lower), RoleKey(role, lower));
  }

  lemma KeptRoleSnoc(kept: seq<Role>, role: Role, lower: Lowering)
    ensures Names(kept + [role], lower) == Names(kept, lower) + {lower(role.name)}
    ensures Ids(kept + [role]) == Ids(kept) + {role.id}
  {
  }

  lemma NextKeys(before: seq<Role>, role: Role, lower: Lowering)
    ensures var ks, k, n := RoleKeys(before, lower), RoleKey(role, lower), |before|;
      && RoleKeys(before + [role], lower) == ks + [k]
      && F.KeptAt(ks + [k]) == if F.IsKept(ks + [k], n) then F.KeptAt(ks) + [n] else F.KeptAt(ks)
  {
    var ks, k := RoleKeys(before, lower), RoleKey(role, lower);
    assert RoleKeys(before + [role], lower) == ks + [k];
    assert (ks + [k])[..|before|] == ks;
  }

  lemma NextRoles(before: seq<Role>, role: Role, lower: Lowering)
    ensures var kept := RecoverRoles(before, lower);
      RecoverRoles(before + [role], lower) == if KeepsRole(before, role, lower) then kept + [role] else kept
    ensures SeenIds(before + [role]) == SeenIds(before) + if RoleOk(role) then {role.id} else {}
  {
    RecoverOneMore(before + [role], |before|, lower);
    assert (before + [role])[..|before|] == before && (before + [role])[..|before| + 1] == before + [role];
    assert RecoverRoles(before, lower) + [] == RecoverRoles(before, lower);
  }

  lemma NamesFollow(kept: seq<Role>, role: Role, lower: Lowering, ks: seq<F.Key>, k: F.Key)
    requires Names(kept, lower) == F.FirstNames(ks) && Ids(kept) == F.KeptIds(ks) && k.name == lower(role.name) && k.id == role.id
    ensures var more := if F.IsKept(ks + [k], |ks|) then kept + [role] else kept;
      Names(more, lower) == F.FirstNames(ks + [k]) && Ids(more) == F.KeptIds(ks + [k])
  {
    F.FirstSnoc(ks, k);
    F.KeptIdsSnoc(ks, k);
    KeptRoleSnoc(kept, role, lower);
  }

  lemma MatchNext(before: seq<Role>, role: Role, lower: Lowering)
    requires RolesMatch(before, lower)
    ensures RolesMatch(before + [role], lower)
  {
    var ks, k, kept := RoleKeys(before, lower), RoleKey(role, lower), RecoverRoles(before, lower);
    NextKeys(before, role, lower);
    NextRoles(before, role, lower);
    RoleStep(before, role, lower);
    F.SeenSnoc(ks, k);
    NamesFollow(kept, role, lower, ks, k);
    LastPoint(F.KeptAt(ks), kept, before, role);
  }

  lemma {:induction false} RolesAlwaysMatch(roles: seq<Role>, lower: Lowering)
    ensures RolesMatch(roles, lower)
  {
    if roles != [] {
      var n := |roles| - 1;
      RolesAlwaysMatch(roles[..n], lower);
      MatchNext(roles[..n], roles[n], lower);
      assert roles == roles[..n] + [roles[n]];
    }
  }

  /**
    The kept roles are, in the order of the file, those at the positions where a role is the first acceptable one with its
    id and the first such with its name.
   */
  lemma RolesKept(roles: seq<Role>, lower: Lowering, i: nat)
    requires i < |roles|
    ensures var ks := RoleKeys(roles, lower);
      && Points(F.KeptAt(ks), RecoverRoles(roles, lower), roles)
      && (i in F.KeptAt(ks) <==> F.IsKept(ks, i))
    ensures forall j, k :: 0 <= j < k < |F.KeptAt(RoleKeys(roles, lower))| ==>
      F.KeptAt(RoleKeys(roles, lower))[j] < F.KeptAt(RoleKeys(roles, lower))[k]
  {
    RolesAlwaysMatch(roles, lower);
    F.KeptAtIff(RoleKeys(roles, lower), i);
    F.KeptAtRises(RoleKeys(roles, lower));
  }

  // ----- groups -----

  /** The kept groups are groups of the file but for the role ids they lose. */
  predicate GroupPoints(at: seq<nat>, kept: seq<Group>, groups: seq<Group>) {
    |at| == |kept| && forall k :: 0 <= k < |at| ==> at[k] < |groups| && groups[at[k]].(roleIds := kept[k].roleIds) == kept[k]
  }

  lemma LastGroupPoint(at: seq<nat>, kept: seq<Group>, before: seq<Group>, group: Group, roleIds: seq<string>)
    requires GroupPoints(at, kept, before)
    ensures GroupPoints(at, kept, before + [group])
    ensures GroupPoints(at + [|before|], kept + [group.(roleIds := roleIds)], before + [group])
  {
  }

  predicate GroupsMatch(groups: seq<Group>, known: set<string>, lower: Lowering) {
    var ks, kept := GroupKeys(groups, lower), RecoverGroups(groups, known, lower);
    && SeenGroupIds(groups) == F.SeenIds(ks)
    && GroupNames(kept, lower) == F.FirstNames(ks)
    && GroupPoints(F.KeptAt(ks), kept, groups)
  }

  lemma GroupStep(before: seq<Group>, group: Group, known: set<string>, lower: Lowering)
    requires GroupsMatch(before, known, lower)
    ensures KeepsGroup(before, group, known, lower) <==> F.IsKept(GroupKeys(before, lower) + [GroupKey(group, lower)], |before|)
  {
    F.FirstSnoc(GroupKeys(before, lower), GroupKey(group, lower));
  }

  lemma NextGroupKeys(before: seq<Group>, group: Group, lower: Lowering)
    ensures var ks, k, n := GroupKeys(before, lower), GroupKey(group, lower), |before|;
      && GroupKeys(before + [group], lower) == ks + [k]
      && F.KeptAt(ks + [k]) == if F.IsKept(ks + [k], n) then F.KeptAt(ks) + [n] else F.KeptAt(ks)
  {
    var ks, k := GroupKeys(before, lower), GroupKey(group, lower);
    assert GroupKeys(before + [group], lower) == ks + [k];
    assert (ks + [k])[..|before|] == ks;
  }

  lemma GroupNamesFollow(kept: seq<Group>, group: Group, lower: Lowering, ks: seq<F.Key>, k: F.Key)
    requires GroupNames(kept, lower) == F.FirstNames(ks) && k.name == lower(group.name)
    ensures GroupNames(if F.IsKept(ks + [k], |ks|) then kept + [group] else kept, lower) == F.FirstNames(ks + [k])
  {
    F.FirstSnoc(ks, k);
    GroupNamesSnoc(kept, group, lower);
  }

  lemma NextGroups(before: seq<Group>, group: Group, known: set<string>, lower: Lowering)
    ensures var kept := RecoverGroups(before, known, lower);
      RecoverGroups(before + [group], known, lower) ==
        if KeepsGroup(before, group, known, lower) then kept + [group.(roleIds := Retain(group.roleIds, known, Placed(kept)))] else kept
    ensures SeenGroupIds(before + [group]) == SeenGroupIds(before) + if GroupOk(group) then {group.id} else {}
  {
    RecoverLastGroup(before, group, known, lower);
    SeenGroupSnoc(before, group);
  }

  lemma MatchNextGroup(before: seq<Group>, group: Group, known: set<string>, lower: Lowering)
    requires GroupsMatch(before, known, lower)
    ensures GroupsMatch(before + [group], known, lower)
  {
    var ks, k, kept := GroupKeys(before, lower), GroupKey(group, lower), RecoverGroups(before, known, lower);
    var roleIds := Retain(group.roleIds, known, Placed(kept));
    NextGroupKeys(before, group, lower);
    NextGroups(before, group, known, lower);
    GroupStep(before, group, known, lower);
    F.SeenSnoc(ks, k);
    GroupNamesFollow(kept, group.(roleIds := roleIds), lower, ks, k);
    LastGroupPoint(F.KeptAt(ks), kept, before, group, roleIds);
  }

  lemma {:induction false} GroupsAlwaysMatch(groups: seq<Group>, known: set<string>, lower: Lowering)
    ensures GroupsMatch(groups, known, lower)
  {
    if groups != [] {
      var n := |groups| - 1;
      GroupsAlwaysMatch(groups[..n], known, lower);
      MatchNextGroup(groups[..n], groups[n], known, lower);
      assert groups == groups[..n] + [groups[n]];
    }
  }

  /** The same for the kept groups. */
  lemma GroupsKept(groups: seq<Group>, known: set<string>, lower: Lowering, i: nat)
    requires i < |groups|
    ensures var ks := GroupKeys(groups, lower);
      && GroupPoints(F.KeptAt(ks), RecoverGroups(groups, known, lower), groups)
      && (i in F.KeptAt(ks) <==> F.IsKept(ks, i))
    ensures forall j, k :: 0 <= j < k < |F.KeptAt(GroupKeys(groups, lower))| ==>
      F.KeptAt(GroupKeys(groups, lower))[j] < F.KeptAt(GroupKeys(groups, lower))[k]
  {
    GroupsAlwaysMatch(groups, known, lower);
    F.KeptAtIff(GroupKeys(groups, lower), i);
    F.KeptAtRises(GroupKeys(groups, lower));
  }

  /** Some kept group of the file names this role id. */
  predicate NamedIn(groups: seq<Group>, lower: Lowering, id: string) {
    Named(groups, GroupKeys(groups, lower), id)
  }

  predicate Named(groups: seq<Group>, ks: seq<F.Key>, id: string)
    requires |ks| == |groups|
  {
    exists i :: 0 <= i < |groups| && F.IsKept(ks, i) && id in groups[i].roleIds
  }

  lemma NamedSnoc(groups: seq<Group>, group: Group, ks: seq<F.Key>, k: F.Key, id: string)
    requires |ks| == |groups|
    ensures Named(groups + [group], ks + [k], id) <==>
      Named(groups, ks, id) || (F.IsKept(ks + [k], |ks|) && id in group.roleIds)
  {
    var more, n := ks + [k], |ks|;
    assert more[..n] == ks;
    forall i | 0 <= i < n ensures F.IsKept(ks, i) <==> F.IsKept(more, i) {
      F.PrefixStays(more, n, i);
    }
    if Named(groups, ks, id) {
      var i :| 0 <= i < n && F.IsKept(ks, i) && id in groups[i].roleIds;
      assert F.IsKept(more, i) && id in (groups + [group])[i].roleIds;
    }
    if F.IsKept(more, n) && id in group.roleIds {
      assert (groups + [group])[n] == group;
    }
    if i :| 0 <= i < n && F.IsKept(more, i) && id in (groups + [group])[i].roleIds {
      assert F.IsKept(ks, i) && id in groups[i].roleIds;
    }
  }

  lemma {:induction false} NamedIff(groups: seq<Group>, known: set<string>, lower: Lowering, id: string)
    ensures id in NamedByKept(groups, known, lower) <==> NamedIn(groups, lower, id)
  {
    if groups != [] {
      var n := |groups| - 1;
      var before, group := groups[..n], groups[n];
      assert groups == before + [group];
      NamedIff(before, known, lower, id);
      GroupsAlwaysMatch(before, known, lower);
      GroupStep(before, group, known, lower);
      NextGroupKeys(before, group, lower);
      RecoverLastGroup(before, group, known, lower);
      NamedSnoc(before, group, GroupKeys(before, lower), GroupKey(group, lower), id);
    }
  }

  // ----- does the result pass? -----

  /**
    The recovered library passes validation if and only if no group that is kept names, in the file, the id of a role whose
    name an earlier role has taken.
   */
  lemma RecoveredPassesIff(library: Library, lower: Lowering)
    ensures Problem(Recover(Some(library), lower), lower).None? <==>
      forall id :: NamedIn(FirstGroups(library), lower, id) ==> !F.Clashes(RoleKeys(FirstRoles(library), lower), id)
  {
    var roles, groups := FirstRoles(library), FirstGroups(library);
    var known, recovered, ks := SeenIds(roles), Recover(Some(library), lower), RoleKeys(roles, lower);
    PassesWhenPlacedExist(library, lower);
    RolesAlwaysMatch(roles, lower);
    KeptGroupsPlace(groups, known, lower);
    forall id
      ensures id in Placed(recovered.groups) && id !in Ids(recovered.roles) <==> NamedIn(groups, lower, id) && F.Clashes(ks, id)
    {
      NamedIff(groups, known, lower, id);
      F.ClashesIff(ks, id);
    }
  }
}

/**
  Repairing a damaged library of worker roles (applications/timem/src/worker_roles.rs). The repair goes through the file
  once and decides about each role and group from what it has seen so far; the functions here decide in the same way, and
  the loops are proved against them. What that comes to for the file as a whole is told in another module, from the
  damaged library alone.
 */
module RoleRecovery {
  import opened Wrappers
  import opened Text
  import opened RoleLibrary

  /** The ids of the acceptable roles, kept or not. */
  function SeenIds(roles: seq<Role>): set<string> {
    set r | r in roles && RoleOk(r) :: r.id
  }

  function SeenGroupIds(groups: seq<Group>): set<string> {
    set g | g in groups && GroupOk(g) :: g.id
  }

  predicate KeepsRole(before: seq<Role>, role: Role, lower: Lowering)
    decreases |before|, 1
  {
    RoleOk(role) && role.id !in SeenIds(before) && lower(role.name) !in Names(RecoverRoles(before, lower), lower)
  }

  function RecoverRoles(roles: seq<Role>, lower: Lowering): seq<Role>
    decreases |roles|, 0
  {
    if roles == [] then []
    else
      var before, role := roles[..|roles| - 1], roles[|roles| - 1];
      RecoverRoles(before, lower) + if KeepsRole(before, role, lower) then [role] else []
  }

  /** The role ids that are known and not placed yet, each once. */
  function Retain(roleIds: seq<string>, known: set<string>, placed: seq<string>): seq<string> {
    if roleIds == [] then []
    else
      var before, id := Retain(roleIds[..|roleIds| - 1], known, placed), roleIds[|roleIds| - 1];
      before + if id in known && id !in placed && id !in before then [id] else []
  }

  predicate KeepsGroup(before: seq<Group>, group: Group, known: set<string>, lower: Lowering)
    decreases |before|, 1
  {
    && GroupOk(group)
    && group.id !in SeenGroupIds(before)
    && lower(group.name) !in GroupNames(RecoverGroups(before, known, lower), lower)
  }

  function RecoverGroups(groups: seq<Group>, known: set<string>, lower: Lowering): seq<Group>
    decreases |groups|, 0
  {
    if groups == [] then []
    else
      var before, group := groups[..|groups| - 1], groups[|groups| - 1];
      var kept := RecoverGroups(before, known, lower);
      kept + if KeepsGroup(before, group, known, lower) then [group.(roleIds := Retain(group.roleIds, known, Placed(kept)))] else []
  }

  function FirstRoles(library: Library): seq<Role> {
    if |library.roles| <= MAX_WORKER_ROLES then library.roles else library.roles[..MAX_WORKER_ROLES]
  }

  function FirstGroups(library: Library): seq<Group> {
    if |library.groups| <= MAX_WORKER_ROLE_GROUPS then library.groups else library.groups[..MAX_WORKER_ROLE_GROUPS]
  }

  /** `parsed` is the library read from the file, None when the file cannot be read as one. */
  function Recover(parsed: Option<Library>, lower: Lowering): Library {
    if parsed.None? then EMPTY
    else
      var roles := FirstRoles(parsed.value);
      Library(RecoverRoles(roles, lower), RecoverGroups(FirstGroups(parsed.value), SeenIds(roles), lower))
  }

  // ----- the loops -----

  lemma RecoverOneMore(roles: seq<Role>, i: nat, lower: Lowering)
    requires i < |roles|
    ensures RecoverRoles(roles[..i + 1], lower) ==
      RecoverRoles(roles[..i], lower) + if KeepsRole(roles[..i], roles[i], lower) then [roles[i]] else []
    ensures SeenIds(roles[..i + 1]) == SeenIds(roles[..i]) + if RoleOk(roles[i]) then {roles[i].id} else {}
  {
    assert roles[..i + 1][..i] == roles[..i];
    assert roles[..i + 1] == roles[..i] + [roles[i]];
  }

  lemma NamesSnoc(roles: seq<Role>, role: Role, lower: Lowering)
    ensures Names(roles + [role], lower) == Names(roles, lower) + {lower(role.name)}
  {
  }

  lemma GroupNamesSnoc(groups: seq<Group>, group: Group, lower: Lowering)
    ensures GroupNames(groups + [group], lower) == GroupNames(groups, lower) + {lower(group.name)}
  {
  }

  method RecoverRolesLoop(roles: seq<Role>, lower: Lowering) returns (kept: seq<Role>, roleIds: set<string>)
    ensures kept == RecoverRoles(roles, lower) && roleIds == SeenIds(roles)
  {
    var roleNames: set<string> := {};
    kept, roleIds := [], {};
    for i := 0 to |roles|
      invariant kept == RecoverRoles(roles[..i], lower)
      invariant roleIds == SeenIds(roles[..i]) && roleNames == Names(kept, lower)
    {
      var role := roles[i];
      RecoverOneMore(roles, i, lower);
      NamesSnoc(kept, role, lower);
      if !RoleOk(role) {
        continue;
      }
      if role.id in roleIds {
        assert roleIds + {role.id} == roleIds;
        continue;
      }
      roleIds := roleIds + {role.id};
      if lower(role.name) in roleNames {
        continue;
      }
      roleNames := roleNames + {lower(role.name)};
      kept := kept + [role];
    }
    assert roles[..|roles|] == roles;
  }

  lemma SeenGroupSnoc(groups: seq<Group>, group: Group)
    ensures SeenGroupIds(groups + [group]) == SeenGroupIds(groups) + if GroupOk(group) then {group.id} else {}
  {
  }

  method RetainLoop(roleIds: seq<string>, known: set<string>, placed: seq<string>) returns (retained: seq<string>)
    ensures retained == Retain(roleIds, known, placed)
  {
    retained := [];
    for i := 0 to |roleIds|
      invariant retained == Retain(roleIds[..i], known, placed)
    {
      assert roleIds[..i + 1][..i] == roleIds[..i];
      if roleIds[i] in known && roleIds[i] !in placed && roleIds[i] !in retained {
        retained := retained + [roleIds[i]];
      }
    }
    assert roleIds[..|roleIds|] == roleIds;
  }

  lemma RecoverOneMoreGroup(groups: seq<Group>, i: nat, known: set<string>, lower: Lowering)
    requires i < |groups|
    ensures var kept, group := RecoverGroups(groups[..i], known, lower), groups[i];
      RecoverGroups(groups[..i + 1], known, lower) == kept +
        if KeepsGroup(groups[..i], group, known, lower) then [group.(roleIds := Retain(group.roleIds, known, Placed(kept)))] else []
    ensures SeenGroupIds(groups[..i + 1]) == SeenGroupIds(groups[..i]) + if GroupOk(groups[i]) then {groups[i].id} else {}
  {
    assert groups[..i + 1][..i] == groups[..i];
    SeenGroupSnoc(groups[..i], groups[i]);
    assert groups[..i + 1] == groups[..i] + [groups[i]];
  }

  method RecoverGroupsLoop(groups: seq<Group>, known: set<string>, lower: Lowering) returns (kept: seq<Group>)
    ensures kept == RecoverGroups(groups, known, lower)
  {
    var groupIds: set<string>, groupNames: set<string>, placed: seq<string> := {}, {}, [];
    kept := [];
    for i := 0 to |groups|
      invariant kept == RecoverGroups(groups[..i], known, lower)
      invariant groupIds == SeenGroupIds(groups[..i]) && groupNames == GroupNames(kept, lower)
      invariant placed == Placed(kept)
    {
      var group := groups[i];
      RecoverOneMoreGroup(groups, i, known, lower);
      if !GroupOk(group) {
        continue;
      }
      if group.id in groupIds {
        assert groupIds + {group.id} == groupIds;
        continue;
      }
      groupIds := groupIds + {group.id};
      if lower(group.name) in groupNames {
        continue;
      }
      groupNames := groupNames + {lower(group.name)};
      var retained := RetainLoop(group.roleIds, known, placed);
      GroupNamesSnoc(kept, group.(roleIds := retained), lower);
      kept := kept + [group.(roleIds := retained)];
      placed := placed + retained;
    }
    assert groups[..|groups|] == groups;
  }

  method RecoverLibrary(parsed: Option<Library>, lower: Lowering) returns (recovered: Library)
    ensures recovered == Recover(parsed, lower)
  {
    if parsed.None? {
      return EMPTY;
    }
    var roles, known := RecoverRolesLoop(FirstRoles(parsed.value), lower);
    var groups := RecoverGroupsLoop(FirstGroups(parsed.value), known, lower);
    recovered := Library(roles, groups);
  }

  // ----- one group -----

  /** The role ids that the kept groups name in the file. */
  function NamedByKept(groups: seq<Group>, known: set<string>, lower: Lowering): set<string> {
    if groups == [] then {}
    else
      var before, group := groups[..|groups| - 1], groups[|groups| - 1];
      NamedByKept(before, known, lower) + if KeepsGroup(before, group, known, lower) then set id | id in group.roleIds else {}
  }

  lemma RecoverLastGroup(before: seq<Group>, group: Group, known: set<string>, lower: Lowering)
    ensures var kept, groups := RecoverGroups(before, known, lower), before + [group];
      if KeepsGroup(before, group, known, lower) then
        && RecoverGroups(groups, known, lower) == kept + [group.(roleIds := Retain(group.roleIds, known, Placed(kept)))]
        && Placed(RecoverGroups(groups, known, lower)) == Placed(kept) + Retain(group.roleIds, known, Placed(kept))
        && NamedByKept(groups, known, lower) == NamedByKept(before, known, lower) + set id | id in group.roleIds
      else
        && RecoverGroups(groups, known, lower) == kept
        && NamedByKept(groups, known, lower) == NamedByKept(before, known, lower)
  {
    var kept, groups := RecoverGroups(before, known, lower), before + [group];
    assert groups[..|groups| - 1] == before && groups[|groups| - 1] == group;
    assert kept + [] == kept;
  }

  // ----- nothing is lost from a valid library -----

  lemma {:induction false} ValidRolesKept(roles: seq<Role>, lower: Lowering)
    requires RolesProblem(roles, lower).None?
    ensures RecoverRoles(roles, lower) == roles && SeenIds(roles) == Ids(roles)
  {
    if roles != [] {
      var n := |roles| - 1;
      ValidRolesKept(roles[..n], lower);
      SeenGrows(roles, n, lower);
      RecoverOneMore(roles, n, lower);
      assert roles[..n + 1] == roles && roles[..n] + [roles[n]] == roles;
    }
  }

  lemma SeenGrows(roles: seq<Role>, n: nat, lower: Lowering)
    requires n == |roles| - 1 && RoleOk(roles[n]) && SeenIds(roles[..n]) == Ids(roles[..n])
    ensures SeenIds(roles) == Ids(roles)
  {
    assert roles[..n + 1] == roles == roles[..n] + [roles[n]];
    OneMoreRole(roles, n, lower);
  }

  lemma {:induction false} GoodIdsRetained(roleIds: seq<string>, known: set<string>, placed: seq<string>)
    requires RoleIdsProblem(roleIds, known, placed).None?
    ensures Retain(roleIds, known, placed) == roleIds
  {
    if roleIds != [] {
      GoodIdsRetained(roleIds[..|roleIds| - 1], known, placed);
    }
  }

  lemma ExtendsKeptGroups(groups: seq<Group>, n: nat, known: set<string>, lower: Lowering)
    requires n == |groups| - 1
    requires RecoverGroups(groups[..n], known, lower) == groups[..n] && SeenGroupIds(groups[..n]) == GroupIds(groups[..n])
    requires KeepsGroup(groups[..n], groups[n], known, lower)
    requires Retain(groups[n].roleIds, known, Placed(groups[..n])) == groups[n].roleIds
    ensures RecoverGroups(groups, known, lower) == groups && SeenGroupIds(groups) == GroupIds(groups)
  {
    RecoverOneMoreGroup(groups, n, known, lower);
    OneMoreGroup(groups, n, lower);
    assert groups[..n + 1] == groups == groups[..n] + [groups[n]];
  }

  lemma {:induction false} ValidGroupsKept(groups: seq<Group>, known: set<string>, lower: Lowering)
    requires GroupsProblem(groups, known, lower).None?
    ensures RecoverGroups(groups, known, lower) == groups && SeenGroupIds(groups) == GroupIds(groups)
  {
    if groups != [] {
      var n := |groups| - 1;
      ValidGroupsKept(groups[..n], known, lower);
      GoodIdsRetained(groups[n].roleIds, known, Placed(groups[..n]));
      ExtendsKeptGroups(groups, n, known, lower);
    }
  }

  /** A library that passes validation is recovered as it is. */
  lemma ValidIsKept(library: Library, lower: Lowering)
    requires Problem(library, lower).None?
    ensures Recover(Some(library), lower) == library
  {
    ValidRolesKept(library.roles, lower);
    ValidGroupsKept(library.groups, Ids(library.roles), lower);
  }

  // ----- does the result pass? -----

  lemma {:induction false} KeptRolesPass(roles: seq<Role>, lower: Lowering)
    ensures RolesProblem(RecoverRoles(roles, lower), lower).None?
    ensures Ids(RecoverRoles(roles, lower)) <= SeenIds(roles)
    ensures |RecoverRoles(roles, lower)| <= |roles|
  {
    if roles != [] {
      var n := |roles| - 1;
      var kept := RecoverRoles(roles[..n], lower);
      KeptRolesPass(roles[..n], lower);
      RecoverOneMore(roles, n, lower);
      assert roles[..n + 1] == roles;
      if KeepsRole(roles[..n], roles[n], lower) {
        assert (kept + [roles[n]])[..|kept|] == kept;
      } else {
        assert kept + [] == kept;
      }
    }
  }

  lemma {:induction false} RetainedIds(roleIds: seq<string>, known: set<string>, placed: seq<string>)
    requires Distinct(placed)
    ensures Distinct(placed + Retain(roleIds, known, placed))
    ensures forall id :: id in Retain(roleIds, known, placed) ==> id in roleIds && id in known
    ensures forall id :: id in roleIds && id in known ==> id in placed || id in Retain(roleIds, known, placed)
  {
    if roleIds == [] {
      assert placed + [] == placed;
    } else {
      var before, id := roleIds[..|roleIds| - 1], roleIds[|roleIds| - 1];
      RetainedIds(before, known, placed);
      var retained := Retain(before, known, placed);
      DistinctSnoc(placed + retained, id);
      assert placed + (retained + [id]) == (placed + retained) + [id];
      assert roleIds == before + [id];
      assert placed + (retained + []) == placed + retained;
    }
  }

  predicate Places(placed: seq<string>, named: set<string>, known: set<string>) {
    && (forall id :: id in placed ==> id in named && id in known)
    && (forall id :: id in named && id in known ==> id in placed)
  }

  lemma {:induction false} KeptGroupsPlace(groups: seq<Group>, known: set<string>, lower: Lowering)
    ensures Distinct(Placed(RecoverGroups(groups, known, lower)))
    ensures Places(Placed(RecoverGroups(groups, known, lower)), NamedByKept(groups, known, lower), known)
    ensures GroupIds(RecoverGroups(groups, known, lower)) <= SeenGroupIds(groups)
    ensures |RecoverGroups(groups, known, lower)| <= |groups|
  {
    if groups != [] {
      var before, group := groups[..|groups| - 1], groups[|groups| - 1];
      var kept := RecoverGroups(before, known, lower);
      KeptGroupsPlace(before, known, lower);
      SeenGroupSnoc(before, group);
      assert groups == before + [group];
      RecoverLastGroup(before, group, known, lower);
      if KeepsGroup(before, group, known, lower) {
        RetainedIds(group.roleIds, known, Placed(kept));
      }
    }
  }

  lemma {:induction false} KeptGroupsPassIff(groups: seq<Group>, known: set<string>, roleIds: set<string>, lower: Lowering)
    ensures GroupsValid(RecoverGroups(groups, known, lower), roleIds, lower) <==>
      forall id :: id in Placed(RecoverGroups(groups, known, lower)) ==> id in roleIds
  {
    if groups != [] {
      var before, group := groups[..|groups| - 1], groups[|groups| - 1];
      var kept := RecoverGroups(before, known, lower);
      KeptGroupsPassIff(before, known, roleIds, lower);
      KeptGroupsPlace(before, known, lower);
      assert groups == before + [group];
      RecoverLastGroup(before, group, known, lower);
      if KeepsGroup(before, group, known, lower) {
        var retained := Retain(group.roleIds, known, Placed(kept));
        GroupsValidSnoc(kept, group.(roleIds := retained), roleIds, lower);
        RetainedIds(group.roleIds, known, Placed(kept));
        assert forall id :: id in Placed(kept) + retained <==> id in Placed(kept) || id in retained;
      }
    }
  }

  /** Every role id is placed at most once, and only ids of acceptable roles are. */
  lemma PlacedOnce(library: Library, lower: Lowering)
    ensures var recovered := Recover(Some(library), lower);
      && Distinct(Placed(recovered.groups))
      && forall id :: id in Placed(recovered.groups) ==> id in SeenIds(FirstRoles(library))
  {
    KeptGroupsPlace(FirstGroups(library), SeenIds(FirstRoles(library)), lower);
  }

  /** The recovered library passes when every role id that its groups place is one of its own. */
  lemma PassesWhenPlacedExist(library: Library, lower: Lowering)
    ensures var recovered := Recover(Some(library), lower);
      Problem(recovered, lower).None? <==> forall id :: id in Placed(recovered.groups) ==> id in Ids(recovered.roles)
  {
    var roles, groups := FirstRoles(library), FirstGroups(library);
    KeptRolesPass(roles, lower);
    RolesProblemIff(RecoverRoles(roles, lower), lower);
    KeptGroupsPlace(groups, SeenIds(roles), lower);
    KeptGroupsPassIff(groups, SeenIds(roles), Ids(RecoverRoles(roles, lower)), lower);
    ProblemIff(Recover(Some(library), lower), lower);
  }

  const FIRST := Role("a", "name", "text")
  const SECOND := Role("b", "name", "text")
  const NAMING := Group("g", "group", ["b"])

  lemma SmallAreOk()
    ensures RoleOk(FIRST) && RoleOk(SECOND) && GroupOk(NAMING)
  {
    assert TrimStart("name") == "name" && TrimStart("text") == "text" && TrimStart("group") == "group";
    assert TrimEnd("name") == "name" && TrimEnd("text") == "text" && TrimEnd("group") == "group";
    assert Utf8Len("text") <= 16 by {
      assert "text"[1..] == "ext" && "ext"[1..] == "xt" && "xt"[1..] == "t" && "t"[1..] == "";
    }
  }

  /** A group that names a role dropped for its name comes out of recovery naming a role that is not there. */
  lemma DroppedRoleStaysNamed(lower: Lowering)
    ensures Recover(Some(Library([FIRST, SECOND], [NAMING])), lower) == Library([FIRST], [NAMING])
    ensures Problem(Library([FIRST], [NAMING]), lower) == Some("worker_role_group_role_not_found")
  {
    SmallAreOk();
    OneRole(FIRST, lower);
    TwoRoles(FIRST, SECOND, lower);
    KeptRolesPass([FIRST], lower);
    assert [NAMING][..0] == [];
    assert ["b"][..0] == [];
    assert Retain(["b"], {"a", "b"}, []) == ["b"];
    assert RecoverGroups([NAMING], {"a", "b"}, lower) == [NAMING];
    assert RoleIdsProblem(["b"], {"a"}, []) == Some("worker_role_group_role_not_found");
    assert GroupsProblem([NAMING], {"a"}, lower) == Some("worker_role_group_role_not_found");
  }

  lemma OneRole(role: Role, lower: Lowering)
    requires RoleOk(role)
    ensures RecoverRoles([role], lower) == [role] && SeenIds([role]) == {role.id} == Ids([role])
  {
    RecoverOneMore([role], 0, lower);
    assert [role][..0] == [] && [role][..1] == [role];
  }

  lemma TwoRoles(first: Role, second: Role, lower: Lowering)
    requires RoleOk(first) && RoleOk(second) && first.name == second.name
    ensures RecoverRoles([first, second], lower) == [first] && SeenIds([first, second]) == {first.id, second.id}
  {
    OneRole(first, lower);
    RecoverOneMore([first, second], 1, lower);
    assert [first, second][..1] == [first] && [first, second][..2] == [first, second];
    assert first in [first] && lower(first.name) in Names([first], lower);
  }
}

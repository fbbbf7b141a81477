/**
  Validating the library of worker roles (applications/timem/src/worker_roles.rs). A library holds roles and groups of role
  ids; it passes when it keeps the limits, every entry is acceptable, no id or name is taken twice whatever the case of the
  letters, and the groups place each role that they name at most once.
 */
module RoleLibrary {
  import opened Wrappers
  import opened Text

  const MAX_WORKER_ROLES: nat := 128
  const MAX_WORKER_ROLE_GROUPS: nat := 64
  const MAX_NAME_CHARS: nat := 80
  const MAX_ROLE_DESCRIPTION_BYTES: nat := 16384
  const MAX_ID_BYTES: nat := 160

  datatype Role = Role(id: string, name: string, description: string)
  datatype Group = Group(id: string, name: string, roleIds: seq<string>)
  datatype Library = Library(roles: seq<Role>, groups: seq<Group>)

  const EMPTY := Library([], [])

  /** Lower-casing is not part of this model; any function will do. */
  type Lowering = string -> string

  // ----- single roles and groups -----

  predicate IsControl(c: char) {
    c < ' ' || '\U{7f}' <= c <= '\U{9f}'
  }

  predicate IsIdCharacter(c: char) {
    'a' <= c <= 'z' || 'A' <= c <= 'Z' || '0' <= c <= '9' || c == '_' || c == '-'
  }

  predicate IdOk(id: string) {
    id != "" && |id| <= MAX_ID_BYTES && forall i :: 0 <= i < |id| ==> IsIdCharacter(id[i])
  }

  function NameProblem(value: string, subject: string): Option<string> {
    var name := Trim(value);
    if name == "" then Some(subject + "_name_required")
    else if |name| > MAX_NAME_CHARS then Some(subject + "_name_too_long")
    else if exists i :: 0 <= i < |name| && IsControl(name[i]) then Some(subject + "_name_contains_control_character")
    else None
  }

  function FieldsProblem(role: Role): Option<string> {
    var description := Trim(role.description);
    if NameProblem(role.name, "worker_role").Some? then NameProblem(role.name, "worker_role")
    else if description == "" then Some("worker_role_description_required")
    else if Utf8Len(description) > MAX_ROLE_DESCRIPTION_BYTES then Some("worker_role_description_too_long")
    else if '\0' in description then Some("worker_role_description_contains_nul")
    else None
  }

  predicate RoleOk(role: Role) {
    IdOk(role.id) && FieldsProblem(role).None?
  }

  predicate GroupOk(group: Group) {
    IdOk(group.id) && NameProblem(group.name, "worker_role_group").None?
  }

  // ----- validating -----

  function Ids(roles: seq<Role>): set<string> {
    set r | r in roles :: r.id
  }

  function Names(roles: seq<Role>, lower: Lowering): set<string> {
    set r | r in roles :: lower(r.name)
  }

  function GroupIds(groups: seq<Group>): set<string> {
    set g | g in groups :: g.id
  }

  function GroupNames(groups: seq<Group>, lower: Lowering): set<string> {
    set g | g in groups :: lower(g.name)
  }

  /** The role ids of all groups, in order. */
  function Placed(groups: seq<Group>): seq<string> {
    if groups == [] then [] else Placed(groups[..|groups| - 1]) + groups[|groups| - 1].roleIds
  }

  /** What is wrong with a role, given the ids and lower-cased names before it. */
  function RoleProblem(role: Role, ids: set<string>, names: set<string>, lower: Lowering): Option<string> {
    if !IdOk(role.id) then Some("worker_role_id_invalid")
    else if FieldsProblem(role).Some? then FieldsProblem(role)
    else if role.id in ids then Some("worker_role_id_duplicate")
    else if lower(role.name) in names then Some("worker_role_name_duplicate")
    else None
  }

  function RolesProblem(roles: seq<Role>, lower: Lowering): Option<string> {
    if roles == [] then None
    else
      var before, role := roles[..|roles| - 1], roles[|roles| - 1];
      if RolesProblem(before, lower).Some? then RolesProblem(before, lower)
      else RoleProblem(role, Ids(before), Names(before, lower), lower)
  }

  function RoleIdsProblem(roleIds: seq<string>, known: set<string>, placed: seq<string>): Option<string> {
    if roleIds == [] then None
    else
      var before, id := roleIds[..|roleIds| - 1], roleIds[|roleIds| - 1];
      if RoleIdsProblem(before, known, placed).Some? then RoleIdsProblem(before, known, placed)
      else if id !in known then Some("worker_role_group_role_not_found")
      else if id in placed || id in before then Some("worker_role_group_role_duplicate")
      else None
  }

  function GroupProblem(group: Group, ids: set<string>, names: set<string>, lower: Lowering): Option<string> {
    if !IdOk(group.id) then Some("worker_role_group_id_invalid")
    else if NameProblem(group.name, "worker_role_group").Some? then NameProblem(group.name, "worker_role_group")
    else if group.id in ids then Some("worker_role_group_id_duplicate")
    else if lower(group.name) in names then Some("worker_role_group_name_duplicate")
    else None
  }

  function GroupsProblem(groups: seq<Group>, known: set<string>, lower: Lowering): Option<string> {
    if groups == [] then None
    else
      var before, group := groups[..|groups| - 1], groups[|groups| - 1];
      var problem := GroupProblem(group, GroupIds(before), GroupNames(before, lower), lower);
      if GroupsProblem(before, known, lower).Some? then GroupsProblem(before, known, lower)
      else if problem.Some? then problem
      else RoleIdsProblem(group.roleIds, known, Placed(before))
  }

  /** The first thing wrong with a library. */
  function Problem(library: Library, lower: Lowering): Option<string> {
    if |library.roles| > MAX_WORKER_ROLES then Some("worker_role_limit_reached")
    else if |library.groups| > MAX_WORKER_ROLE_GROUPS then Some("worker_role_group_limit_reached")
    else if RolesProblem(library.roles, lower).Some? then RolesProblem(library.roles, lower)
    else GroupsProblem(library.groups, Ids(library.roles), lower)
  }

  lemma {:induction false} RolesProblemStays(roles: seq<Role>, lower: Lowering, k: nat)
    requires k <= |roles| && RolesProblem(roles[..k], lower).Some?
    ensures RolesProblem(roles, lower) == RolesProblem(roles[..k], lower)
  {
    if k == |roles| {
      assert roles[..k] == roles;
    } else {
      assert roles[..|roles| - 1][..k] == roles[..k];
      RolesProblemStays(roles[..|roles| - 1], lower, k);
    }
  }

  lemma {:induction false} RoleIdsProblemStays(roleIds: seq<string>, known: set<string>, placed: seq<string>, k: nat)
    requires k <= |roleIds| && RoleIdsProblem(roleIds[..k], known, placed).Some?
    ensures RoleIdsProblem(roleIds, known, placed) == RoleIdsProblem(roleIds[..k], known, placed)
  {
    if k == |roleIds| {
      assert roleIds[..k] == roleIds;
    } else {
      assert roleIds[..|roleIds| - 1][..k] == roleIds[..k];
      RoleIdsProblemStays(roleIds[..|roleIds| - 1], known, placed, k);
    }
  }

  lemma {:induction false} GroupsProblemStays(groups: seq<Group>, known: set<string>, lower: Lowering, k: nat)
    requires k <= |groups| && GroupsProblem(groups[..k], known, lower).Some?
    ensures GroupsProblem(groups, known, lower) == GroupsProblem(groups[..k], known, lower)
  {
    if k == |groups| {
      assert groups[..k] == groups;
    } else {
      assert groups[..|groups| - 1][..k] == groups[..k];
      GroupsProblemStays(groups[..|groups| - 1], known, lower, k);
    }
  }

  lemma OneMoreRole(roles: seq<Role>, i: nat, lower: Lowering)
    requires i < |roles|
    ensures Ids(roles[..i + 1]) == Ids(roles[..i]) + {roles[i].id}
    ensures Names(roles[..i + 1], lower) == Names(roles[..i], lower) + {lower(roles[i].name)}
  {
    assert roles[..i + 1] == roles[..i] + [roles[i]];
  }

  lemma OneMoreGroup(groups: seq<Group>, i: nat, lower: Lowering)
    requires i < |groups|
    ensures GroupIds(groups[..i + 1]) == GroupIds(groups[..i]) + {groups[i].id}
    ensures GroupNames(groups[..i + 1], lower) == GroupNames(groups[..i], lower) + {lower(groups[i].name)}
  {
    assert groups[..i + 1] == groups[..i] + [groups[i]];
  }

  method ValidateRoles(roles: seq<Role>, lower: Lowering) returns (problem: Option<string>)
    ensures problem == RolesProblem(roles, lower)
  {
    var roleIds: set<string>, roleNames: set<string> := {}, {};
    for i := 0 to |roles|
      invariant RolesProblem(roles[..i], lower) == None
      invariant roleIds == Ids(roles[..i]) && roleNames == Names(roles[..i], lower)
    {
      var role := roles[i];
      assert roles[..i + 1][..i] == roles[..i];
      if RolesProblem(roles[..i + 1], lower).Some? {
        RolesProblemStays(roles, lower, i + 1);
      }
      problem := RoleProblem(role, roleIds, roleNames, lower);
      if problem.Some? {
        return;
      }
      OneMoreRole(roles, i, lower);
      roleIds, roleNames := roleIds + {role.id}, roleNames + {lower(role.name)};
    }
    assert roles[..|roles|] == roles;
    problem := None;
  }

  method ValidateRoleIds(roleIds: seq<string>, known: set<string>, placed: seq<string>) returns (problem: Option<string>)
    ensures problem == RoleIdsProblem(roleIds, known, placed)
  {
    for i := 0 to |roleIds|
      invariant RoleIdsProblem(roleIds[..i], known, placed) == None
    {
      assert roleIds[..i + 1][..i] == roleIds[..i];
      if RoleIdsProblem(roleIds[..i + 1], known, placed).Some? {
        RoleIdsProblemStays(roleIds, known, placed, i + 1);
      }
      if roleIds[i] !in known {
        return Some("worker_role_group_role_not_found");
      }
      if roleIds[i] in placed || roleIds[i] in roleIds[..i] {
        return Some("worker_role_group_role_duplicate");
      }
    }
    assert roleIds[..|roleIds|] == roleIds;
    problem := None;
  }

  method ValidateGroups(groups: seq<Group>, known: set<string>, lower: Lowering) returns (problem: Option<string>)
    ensures problem == GroupsProblem(groups, known, lower)
  {
    var groupIds: set<string>, groupNames: set<string>, placed: seq<string> := {}, {}, [];
    for i := 0 to |groups|
      invariant GroupsProblem(groups[..i], known, lower) == None
      invariant groupIds == GroupIds(groups[..i]) && groupNames == GroupNames(groups[..i], lower)
      invariant placed == Placed(groups[..i])
    {
      var group := groups[i];
      assert groups[..i + 1][..i] == groups[..i];
      if GroupsProblem(groups[..i + 1], known, lower).Some? {
        GroupsProblemStays(groups, known, lower, i + 1);
      }
      problem := GroupProblem(group, groupIds, groupNames, lower);
      if problem.Some? {
        return;
      }
      problem := ValidateRoleIds(group.roleIds, known, placed);
      if problem.Some? {
        return;
      }
      OneMoreGroup(groups, i, lower);
      groupIds, groupNames := groupIds + {group.id}, groupNames + {lower(group.name)};
      placed := placed + group.roleIds;
    }
    assert groups[..|groups|] == groups;
    problem := None;
  }

  method Validate(library: Library, lower: Lowering) returns (problem: Option<string>)
    ensures problem == Problem(library, lower)
  {
    if |library.roles| > MAX_WORKER_ROLES {
      return Some("worker_role_limit_reached");
    }
    if |library.groups| > MAX_WORKER_ROLE_GROUPS {
      return Some("worker_role_group_limit_reached");
    }
    problem := ValidateRoles(library.roles, lower);
    if problem.None? {
      problem := ValidateGroups(library.groups, Ids(library.roles), lower);
    }
  }

  // ----- what a valid library is -----

  predicate Distinct(s: seq<string>) {
    forall i, j :: 0 <= i < j < |s| ==> s[i] != s[j]
  }

  predicate RolesValid(roles: seq<Role>, lower: Lowering) {
    && (forall i :: 0 <= i < |roles| ==> RoleOk(roles[i]))
    && (forall i, j :: 0 <= i < j < |roles| ==> roles[i].id != roles[j].id && lower(roles[i].name) != lower(roles[j].name))
  }

  predicate GroupsValid(groups: seq<Group>, known: set<string>, lower: Lowering) {
    && (forall i :: 0 <= i < |groups| ==> GroupOk(groups[i]))
    && (forall i, j :: 0 <= i < j < |groups| ==>
          groups[i].id != groups[j].id && lower(groups[i].name) != lower(groups[j].name))
    && (forall i :: 0 <= i < |Placed(groups)| ==> Placed(groups)[i] in known)
    && Distinct(Placed(groups))
  }

  lemma RolesValidSnoc(roles: seq<Role>, role: Role, lower: Lowering)
    ensures RolesValid(roles + [role], lower) <==>
      RolesValid(roles, lower) && RoleProblem(role, Ids(roles), Names(roles, lower), lower).None?
  {
    var longer := roles + [role];
    if RolesValid(longer, lower) {
      assert longer[|roles|] == role;
      forall i | 0 <= i < |roles| ensures RoleOk(roles[i]) && roles[i].id != role.id && lower(roles[i].name) != lower(role.name) {
        assert longer[i] == roles[i];
      }
      forall i, j | 0 <= i < j < |roles| ensures roles[i].id != roles[j].id && lower(roles[i].name) != lower(roles[j].name) {
        assert longer[i] == roles[i] && longer[j] == roles[j];
      }
    }
  }

  lemma {:induction false} RolesProblemIff(roles: seq<Role>, lower: Lowering)
    ensures RolesProblem(roles, lower).None? <==> RolesValid(roles, lower)
  {
    if roles != [] {
      var before, last := roles[..|roles| - 1], roles[|roles| - 1];
      RolesProblemIff(before, lower);
      RolesValidSnoc(before, last, lower);
      assert before + [last] == roles;
    }
  }

  lemma {:induction false} RoleIdsProblemIff(roleIds: seq<string>, known: set<string>, placed: seq<string>)
    requires Distinct(placed)
    ensures RoleIdsProblem(roleIds, known, placed).None? <==>
      Distinct(placed + roleIds) && forall i :: 0 <= i < |roleIds| ==> roleIds[i] in known
  {
    if roleIds != [] {
      var before, n := roleIds[..|roleIds| - 1], |roleIds| - 1;
      RoleIdsProblemIff(before, known, placed);
      var all := placed + roleIds;
      assert placed + before == all[..|all| - 1];
      DistinctSnoc(placed + before, roleIds[n]);
      assert all == (placed + before) + [roleIds[n]];
      assert forall i :: 0 <= i < n ==> before[i] == roleIds[i];
    }
  }

  lemma DistinctSnoc(s: seq<string>, x: string)
    ensures Distinct(s + [x]) <==> Distinct(s) && x !in s
  {
    var longer := s + [x];
    if Distinct(longer) {
      forall i, j | 0 <= i < j < |s| ensures s[i] != s[j] {
        assert longer[i] != longer[j];
      }
      forall i | 0 <= i < |s| ensures s[i] != x {
        assert longer[i] != longer[|s|];
      }
    }
  }

  lemma {:induction false} GroupsProblemIff(groups: seq<Group>, known: set<string>, lower: Lowering)
    ensures GroupsProblem(groups, known, lower).None? <==> GroupsValid(groups, known, lower)
  {
    if groups != [] {
      var before, n := groups[..|groups| - 1], |groups| - 1;
      GroupsProblemIff(before, known, lower);
      GroupsValidSnoc(before, groups[n], known, lower);
      assert before + [groups[n]] == groups;
      if GroupsValid(before, known, lower) {
        RoleIdsProblemIff(groups[n].roleIds, known, Placed(before));
      }
    }
  }

  lemma GroupsValidSnoc(groups: seq<Group>, group: Group, known: set<string>, lower: Lowering)
    ensures GroupsValid(groups + [group], known, lower) <==>
      && GroupsValid(groups, known, lower)
      && GroupOk(group) && group.id !in GroupIds(groups) && lower(group.name) !in GroupNames(groups, lower)
      && Distinct(Placed(groups) + group.roleIds)
      && forall i :: 0 <= i < |group.roleIds| ==> group.roleIds[i] in known
  {
    var longer, placed := groups + [group], Placed(groups);
    assert longer[..|groups|] == groups;
    assert Placed(longer) == placed + group.roleIds;
    if GroupsValid(longer, known, lower) {
      assert longer[|groups|] == group;
      forall i | 0 <= i < |groups| ensures GroupOk(groups[i]) && groups[i].id != group.id && lower(groups[i].name) != lower(group.name) {
        assert longer[i] == groups[i];
      }
      forall i, j | 0 <= i < j < |groups| ensures groups[i].id != groups[j].id && lower(groups[i].name) != lower(groups[j].name) {
        assert longer[i] == groups[i] && longer[j] == groups[j];
      }
      forall i | 0 <= i < |placed| ensures placed[i] in known {
        assert Placed(longer)[i] in known;
      }
      forall i | 0 <= i < |group.roleIds| ensures group.roleIds[i] in known {
        assert Placed(longer)[|placed| + i] in known;
      }
      forall i, j | 0 <= i < j < |placed| ensures placed[i] != placed[j] {
        assert Placed(longer)[i] != Placed(longer)[j];
      }
    }
  }

  /** A library passes validation exactly when it is within its limits, unambiguous and complete. */
  lemma ProblemIff(library: Library, lower: Lowering)
    ensures Problem(library, lower).None? <==>
      && |library.roles| <= MAX_WORKER_ROLES && |library.groups| <= MAX_WORKER_ROLE_GROUPS
      && RolesValid(library.roles, lower)
      && GroupsValid(library.groups, Ids(library.roles), lower)
  {
    RolesProblemIff(library.roles, lower);
    GroupsProblemIff(library.groups, Ids(library.roles), lower);
  }
}

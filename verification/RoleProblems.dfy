/** Which problem of a role library validation reports: the first one (applications/timem/src/worker_roles.rs). */
module RoleProblems {
  import opened Wrappers
  import opened Text
  import opened RoleLibrary

  // ----- single entries, by their characters -----

  const DIGITS: string := "0123456789"

  predicate IdLetter(c: char) {
    c in UPPER || c in LOWER || c in DIGITS || c as int == 0x5F || c as int == 0x2D
  }

  predicate IdWellFormed(id: string) {
    1 <= |id| <= 160 && forall i :: 0 <= i < |id| ==> IdLetter(id[i])
  }

  lemma UpperIff(c: char)
    ensures 'A' <= c <= 'Z' <==> c in UPPER
  {
    if 'A' <= c <= 'Z' {
      assert UPPER[c as int - 'A' as int] == c;
    }
  }

  lemma LowerIff(c: char)
    ensures 'a' <= c <= 'z' <==> c in LOWER
  {
    if 'a' <= c <= 'z' {
      assert LOWER[c as int - 'a' as int] == c;
    }
  }

  lemma DigitIff(c: char)
    ensures '0' <= c <= '9' <==> c in DIGITS
  {
    if '0' <= c <= '9' {
      assert DIGITS[c as int - '0' as int] == c;
    }
  }

  lemma IdCharacterIff(c: char)
    ensures IsIdCharacter(c) <==> IdLetter(c)
  {
    UpperIff(c);
    LowerIff(c);
    DigitIff(c);
    assert '_' as int == 0x5F && '-' as int == 0x2D;
  }

  lemma IdIff(id: string)
    ensures IdOk(id) <==> IdWellFormed(id)
  {
    forall i | 0 <= i < |id| ensures IsIdCharacter(id[i]) <==> IdLetter(id[i]) {
      IdCharacterIff(id[i]);
    }
  }

  predicate HasControl(s: string) {
    exists i :: 0 <= i < |s| && (s[i] as int <= 0x1F || 0x7F <= s[i] as int <= 0x9F)
  }

  lemma ControlIff(s: string)
    ensures (exists i :: 0 <= i < |s| && IsControl(s[i])) <==> HasControl(s)
  {
    assert ' ' as int == 0x20;
    if i :| 0 <= i < |s| && IsControl(s[i]) {
      assert s[i] as int <= 0x1F || 0x7F <= s[i] as int <= 0x9F;
    }
    if i :| 0 <= i < |s| && (s[i] as int <= 0x1F || 0x7F <= s[i] as int <= 0x9F) {
      assert IsControl(s[i]);
    }
  }

  /** A name, without the whitespace around it, has 1 to 80 characters and no control character. */
  lemma NameProblemIs(value: string, subject: string, i: nat, j: nat)
    requires IsCore(value, i, j)
    ensures NameProblem(value, subject) ==
      if i == j then Some(subject + "_name_required")
      else if j - i > 80 then Some(subject + "_name_too_long")
      else if HasControl(value[i..j]) then Some(subject + "_name_contains_control_character")
      else None
  {
    TrimIff(value, value[i..j]);
    ControlIff(value[i..j]);
  }

  /** A description, without the whitespace around it, has 1 to 16384 bytes and no NUL. */
  lemma FieldsProblemIs(role: Role, i: nat, j: nat)
    requires IsCore(role.description, i, j)
    ensures FieldsProblem(role) ==
      var description := role.description[i..j];
      if NameProblem(role.name, "worker_role").Some? then NameProblem(role.name, "worker_role")
      else if i == j then Some("worker_role_description_required")
      else if Utf8Len(description) > 16384 then Some("worker_role_description_too_long")
      else if exists k :: 0 <= k < |description| && description[k] as int == 0 then Some("worker_role_description_contains_nul")
      else None
  {
    var description := role.description[i..j];
    TrimIff(role.description, description);
    if '\0' in description {
      var k :| 0 <= k < |description| && description[k] == '\0';
      assert description[k] as int == 0;
    }
    if k :| 0 <= k < |description| && description[k] as int == 0 {
      assert description[k] == '\0';
    }
  }

  // ----- what is wrong with an entry, seen from the whole library -----

  function RoleIssue(roles: seq<Role>, i: nat, lower: Lowering): Option<string>
    requires i < |roles|
  {
    if !IdWellFormed(roles[i].id) then Some("worker_role_id_invalid")
    else if FieldsProblem(roles[i]).Some? then FieldsProblem(roles[i])
    else if exists j :: 0 <= j < i && roles[j].id == roles[i].id then Some("worker_role_id_duplicate")
    else if exists j :: 0 <= j < i && lower(roles[j].name) == lower(roles[i].name) then Some("worker_role_name_duplicate")
    else None
  }

  function GroupIssue(groups: seq<Group>, i: nat, lower: Lowering): Option<string>
    requires i < |groups|
  {
    if !IdWellFormed(groups[i].id) then Some("worker_role_group_id_invalid")
    else if NameProblem(groups[i].name, "worker_role_group").Some? then NameProblem(groups[i].name, "worker_role_group")
    else if exists j :: 0 <= j < i && groups[j].id == groups[i].id then Some("worker_role_group_id_duplicate")
    else if exists j :: 0 <= j < i && lower(groups[j].name) == lower(groups[i].name) then Some("worker_role_group_name_duplicate")
    else None
  }

  /** The role id is placed by an earlier group. */
  predicate PlacedBefore(groups: seq<Group>, i: nat, id: string)
    requires i <= |groups|
  {
    exists j, l :: 0 <= j < i && 0 <= l < |groups[j].roleIds| && groups[j].roleIds[l] == id
  }

  /** What is wrong with place `k` of group `i`. */
  function PlaceIssue(groups: seq<Group>, i: nat, k: nat, known: set<string>): Option<string>
    requires i < |groups| && k < |groups[i].roleIds|
  {
    var id := groups[i].roleIds[k];
    if id !in known then Some("worker_role_group_role_not_found")
    else if PlacedBefore(groups, i, id) || exists l :: 0 <= l < k && groups[i].roleIds[l] == id
    then Some("worker_role_group_role_duplicate")
    else None
  }

  // ----- roles -----

  lemma RoleIssueIs(roles: seq<Role>, lower: Lowering)
    requires roles != []
    ensures var n := |roles| - 1;
      RoleProblem(roles[n], Ids(roles[..n]), Names(roles[..n], lower), lower) == RoleIssue(roles, n, lower)
  {
    var n := |roles| - 1;
    IdIff(roles[n].id);
    IdsIff(roles, n, roles[n].id);
    NamesIff(roles, n, lower, lower(roles[n].name));
  }

  lemma IdsIff(roles: seq<Role>, n: nat, id: string)
    requires n <= |roles|
    ensures id in Ids(roles[..n]) <==> exists j :: 0 <= j < n && roles[j].id == id
  {
    if j :| 0 <= j < n && roles[j].id == id {
      assert roles[..n][j] == roles[j];
    }
  }

  lemma NamesIff(roles: seq<Role>, n: nat, lower: Lowering, name: string)
    requires n <= |roles|
    ensures name in Names(roles[..n], lower) <==> exists j :: 0 <= j < n && lower(roles[j].name) == name
  {
    if j :| 0 <= j < n && lower(roles[j].name) == name {
      assert roles[..n][j] == roles[j];
    }
  }

  /** The problem of the first role that has one. */
  predicate FirstRole(roles: seq<Role>, lower: Lowering, problem: Option<string>) {
    match problem
    case None => forall i :: 0 <= i < |roles| ==> RoleIssue(roles, i, lower) == None
    case Some(_) =>
      exists i ::
        && 0 <= i < |roles| && RoleIssue(roles, i, lower) == problem
        && (forall j :: 0 <= j < i ==> RoleIssue(roles, j, lower) == None)
  }

  lemma RoleIssueStays(roles: seq<Role>, n: nat, i: nat, lower: Lowering)
    requires i < n <= |roles|
    ensures RoleIssue(roles[..n], i, lower) == RoleIssue(roles, i, lower)
  {
  }

  lemma {:induction false} RolesProblemIsFirst(roles: seq<Role>, lower: Lowering)
    ensures FirstRole(roles, lower, RolesProblem(roles, lower))
  {
    if roles != [] {
      var n := |roles| - 1;
      RolesProblemIsFirst(roles[..n], lower);
      RoleIssueIs(roles, lower);
      forall i | 0 <= i < n ensures RoleIssue(roles[..n], i, lower) == RoleIssue(roles, i, lower) {
        RoleIssueStays(roles, n, i, lower);
      }
    }
  }

  // ----- groups -----

  lemma GroupIdsIff(groups: seq<Group>, n: nat, id: string)
    requires n <= |groups|
    ensures id in GroupIds(groups[..n]) <==> exists j :: 0 <= j < n && groups[j].id == id
  {
    if j :| 0 <= j < n && groups[j].id == id {
      assert groups[..n][j] == groups[j];
    }
  }

  lemma GroupNamesIff(groups: seq<Group>, n: nat, lower: Lowering, name: string)
    requires n <= |groups|
    ensures name in GroupNames(groups[..n], lower) <==> exists j :: 0 <= j < n && lower(groups[j].name) == name
  {
    if j :| 0 <= j < n && lower(groups[j].name) == name {
      assert groups[..n][j] == groups[j];
    }
  }

  lemma GroupIssueIs(groups: seq<Group>, lower: Lowering)
    requires groups != []
    ensures var n := |groups| - 1;
      GroupProblem(groups[n], GroupIds(groups[..n]), GroupNames(groups[..n], lower), lower) == GroupIssue(groups, n, lower)
  {
    var n := |groups| - 1;
    IdIff(groups[n].id);
    GroupIdsIff(groups, n, groups[n].id);
    GroupNamesIff(groups, n, lower, lower(groups[n].name));
  }

  lemma {:induction false} PlacedIff(groups: seq<Group>, n: nat, id: string)
    requires n <= |groups|
    ensures id in Placed(groups[..n]) <==> PlacedBefore(groups, n, id)
  {
    if n > 0 {
      PlacedIff(groups, n - 1, id);
      assert groups[..n][..n - 1] == groups[..n - 1];
    }
  }

  /** The problem of the first place of a group that has one. */
  predicate FirstPlace(groups: seq<Group>, i: nat, m: nat, known: set<string>, problem: Option<string>)
    requires i < |groups| && m <= |groups[i].roleIds|
  {
    match problem
    case None => forall k :: 0 <= k < m ==> PlaceIssue(groups, i, k, known) == None
    case Some(_) =>
      exists k ::
        && 0 <= k < m && PlaceIssue(groups, i, k, known) == problem
        && (forall l :: 0 <= l < k ==> PlaceIssue(groups, i, l, known) == None)
  }

  lemma LastPlace(groups: seq<Group>, i: nat, m: nat, known: set<string>)
    requires i < |groups| && 0 < m <= |groups[i].roleIds|
    requires FirstPlace(groups, i, m - 1, known, None)
    ensures FirstPlace(groups, i, m, known, PlaceIssue(groups, i, m - 1, known))
  {
    assert PlaceIssue(groups, i, m - 1, known) == PlaceIssue(groups, i, m - 1, known);
  }

  lemma LaterPlace(groups: seq<Group>, i: nat, m: nat, known: set<string>, problem: Option<string>)
    requires i < |groups| && 0 < m <= |groups[i].roleIds| && problem.Some?
    requires FirstPlace(groups, i, m - 1, known, problem)
    ensures FirstPlace(groups, i, m, known, problem)
  {
  }

  lemma {:induction false} PlacesProblemIsFirst(groups: seq<Group>, i: nat, m: nat, known: set<string>)
    requires i < |groups| && m <= |groups[i].roleIds|
    ensures FirstPlace(groups, i, m, known, RoleIdsProblem(groups[i].roleIds[..m], known, Placed(groups[..i])))
  {
    var ids := groups[i].roleIds;
    if m > 0 {
      var before := RoleIdsProblem(ids[..m - 1], known, Placed(groups[..i]));
      PlacesProblemIsFirst(groups, i, m - 1, known);
      assert ids[..m][..m - 1] == ids[..m - 1];
      if before.Some? {
        LaterPlace(groups, i, m, known, before);
      } else {
        PlacedIff(groups, i, ids[m - 1]);
        assert ids[m - 1] in ids[..m - 1] <==> exists l :: 0 <= l < m - 1 && ids[l] == ids[m - 1];
        LastPlace(groups, i, m, known);
      }
    }
  }

  /** The problem of a group: its own or that of its first bad place. */
  predicate ProblemOf(groups: seq<Group>, i: nat, known: set<string>, lower: Lowering, problem: Option<string>)
    requires i < |groups|
  {
    if GroupIssue(groups, i, lower).Some? then problem == GroupIssue(groups, i, lower)
    else FirstPlace(groups, i, |groups[i].roleIds|, known, problem)
  }

  /** The problem of the first group that has one. */
  predicate FirstGroup(groups: seq<Group>, known: set<string>, lower: Lowering, problem: Option<string>) {
    match problem
    case None => forall i :: 0 <= i < |groups| ==> ProblemOf(groups, i, known, lower, None)
    case Some(_) =>
      exists i ::
        && 0 <= i < |groups| && ProblemOf(groups, i, known, lower, problem)
        && (forall j :: 0 <= j < i ==> ProblemOf(groups, j, known, lower, None))
  }

  lemma PlaceIssueStays(groups: seq<Group>, n: nat, i: nat, k: nat, known: set<string>)
    requires i < n <= |groups| && k < |groups[i].roleIds|
    ensures PlaceIssue(groups[..n], i, k, known) == PlaceIssue(groups, i, k, known)
  {
    PlacedIff(groups[..n], i, groups[i].roleIds[k]);
    PlacedIff(groups, i, groups[i].roleIds[k]);
    assert groups[..n][..i] == groups[..i];
  }

  lemma ProblemOfStays(groups: seq<Group>, n: nat, i: nat, known: set<string>, lower: Lowering, problem: Option<string>)
    requires i < n <= |groups|
    ensures ProblemOf(groups[..n], i, known, lower, problem) <==> ProblemOf(groups, i, known, lower, problem)
  {
    forall k | 0 <= k < |groups[i].roleIds| ensures PlaceIssue(groups[..n], i, k, known) == PlaceIssue(groups, i, k, known) {
      PlaceIssueStays(groups, n, i, k, known);
    }
  }

  lemma LastProblemIs(groups: seq<Group>, known: set<string>, lower: Lowering)
    requires groups != [] && GroupsProblem(groups[..|groups| - 1], known, lower).None?
    ensures ProblemOf(groups, |groups| - 1, known, lower, GroupsProblem(groups, known, lower))
  {
    var n := |groups| - 1;
    GroupIssueIs(groups, lower);
    PlacesProblemIsFirst(groups, n, |groups[n].roleIds|, known);
    assert groups[n].roleIds[..|groups[n].roleIds|] == groups[n].roleIds;
  }

  lemma LaterGroup(groups: seq<Group>, known: set<string>, lower: Lowering, problem: Option<string>)
    requires groups != [] && problem.Some? && FirstGroup(groups[..|groups| - 1], known, lower, problem)
    ensures FirstGroup(groups, known, lower, problem)
  {
    var n := |groups| - 1;
    forall i | 0 <= i < n
      ensures ProblemOf(groups[..n], i, known, lower, None) <==> ProblemOf(groups, i, known, lower, None)
      ensures ProblemOf(groups[..n], i, known, lower, problem) <==> ProblemOf(groups, i, known, lower, problem)
    {
      ProblemOfStays(groups, n, i, known, lower, None);
      ProblemOfStays(groups, n, i, known, lower, problem);
    }
  }

  lemma LastGroup(groups: seq<Group>, known: set<string>, lower: Lowering, problem: Option<string>)
    requires groups != [] && FirstGroup(groups[..|groups| - 1], known, lower, None)
    requires ProblemOf(groups, |groups| - 1, known, lower, problem)
    ensures FirstGroup(groups, known, lower, problem)
  {
    var n := |groups| - 1;
    forall i | 0 <= i < n ensures ProblemOf(groups, i, known, lower, None) {
      ProblemOfStays(groups, n, i, known, lower, None);
    }
  }

  lemma {:induction false} GroupsProblemIsFirst(groups: seq<Group>, known: set<string>, lower: Lowering)
    ensures FirstGroup(groups, known, lower, GroupsProblem(groups, known, lower))
  {
    if groups != [] {
      var before := GroupsProblem(groups[..|groups| - 1], known, lower);
      GroupsProblemIsFirst(groups[..|groups| - 1], known, lower);
      if before.Some? {
        LaterGroup(groups, known, lower, before);
      } else {
        LastProblemIs(groups, known, lower);
        LastGroup(groups, known, lower, GroupsProblem(groups, known, lower));
      }
    }
  }

  /**
    Main result: validation reports a limit that is passed, or else the problem of the first role that has one, or else that
    of the first group: of the group itself, or of the first place in it.
   */
  lemma ProblemIsFirst(library: Library, lower: Lowering)
    ensures var problem := Problem(library, lower);
      if |library.roles| > 128 then problem == Some("worker_role_limit_reached")
      else if |library.groups| > 64 then problem == Some("worker_role_group_limit_reached")
      else if problem.Some? && problem == RolesProblem(library.roles, lower) then FirstRole(library.roles, lower, problem)
      else FirstRole(library.roles, lower, None) && FirstGroup(library.groups, Ids(library.roles), lower, problem)
  {
    RolesProblemIsFirst(library.roles, lower);
    GroupsProblemIsFirst(library.groups, Ids(library.roles), lower);
  }
}

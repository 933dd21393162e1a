/** The project and membership store behind src/controllers/project.controller.js:
    createProject, addMemberToProject, updateMemberRole and deleteMember, each a
    single atomic update of the store. A membership is keyed by (project, user),
    which is how every handler looks one up. */
module Registry {
  import opened Wrappers
  import opened Constants
  import opened MemberSchema
  import opened Errors
  import opened CheckRole

  datatype Project = Project(id: ProjectId, name: string, description: string, createdBy: UserId)

  /** The projects collection in insertion order, and each membership's role string. */
  datatype Store = Store(projects: seq<Project>, members: map<(ProjectId, UserId), string>)

  /** A handler's failure: an explicit ApiError, or the schema validator refusing
      the document that was about to be created. */
  datatype StoreError = Rejected(err: ApiError) | SchemaRejected(paths: seq<SchemaPath>)

  predicate NameTaken(store: Store, name: string) {
    exists i :: 0 <= i < |store.projects| && store.projects[i].name == name
  }

  predicate IdUsed(store: Store, id: ProjectId) {
    (exists i :: 0 <= i < |store.projects| && store.projects[i].id == id)
    || (exists k :: k in store.members && k.0 == id)
  }

  /** Project ids and project names are each unique. */
  predicate UniqueProjects(store: Store) {
    forall i, j :: 0 <= i < j < |store.projects| ==>
      store.projects[i].id != store.projects[j].id && store.projects[i].name != store.projects[j].name
  }

  /** Every stored role is one of the enumeration's values. */
  predicate RolesValid(store: Store) {
    forall k :: k in store.members ==> IsUserRole(store.members[k])
  }

  /** The membership lookup `ProjectMember.findOne({project, user})`. */
  function FindMember(store: Store, project: ProjectId, user: UserId): (r: Option<MemberRecord>)
    ensures r.Some? <==> (project, user) in store.members
    ensures r.Some? ==> r.value.user == user && r.value.project == project
    ensures r.Some? ==> r.value.role == store.members[(project, user)]
  {
    if (project, user) in store.members then Some(MemberRecord(user, project, store.members[(project, user)]))
    else None
  }

  /** Two stores agree on every membership other than `key`. */
  ghost predicate SameElsewhere(a: map<(ProjectId, UserId), string>, b: map<(ProjectId, UserId), string>, key: (ProjectId, UserId)) {
    forall k :: k != key ==> (k in a <==> k in b) && (k in a ==> a[k] == b[k])
  }

  /** createProject: a missing or empty name or description, or a name already in
      use, is rejected with 400. Otherwise the project is appended and its creator
      becomes its one admin; no other membership changes. `newId` is the id the
      database assigns. */
  function CreateProject(store: Store, creator: UserId, name: Option<string>, description: Option<string>, newId: ProjectId): (r: Result<Store, StoreError>)
    requires !IdUsed(store, newId)
    ensures r.Success? <==> TruthyString(name) && TruthyString(description) && !NameTaken(store, name.value)
    ensures r.Failure? ==> r.error.Rejected? && r.error.err.statusCode == 400
    ensures r.Success? ==> r.value.projects == store.projects + [Project(newId, name.value, description.value, creator)]
    ensures r.Success? ==> (newId, creator) in r.value.members && r.value.members[(newId, creator)] == "admin"
    ensures r.Success? ==> |r.value.members| == |store.members| + 1
    ensures r.Success? ==> SameElsewhere(store.members, r.value.members, (newId, creator))
  {
    if !TruthyString(name) || !TruthyString(description) then
      Failure(Rejected(Plain(400, "Name and description are required")))
    else if NameTaken(store, name.value) then
      Failure(Rejected(Plain(400, "Project with this name already exists")))
    else
      assert (newId, creator) !in store.members;
      Success(Store(store.projects + [Project(newId, name.value, description.value, creator)],
                    store.members[(newId, creator) := RoleName(Admin)]))
  }

  /** addMemberToProject: a missing role or user is 400, an existing (project, user)
      pair is 400, a role outside the enumeration is refused by the schema.
      Otherwise exactly one membership is added. */
  function AddMember(store: Store, project: ProjectId, role: Option<string>, user: Option<UserId>): (r: Result<Store, StoreError>)
    ensures r.Success? <==> TruthyString(role) && user.Some? && (project, user.value) !in store.members && IsUserRole(role.value)
    ensures !TruthyString(role) || user.None? ==> r == Failure(Rejected(Plain(400, "All fields are required")))
    ensures TruthyString(role) && user.Some? && (project, user.value) in store.members ==>
      r == Failure(Rejected(Plain(400, "User is already a member of this project")))
    ensures TruthyString(role) && user.Some? && (project, user.value) !in store.members && !IsUserRole(role.value) ==>
      r == Failure(SchemaRejected([RolePath]))
    ensures r.Failure? && r.error.Rejected? ==> r.error.err.statusCode == 400
    ensures r.Success? ==> r.value.projects == store.projects
    ensures r.Success? ==> FindMember(r.value, project, user.value) == Some(MemberRecord(user.value, project, role.value))
    ensures r.Success? ==> |r.value.members| == |store.members| + 1
    ensures r.Success? ==> SameElsewhere(store.members, r.value.members, (project, user.value))
  {
    if !TruthyString(role) || user.None? then
      Failure(Rejected(Plain(400, "All fields are required")))
    else if (project, user.value) in store.members then
      Failure(Rejected(Plain(400, "User is already a member of this project")))
    else
      match NewMember(user, Some(project), role)
      case Failure(paths) =>
        assert paths == FailingPaths(user, Some(project), role);
        assert paths == [RolePath];
        Failure(SchemaRejected(paths))
      case Success(m) => Success(store.(members := store.members[(project, m.user) := m.role]))
  }

  /** updateMemberRole as written: a missing user is 400, an absent membership is
      404; otherwise that membership's role becomes the given string, with no
      check against the enumeration, and an absent role leaves it as it was. */
  function UpdateMemberRole(store: Store, project: ProjectId, user: Option<UserId>, role: Option<string>): (r: Result<Store, StoreError>)
    ensures r.Success? <==> user.Some? && (project, user.value) in store.members
    ensures user.None? ==> r == Failure(Rejected(Plain(400, "All fields are required")))
    ensures user.Some? && r.Failure? ==> r == Failure(Rejected(Plain(404, "Project member not found.")))
    ensures r.Success? ==> r.value.projects == store.projects && r.value.members.Keys == store.members.Keys
    ensures r.Success? ==> r.value.members[(project, user.value)] == role.GetOr(store.members[(project, user.value)])
    ensures r.Success? ==> SameElsewhere(store.members, r.value.members, (project, user.value))
  {
    if user.None? then
      Failure(Rejected(Plain(400, "All fields are required")))
    else if (project, user.value) !in store.members then
      Failure(Rejected(Plain(404, "Project member not found.")))
    else
      var key := (project, user.value);
      Success(store.(members := store.members[key := role.GetOr(store.members[key])]))
  }

  /** updateMemberRole with the schema's enumeration enforced on the new role, as it
      is when the membership is created. */
  function UpdateMemberRoleChecked(store: Store, project: ProjectId, user: Option<UserId>, role: Option<string>): (r: Result<Store, StoreError>)
    ensures r.Success? <==> user.Some? && (project, user.value) in store.members && (role.None? || IsUserRole(role.value))
    ensures r.Success? ==> r == UpdateMemberRole(store, project, user, role)
    ensures RolesValid(store) && r.Success? ==> RolesValid(r.value)
  {
    match UpdateMemberRole(store, project, user, role)
    case Failure(e) => Failure(e)
    case Success(s) =>
      if role.Some? && !IsUserRole(role.value) then Failure(SchemaRejected([RolePath])) else Success(s)
  }

  /** deleteMember: a missing user is 400, an absent membership is 404; otherwise
      exactly that membership is removed. */
  function DeleteMember(store: Store, project: ProjectId, user: Option<UserId>): (r: Result<Store, StoreError>)
    ensures r.Success? <==> user.Some? && (project, user.value) in store.members
    ensures user.None? ==> r == Failure(Rejected(Plain(400, "All fields are required")))
    ensures user.Some? && r.Failure? ==> r == Failure(Rejected(Plain(404, "Member not found for this project.")))
    ensures r.Success? ==> r.value.projects == store.projects
    ensures r.Success? ==> FindMember(r.value, project, user.value).None?
    ensures r.Success? ==> |r.value.members| == |store.members| - 1
    ensures r.Success? ==> SameElsewhere(store.members, r.value.members, (project, user.value))
  {
    if user.None? then
      Failure(Rejected(Plain(400, "All fields are required")))
    else if (project, user.value) !in store.members then
      Failure(Rejected(Plain(404, "Member not found for this project.")))
    else
      Success(store.(members := store.members - {(project, user.value)}))
  }

  /** The creator of a new project passes the admin check on it and no other user
      gains or loses a role anywhere. */
  lemma CreatorIsAdmin(store: Store, creator: UserId, name: string, description: string, newId: ProjectId, other: UserId, p: ProjectId)
    requires !IdUsed(store, newId)
    requires CreateProject(store, creator, Some(name), Some(description), newId).Success?
    requires (p, other) != (newId, creator)
    ensures var s' := CreateProject(store, creator, Some(name), Some(description), newId).value;
      CheckAdmin(FindMember(s', newId, creator)).Success?
      && FindMember(s', p, other) == FindMember(store, p, other)
  {
  }

  /** createProject keeps ids and names unique and keeps every role valid. */
  lemma CreateProjectPreservesInvariants(store: Store, creator: UserId, name: Option<string>, description: Option<string>, newId: ProjectId)
    requires !IdUsed(store, newId)
    requires UniqueProjects(store) && RolesValid(store)
    ensures var r := CreateProject(store, creator, name, description, newId);
      r.Success? ==> UniqueProjects(r.value) && RolesValid(r.value)
  {
  }

  /** A second project with a taken name is always refused. */
  lemma NamesStayUnique(store: Store, creator: UserId, other: UserId, name: string, description: string, id1: ProjectId, id2: ProjectId)
    requires !IdUsed(store, id1)
    requires CreateProject(store, creator, Some(name), Some(description), id1).Success?
    requires !IdUsed(CreateProject(store, creator, Some(name), Some(description), id1).value, id2)
    ensures CreateProject(CreateProject(store, creator, Some(name), Some(description), id1).value, other, Some(name), Some(description), id2)
      == Failure(Rejected(Plain(400, "Project with this name already exists")))
  {
    var s1 := CreateProject(store, creator, Some(name), Some(description), id1).value;
    assert s1.projects[|store.projects|].name == name;
  }

  /** Adding the same (project, user) pair twice is refused the second time. */
  lemma MembershipStaysUnique(store: Store, project: ProjectId, user: UserId, role1: string, role2: string)
    requires AddMember(store, project, Some(role1), Some(user)).Success?
    requires role2 != ""
    ensures AddMember(AddMember(store, project, Some(role1), Some(user)).value, project, Some(role2), Some(user))
      == Failure(Rejected(Plain(400, "User is already a member of this project")))
  {
  }

  /** Deleting a member that was just added gives back the original store. */
  lemma AddThenDelete(store: Store, project: ProjectId, role: Option<string>, user: Option<UserId>)
    requires AddMember(store, project, role, user).Success?
    ensures DeleteMember(AddMember(store, project, role, user).value, project, user) == Success(store)
  {
    var s1 := AddMember(store, project, role, user).value;
    var s2 := DeleteMember(s1, project, user).value;
    assert s2.members == store.members;
  }

  /** Re-adding a deleted member with its old (valid) role gives back the original store. */
  lemma DeleteThenAdd(store: Store, project: ProjectId, user: UserId)
    requires (project, user) in store.members
    requires IsUserRole(store.members[(project, user)])
    ensures var role := store.members[(project, user)];
      AddMember(DeleteMember(store, project, Some(user)).value, project, Some(role), Some(user)) == Success(store)
  {
    var role := store.members[(project, user)];
    var s1 := DeleteMember(store, project, Some(user)).value;
    var s2 := AddMember(s1, project, Some(role), Some(user)).value;
    assert s2.members == store.members;
  }

  /** Setting a member's role to the one it already has changes nothing. */
  lemma UpdateToSameRoleIsIdentity(store: Store, project: ProjectId, user: UserId)
    requires (project, user) in store.members
    ensures UpdateMemberRole(store, project, Some(user), Some(store.members[(project, user)])) == Success(store)
  {
    var s1 := UpdateMemberRole(store, project, Some(user), Some(store.members[(project, user)])).value;
    assert s1.members == store.members;
  }

  /** addMemberToProject and deleteMember keep every stored role valid. */
  lemma AddDeletePreserveRoles(store: Store, project: ProjectId, role: Option<string>, user: Option<UserId>)
    requires RolesValid(store)
    ensures var r := AddMember(store, project, role, user); r.Success? ==> RolesValid(r.value)
    ensures var r := DeleteMember(store, project, user); r.Success? ==> RolesValid(r.value)
  {
  }

  /** updateMemberRole as written can store a role outside the enumeration: an
      existing member updated to "owner". */
  lemma UpdateMemberRoleBreaksRoles()
    ensures var store := Store([], map[(1, 2) := "member"]);
      && RolesValid(store)
      && UpdateMemberRole(store, 1, Some(2), Some("owner")).Success?
      && !RolesValid(UpdateMemberRole(store, 1, Some(2), Some("owner")).value)
  {
  }

  /** After a member is added they pass the membership check, and pass the admin
      check exactly when added as "admin"; after they are deleted the membership
      check refuses them with 403. */
  lemma MemberChecksFollowStore(store: Store, project: ProjectId, role: string, user: UserId)
    ensures var r := AddMember(store, project, Some(role), Some(user));
      r.Success? ==> CheckProjectMember(FindMember(r.value, project, user)).Success?
                     && (CheckAdmin(FindMember(r.value, project, user)).Success? <==> role == "admin")
    ensures var r := DeleteMember(store, project, Some(user));
      r.Success? ==> CheckProjectMember(FindMember(r.value, project, user)).Failure?
                     && CheckProjectMember(FindMember(r.value, project, user)).error.statusCode == 403
  {
  }
}

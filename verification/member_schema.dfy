/** The project-membership document of src/models/projectmember.models.js: a user,
    a project and a role string, with `user` and `project` required and the role
    defaulting to "member" and restricted to the role enumeration. */
module MemberSchema {
  import opened Wrappers
  import opened Constants

  type UserId = nat
  type ProjectId = nat

  datatype MemberRecord = MemberRecord(user: UserId, project: ProjectId, role: string)

  /** A path the schema validator rejected. */
  datatype SchemaPath = UserPath | ProjectPath | RolePath

  /** The role a new document receives: the given one, else the schema default. */
  function ResolvedRole(role: Option<string>): string {
    role.GetOr(RoleName(Member))
  }

  /** Every path that fails validation, in schema order (user, project, role). */
  function FailingPaths(user: Option<UserId>, project: Option<ProjectId>, role: Option<string>): seq<SchemaPath> {
    (if user.None? then [UserPath] else [])
    + (if project.None? then [ProjectPath] else [])
    + (if IsUserRole(ResolvedRole(role)) then [] else [RolePath])
  }

  /** Building a membership document: it is created iff no path fails; it then carries
      the given user and project and a role from the enumeration, the given one or
      "member" when none was given. */
  function NewMember(user: Option<UserId>, project: Option<ProjectId>, role: Option<string>): (r: Result<MemberRecord, seq<SchemaPath>>)
    ensures r.Success? <==> user.Some? && project.Some? && (role.None? || IsUserRole(role.value))
    ensures r.Success? ==> r.value.user == user.value && r.value.project == project.value
    ensures r.Success? ==> IsUserRole(r.value.role)
    ensures r.Success? && role.None? ==> r.value.role == "member"
    ensures r.Success? && role.Some? ==> r.value.role == role.value
    ensures r.Failure? ==> |r.error| > 0
    ensures r.Failure? ==> (UserPath in r.error <==> user.None?)
    ensures r.Failure? ==> (ProjectPath in r.error <==> project.None?)
    ensures r.Failure? ==> (RolePath in r.error <==> role.Some? && !IsUserRole(role.value))
  {
    var failing := FailingPaths(user, project, role);
    if failing == [] then Success(MemberRecord(user.value, project.value, ResolvedRole(role)))
    else Failure(failing)
  }
}

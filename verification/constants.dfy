/** The shared enumerations of src/utils/constant.js: user roles, task statuses and
    the MIME types a task attachment may have. */
module Constants {
  import opened Wrappers

  datatype Role = Admin | ProjectAdmin | Member

  datatype TaskStatus = Todo | InProgress | Done

  /** The string stored for each role (UserRoleEnum). */
  function RoleName(r: Role): string {
    match r
    case Admin => "admin"
    case ProjectAdmin => "project_admin"
    case Member => "member"
  }

  /** The role a stored string denotes, if it is one of the enumeration's values. */
  function ParseRole(s: string): (r: Option<Role>)
    ensures r.Some? ==> RoleName(r.value) == s
    ensures r.None? ==> s !in AvailableUserRoles()
  {
    if s == "admin" then Some(Admin)
    else if s == "project_admin" then Some(ProjectAdmin)
    else if s == "member" then Some(Member)
    else None
  }

  /** Object.values(UserRoleEnum), in declaration order. */
  function AvailableUserRoles(): seq<string> {
    [RoleName(Admin), RoleName(ProjectAdmin), RoleName(Member)]
  }

  predicate IsUserRole(s: string) {
    s in AvailableUserRoles()
  }

  function TaskStatusName(t: TaskStatus): string {
    match t
    case Todo => "todo"
    case InProgress => "in_progress"
    case Done => "done"
  }

  /** Object.values(TaskStatusEnum), in declaration order. */
  function AvailableTaskStatuses(): seq<string> {
    [TaskStatusName(Todo), TaskStatusName(InProgress), TaskStatusName(Done)]
  }

  /** The attachment MIME types allowed by the upload filter. */
  function AllowedMimeTypes(): seq<string> {
    [ "application/pdf",
      "image/png",
      "image/jpeg",
      "text/plain",
      "application/vnd.openxmlformats-officedocument.wordprocessingml.document",
      "application/vnd.openxmlformats-officedocument.spreadsheetml.sheet",
      "application/vnd.openxmlformats-officedocument.presentationml.presentation" ]
  }

  /** Parsing a role's name gives the role back, and parsing succeeds exactly on the
      enumeration's values. */
  lemma RoleRoundTrip(r: Role, s: string)
    ensures ParseRole(RoleName(r)) == Some(r)
    ensures ParseRole(s).Some? <==> IsUserRole(s)
  {
  }

  /** The three role strings are pairwise distinct, so RoleName is injective. */
  lemma RoleNamesDistinct(a: Role, b: Role)
    ensures RoleName(a) == RoleName(b) <==> a == b
  {
  }

  lemma AvailableUserRolesOrder()
    ensures AvailableUserRoles() == ["admin", "project_admin", "member"]
    ensures forall i, j :: 0 <= i < j < 3 ==> AvailableUserRoles()[i] != AvailableUserRoles()[j]
  {
  }

  lemma AvailableTaskStatusesOrder()
    ensures AvailableTaskStatuses() == ["todo", "in_progress", "done"]
    ensures forall t: TaskStatus :: TaskStatusName(t) in AvailableTaskStatuses()
  {
  }

  lemma AllowedMimeTypesContents()
    ensures |AllowedMimeTypes()| == 7
    ensures forall i, j :: 0 <= i < j < 7 ==> AllowedMimeTypes()[i] != AllowedMimeTypes()[j]
    ensures "application/pdf" in AllowedMimeTypes() && "image/png" in AllowedMimeTypes()
    ensures "image/jpeg" in AllowedMimeTypes() && "text/plain" in AllowedMimeTypes()
  {
  }
}

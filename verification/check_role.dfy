/** The role checks of src/utils/checkRole.js. Each looks up the membership of a
    user in a project; here the lookup's result is the parameter `member`
    (None when no record matched). */
module CheckRole {
  import opened Wrappers
  import opened Constants
  import opened MemberSchema
  import opened Errors

  const UnauthorizedMessage: string := "Unauthorized to perform this operation."
  const NotMemberMessage: string := "You are not a member of this project."

  /** Passes only for a member whose role is exactly "admin"; otherwise 401. */
  function CheckAdmin(member: Option<MemberRecord>): (r: Result<(), ApiError>)
    ensures r.Success? <==> member.Some? && member.value.role == "admin"
    ensures r.Failure? ==> r.error.statusCode == 401
  {
    if member.None? || member.value.role != RoleName(Admin) then
      Failure(Plain(401, UnauthorizedMessage))
    else
      Success(())
  }

  /** Passes only for a member whose role is exactly "project_admin"; otherwise 401. */
  function CheckProjectAdmin(member: Option<MemberRecord>): (r: Result<(), ApiError>)
    ensures r.Success? <==> member.Some? && member.value.role == "project_admin"
    ensures r.Failure? ==> r.error.statusCode == 401
  {
    if member.None? || member.value.role != RoleName(ProjectAdmin) then
      Failure(Plain(401, UnauthorizedMessage))
    else
      Success(())
  }

  /** Passes for any member, whatever the role, and returns the record found;
      otherwise 403. */
  function CheckProjectMember(member: Option<MemberRecord>): (r: Result<MemberRecord, ApiError>)
    ensures r.Success? <==> member.Some?
    ensures r.Success? ==> r.value == member.value
    ensures r.Failure? ==> r.error.statusCode == 403
  {
    if member.None? then Failure(Plain(403, NotMemberMessage))
    else Success(member.value)
  }

  /** Passing either admin check implies passing the membership check. */
  lemma AdminsAreMembers(member: Option<MemberRecord>)
    ensures CheckAdmin(member).Success? ==> CheckProjectMember(member).Success?
    ensures CheckProjectAdmin(member).Success? ==> CheckProjectMember(member).Success?
  {
  }

  /** No member passes both admin checks: an "admin" is not a "project_admin". */
  lemma AdminChecksExclusive(member: Option<MemberRecord>)
    ensures !(CheckAdmin(member).Success? && CheckProjectAdmin(member).Success?)
  {
  }

  /** A member with a role outside the enumeration passes neither admin check but
      is still a member. */
  lemma UnknownRoleIsPlainMember(m: MemberRecord)
    requires !IsUserRole(m.role)
    ensures CheckAdmin(Some(m)).Failure? && CheckProjectAdmin(Some(m)).Failure?
    ensures CheckProjectMember(Some(m)) == Success(m)
  {
  }
}

/**
 * Who may do what. The caller is the `{ id, role }` payload of a verified token (token
 * verification itself is outside the model); roles are the strings the token carries.
 */
module Authorization {
  import opened Wrappers
  import opened Schema

  datatype Caller = Caller(id: int, role: string)

  /** `POST /api/projects`: the roles listed in the handler. */
  predicate CanCreateProject(role: string) {
    role in ["student", "faculty", "admin", "management"]
  }

  /** Admin and faculty may change or delete any project. */
  predicate Privileged(role: string) {
    role == "admin" || role == "faculty"
  }

  /** Any other caller needs a `team_members` row linking them to the project's team. */
  predicate MayModify(t: Tables, caller: Caller, p: Project) {
    Privileged(caller.role) || IsMember(t, p.teamId, caller.id)
  }

  /** Faculty and admin read private feedback; everybody else only public rows. */
  predicate SeesPrivateFeedback(role: string) {
    role == "faculty" || role == "admin"
  }

  /**
   * `SELECT tm.* FROM team_members tm JOIN projects p ON tm.teamId = p.teamId WHERE p.id = ? AND
   * tm.userId = ?`: the first member row of the caller in the team of a project with that id.
   */
  function MembershipRow(members: seq<Member>, teamId: int, userId: int): (r: Option<Member>)
    ensures r.Some? <==> exists m :: m in members && m.teamId == teamId && m.userId == userId
    ensures r.Some? ==> r.value in members && r.value.teamId == teamId && r.value.userId == userId
  {
    if members == [] then None
    else if members[0].teamId == teamId && members[0].userId == userId then Some(members[0])
    else MembershipRow(members[1..], teamId, userId)
  }

  /** The permission test of the update and delete handlers, as the handlers compute it. */
  function HasPermission(t: Tables, caller: Caller, p: Project): (ok: bool)
    ensures ok <==> MayModify(t, caller, p)
  {
    if caller.role == "admin" || caller.role == "faculty" then true
    else MembershipRow(t.teamMembers, p.teamId, caller.id).Some?
  }
}

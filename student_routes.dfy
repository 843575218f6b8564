/**
 * The student routes of `code/server`: `POST /api/student/projects`, which writes a team, its
 * leader, the project and its SDG and media rows inside one transaction, and the `PUT` and
 * `DELETE` of `/api/student/projects/:id`, which only a member of the project's team reaches.
 */
module StudentRoutes {
  import opened Wrappers
  import opened Seqs
  import opened Schema
  import opened Store
  import opened Associations
  import opened Authorization
  import opened Routing
  import opened ProjectRoutes

  /** The body of `POST /api/student/projects`; an absent field is `None`. */
  datatype StudentSubmission = StudentSubmission(
    title: Option<string>, description: Option<string>, thumbnailUrl: Option<string>,
    repositoryUrl: Option<string>, demoUrl: Option<string>,
    teamName: Option<string>, teamDescription: Option<string>,
    sdgs: Option<seq<int>>, mediaUrls: Option<seq<string>>)

  /** The project row read back with its team (`JOIN teams t ON p.teamId = t.id`). */
  datatype ProjectWithTeam = ProjectWithTeam(project: Project, team: Team)

  /** `if (!title || !description || !thumbnailUrl || !teamName)` lets the request through. */
  predicate SubmissionComplete(req: StudentSubmission) {
    Truthy(req.title) && Truthy(req.description) && Truthy(req.thumbnailUrl) && Truthy(req.teamName)
  }

  /** The team the submission creates: the next team id, `teamDescription || ''`. */
  function NewTeam(t: Tables, req: StudentSubmission): Team
    requires SubmissionComplete(req)
  {
    Team(t.teamSeq + 1, req.teamName.value, Some(OrEmpty(req.teamDescription)))
  }

  /** The project the submission creates, in the new team, with `repositoryUrl || ''` and `demoUrl || ''`. */
  function NewStudentRow(t: Tables, req: StudentSubmission, now: int): Project
    requires SubmissionComplete(req)
  {
    StudentRow(t.projectSeq + 1, t.teamSeq + 1, req, now)
  }

  function StudentRow(id: int, teamId: int, req: StudentSubmission, now: int): Project
    requires SubmissionComplete(req)
  {
    Project(id, req.title.value, req.description.value, req.thumbnailUrl.value,
            Some(OrEmpty(req.repositoryUrl)), Some(OrEmpty(req.demoUrl)), teamId, now, now)
  }

  /** The tables after a committed submission. */
  function Submitted(t: Tables, callerId: int, req: StudentSubmission, now: int): Tables
    requires SubmissionComplete(req)
  {
    var p := NewStudentRow(t, req, now);
    t.(teams := t.teams + [NewTeam(t, req)], teamSeq := t.teamSeq + 1,
       teamMembers := t.teamMembers + [Member(t.teamSeq + 1, callerId, "leader")],
       projects := t.projects + [p], projectSeq := t.projectSeq + 1,
       projectSdgs := t.projectSdgs + TagRows(p.id, ListOrEmpty(req.sdgs)),
       projectMedia := t.projectMedia + MediaRows(p.id, ListOrEmpty(req.mediaUrls)))
  }

  /**
   * A committed submission adds exactly one team, one leader row for the caller, one project in
   * that team, one tag row per SDG id and one media row per URL; users, goals, feedback and every
   * other project's rows stay as they were.
   */
  lemma SubmittedAddsExactly(t: Tables, callerId: int, req: StudentSubmission, now: int)
    requires SubmissionComplete(req)
    requires TagProjectsBelow(t.projectSdgs, t.projectSeq) && MediaProjectsBelow(t.projectMedia, t.projectSeq)
    ensures var t' := Submitted(t, callerId, req, now); var p := NewStudentRow(t, req, now);
      t'.teams == t.teams + [NewTeam(t, req)]
      && t'.teamMembers == t.teamMembers + [Member(NewTeam(t, req).id, callerId, "leader")]
      && t'.projects == t.projects + [p] && p.teamId == NewTeam(t, req).id
      && t'.users == t.users && t'.sdgs == t.sdgs && t'.feedback == t.feedback
      && TagsOf(t'.projectSdgs, p.id) == TagRows(p.id, ListOrEmpty(req.sdgs))
      && MediaOf(t'.projectMedia, p.id) == MediaRows(p.id, ListOrEmpty(req.mediaUrls))
      && (forall q :: q != p.id ==> TagsOf(t'.projectSdgs, q) == TagsOf(t.projectSdgs, q))
      && (forall q :: q != p.id ==> MediaOf(t'.projectMedia, q) == MediaOf(t.projectMedia, q))
  {
    var p := NewStudentRow(t, req, now);
    AppendTags(t.projectSdgs, p.id, ListOrEmpty(req.sdgs));
    AppendMedia(t.projectMedia, p.id, ListOrEmpty(req.mediaUrls));
  }

  /** The submission the route commits: the role, the required fields, the leader's user row and the SDG list. */
  ghost predicate SubmissionAccepted(t: Tables, cfg: Config, caller: Caller, req: StudentSubmission) {
    caller.role == "student" && SubmissionComplete(req)
    && (cfg.foreignKeys ==> HasUser(t, caller.id))
    && SdgListAccepted(t, cfg, ListOrEmpty(req.sdgs))
  }

  /** `INSERT INTO teams`, then `INSERT INTO team_members (teamId, userId, 'leader')`. */
  method AddLeadTeam(db: Database, callerId: int, req: StudentSubmission) returns (failure: Option<StoreFailure>)
    requires db.Valid() && ReferencesBounded(db.tables)
    requires SubmissionComplete(req)
    modifies db
    ensures db.Valid() && ReferencesBounded(db.tables) && db.savepoint == old(db.savepoint)
    ensures failure.None? <==> (db.config.foreignKeys ==> HasUser(old(db.tables), callerId))
    ensures failure.None? ==>
      db.tables == old(db.tables).(teams := old(db.tables.teams) + [NewTeam(old(db.tables), req)], teamSeq := old(db.tables.teamSeq) + 1,
                                   teamMembers := old(db.tables.teamMembers) + [Member(old(db.tables.teamSeq) + 1, callerId, "leader")])
  {
    ghost var t0 := db.tables;
    ghost var team := NewTeam(t0, req);
    var _ := db.Run(InsertTeam(req.teamName.value, Some(OrEmpty(req.teamDescription))));
    var teamId := db.tables.teamSeq;
    ghost var t1 := db.tables;
    assert t1 == t0.(teams := t0.teams + [team], teamSeq := team.id);
    assert team in t1.teams;
    assert !IsMember(t1, team.id, callerId);
    assert HasUser(t1, callerId) == HasUser(t0, callerId);
    var r := db.Run(InsertMember(teamId, callerId, "leader"));
    if r.Failed? {
      return Some(r.failure);
    }
    return None;
  }

  /** `INSERT INTO projects` in the team just created; every NOT NULL column is bound, so it succeeds. */
  method AddStudentRow(db: Database, req: StudentSubmission, now: int)
    requires db.Valid() && ReferencesBounded(db.tables)
    requires SubmissionComplete(req) && HasTeam(db.tables, db.tables.teamSeq)
    modifies db
    ensures db.Valid() && ReferencesBounded(db.tables) && db.savepoint == old(db.savepoint)
    ensures db.tables == old(db.tables).(projects := old(db.tables.projects) + [StudentRow(old(db.tables.projectSeq) + 1, old(db.tables.teamSeq), req, now)],
                                         projectSeq := old(db.tables.projectSeq) + 1)
  {
    ExecStudentRow(db.tables, db.config, req, now);
    var _ := db.Run(InsertProject(req.title, req.description, req.thumbnailUrl,
                                  Some(OrEmpty(req.repositoryUrl)), Some(OrEmpty(req.demoUrl)), Some(db.tables.teamSeq), now));
  }

  lemma ExecStudentRow(t: Tables, cfg: Config, req: StudentSubmission, now: int)
    requires SubmissionComplete(req) && HasTeam(t, t.teamSeq)
    ensures Exec(t, cfg, InsertProject(req.title, req.description, req.thumbnailUrl,
                                       Some(OrEmpty(req.repositoryUrl)), Some(OrEmpty(req.demoUrl)), Some(t.teamSeq), now))
            == Done(t.(projects := t.projects + [StudentRow(t.projectSeq + 1, t.teamSeq, req, now)], projectSeq := t.projectSeq + 1))
  {
  }

  /** The writes between `BEGIN` and `COMMIT`; a failure stops at the statement that threw. */
  method WriteSubmission(db: Database, callerId: int, req: StudentSubmission, now: int) returns (failure: Option<StoreFailure>)
    requires db.Valid() && ReferencesBounded(db.tables)
    requires SubmissionComplete(req)
    modifies db
    ensures db.Valid() && ReferencesBounded(db.tables) && db.savepoint == old(db.savepoint)
    ensures failure.None? <==> (db.config.foreignKeys ==> HasUser(old(db.tables), callerId))
                               && SdgListAccepted(old(db.tables), db.config, ListOrEmpty(req.sdgs))
    ensures failure.None? ==> db.tables == Submitted(old(db.tables), callerId, req, now)
  {
    ghost var t0 := db.tables;
    failure := AddLeadTeam(db, callerId, req);
    if failure.Some? {
      return;
    }
    ghost var p := NewStudentRow(t0, req, now);
    AddStudentRow(db, req, now);
    var projectId := db.tables.projectSeq;
    assert p in db.tables.projects;
    var fail, written := AddAssociations(db, projectId, ListOrEmpty(req.sdgs), ListOrEmpty(req.mediaUrls));
    failure := fail;
    if failure.None? {
      assert ListOrEmpty(req.sdgs)[..written] == ListOrEmpty(req.sdgs);
    }
  }

  /**
   * `POST /api/student/projects`: 403 for a non-student, 400 for a missing field, then the writes
   * inside a transaction. A failing statement rolls every table back before the 500.
   */
  method SubmitStudentProject(db: Database, caller: Caller, req: StudentSubmission, now: int) returns (r: Response<ProjectWithTeam>)
    requires Ready(db)
    modifies db
    ensures Ready(db)
    ensures r.Ok? || r.Forbidden? || r.Invalid? || r.StoreError?
    ensures r.Forbidden? <==> caller.role != "student"
    ensures r.Invalid? <==> caller.role == "student" && !SubmissionComplete(req)
    ensures r.Ok? <==> SubmissionAccepted(old(db.tables), db.config, caller, req)
    ensures !r.Ok? ==> db.tables == old(db.tables)
    ensures r.Ok? ==> SubmissionComplete(req) && db.tables == Submitted(old(db.tables), caller.id, req, now)
    ensures r.Ok? ==> r.value == ProjectWithTeam(NewStudentRow(old(db.tables), req, now), NewTeam(old(db.tables), req))
  {
    if caller.role != "student" {
      return Forbidden;
    }
    if !(Truthy(req.title) && Truthy(req.description) && Truthy(req.thumbnailUrl) && Truthy(req.teamName)) {
      return Invalid;
    }
    ghost var t0 := db.tables;
    var _ := db.Begin();
    var failure := WriteSubmission(db, caller.id, req, now);
    if failure.Some? {
      var _ := db.Rollback();
      return StoreError(failure.value);
    }
    var _ := db.Commit();
    ghost var p := NewStudentRow(t0, req, now);
    ghost var team := NewTeam(t0, req);
    FindAppended(t0.projects, p);
    FindAppendedTeam(t0.teams, team);
    var found := ProjectById(db.tables.projects, db.tables.projectSeq);
    var joined := TeamById(db.tables.teams, found.value.teamId);
    return Ok(ProjectWithTeam(found.value, joined.value));
  }

  /**
   * `SELECT p.* FROM projects p JOIN teams t ON p.teamId = t.id JOIN team_members tm ON t.id =
   * tm.teamId WHERE p.id = ? AND tm.userId = ?`: the project, provided its team exists and the
   * caller is one of its members.
   */
  function StudentProjectRow(t: Tables, id: int, userId: int): (r: Option<Project>)
    ensures r.Some? ==> r.value in t.projects && r.value.id == id && HasTeam(t, r.value.teamId) && IsMember(t, r.value.teamId, userId)
  {
    var p := ProjectById(t.projects, id);
    if p.Some? && TeamById(t.teams, p.value.teamId).Some? && MembershipRow(t.teamMembers, p.value.teamId, userId).Some? then p
    else None
  }

  /** With unique project ids the lookup finds a row exactly when the three-way join has one. */
  lemma StudentProjectJoin(t: Tables, id: int, userId: int)
    requires DistinctBy(t.projects, (q: Project) => q.id)
    ensures StudentProjectRow(t, id, userId).Some? <==>
      exists p :: p in t.projects && p.id == id && HasTeam(t, p.teamId) && IsMember(t, p.teamId, userId)
  {
    if p :| p in t.projects && p.id == id && HasTeam(t, p.teamId) && IsMember(t, p.teamId, userId) {
      FindUnique(t.projects, p);
    }
  }

  /** A project of another team is answered exactly like a missing one. */
  lemma OutsiderSeesNotFound(t: Tables, id: int, userId: int)
    requires DistinctBy(t.projects, (q: Project) => q.id)
    requires HasProject(t, id)
    ensures StudentProjectRow(t, id, userId).None? <==>
      forall p :: p in t.projects && p.id == id ==> !(HasTeam(t, p.teamId) && IsMember(t, p.teamId, userId))
  {
    StudentProjectJoin(t, id, userId);
  }

  /**
   * `PUT /api/student/projects/:id`: 404 unless the caller is a member of the project's team, then
   * the same writes as `PUT /api/projects/:id`, without a transaction, and the read-back joined to the team.
   */
  method UpdateStudentProject(db: Database, caller: Caller, id: int, upd: ProjectUpdate, now: int) returns (r: Response<ProjectWithTeam>)
    requires Ready(db)
    modifies db
    ensures Ready(db)
    ensures r.Ok? || r.NotFound? || r.StoreError?
    ensures r.NotFound? <==> StudentProjectRow(old(db.tables), id, caller.id).None?
    ensures r.NotFound? ==> db.tables == old(db.tables)
    ensures StudentProjectRow(old(db.tables), id, caller.id).Some? ==>
      UpdateWritten(old(db.tables), db.config, db.tables, id, Merged(upd, StudentProjectRow(old(db.tables), id, caller.id).value), upd, now, r.Ok?)
    ensures r.StoreError? <==> StudentProjectRow(old(db.tables), id, caller.id).Some? && upd.sdgs.Some?
                               && !SdgListAccepted(old(db.tables), db.config, upd.sdgs.value)
    ensures r.Ok? ==>
      var p := StudentProjectRow(old(db.tables), id, caller.id).value;
      TeamById(old(db.tables.teams), p.teamId).Some?
      && r.value == ProjectWithTeam(SetFields(p, Merged(upd, p), now), TeamById(old(db.tables.teams), p.teamId).value)
  {
    var row := StudentProjectRow(db.tables, id, caller.id);
    if row.None? {
      return NotFound;
    }
    var p := row.value;
    ghost var t0 := db.tables;
    var failure := ApplyUpdate(db, id, p, upd, now);
    if failure.Some? {
      return StoreError(failure.value);
    }
    FindUpdated(t0.projects, id, Merged(upd, p), now);
    var updated := ProjectById(db.tables.projects, id);
    var team := TeamById(db.tables.teams, p.teamId);
    return Ok(ProjectWithTeam(updated.value, team.value));
  }

  /** `DELETE /api/student/projects/:id`: 404 unless the caller is a member, then one `DELETE FROM projects`. */
  method DeleteStudentProject(db: Database, caller: Caller, id: int) returns (r: Response<()>)
    requires Ready(db)
    modifies db
    ensures Ready(db)
    ensures r.Ok? || r.NotFound? || r.StoreError?
    ensures r.NotFound? <==> StudentProjectRow(old(db.tables), id, caller.id).None?
    ensures r.StoreError? <==> StudentProjectRow(old(db.tables), id, caller.id).Some? && DeleteBlocked(old(db.tables), db.config, id)
    ensures !r.Ok? ==> db.tables == old(db.tables)
    ensures r.Ok? ==> db.tables == ExecDeleteProject(old(db.tables), db.config, id).tables
  {
    var row := StudentProjectRow(db.tables, id, caller.id);
    if row.None? {
      return NotFound;
    }
    ghost var t0 := db.tables;
    var res := db.Run(Statement.DeleteProject(id));
    if res.Failed? {
      return StoreError(res.failure);
    }
    FilterMembershipAll(t0.projectSdgs, (x: ProjectSdg) => x.projectId != id);
    FilterMembershipAll(t0.projectMedia, (x: MediaRow) => x.projectId != id);
    FilterMembershipAll(t0.feedback, (x: Feedback) => x.projectId != id);
    return Ok(());
  }
}

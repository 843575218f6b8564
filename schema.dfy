/**
 * The SQLite store behind both servers: the rows of each table, the statements the routes issue,
 * and what SQLite does with each statement (constraint checks, AUTOINCREMENT ids, foreign-key
 * actions). A statement either succeeds and yields the new tables or fails and changes nothing.
 *
 * Neither server turns SQLite's foreign-key enforcement on, and SQLite leaves it off by default,
 * so `Config.foreignKeys` is a parameter: with it off no reference is checked and no
 * `ON DELETE CASCADE` fires.
 */
module Schema {
  import opened Wrappers
  import opened Media
  import opened Seqs

  /** `code/server` and `frontend/server` create slightly different tables. */
  datatype Variant = CodeServer | FrontendServer

  datatype Config = Config(variant: Variant, foreignKeys: bool)

  datatype User = User(id: int, username: string, email: string, passwordHash: string, role: string)
  datatype Team = Team(id: int, name: string, description: Option<string>)
  datatype Member = Member(teamId: int, userId: int, memberRole: string)
  datatype Sdg = Sdg(id: int, number: int)
  datatype Project = Project(
    id: int, title: string, description: string, thumbnailUrl: string,
    repositoryUrl: Option<string>, demoUrl: Option<string>, teamId: int,
    createdAt: int, updatedAt: int)
  datatype ProjectSdg = ProjectSdg(projectId: int, sdgId: int)
  datatype MediaRow = MediaRow(projectId: int, url: string, kind: MediaType)
  datatype Feedback = Feedback(
    id: int, projectId: int, userId: int, content: string, rating: Option<int>,
    isPrivate: bool, createdAt: int)

  /**
   * All tables, with the AUTOINCREMENT counters of the tables whose ids the routes use
   * (`sqlite_sequence`): a new row gets the counter plus one.
   */
  datatype Tables = Tables(
    users: seq<User>, teams: seq<Team>, teamMembers: seq<Member>, sdgs: seq<Sdg>,
    projects: seq<Project>, projectSdgs: seq<ProjectSdg>, projectMedia: seq<MediaRow>,
    feedback: seq<Feedback>,
    userSeq: int, teamSeq: int, projectSeq: int, feedbackSeq: int)

  /** The five scalar columns an UPDATE of a project writes. */
  datatype ProjectFields = ProjectFields(
    title: string, description: string, thumbnailUrl: string,
    repositoryUrl: Option<string>, demoUrl: Option<string>)

  /** A bound parameter the request left out is `undefined`, which binds as NULL: `None` here. */
  datatype Statement =
    | InsertUser(username: string, email: string, passwordHash: string, role: string)
    | DeleteUser(userId: int)
    | InsertTeam(name: string, description: Option<string>)
    | InsertMember(teamId: int, userId: int, memberRole: string)
    | InsertProject(title: Option<string>, description: Option<string>, thumbnailUrl: Option<string>,
                    repositoryUrl: Option<string>, demoUrl: Option<string>, team: Option<int>, now: int)
    | UpdateProject(id: int, fields: ProjectFields, now: int)
    | DeleteProject(id: int)
    | InsertTag(projectId: int, sdgId: int)
    | DeleteTags(projectId: int)
    | InsertMedia(projectId: int, url: string, kind: MediaType)
    | DeleteMedia(projectId: int)
    | InsertFeedback(projectId: int, userId: int, content: Option<string>, rating: Option<int>,
                     isPrivate: bool, now: int)

  datatype StoreFailure = UniqueViolation | NotNullViolation | CheckViolation | ForeignKeyViolation

  datatype ExecResult = Done(tables: Tables) | Failed(failure: StoreFailure)

  /** The values the `role` CHECK constraint of the users table admits. */
  function AllowedRoles(v: Variant): (r: seq<string>)
    ensures "viewer" in r && "student" in r && "faculty" in r
    ensures v == FrontendServer <==> "admin" in r
  {
    match v
    case CodeServer => ["viewer", "student", "faculty"]
    case FrontendServer => ["viewer", "student", "faculty", "admin", "management"]
  }

  predicate UserIn(us: seq<User>, id: int) { exists u :: u in us && u.id == id }
  predicate TeamIn(ts: seq<Team>, id: int) { exists m :: m in ts && m.id == id }
  predicate ProjectIn(ps: seq<Project>, id: int) { exists p :: p in ps && p.id == id }
  predicate SdgIn(ss: seq<Sdg>, id: int) { exists s :: s in ss && s.id == id }
  predicate MemberIn(ms: seq<Member>, teamId: int, userId: int) {
    exists m :: m in ms && m.teamId == teamId && m.userId == userId
  }

  predicate HasUser(t: Tables, id: int) { UserIn(t.users, id) }
  predicate HasTeam(t: Tables, id: int) { TeamIn(t.teams, id) }
  predicate HasProject(t: Tables, id: int) { ProjectIn(t.projects, id) }
  predicate HasSdg(t: Tables, id: int) { SdgIn(t.sdgs, id) }

  /** A `team_members` row links the user to the team. */
  predicate IsMember(t: Tables, teamId: int, userId: int) { MemberIn(t.teamMembers, teamId, userId) }

  /** `SELECT * FROM projects WHERE id = ?`: the first matching row. */
  function ProjectById(ps: seq<Project>, id: int): (r: Option<Project>)
    ensures r.None? <==> forall p :: p in ps ==> p.id != id
    ensures r.Some? ==> r.value in ps && r.value.id == id
  {
    if ps == [] then None
    else if ps[0].id == id then Some(ps[0])
    else ProjectById(ps[1..], id)
  }

  /** `SELECT * FROM teams WHERE id = ?` */
  function TeamById(ts: seq<Team>, id: int): (r: Option<Team>)
    ensures r.None? <==> forall m :: m in ts ==> m.id != id
    ensures r.Some? ==> r.value in ts && r.value.id == id
  {
    if ts == [] then None
    else if ts[0].id == id then Some(ts[0])
    else TeamById(ts[1..], id)
  }

  /** `SELECT role FROM users WHERE id = ?` */
  function UserById(us: seq<User>, id: int): (r: Option<User>)
    ensures r.None? <==> forall u :: u in us ==> u.id != id
    ensures r.Some? ==> r.value in us && r.value.id == id
  {
    if us == [] then None
    else if us[0].id == id then Some(us[0])
    else UserById(us[1..], id)
  }

  function SetFields(p: Project, f: ProjectFields, now: int): Project {
    p.(title := f.title, description := f.description, thumbnailUrl := f.thumbnailUrl,
       repositoryUrl := f.repositoryUrl, demoUrl := f.demoUrl, updatedAt := now)
  }

  /** `UPDATE projects SET … WHERE id = ?` */
  function UpdateRows(ps: seq<Project>, id: int, f: ProjectFields, now: int): (r: seq<Project>)
    ensures |r| == |ps|
    ensures forall i :: 0 <= i < |ps| && ps[i].id != id ==> r[i] == ps[i]
    ensures forall i :: 0 <= i < |ps| && ps[i].id == id ==> r[i] == SetFields(ps[i], f, now)
  {
    seq(|ps|, i requires 0 <= i < |ps| => if ps[i].id == id then SetFields(ps[i], f, now) else ps[i])
  }

  // ---------------------------------------------------------------------------------------------
  // Statement semantics

  function ExecInsertUser(t: Tables, cfg: Config, username: string, email: string, hash: string, role: string): ExecResult {
    if role !in AllowedRoles(cfg.variant) then Failed(CheckViolation)
    else if exists u :: u in t.users && (u.username == username || u.email == email) then Failed(UniqueViolation)
    else Done(t.(users := t.users + [User(t.userSeq + 1, username, email, hash, role)], userSeq := t.userSeq + 1))
  }

  /** Feedback has `ON DELETE CASCADE` on users only in the frontend schema; in the other it blocks. */
  function ExecDeleteUser(t: Tables, cfg: Config, id: int): ExecResult {
    var users := Filter(t.users, (u: User) => u.id != id);
    if !cfg.foreignKeys then Done(t.(users := users))
    else if cfg.variant == CodeServer && HasUser(t, id) && exists f :: f in t.feedback && f.userId == id then
      Failed(ForeignKeyViolation)
    else
      Done(t.(users := users,
              teamMembers := Filter(t.teamMembers, (m: Member) => m.userId != id),
              feedback := Filter(t.feedback, (f: Feedback) => f.userId != id)))
  }

  function ExecInsertMember(t: Tables, cfg: Config, teamId: int, userId: int, role: string): ExecResult {
    if IsMember(t, teamId, userId) then Failed(UniqueViolation)
    else if cfg.foreignKeys && !(HasTeam(t, teamId) && HasUser(t, userId)) then Failed(ForeignKeyViolation)
    else Done(t.(teamMembers := t.teamMembers + [Member(teamId, userId, role)]))
  }

  function ExecInsertProject(t: Tables, cfg: Config, title: Option<string>, description: Option<string>,
                             thumbnailUrl: Option<string>, repositoryUrl: Option<string>,
                             demoUrl: Option<string>, team: Option<int>, now: int): ExecResult
  {
    if title.None? || description.None? || thumbnailUrl.None? || team.None? then Failed(NotNullViolation)
    else if cfg.foreignKeys && !HasTeam(t, team.value) then Failed(ForeignKeyViolation)
    else
      var p := Project(t.projectSeq + 1, title.value, description.value, thumbnailUrl.value,
                       repositoryUrl, demoUrl, team.value, now, now);
      Done(t.(projects := t.projects + [p], projectSeq := t.projectSeq + 1))
  }

  /**
   * With foreign keys on, the SDG and media rows of the project cascade; its feedback cascades in
   * the frontend schema and blocks the delete in the other (no `ON DELETE` action there).
   */
  predicate DeleteBlocked(t: Tables, cfg: Config, id: int) {
    cfg.foreignKeys && cfg.variant == CodeServer && HasProject(t, id) && exists f :: f in t.feedback && f.projectId == id
  }

  function ExecDeleteProject(t: Tables, cfg: Config, id: int): ExecResult {
    var projects := Filter(t.projects, (p: Project) => p.id != id);
    if !cfg.foreignKeys then Done(t.(projects := projects))
    else if DeleteBlocked(t, cfg, id) then
      Failed(ForeignKeyViolation)
    else
      Done(t.(projects := projects,
              projectSdgs := Filter(t.projectSdgs, (r: ProjectSdg) => r.projectId != id),
              projectMedia := Filter(t.projectMedia, (r: MediaRow) => r.projectId != id),
              feedback := Filter(t.feedback, (f: Feedback) => f.projectId != id)))
  }

  function ExecInsertTag(t: Tables, cfg: Config, projectId: int, sdgId: int): ExecResult {
    if ProjectSdg(projectId, sdgId) in t.projectSdgs then Failed(UniqueViolation)
    else if cfg.foreignKeys && !(HasProject(t, projectId) && HasSdg(t, sdgId)) then Failed(ForeignKeyViolation)
    else Done(t.(projectSdgs := t.projectSdgs + [ProjectSdg(projectId, sdgId)]))
  }

  function ExecInsertMedia(t: Tables, cfg: Config, projectId: int, url: string, kind: MediaType): ExecResult {
    if cfg.foreignKeys && !HasProject(t, projectId) then Failed(ForeignKeyViolation)
    else Done(t.(projectMedia := t.projectMedia + [MediaRow(projectId, url, kind)]))
  }

  /** The rating CHECK (code schema; NULL passes) or NOT NULL (frontend schema). */
  predicate RatingAdmitted(v: Variant, rating: Option<int>) {
    match v
    case CodeServer => rating.None? || 1 <= rating.value <= 5
    case FrontendServer => rating.Some?
  }

  function ExecInsertFeedback(t: Tables, cfg: Config, projectId: int, userId: int, content: Option<string>,
                              rating: Option<int>, isPrivate: bool, now: int): ExecResult
  {
    if content.None? || (cfg.variant == FrontendServer && rating.None?) then Failed(NotNullViolation)
    else if !RatingAdmitted(cfg.variant, rating) then Failed(CheckViolation)
    else if cfg.foreignKeys && !(HasUser(t, userId) && HasProject(t, projectId)) then Failed(ForeignKeyViolation)
    else
      var f := Feedback(t.feedbackSeq + 1, projectId, userId, content.value, rating, isPrivate, now);
      Done(t.(feedback := t.feedback + [f], feedbackSeq := t.feedbackSeq + 1))
  }

  /** What SQLite does with one statement. */
  function Exec(t: Tables, cfg: Config, stmt: Statement): ExecResult {
    match stmt
    case InsertUser(username, email, hash, role) => ExecInsertUser(t, cfg, username, email, hash, role)
    case DeleteUser(id) => ExecDeleteUser(t, cfg, id)
    case InsertTeam(name, description) =>
      Done(t.(teams := t.teams + [Team(t.teamSeq + 1, name, description)], teamSeq := t.teamSeq + 1))
    case InsertMember(teamId, userId, role) => ExecInsertMember(t, cfg, teamId, userId, role)
    case InsertProject(title, description, thumb, repo, demo, team, now) =>
      ExecInsertProject(t, cfg, title, description, thumb, repo, demo, team, now)
    case UpdateProject(id, fields, now) => Done(t.(projects := UpdateRows(t.projects, id, fields, now)))
    case DeleteProject(id) => ExecDeleteProject(t, cfg, id)
    case InsertTag(projectId, sdgId) => ExecInsertTag(t, cfg, projectId, sdgId)
    case DeleteTags(projectId) => Done(t.(projectSdgs := Filter(t.projectSdgs, (r: ProjectSdg) => r.projectId != projectId)))
    case InsertMedia(projectId, url, kind) => ExecInsertMedia(t, cfg, projectId, url, kind)
    case DeleteMedia(projectId) => Done(t.(projectMedia := Filter(t.projectMedia, (r: MediaRow) => r.projectId != projectId)))
    case InsertFeedback(projectId, userId, content, rating, isPrivate, now) =>
      ExecInsertFeedback(t, cfg, projectId, userId, content, rating, isPrivate, now)
  }

  // ---------------------------------------------------------------------------------------------
  // Integrity

  ghost predicate UserIdsWithin(us: seq<User>, bound: int) { forall u :: u in us ==> 1 <= u.id <= bound }
  ghost predicate TeamIdsWithin(ts: seq<Team>, bound: int) { forall m :: m in ts ==> 1 <= m.id <= bound }
  ghost predicate ProjectIdsWithin(ps: seq<Project>, bound: int) { forall p :: p in ps ==> 1 <= p.id <= bound }
  ghost predicate FeedbackIdsWithin(fs: seq<Feedback>, bound: int) { forall f :: f in fs ==> 1 <= f.id <= bound }

  /** Every id lies in 1..counter, so the next id is fresh. */
  ghost predicate IdsInRange(t: Tables) {
    0 <= t.userSeq && 0 <= t.teamSeq && 0 <= t.projectSeq && 0 <= t.feedbackSeq
    && UserIdsWithin(t.users, t.userSeq) && TeamIdsWithin(t.teams, t.teamSeq)
    && ProjectIdsWithin(t.projects, t.projectSeq) && FeedbackIdsWithin(t.feedback, t.feedbackSeq)
  }

  /** PRIMARY KEY and UNIQUE constraints. */
  ghost predicate KeysUnique(t: Tables) {
    DistinctBy(t.users, (u: User) => u.id)
    && DistinctBy(t.users, (u: User) => u.username)
    && DistinctBy(t.users, (u: User) => u.email)
    && DistinctBy(t.teams, (m: Team) => m.id)
    && DistinctBy(t.teamMembers, (m: Member) => (m.teamId, m.userId))
    && DistinctBy(t.sdgs, (s: Sdg) => s.id)
    && DistinctBy(t.projects, (p: Project) => p.id)
    && DistinctBy(t.projectSdgs, (r: ProjectSdg) => r)
    && DistinctBy(t.feedback, (f: Feedback) => f.id)
  }

  ghost predicate RolesAllowed(us: seq<User>, v: Variant) { forall u :: u in us ==> u.role in AllowedRoles(v) }
  ghost predicate RatingsAdmitted(fs: seq<Feedback>, v: Variant) { forall f :: f in fs ==> RatingAdmitted(v, f.rating) }

  /** CHECK and NOT NULL constraints not already enforced by the row types. */
  ghost predicate ChecksHold(t: Tables, v: Variant) {
    RolesAllowed(t.users, v) && RatingsAdmitted(t.feedback, v)
  }

  ghost predicate MembersRefer(ms: seq<Member>, ts: seq<Team>, us: seq<User>) {
    forall m :: m in ms ==> TeamIn(ts, m.teamId) && UserIn(us, m.userId)
  }
  ghost predicate ProjectsRefer(ps: seq<Project>, ts: seq<Team>) {
    forall p :: p in ps ==> TeamIn(ts, p.teamId)
  }
  ghost predicate TagsRefer(rs: seq<ProjectSdg>, ps: seq<Project>, ss: seq<Sdg>) {
    forall r :: r in rs ==> ProjectIn(ps, r.projectId) && SdgIn(ss, r.sdgId)
  }
  ghost predicate MediaRefers(rs: seq<MediaRow>, ps: seq<Project>) {
    forall r :: r in rs ==> ProjectIn(ps, r.projectId)
  }
  ghost predicate FeedbackRefers(fs: seq<Feedback>, us: seq<User>, ps: seq<Project>) {
    forall f :: f in fs ==> UserIn(us, f.userId) && ProjectIn(ps, f.projectId)
  }

  /** Every reference names an existing row. */
  ghost predicate ReferencesHold(t: Tables) {
    MembersRefer(t.teamMembers, t.teams, t.users)
    && ProjectsRefer(t.projects, t.teams)
    && TagsRefer(t.projectSdgs, t.projects, t.sdgs)
    && MediaRefers(t.projectMedia, t.projects)
    && FeedbackRefers(t.feedback, t.users, t.projects)
  }

  /** What SQLite guarantees about every state of the store. */
  ghost predicate Consistent(t: Tables, cfg: Config) {
    IdsInRange(t) && KeysUnique(t) && ChecksHold(t, cfg.variant)
    && (cfg.foreignKeys ==> ReferencesHold(t))
  }

  // ---------------------------------------------------------------------------------------------
  // Every statement keeps the store consistent

  lemma InsertUserPreserves(t: Tables, cfg: Config, username: string, email: string, hash: string, role: string)
    requires Consistent(t, cfg)
    requires ExecInsertUser(t, cfg, username, email, hash, role).Done?
    ensures Consistent(ExecInsertUser(t, cfg, username, email, hash, role).tables, cfg)
  {
    var u := User(t.userSeq + 1, username, email, hash, role);
    var t' := ExecInsertUser(t, cfg, username, email, hash, role).tables;
    assert t'.users == t.users + [u];
    DistinctByAppend(t.users, u, (u: User) => u.id);
    DistinctByAppend(t.users, u, (u: User) => u.username);
    DistinctByAppend(t.users, u, (u: User) => u.email);
    if cfg.foreignKeys {
      assert forall id :: HasUser(t, id) ==> HasUser(t', id);
    }
  }

  lemma DeleteUserKeepsReferences(t: Tables, cfg: Config, id: int)
    requires cfg.foreignKeys && ReferencesHold(t)
    requires ExecDeleteUser(t, cfg, id).Done?
    ensures ReferencesHold(ExecDeleteUser(t, cfg, id).tables)
  {
    var keep := (u: User) => u.id != id;
    var keepM := (m: Member) => m.userId != id;
    var keepF := (f: Feedback) => f.userId != id;
    var t' := ExecDeleteUser(t, cfg, id).tables;
    forall x | x != id && HasUser(t, x) ensures HasUser(t', x) {
      var u :| u in t.users && u.id == x;
      FilterMembership(t.users, keep, u);
    }
    forall m | m in t'.teamMembers ensures HasTeam(t', m.teamId) && HasUser(t', m.userId) {
      FilterMembership(t.teamMembers, keepM, m);
    }
    forall f | f in t'.feedback ensures HasUser(t', f.userId) && HasProject(t', f.projectId) {
      FilterMembership(t.feedback, keepF, f);
    }
  }

  lemma DeleteUserPreserves(t: Tables, cfg: Config, id: int)
    requires Consistent(t, cfg)
    requires ExecDeleteUser(t, cfg, id).Done?
    ensures Consistent(ExecDeleteUser(t, cfg, id).tables, cfg)
  {
    var keep := (u: User) => u.id != id;
    var t' := ExecDeleteUser(t, cfg, id).tables;
    assert t'.users == Filter(t.users, keep);
    DistinctByFilter(t.users, keep, (u: User) => u.id);
    DistinctByFilter(t.users, keep, (u: User) => u.username);
    DistinctByFilter(t.users, keep, (u: User) => u.email);
    if cfg.foreignKeys {
      var keepM := (m: Member) => m.userId != id;
      var keepF := (f: Feedback) => f.userId != id;
      DistinctByFilter(t.teamMembers, keepM, (m: Member) => (m.teamId, m.userId));
      DistinctByFilter(t.feedback, keepF, (f: Feedback) => f.id);
      DeleteUserKeepsReferences(t, cfg, id);
    }
  }

  lemma InsertTeamPreserves(t: Tables, cfg: Config, name: string, description: Option<string>)
    requires Consistent(t, cfg)
    ensures Consistent(Exec(t, cfg, InsertTeam(name, description)).tables, cfg)
  {
    var m := Team(t.teamSeq + 1, name, description);
    var t' := Exec(t, cfg, InsertTeam(name, description)).tables;
    DistinctByAppend(t.teams, m, (m: Team) => m.id);
    if cfg.foreignKeys {
      assert forall x :: HasTeam(t, x) ==> HasTeam(t', x);
    }
  }

  lemma InsertMemberPreserves(t: Tables, cfg: Config, teamId: int, userId: int, role: string)
    requires Consistent(t, cfg)
    requires ExecInsertMember(t, cfg, teamId, userId, role).Done?
    ensures Consistent(ExecInsertMember(t, cfg, teamId, userId, role).tables, cfg)
  {
    var m := Member(teamId, userId, role);
    DistinctByAppend(t.teamMembers, m, (m: Member) => (m.teamId, m.userId));
  }

  lemma InsertProjectPreserves(t: Tables, cfg: Config, title: Option<string>, description: Option<string>,
                               thumb: Option<string>, repo: Option<string>, demo: Option<string>,
                               team: Option<int>, now: int)
    requires Consistent(t, cfg)
    requires ExecInsertProject(t, cfg, title, description, thumb, repo, demo, team, now).Done?
    ensures Consistent(ExecInsertProject(t, cfg, title, description, thumb, repo, demo, team, now).tables, cfg)
  {
    var t' := ExecInsertProject(t, cfg, title, description, thumb, repo, demo, team, now).tables;
    var p := t'.projects[|t.projects|];
    assert t'.projects == t.projects + [p];
    DistinctByAppend(t.projects, p, (p: Project) => p.id);
    if cfg.foreignKeys {
      assert forall x :: HasProject(t, x) ==> HasProject(t', x);
    }
  }

  /** `UPDATE projects` rewrites rows in place: the same ids, the same teams, the same places. */
  lemma UpdateRowsKeepsIds(ps: seq<Project>, id: int, f: ProjectFields, now: int)
    ensures forall x :: ProjectIn(UpdateRows(ps, id, f, now), x) == ProjectIn(ps, x)
    ensures forall b :: ProjectIdsWithin(ps, b) ==> ProjectIdsWithin(UpdateRows(ps, id, f, now), b)
    ensures forall ts :: ProjectsRefer(ps, ts) ==> ProjectsRefer(UpdateRows(ps, id, f, now), ts)
    ensures DistinctBy(ps, (p: Project) => p.id) ==> DistinctBy(UpdateRows(ps, id, f, now), (p: Project) => p.id)
  {
    var r := UpdateRows(ps, id, f, now);
    forall x ensures ProjectIn(r, x) == ProjectIn(ps, x) {
      if ProjectIn(r, x) {
        var q :| q in r && q.id == x;
        var i :| 0 <= i < |r| && r[i] == q;
        assert ps[i] in ps;
      }
      if ProjectIn(ps, x) {
        var p :| p in ps && p.id == x;
        var i :| 0 <= i < |ps| && ps[i] == p;
        assert r[i] in r;
      }
    }
    forall b | ProjectIdsWithin(ps, b) ensures ProjectIdsWithin(r, b) {
      forall q | q in r ensures 1 <= q.id <= b {
        var i :| 0 <= i < |r| && r[i] == q;
        assert ps[i] in ps;
      }
    }
    forall ts | ProjectsRefer(ps, ts) ensures ProjectsRefer(r, ts) {
      forall q | q in r ensures TeamIn(ts, q.teamId) {
        var i :| 0 <= i < |r| && r[i] == q;
        assert ps[i] in ps;
      }
    }
  }

  lemma UpdateProjectPreserves(t: Tables, cfg: Config, id: int, f: ProjectFields, now: int)
    requires Consistent(t, cfg)
    ensures Consistent(Exec(t, cfg, UpdateProject(id, f, now)).tables, cfg)
  {
    var t' := t.(projects := UpdateRows(t.projects, id, f, now));
    assert Exec(t, cfg, UpdateProject(id, f, now)).tables == t';
    UpdateRowsKeepsIds(t.projects, id, f, now);
    if cfg.foreignKeys {
      assert TagsRefer(t'.projectSdgs, t'.projects, t'.sdgs);
      assert MediaRefers(t'.projectMedia, t'.projects);
      assert FeedbackRefers(t'.feedback, t'.users, t'.projects);
    }
  }

  lemma DeleteProjectKeepsReferences(t: Tables, cfg: Config, id: int)
    requires cfg.foreignKeys && ReferencesHold(t)
    requires ExecDeleteProject(t, cfg, id).Done?
    ensures ReferencesHold(ExecDeleteProject(t, cfg, id).tables)
  {
    var keep := (p: Project) => p.id != id;
    var keepS := (r: ProjectSdg) => r.projectId != id;
    var keepM := (r: MediaRow) => r.projectId != id;
    var keepF := (f: Feedback) => f.projectId != id;
    var t' := ExecDeleteProject(t, cfg, id).tables;
    forall x | x != id && HasProject(t, x) ensures HasProject(t', x) {
      var p :| p in t.projects && p.id == x;
      FilterMembership(t.projects, keep, p);
    }
    forall p | p in t'.projects ensures HasTeam(t', p.teamId) {
      FilterMembership(t.projects, keep, p);
    }
    forall r | r in t'.projectSdgs ensures HasProject(t', r.projectId) && HasSdg(t', r.sdgId) {
      FilterMembership(t.projectSdgs, keepS, r);
    }
    forall r | r in t'.projectMedia ensures HasProject(t', r.projectId) {
      FilterMembership(t.projectMedia, keepM, r);
    }
    forall f | f in t'.feedback ensures HasUser(t', f.userId) && HasProject(t', f.projectId) {
      FilterMembership(t.feedback, keepF, f);
    }
  }

  lemma DeleteProjectPreserves(t: Tables, cfg: Config, id: int)
    requires Consistent(t, cfg)
    requires ExecDeleteProject(t, cfg, id).Done?
    ensures Consistent(ExecDeleteProject(t, cfg, id).tables, cfg)
  {
    var keep := (p: Project) => p.id != id;
    DistinctByFilter(t.projects, keep, (p: Project) => p.id);
    if cfg.foreignKeys {
      DistinctByFilter(t.projectSdgs, (r: ProjectSdg) => r.projectId != id, (r: ProjectSdg) => r);
      DistinctByFilter(t.feedback, (f: Feedback) => f.projectId != id, (f: Feedback) => f.id);
      DeleteProjectKeepsReferences(t, cfg, id);
    }
  }

  lemma InsertTagPreserves(t: Tables, cfg: Config, projectId: int, sdgId: int)
    requires Consistent(t, cfg)
    requires ExecInsertTag(t, cfg, projectId, sdgId).Done?
    ensures Consistent(ExecInsertTag(t, cfg, projectId, sdgId).tables, cfg)
  {
    DistinctByAppend(t.projectSdgs, ProjectSdg(projectId, sdgId), (r: ProjectSdg) => r);
  }

  lemma DeleteTagsPreserves(t: Tables, cfg: Config, projectId: int)
    requires Consistent(t, cfg)
    ensures Consistent(Exec(t, cfg, DeleteTags(projectId)).tables, cfg)
  {
    var keep := (r: ProjectSdg) => r.projectId != projectId;
    DistinctByFilter(t.projectSdgs, keep, (r: ProjectSdg) => r);
  }

  lemma InsertFeedbackPreserves(t: Tables, cfg: Config, projectId: int, userId: int, content: Option<string>,
                                rating: Option<int>, isPrivate: bool, now: int)
    requires Consistent(t, cfg)
    requires ExecInsertFeedback(t, cfg, projectId, userId, content, rating, isPrivate, now).Done?
    ensures Consistent(ExecInsertFeedback(t, cfg, projectId, userId, content, rating, isPrivate, now).tables, cfg)
  {
    var t' := ExecInsertFeedback(t, cfg, projectId, userId, content, rating, isPrivate, now).tables;
    var f := t'.feedback[|t.feedback|];
    assert t'.feedback == t.feedback + [f];
    DistinctByAppend(t.feedback, f, (f: Feedback) => f.id);
  }

  /** A statement that succeeds leaves the store consistent: SQLite's constraints are invariants. */
  lemma ExecPreservesConsistent(t: Tables, cfg: Config, stmt: Statement)
    requires Consistent(t, cfg)
    ensures Exec(t, cfg, stmt).Done? ==> Consistent(Exec(t, cfg, stmt).tables, cfg)
  {
    if stmt.InsertUser? || stmt.DeleteUser? || stmt.InsertTeam? || stmt.InsertMember? || stmt.InsertFeedback? {
      PeopleStatementPreserves(t, cfg, stmt);
    } else {
      ProjectStatementPreserves(t, cfg, stmt);
    }
  }

  /** The statements on users, teams, members and feedback. */
  lemma PeopleStatementPreserves(t: Tables, cfg: Config, stmt: Statement)
    requires Consistent(t, cfg)
    requires stmt.InsertUser? || stmt.DeleteUser? || stmt.InsertTeam? || stmt.InsertMember? || stmt.InsertFeedback?
    ensures Exec(t, cfg, stmt).Done? ==> Consistent(Exec(t, cfg, stmt).tables, cfg)
  {
    match stmt
    case InsertUser(username, email, hash, role) =>
      if Exec(t, cfg, stmt).Done? { InsertUserPreserves(t, cfg, username, email, hash, role); }
    case DeleteUser(id) =>
      if Exec(t, cfg, stmt).Done? { DeleteUserPreserves(t, cfg, id); }
    case InsertTeam(name, description) => InsertTeamPreserves(t, cfg, name, description);
    case InsertMember(teamId, userId, role) =>
      if Exec(t, cfg, stmt).Done? { InsertMemberPreserves(t, cfg, teamId, userId, role); }
    case InsertFeedback(projectId, userId, content, rating, isPrivate, now) =>
      if Exec(t, cfg, stmt).Done? { InsertFeedbackPreserves(t, cfg, projectId, userId, content, rating, isPrivate, now); }
  }

  /** The statements on projects and their tag and media rows. */
  lemma ProjectStatementPreserves(t: Tables, cfg: Config, stmt: Statement)
    requires Consistent(t, cfg)
    requires !(stmt.InsertUser? || stmt.DeleteUser? || stmt.InsertTeam? || stmt.InsertMember? || stmt.InsertFeedback?)
    ensures Exec(t, cfg, stmt).Done? ==> Consistent(Exec(t, cfg, stmt).tables, cfg)
  {
    match stmt
    case InsertProject(title, description, thumb, repo, demo, team, now) =>
      if Exec(t, cfg, stmt).Done? { InsertProjectPreserves(t, cfg, title, description, thumb, repo, demo, team, now); }
    case UpdateProject(id, fields, now) => UpdateProjectPreserves(t, cfg, id, fields, now);
    case DeleteProject(id) =>
      if Exec(t, cfg, stmt).Done? { DeleteProjectPreserves(t, cfg, id); }
    case InsertTag(projectId, sdgId) =>
      if Exec(t, cfg, stmt).Done? { InsertTagPreserves(t, cfg, projectId, sdgId); }
    case DeleteTags(projectId) => DeleteTagsPreserves(t, cfg, projectId);
    case InsertMedia(projectId, url, kind) =>
    case DeleteMedia(projectId) =>
      if cfg.foreignKeys {
        var t' := Exec(t, cfg, stmt).tables;
        forall r | r in t'.projectMedia ensures HasProject(t', r.projectId) {
          FilterMembership(t.projectMedia, (r: MediaRow) => r.projectId != projectId, r);
        }
      }
  }
}

/**
 * The project routes: `POST /api/projects` and the read of `GET /api/projects/:id` on both servers,
 * `PUT` and `DELETE /api/projects/:id` on the code server only. None of them opens a transaction,
 * so a statement that throws part-way leaves the rows written before it in place.
 */
module ProjectRoutes {
  import opened Wrappers
  import opened Seqs
  import opened Schema
  import opened Store
  import opened Associations
  import opened Authorization
  import opened FeedbackRules
  import opened Routing

  /** The body of `POST /api/projects`; an absent field is `None`. */
  datatype NewProject = NewProject(
    title: Option<string>, description: Option<string>, thumbnailUrl: Option<string>,
    repositoryUrl: Option<string>, demoUrl: Option<string>, teamId: Option<int>,
    sdgs: Option<seq<int>>, mediaUrls: Option<seq<string>>)

  /** The body of a `PUT`: any subset of the fields. */
  datatype ProjectUpdate = ProjectUpdate(
    title: Option<string>, description: Option<string>, thumbnailUrl: Option<string>,
    repositoryUrl: Option<string>, demoUrl: Option<string>,
    sdgs: Option<seq<int>>, mediaUrls: Option<seq<string>>)

  /** What `PUT /api/projects/:id` answers: the updated row, its average rating and team name. */
  datatype ProjectView = ProjectView(project: Project, averageRating: Option<real>, teamName: string)

  /** The `projects` row the insert accepts: NOT NULL columns present and, with references on, the team exists. */
  predicate RowAccepted(t: Tables, cfg: Config, req: NewProject) {
    req.title.Some? && req.description.Some? && req.thumbnailUrl.Some? && req.teamId.Some?
    && (cfg.foreignKeys ==> HasTeam(t, req.teamId.value))
  }

  /** The row `INSERT INTO projects` adds: the next id, both timestamps `now`. */
  function NewRow(t: Tables, req: NewProject, now: int): (p: Project)
    requires req.title.Some? && req.description.Some? && req.thumbnailUrl.Some? && req.teamId.Some?
    ensures p.id == t.projectSeq + 1 && p.teamId == req.teamId.value
    ensures p.title == req.title.value && p.description == req.description.value && p.thumbnailUrl == req.thumbnailUrl.value
    ensures p.repositoryUrl == req.repositoryUrl && p.demoUrl == req.demoUrl
    ensures p.createdAt == now && p.updatedAt == now
  {
    Project(t.projectSeq + 1, req.title.value, req.description.value, req.thumbnailUrl.value,
            req.repositoryUrl, req.demoUrl, req.teamId.value, now, now)
  }

  /**
   * `updates.f || project.f` for each of the five scalar columns. The ensures are that definition,
   * field by field; what an update promises is in `EmptyUpdateKeepsFields` and `UpdateWritten`.
   */
  function Merged(upd: ProjectUpdate, p: Project): (f: ProjectFields)
    ensures f.title == (if Truthy(upd.title) then upd.title.value else p.title)
    ensures f.description == (if Truthy(upd.description) then upd.description.value else p.description)
    ensures f.thumbnailUrl == (if Truthy(upd.thumbnailUrl) then upd.thumbnailUrl.value else p.thumbnailUrl)
    ensures f.repositoryUrl == (if Truthy(upd.repositoryUrl) then upd.repositoryUrl else p.repositoryUrl)
    ensures f.demoUrl == (if Truthy(upd.demoUrl) then upd.demoUrl else p.demoUrl)
  {
    ProjectFields(OrElse(upd.title, p.title), OrElse(upd.description, p.description),
                  OrElse(upd.thumbnailUrl, p.thumbnailUrl),
                  OrElseOpt(upd.repositoryUrl, p.repositoryUrl), OrElseOpt(upd.demoUrl, p.demoUrl))
  }

  /** A body without any field leaves every column as stored (only `updatedAt` moves). */
  lemma EmptyUpdateKeepsFields(p: Project, now: int)
    ensures SetFields(p, Merged(ProjectUpdate(None, None, None, None, None, None, None), p), now) == p.(updatedAt := now)
  {
  }

  /**
   * What the writes of an update leave behind, `complete` or cut short by a failing SDG insert:
   * the project row merged, the association lists replaced when supplied, nothing else touched.
   */
  ghost predicate UpdateWritten(t0: Tables, cfg: Config, t: Tables, id: int, f: ProjectFields, upd: ProjectUpdate, now: int, complete: bool) {
    t.projects == UpdateRows(t0.projects, id, f, now)
    && t == t0.(projects := t.projects, projectSdgs := t.projectSdgs, projectMedia := t.projectMedia)
    && ListsWritten(t0, cfg, t.projectSdgs, t.projectMedia, id, upd, complete)
  }

  /**
   * The tag and media rows after the two list loops of an update: each supplied list replaces the
   * project's rows; an incomplete run stopped inside the tag loop, at the first rejected id,
   * before the media loop.
   */
  ghost predicate ListsWritten(t0: Tables, cfg: Config, tags: seq<ProjectSdg>, media: seq<MediaRow>,
                               id: int, upd: ProjectUpdate, complete: bool) {
    if complete then
      (upd.sdgs.None? ==> tags == t0.projectSdgs)
      && (upd.sdgs.Some? ==> tags == Filter(t0.projectSdgs, (r: ProjectSdg) => r.projectId != id) + TagRows(id, upd.sdgs.value))
      && (upd.mediaUrls.None? ==> media == t0.projectMedia)
      && (upd.mediaUrls.Some? ==> media == Filter(t0.projectMedia, (r: MediaRow) => r.projectId != id) + MediaRows(id, upd.mediaUrls.value))
    else
      upd.sdgs.Some? && media == t0.projectMedia
      && (exists k :: FirstRejected(t0, cfg, upd.sdgs.value, k)
            && tags == Filter(t0.projectSdgs, (r: ProjectSdg) => r.projectId != id) + TagRows(id, upd.sdgs.value[..k]))
  }

  /** Whether the lists were written depends only on the SDG catalogue and the old tag and media rows. */
  lemma ListsWrittenFrame(t0: Tables, t1: Tables, cfg: Config, tags: seq<ProjectSdg>, media: seq<MediaRow>,
                          id: int, upd: ProjectUpdate, complete: bool)
    requires t1.sdgs == t0.sdgs && t1.projectSdgs == t0.projectSdgs && t1.projectMedia == t0.projectMedia
    requires ListsWritten(t1, cfg, tags, media, id, upd, complete)
    ensures ListsWritten(t0, cfg, tags, media, id, upd, complete)
  {
    if !complete {
      var k :| FirstRejected(t1, cfg, upd.sdgs.value, k)
               && tags == Filter(t1.projectSdgs, (r: ProjectSdg) => r.projectId != id) + TagRows(id, upd.sdgs.value[..k]);
      assert FirstRejected(t0, cfg, upd.sdgs.value, k);
    }
  }

  /** After a complete update the project's tags and media are exactly the supplied lists; other projects keep theirs. */
  lemma UpdateReplacesAssociations(t0: Tables, cfg: Config, t: Tables, id: int, f: ProjectFields, upd: ProjectUpdate, now: int)
    requires UpdateWritten(t0, cfg, t, id, f, upd, now, true)
    ensures upd.sdgs.Some? ==> TagsOf(t.projectSdgs, id) == TagRows(id, upd.sdgs.value)
    ensures upd.sdgs.None? ==> TagsOf(t.projectSdgs, id) == TagsOf(t0.projectSdgs, id)
    ensures upd.mediaUrls.Some? ==> MediaOf(t.projectMedia, id) == MediaRows(id, upd.mediaUrls.value)
    ensures upd.mediaUrls.None? ==> MediaOf(t.projectMedia, id) == MediaOf(t0.projectMedia, id)
    ensures forall q :: q != id ==> TagsOf(t.projectSdgs, q) == TagsOf(t0.projectSdgs, q)
    ensures forall q :: q != id ==> MediaOf(t.projectMedia, q) == MediaOf(t0.projectMedia, q)
    ensures forall i :: 0 <= i < |t0.projects| && t0.projects[i].id != id ==> t.projects[i] == t0.projects[i]
  {
    if upd.sdgs.Some? {
      ReplaceTags(t0.projectSdgs, id, upd.sdgs.value);
    }
    if upd.mediaUrls.Some? {
      ReplaceMedia(t0.projectMedia, id, upd.mediaUrls.value);
    }
  }

  /**
   * The SDG and media loops for a project created just before (`if (list && list.length > 0)`
   * around each loop). `written` tag rows went in; media only follows a complete tag loop.
   */
  method AddAssociations(db: Database, projectId: int, sdgIds: seq<int>, urls: seq<string>)
    returns (failure: Option<StoreFailure>, ghost written: nat)
    requires db.Valid() && ReferencesBounded(db.tables)
    requires projectId == db.tables.projectSeq && HasProject(db.tables, projectId)
    requires forall r :: r in db.tables.projectSdgs ==> r.projectId != projectId
    modifies db
    ensures db.Valid() && ReferencesBounded(db.tables) && db.savepoint == old(db.savepoint)
    ensures db.tables == old(db.tables).(projectSdgs := db.tables.projectSdgs, projectMedia := db.tables.projectMedia)
    ensures failure.None? <==> SdgListAccepted(old(db.tables), db.config, sdgIds)
    ensures written <= |sdgIds| && (failure.None? <==> written == |sdgIds|)
    ensures failure.Some? ==> FirstRejected(old(db.tables), db.config, sdgIds, written)
    ensures db.tables.projectSdgs == old(db.tables.projectSdgs) + TagRows(projectId, sdgIds[..written])
    ensures db.tables.projectMedia == if failure.None? then old(db.tables.projectMedia) + MediaRows(projectId, urls) else old(db.tables.projectMedia)
  {
    FreshProjectTags(db.tables, db.config, projectId, sdgIds);
    failure, written := None, 0;
    if |sdgIds| > 0 {
      var n;
      n, failure := InsertTags(db, projectId, sdgIds);
      written := n;
      TagRowsBelong(projectId, sdgIds[..n]);
      if failure.Some? {
        FreshProjectTags(old(db.tables), db.config, projectId, sdgIds[..n]);
        FreshProjectTags(old(db.tables), db.config, projectId, sdgIds[..n + 1]);
        return;
      }
    }
    assert sdgIds[..written] == sdgIds;
    if |urls| > 0 {
      var n, fail := InsertMediaRows(db, projectId, urls);
      MediaRowsBelong(projectId, urls);
      assert urls[..n] == urls;
    }
  }

  /**
   * `POST /api/projects` (both servers): role check, the project insert, then the SDG and media
   * loops. A failing SDG insert leaves the project and the tags before it in the store.
   */
  method CreateProject(db: Database, caller: Caller, req: NewProject, now: int) returns (r: Response<Project>)
    requires Ready(db)
    modifies db
    ensures Ready(db)
    ensures r.Ok? || r.Forbidden? || r.StoreError?
    ensures r.Forbidden? <==> !CanCreateProject(caller.role)
    ensures !CanCreateProject(caller.role) || !RowAccepted(old(db.tables), db.config, req) ==> db.tables == old(db.tables)
    ensures r.Ok? <==> CanCreateProject(caller.role) && RowAccepted(old(db.tables), db.config, req)
                       && SdgListAccepted(old(db.tables), db.config, ListOrEmpty(req.sdgs))
    ensures CanCreateProject(caller.role) && RowAccepted(old(db.tables), db.config, req) ==>
      db.tables == old(db.tables).(projects := old(db.tables.projects) + [NewRow(old(db.tables), req, now)], projectSeq := old(db.tables.projectSeq) + 1,
                                     projectSdgs := db.tables.projectSdgs, projectMedia := db.tables.projectMedia)
    ensures r.Ok? ==>
      r.value == NewRow(old(db.tables), req, now)
      && db.tables.projectSdgs == old(db.tables.projectSdgs) + TagRows(r.value.id, ListOrEmpty(req.sdgs))
      && db.tables.projectMedia == old(db.tables.projectMedia) + MediaRows(r.value.id, ListOrEmpty(req.mediaUrls))
    ensures r.StoreError? && RowAccepted(old(db.tables), db.config, req) ==>
      db.tables.projectMedia == old(db.tables.projectMedia)
      && exists k :: FirstRejected(old(db.tables), db.config, ListOrEmpty(req.sdgs), k)
                     && db.tables.projectSdgs == old(db.tables.projectSdgs) + TagRows(old(db.tables.projectSeq) + 1, ListOrEmpty(req.sdgs)[..k])
  {
    if !CanCreateProject(caller.role) {
      return Forbidden;
    }
    ghost var t0 := db.tables;
    var ins := db.Run(InsertProject(req.title, req.description, req.thumbnailUrl, req.repositoryUrl, req.demoUrl, req.teamId, now));
    if ins.Failed? {
      return StoreError(ins.failure);
    }
    var projectId := db.tables.projectSeq;
    ghost var p := NewRow(t0, req, now);
    assert db.tables == t0.(projects := t0.projects + [p], projectSeq := p.id);
    assert p in db.tables.projects;
    var failure, written := AddAssociations(db, projectId, ListOrEmpty(req.sdgs), ListOrEmpty(req.mediaUrls));
    if failure.Some? {
      return StoreError(failure.value);
    }
    assert ListOrEmpty(req.sdgs)[..written] == ListOrEmpty(req.sdgs);
    FindAppended(t0.projects, p);
    var found := ProjectById(db.tables.projects, projectId);
    return Ok(found.value);
  }

  /** `DELETE FROM project_sdgs WHERE projectId = ?`, then the insert loop; `written` ids went in. */
  method ReplaceProjectTags(db: Database, id: int, sdgIds: seq<int>) returns (failure: Option<StoreFailure>, ghost written: nat)
    requires Ready(db)
    requires HasProject(db.tables, id) && id <= db.tables.projectSeq
    modifies db
    ensures Ready(db)
    ensures db.tables == old(db.tables).(projectSdgs := db.tables.projectSdgs)
    ensures failure.None? <==> SdgListAccepted(old(db.tables), db.config, sdgIds)
    ensures written <= |sdgIds| && (failure.None? <==> written == |sdgIds|)
    ensures failure.Some? ==> FirstRejected(old(db.tables), db.config, sdgIds, written)
    ensures db.tables.projectSdgs == Filter(old(db.tables.projectSdgs), (r: ProjectSdg) => r.projectId != id) + TagRows(id, sdgIds[..written])
  {
    ghost var t0 := db.tables;
    var _ := db.Run(DeleteTags(id));
    ghost var t1 := db.tables;
    assert t1 == t0.(projectSdgs := Filter(t0.projectSdgs, (r: ProjectSdg) => r.projectId != id));
    FilterMembershipAll(t0.projectSdgs, (r: ProjectSdg) => r.projectId != id);
    FreshProjectTags(t1, db.config, id, sdgIds);
    var n, fail := InsertTags(db, id, sdgIds);
    TagRowsBelong(id, sdgIds[..n]);
    if fail.Some? {
      FreshProjectTags(t1, db.config, id, sdgIds[..n]);
      FreshProjectTags(t1, db.config, id, sdgIds[..n + 1]);
    }
    return fail, n;
  }

  /** `DELETE FROM project_media WHERE projectId = ?`, then the insert loop; it cannot fail for an existing project. */
  method ReplaceProjectMedia(db: Database, id: int, urls: seq<string>)
    requires Ready(db)
    requires HasProject(db.tables, id) && id <= db.tables.projectSeq
    modifies db
    ensures Ready(db)
    ensures db.tables == old(db.tables).(projectMedia := db.tables.projectMedia)
    ensures db.tables.projectMedia == Filter(old(db.tables.projectMedia), (r: MediaRow) => r.projectId != id) + MediaRows(id, urls)
  {
    ghost var t0 := db.tables;
    var _ := db.Run(DeleteMedia(id));
    assert db.tables == t0.(projectMedia := Filter(t0.projectMedia, (r: MediaRow) => r.projectId != id));
    FilterMembershipAll(t0.projectMedia, (r: MediaRow) => r.projectId != id);
    var n, fail := InsertMediaRows(db, id, urls);
    MediaRowsBelong(id, urls);
    assert urls[..n] == urls;
  }

  /** `UPDATE projects … WHERE id = ?` always succeeds: it only rewrites matching rows. */
  lemma ExecUpdate(t: Tables, cfg: Config, id: int, f: ProjectFields, now: int)
    ensures Exec(t, cfg, Statement.UpdateProject(id, f, now)) == Done(t.(projects := UpdateRows(t.projects, id, f, now)))
  {
  }

  /** The two list loops of an update, each run only when its list was supplied. */
  method ReplaceLists(db: Database, id: int, upd: ProjectUpdate) returns (failure: Option<StoreFailure>)
    requires Ready(db)
    requires HasProject(db.tables, id) && id <= db.tables.projectSeq
    modifies db
    ensures Ready(db)
    ensures failure.None? <==> (upd.sdgs.Some? ==> SdgListAccepted(old(db.tables), db.config, upd.sdgs.value))
    ensures db.tables == old(db.tables).(projectSdgs := db.tables.projectSdgs, projectMedia := db.tables.projectMedia)
    ensures ListsWritten(old(db.tables), db.config, db.tables.projectSdgs, db.tables.projectMedia, id, upd, failure.None?)
  {
    ghost var t0 := db.tables;
    failure := None;
    if upd.sdgs.Some? {
      ghost var written;
      failure, written := ReplaceProjectTags(db, id, upd.sdgs.value);
      if failure.Some? {
        return;
      }
      assert upd.sdgs.value[..written] == upd.sdgs.value;
    }
    ghost var t2 := db.tables;
    if upd.mediaUrls.Some? {
      ReplaceProjectMedia(db, id, upd.mediaUrls.value);
    }
    assert db.tables == t0.(projectSdgs := t2.projectSdgs, projectMedia := db.tables.projectMedia);
  }

  /** The writes of both `PUT` routes: the merged UPDATE, then the optional replacement of tags and media. */
  method ApplyUpdate(db: Database, id: int, p: Project, upd: ProjectUpdate, now: int) returns (failure: Option<StoreFailure>)
    requires Ready(db)
    requires ProjectById(db.tables.projects, id) == Some(p)
    modifies db
    ensures Ready(db)
    ensures failure.None? <==> (upd.sdgs.Some? ==> SdgListAccepted(old(db.tables), db.config, upd.sdgs.value))
    ensures UpdateWritten(old(db.tables), db.config, db.tables, id, Merged(upd, p), upd, now, failure.None?)
  {
    ghost var t0 := db.tables;
    var f := Merged(upd, p);
    ExecUpdate(t0, db.config, id, f, now);
    var _ := db.Run(Statement.UpdateProject(id, f, now));
    ghost var t1 := db.tables;
    ghost var i :| 0 <= i < |t0.projects| && t0.projects[i] == p;
    ghost var q := db.tables.projects[i];
    assert q in db.tables.projects && q.id == id && id <= db.tables.projectSeq;
    failure := ReplaceLists(db, id, upd);
    ListsWrittenFrame(t0, t1, db.config, db.tables.projectSdgs, db.tables.projectMedia, id, upd, failure.None?);
    assert db.tables == t0.(projects := t1.projects, projectSdgs := db.tables.projectSdgs, projectMedia := db.tables.projectMedia);
  }

  /** The caller may change or delete the project with this id, which exists. */
  predicate Permitted(t: Tables, caller: Caller, id: int) {
    ProjectById(t.projects, id).Some? && MayModify(t, caller, ProjectById(t.projects, id).value)
  }

  /** Reading a project back after its update finds the merged row. */
  lemma {:induction false} FindUpdated(ps: seq<Project>, id: int, f: ProjectFields, now: int)
    requires ProjectById(ps, id).Some?
    ensures ProjectById(UpdateRows(ps, id, f, now), id) == Some(SetFields(ProjectById(ps, id).value, f, now))
  {
    if ps[0].id != id {
      assert UpdateRows(ps, id, f, now)[1..] == UpdateRows(ps[1..], id, f, now);
      FindUpdated(ps[1..], id, f, now);
    }
  }

  /**
   * `PUT /api/projects/:id`: 404 for an unknown id, then the permission test, then the writes,
   * then the read-back, which dereferences the team and fails when the team row is missing.
   */
  method UpdateProject(db: Database, caller: Caller, id: int, upd: ProjectUpdate, now: int) returns (r: Response<ProjectView>)
    requires Ready(db)
    modifies db
    ensures Ready(db)
    ensures r.Ok? || r.NotFound? || r.Forbidden? || r.StoreError? || r.ServerError?
    ensures r.NotFound? <==> ProjectById(old(db.tables.projects), id).None?
    ensures r.Forbidden? <==> ProjectById(old(db.tables.projects), id).Some? && !Permitted(old(db.tables), caller, id)
    ensures !Permitted(old(db.tables), caller, id) ==> db.tables == old(db.tables)
    ensures Permitted(old(db.tables), caller, id) ==>
      UpdateWritten(old(db.tables), db.config, db.tables, id, Merged(upd, ProjectById(old(db.tables.projects), id).value), upd, now, !r.StoreError?)
    ensures r.StoreError? <==> Permitted(old(db.tables), caller, id) && upd.sdgs.Some?
                               && !SdgListAccepted(old(db.tables), db.config, upd.sdgs.value)
    ensures r.ServerError? ==> Permitted(old(db.tables), caller, id)
                               && TeamById(old(db.tables.teams), ProjectById(old(db.tables.projects), id).value.teamId).None?
    ensures r.Ok? ==> Permitted(old(db.tables), caller, id)
                      && TeamById(old(db.tables.teams), ProjectById(old(db.tables.projects), id).value.teamId).Some?
    ensures r.Ok? ==>
      var p := ProjectById(old(db.tables.projects), id).value;
      r.value == ProjectView(SetFields(p, Merged(upd, p), now), AverageRating(old(db.tables.feedback), id),
                             TeamById(old(db.tables.teams), p.teamId).value.name)
  {
    var found := ProjectById(db.tables.projects, id);
    if found.None? {
      return NotFound;
    }
    var p := found.value;
    if !HasPermission(db.tables, caller, p) {
      return Forbidden;
    }
    ghost var t0 := db.tables;
    var failure := ApplyUpdate(db, id, p, upd, now);
    if failure.Some? {
      return StoreError(failure.value);
    }
    FindUpdated(t0.projects, id, Merged(upd, p), now);
    var updated := ProjectById(db.tables.projects, id);
    var team := TeamById(db.tables.teams, p.teamId);
    if team.None? {
      return ServerError;
    }
    return Ok(ProjectView(updated.value, AverageRating(db.tables.feedback, id), team.value.name));
  }

  /** `DELETE /api/projects/:id`: 404, then the permission test, then one `DELETE FROM projects`. */
  method DeleteProject(db: Database, caller: Caller, id: int) returns (r: Response<()>)
    requires Ready(db)
    modifies db
    ensures Ready(db)
    ensures r.Ok? || r.NotFound? || r.Forbidden? || r.StoreError?
    ensures r.NotFound? <==> ProjectById(old(db.tables.projects), id).None?
    ensures r.Forbidden? <==> ProjectById(old(db.tables.projects), id).Some? && !Permitted(old(db.tables), caller, id)
    ensures r.StoreError? <==> Permitted(old(db.tables), caller, id) && DeleteBlocked(old(db.tables), db.config, id)
    ensures !r.Ok? ==> db.tables == old(db.tables)
    ensures r.Ok? ==> db.tables == ExecDeleteProject(old(db.tables), db.config, id).tables
  {
    var found := ProjectById(db.tables.projects, id);
    if found.None? {
      return NotFound;
    }
    if !HasPermission(db.tables, caller, found.value) {
      return Forbidden;
    }
    ghost var t0 := db.tables;
    var res := db.Run(Statement.DeleteProject(id));
    if res.Failed? {
      return StoreError(res.failure);
    }
    FilterMembershipAll(t0.projectSdgs, (x: ProjectSdg) => x.projectId != id);
    FilterMembershipAll(t0.projectMedia, (x: MediaRow) => x.projectId != id);
    FilterMembershipAll(t0.feedback, (x: Feedback) => x.projectId != id);
    return Ok(());
  }

  /** What `GET /api/projects/:id` answers. */
  datatype ProjectDetail = ProjectDetail(project: Project, averageRating: Option<real>, team: Team,
                                         members: seq<Member>, feedback: seq<Feedback>)

  /**
   * `GET /api/projects/:id` (both servers): the row with `AVG` over all its feedback, the team
   * (a missing team throws on `team.id`), the members joined to users, and the public feedback
   * joined to its author, newest first.
   */
  function GetProject(t: Tables, id: int): (r: Response<ProjectDetail>)
    ensures r.Ok? || r.NotFound? || r.ServerError?
    ensures r.NotFound? <==> ProjectById(t.projects, id).None?
    ensures r.ServerError? <==> ProjectById(t.projects, id).Some? && TeamById(t.teams, ProjectById(t.projects, id).value.teamId).None?
    ensures r.Ok? ==> ProjectById(t.projects, id).Some? && TeamById(t.teams, ProjectById(t.projects, id).value.teamId).Some?
    ensures r.Ok? ==>
      r.value.project == ProjectById(t.projects, id).value
      && r.value.averageRating == AverageRating(t.feedback, id)
      && r.value.team == TeamById(t.teams, r.value.project.teamId).value
  {
    var found := ProjectById(t.projects, id);
    if found.None? then NotFound
    else
      var team := TeamById(t.teams, found.value.teamId);
      if team.None? then ServerError
      else
        Ok(ProjectDetail(found.value, AverageRating(t.feedback, id), team.value,
                         Filter(t.teamMembers, (m: Member) => m.teamId == team.value.id && HasUser(t, m.userId)),
                         NewestFirst(Filter(t.feedback, (f: Feedback) => f.projectId == id && !f.isPrivate && HasUser(t, f.userId)))))
  }

  /**
   * The lists of the project page: the team's members that join to a user, and the project's
   * public feedback that joins to its author, newest first.
   */
  lemma GetProjectLists(t: Tables, id: int)
    requires GetProject(t, id).Ok?
    ensures var d := GetProject(t, id).value;
      forall m :: m in d.members <==> m in t.teamMembers && m.teamId == d.team.id && HasUser(t, m.userId)
    ensures var d := GetProject(t, id).value;
      forall f :: f in d.feedback <==> f in t.feedback && f.projectId == id && !f.isPrivate && HasUser(t, f.userId)
    ensures var d := GetProject(t, id).value;
      forall i, j :: 0 <= i < j < |d.feedback| ==> d.feedback[i].createdAt >= d.feedback[j].createdAt
  {
    var d := GetProject(t, id).value;
    var inTeam := (m: Member) => m.teamId == d.team.id && HasUser(t, m.userId);
    var shown := (f: Feedback) => f.projectId == id && !f.isPrivate && HasUser(t, f.userId);
    var rows := Filter(t.feedback, shown);
    assert d.members == Filter(t.teamMembers, inTeam);
    assert d.feedback == NewestFirst(rows);
    FilterMembershipAll(t.teamMembers, inTeam);
    FilterMembershipAll(t.feedback, shown);
    NewestFirstOrders(rows);
    forall f ensures f in d.feedback <==> f in rows {
      assert f in d.feedback <==> f in multiset(d.feedback);
    }
  }
}

/**
 * What the route handlers share: the outcome of a request, the state every handler starts from
 * and leaves behind, and the per-project views of the association tables.
 */
module Routing {
  import opened Wrappers
  import opened Seqs
  import opened Schema
  import opened Store
  import opened Associations

  /**
   * A handler's outcome: `Ok` with the response body, 404, 403, 400, a statement that threw
   * (500 with the store's reason), or another 500.
   */
  datatype Response<T> = Ok(value: T) | NotFound | Forbidden | Invalid | StoreError(failure: StoreFailure) | ServerError

  /**
   * Rows that point at a team or a project never point past the last id handed out, so a new
   * team or project starts without members, tags, media or feedback. Every route modelled with
   * `Ready` writes rows only for a team or project that exists or has just been created, and ids
   * are never reused. The faculty comment route does not look its project up; with foreign keys
   * off it can break the bound (`FeedbackRoutes.AddFacultyComment`), so `Ready` holds only while
   * that route has not written a comment for a project id not yet handed out.
   */
  ghost predicate ReferencesBounded(t: Tables) {
    MemberTeamsBelow(t.teamMembers, t.teamSeq)
    && TagProjectsBelow(t.projectSdgs, t.projectSeq)
    && MediaProjectsBelow(t.projectMedia, t.projectSeq)
    && FeedbackProjectsBelow(t.feedback, t.projectSeq)
  }

  ghost predicate MemberTeamsBelow(ms: seq<Member>, bound: int) { forall m :: m in ms ==> m.teamId <= bound }
  ghost predicate TagProjectsBelow(rs: seq<ProjectSdg>, bound: int) { forall r :: r in rs ==> r.projectId <= bound }
  ghost predicate MediaProjectsBelow(rs: seq<MediaRow>, bound: int) { forall r :: r in rs ==> r.projectId <= bound }
  ghost predicate FeedbackProjectsBelow(fs: seq<Feedback>, bound: int) { forall f :: f in fs ==> f.projectId <= bound }

  /** Between requests: a consistent store, no open transaction. */
  ghost predicate Ready(db: Database)
    reads db
  {
    db.Valid() && db.savepoint.None? && ReferencesBounded(db.tables)
  }

  /** A missing list in the request body is treated as no elements. */
  function ListOrEmpty<T>(o: Option<seq<T>>): (r: seq<T>)
    ensures o.None? ==> r == []
    ensures o.Some? ==> r == o.value
  {
    if o.Some? then o.value else []
  }

  /** The SDG rows of one project, in table order. */
  function TagsOf(rows: seq<ProjectSdg>, projectId: int): seq<ProjectSdg> {
    Filter(rows, (r: ProjectSdg) => r.projectId == projectId)
  }

  /** The media rows of one project, in table order. */
  function MediaOf(rows: seq<MediaRow>, projectId: int): seq<MediaRow> {
    Filter(rows, (r: MediaRow) => r.projectId == projectId)
  }

  lemma TagRowsBelong(projectId: int, sdgIds: seq<int>)
    ensures forall r :: r in TagRows(projectId, sdgIds) ==> r.projectId == projectId
  {
    forall r | r in TagRows(projectId, sdgIds) ensures r.projectId == projectId {
      var k :| 0 <= k < |sdgIds| && TagRows(projectId, sdgIds)[k] == r;
    }
  }

  lemma MediaRowsBelong(projectId: int, urls: seq<string>)
    ensures forall r :: r in MediaRows(projectId, urls) ==> r.projectId == projectId
  {
    forall r | r in MediaRows(projectId, urls) ensures r.projectId == projectId {
      var k :| 0 <= k < |urls| && MediaRows(projectId, urls)[k] == r;
    }
  }

  /**
   * `DELETE FROM project_sdgs WHERE projectId = ?` followed by one insert per id: afterwards the
   * project's rows are exactly the new ones and every other project keeps its rows.
   */
  lemma ReplaceTags(rows: seq<ProjectSdg>, projectId: int, sdgIds: seq<int>)
    ensures var after := Filter(rows, (r: ProjectSdg) => r.projectId != projectId) + TagRows(projectId, sdgIds);
      TagsOf(after, projectId) == TagRows(projectId, sdgIds)
      && forall q :: q != projectId ==> TagsOf(after, q) == TagsOf(rows, q)
  {
    var keep := (r: ProjectSdg) => r.projectId != projectId;
    var news := TagRows(projectId, sdgIds);
    TagRowsBelong(projectId, sdgIds);
    var mine := (r: ProjectSdg) => r.projectId == projectId;
    FilterAppend(Filter(rows, keep), news, mine);
    FilterNone(Filter(rows, keep), mine);
    FilterAll(news, mine);
    forall q | q != projectId
      ensures TagsOf(Filter(rows, keep) + news, q) == TagsOf(rows, q)
    {
      var theirs := (r: ProjectSdg) => r.projectId == q;
      FilterAppend(Filter(rows, keep), news, theirs);
      FilterNone(news, theirs);
      FilterFilter(rows, keep, theirs);
    }
  }

  /** The same for `project_media`. */
  lemma ReplaceMedia(rows: seq<MediaRow>, projectId: int, urls: seq<string>)
    ensures var after := Filter(rows, (r: MediaRow) => r.projectId != projectId) + MediaRows(projectId, urls);
      MediaOf(after, projectId) == MediaRows(projectId, urls)
      && forall q :: q != projectId ==> MediaOf(after, q) == MediaOf(rows, q)
  {
    var keep := (r: MediaRow) => r.projectId != projectId;
    var news := MediaRows(projectId, urls);
    MediaRowsBelong(projectId, urls);
    var mine := (r: MediaRow) => r.projectId == projectId;
    FilterAppend(Filter(rows, keep), news, mine);
    FilterNone(Filter(rows, keep), mine);
    FilterAll(news, mine);
    forall q | q != projectId
      ensures MediaOf(Filter(rows, keep) + news, q) == MediaOf(rows, q)
    {
      var theirs := (r: MediaRow) => r.projectId == q;
      FilterAppend(Filter(rows, keep), news, theirs);
      FilterNone(news, theirs);
      FilterFilter(rows, keep, theirs);
    }
  }

  /** Appending tag rows for a new project gives it exactly those rows and leaves the others alone. */
  lemma AppendTags(rows: seq<ProjectSdg>, projectId: int, sdgIds: seq<int>)
    requires forall r :: r in rows ==> r.projectId != projectId
    ensures TagsOf(rows + TagRows(projectId, sdgIds), projectId) == TagRows(projectId, sdgIds)
    ensures forall q :: q != projectId ==> TagsOf(rows + TagRows(projectId, sdgIds), q) == TagsOf(rows, q)
  {
    var news := TagRows(projectId, sdgIds);
    TagRowsBelong(projectId, sdgIds);
    var mine := (r: ProjectSdg) => r.projectId == projectId;
    FilterAppend(rows, news, mine);
    FilterNone(rows, mine);
    FilterAll(news, mine);
    forall q | q != projectId ensures TagsOf(rows + news, q) == TagsOf(rows, q) {
      var theirs := (r: ProjectSdg) => r.projectId == q;
      FilterAppend(rows, news, theirs);
      FilterNone(news, theirs);
    }
  }

  /** The same for media rows. */
  lemma AppendMedia(rows: seq<MediaRow>, projectId: int, urls: seq<string>)
    requires forall r :: r in rows ==> r.projectId != projectId
    ensures MediaOf(rows + MediaRows(projectId, urls), projectId) == MediaRows(projectId, urls)
    ensures forall q :: q != projectId ==> MediaOf(rows + MediaRows(projectId, urls), q) == MediaOf(rows, q)
  {
    var news := MediaRows(projectId, urls);
    MediaRowsBelong(projectId, urls);
    var mine := (r: MediaRow) => r.projectId == projectId;
    FilterAppend(rows, news, mine);
    FilterNone(rows, mine);
    FilterAll(news, mine);
    forall q | q != projectId ensures MediaOf(rows + news, q) == MediaOf(rows, q) {
      var theirs := (r: MediaRow) => r.projectId == q;
      FilterAppend(rows, news, theirs);
      FilterNone(news, theirs);
    }
  }

  /** `SELECT * FROM projects WHERE id = ?` right after the insert finds the new row. */
  lemma {:induction false} FindAppended(ps: seq<Project>, p: Project)
    requires forall q :: q in ps ==> q.id != p.id
    ensures ProjectById(ps + [p], p.id) == Some(p)
  {
    if ps != [] {
      assert (ps + [p])[1..] == ps[1..] + [p];
      FindAppended(ps[1..], p);
    }
  }

  /** The same for a team inserted just before. */
  lemma {:induction false} FindAppendedTeam(ts: seq<Team>, m: Team)
    requires forall x :: x in ts ==> x.id != m.id
    ensures TeamById(ts + [m], m.id) == Some(m)
  {
    if ts != [] {
      assert (ts + [m])[1..] == ts[1..] + [m];
      FindAppendedTeam(ts[1..], m);
    }
  }

  /** With unique ids, the row a join finds is the row the id lookup finds. */
  lemma {:induction false} FindUnique(ps: seq<Project>, p: Project)
    requires DistinctBy(ps, (q: Project) => q.id)
    requires p in ps
    ensures ProjectById(ps, p.id) == Some(p)
  {
    if ps[0] != p {
      var rest := ps[1..];
      assert p in rest;
      assert DistinctBy(rest, (q: Project) => q.id) by {
        forall i, j | 0 <= i < j < |rest| ensures rest[i].id != rest[j].id {
          assert rest[i] == ps[i + 1] && rest[j] == ps[j + 1];
        }
      }
      var k :| 0 <= k < |rest| && rest[k] == p;
      assert ps[k + 1] == p;
      FindUnique(rest, p);
    }
  }

  /** `SELECT role FROM users WHERE id = ?` finds the one user with that id. */
  lemma {:induction false} FindUser(us: seq<User>, u: User)
    requires DistinctBy(us, (v: User) => v.id)
    requires u in us
    ensures UserById(us, u.id) == Some(u)
  {
    if us[0] != u {
      var rest := us[1..];
      assert u in rest;
      assert DistinctBy(rest, (v: User) => v.id) by {
        forall i, j | 0 <= i < j < |rest| ensures rest[i].id != rest[j].id {
          assert rest[i] == us[i + 1] && rest[j] == us[j + 1];
        }
      }
      var k :| 0 <= k < |rest| && rest[k] == u;
      assert us[k + 1] == u;
      FindUser(rest, u);
    }
  }
}

/**
 * The routes that write feedback: `POST /api/feedback` of `code/server`, open to faculty only,
 * and `POST /api/projects/:id/feedback` of both servers, open to any signed-in user. Both check
 * that the project exists before the one `INSERT INTO feedback`, whose constraints do the rest.
 * The faculty comment route of `code/server` does not look the project up.
 */
module FeedbackRoutes {
  import opened Wrappers
  import opened Seqs
  import opened Schema
  import opened Store
  import opened Authorization
  import opened Routing
  import opened FeedbackRules

  /** The body of a feedback request; `isPrivate` defaults to `false`. */
  datatype FeedbackRequest = FeedbackRequest(projectId: int, content: Option<string>, rating: Option<int>, isPrivate: bool)

  /** The insert succeeds: content bound, the rating constraint of the schema met, and, with references on, the author exists. */
  predicate FeedbackAccepted(t: Tables, cfg: Config, userId: int, req: FeedbackRequest) {
    req.content.Some? && RatingAdmitted(cfg.variant, req.rating)
    && (cfg.foreignKeys ==> HasUser(t, userId))
  }

  /** The row the insert adds: the next id, the caller as author, `isPrivate ? 1 : 0`. */
  function FeedbackRow(t: Tables, userId: int, req: FeedbackRequest, now: int): (f: Feedback)
    requires req.content.Some?
    ensures f.id == t.feedbackSeq + 1 && f.projectId == req.projectId && f.userId == userId
    ensures f.content == req.content.value && f.rating == req.rating && f.isPrivate == req.isPrivate && f.createdAt == now
  {
    Feedback(t.feedbackSeq + 1, req.projectId, userId, req.content.value, req.rating, req.isPrivate, now)
  }

  lemma ExecFeedback(t: Tables, cfg: Config, userId: int, req: FeedbackRequest, now: int)
    requires HasProject(t, req.projectId)
    ensures var e := Exec(t, cfg, InsertFeedback(req.projectId, userId, req.content, req.rating, req.isPrivate, now));
      (e.Done? <==> FeedbackAccepted(t, cfg, userId, req))
      && (e.Done? ==> e.tables == t.(feedback := t.feedback + [FeedbackRow(t, userId, req, now)], feedbackSeq := t.feedbackSeq + 1))
  {
  }

  /** The `INSERT INTO feedback` both routes issue for an existing project, and the read-back of the new row. */
  method InsertFeedbackRow(db: Database, userId: int, req: FeedbackRequest, now: int) returns (r: Response<Feedback>)
    requires Ready(db)
    requires HasProject(db.tables, req.projectId)
    modifies db
    ensures Ready(db)
    ensures r.Ok? || r.StoreError?
    ensures r.Ok? <==> FeedbackAccepted(old(db.tables), db.config, userId, req)
    ensures !r.Ok? ==> db.tables == old(db.tables)
    ensures r.Ok? ==> req.content.Some? && r.value == FeedbackRow(old(db.tables), userId, req, now)
    ensures r.Ok? ==> db.tables == old(db.tables).(feedback := old(db.tables.feedback) + [r.value], feedbackSeq := old(db.tables.feedbackSeq) + 1)
  {
    ghost var t0 := db.tables;
    ExecFeedback(t0, db.config, userId, req, now);
    var res := db.Run(InsertFeedback(req.projectId, userId, req.content, req.rating, req.isPrivate, now));
    if res.Failed? {
      return StoreError(res.failure);
    }
    ghost var id := t0.feedbackSeq + 1;
    assert forall f :: f in t0.feedback ==> f.id < id;
    assert ReferencesBounded(db.tables) by {
      assert FeedbackProjectsBelow(db.tables.feedback, db.tables.projectSeq) by {
        var p :| p in t0.projects && p.id == req.projectId;
      }
    }
    var row := FeedbackById(db.tables.feedback, db.tables.feedbackSeq);
    return Ok(row.value);
  }

  /** `SELECT * FROM feedback WHERE id = ?` */
  function FeedbackById(fs: seq<Feedback>, id: int): (r: Option<Feedback>)
    ensures r.None? <==> forall f :: f in fs ==> f.id != id
    ensures r.Some? ==> r.value in fs && r.value.id == id
  {
    if fs == [] then None
    else if fs[0].id == id then Some(fs[0])
    else FeedbackById(fs[1..], id)
  }

  /** The faculty test of `POST /api/feedback`: the role stored for the caller's id, not the token's. */
  predicate StoredFaculty(t: Tables, userId: int) {
    UserById(t.users, userId).Some? && UserById(t.users, userId).value.role == "faculty"
  }

  /**
   * `POST /api/feedback` (`code/server`): 403 unless the caller's user row says faculty, then 404
   * for an unknown project, then the insert, whose NOT NULL and rating CHECK constraints decide.
   */
  method SubmitFeedback(db: Database, caller: Caller, req: FeedbackRequest, now: int) returns (r: Response<Feedback>)
    requires Ready(db)
    modifies db
    ensures Ready(db)
    ensures r.Ok? || r.Forbidden? || r.NotFound? || r.StoreError?
    ensures r.Forbidden? <==> !StoredFaculty(old(db.tables), caller.id)
    ensures r.NotFound? <==> StoredFaculty(old(db.tables), caller.id) && !HasProject(old(db.tables), req.projectId)
    ensures r.Ok? <==> StoredFaculty(old(db.tables), caller.id) && HasProject(old(db.tables), req.projectId)
                       && req.content.Some? && RatingAdmitted(db.config.variant, req.rating)
    ensures !r.Ok? ==> db.tables == old(db.tables)
    ensures r.Ok? ==> req.content.Some? && r.value == FeedbackRow(old(db.tables), caller.id, req, now)
    ensures r.Ok? ==> db.tables == old(db.tables).(feedback := old(db.tables.feedback) + [r.value], feedbackSeq := old(db.tables.feedbackSeq) + 1)
  {
    var user := UserById(db.tables.users, caller.id);
    if user.None? || user.value.role != "faculty" {
      return Forbidden;
    }
    assert HasUser(db.tables, caller.id);
    if ProjectById(db.tables.projects, req.projectId).None? {
      return NotFound;
    }
    r := InsertFeedbackRow(db, caller.id, req, now);
  }

  /**
   * `POST /api/projects/:id/feedback` (both servers): 404 for an unknown project, otherwise the
   * insert with the caller as author; no role is checked.
   */
  method AddProjectFeedback(db: Database, caller: Caller, req: FeedbackRequest, now: int) returns (r: Response<Feedback>)
    requires Ready(db)
    modifies db
    ensures Ready(db)
    ensures r.Ok? || r.NotFound? || r.StoreError?
    ensures r.NotFound? <==> !HasProject(old(db.tables), req.projectId)
    ensures r.Ok? <==> HasProject(old(db.tables), req.projectId) && FeedbackAccepted(old(db.tables), db.config, caller.id, req)
    ensures !r.Ok? ==> db.tables == old(db.tables)
    ensures r.Ok? ==> req.content.Some? && r.value == FeedbackRow(old(db.tables), caller.id, req, now)
    ensures r.Ok? ==> db.tables == old(db.tables).(feedback := old(db.tables.feedback) + [r.value], feedbackSeq := old(db.tables.feedbackSeq) + 1)
  {
    if ProjectById(db.tables.projects, req.projectId).None? {
      return NotFound;
    }
    r := InsertFeedbackRow(db, caller.id, req, now);
  }

  /** The row of a faculty comment: no rating, `isPrivate` at its column default. */
  function CommentRow(t: Tables, userId: int, projectId: int, comment: string, now: int): (f: Feedback)
    ensures f.id == t.feedbackSeq + 1 && f.projectId == projectId && f.userId == userId
    ensures f.content == comment && f.rating.None? && !f.isPrivate && f.createdAt == now
  {
    Feedback(t.feedbackSeq + 1, projectId, userId, comment, None, false, now)
  }

  /**
   * `POST /api/faculty/projects/:projectId/feedback` (`code/server`): 403 unless the token's role
   * is faculty, then `INSERT INTO feedback (projectId, userId, content)` with no lookup of the
   * project, answering the new id. A later handler registered for the same path is never reached.
   * The bound on feedback references survives exactly when the comment did not go in for a
   * project id beyond the last one handed out.
   */
  method AddFacultyComment(db: Database, caller: Caller, projectId: int, comment: Option<string>, now: int)
    returns (r: Response<int>)
    requires Ready(db) && db.config.variant == CodeServer
    modifies db
    ensures db.Valid() && db.savepoint.None?
    ensures r.Ok? || r.Forbidden? || r.StoreError?
    ensures r.Forbidden? <==> caller.role != "faculty"
    ensures r.Ok? <==> caller.role == "faculty" && comment.Some?
                       && (db.config.foreignKeys ==> HasUser(old(db.tables), caller.id) && HasProject(old(db.tables), projectId))
    ensures !r.Ok? ==> db.tables == old(db.tables)
    ensures r.Ok? ==> comment.Some? && r.value == old(db.tables.feedbackSeq) + 1
    ensures r.Ok? ==> db.tables == old(db.tables).(feedback := old(db.tables.feedback) + [CommentRow(old(db.tables), caller.id, projectId, comment.value, now)],
                                                   feedbackSeq := old(db.tables.feedbackSeq) + 1)
    ensures ReferencesBounded(db.tables) <==> (r.Ok? ==> projectId <= old(db.tables.projectSeq))
  {
    if caller.role != "faculty" {
      return Forbidden;
    }
    ghost var t0 := db.tables;
    var res := db.Run(InsertFeedback(projectId, caller.id, comment, None, false, now));
    if res.Failed? {
      return StoreError(res.failure);
    }
    ghost var f := CommentRow(t0, caller.id, projectId, comment.value, now);
    assert db.tables.feedback == t0.feedback + [f];
    assert f in db.tables.feedback;
    if db.config.foreignKeys {
      ghost var p :| p in t0.projects && p.id == projectId;
    }
    return Ok(db.tables.feedbackSeq);
  }

  /**
   * The faculty comment route with the project looked up first, as the other feedback routes do:
   * 404 for an unknown project and no write. It then keeps the state every route starts from.
   */
  method AddFacultyCommentChecked(db: Database, caller: Caller, projectId: int, comment: Option<string>, now: int)
    returns (r: Response<int>)
    requires Ready(db) && db.config.variant == CodeServer
    modifies db
    ensures Ready(db)
    ensures r.Ok? || r.Forbidden? || r.NotFound? || r.StoreError?
    ensures r.Forbidden? <==> caller.role != "faculty"
    ensures r.NotFound? <==> caller.role == "faculty" && !HasProject(old(db.tables), projectId)
    ensures r.Ok? <==> caller.role == "faculty" && HasProject(old(db.tables), projectId) && comment.Some?
                       && (db.config.foreignKeys ==> HasUser(old(db.tables), caller.id))
    ensures !r.Ok? ==> db.tables == old(db.tables)
    ensures r.Ok? ==> comment.Some? && db.tables == old(db.tables).(feedback := old(db.tables.feedback) + [CommentRow(old(db.tables), caller.id, projectId, comment.value, now)],
                                                                   feedbackSeq := old(db.tables.feedbackSeq) + 1)
  {
    if caller.role != "faculty" {
      return Forbidden;
    }
    if ProjectById(db.tables.projects, projectId).None? {
      return NotFound;
    }
    ghost var p :| p in db.tables.projects && p.id == projectId;
    assert p.id <= db.tables.projectSeq;
    r := AddFacultyComment(db, caller, projectId, comment, now);
  }

  /**
   * As written, with foreign keys off: a comment on project 1 before any project exists goes in,
   * and the first project created afterwards, which gets id 1, shows it as its public feedback.
   */
  lemma StrayCommentJoinsNextProject()
    ensures var cfg := Config(CodeServer, false);
      var t0 := Tables([User(1, "f", "f@x", "h", "faculty")], [Team(1, "t", None)], [], [], [], [], [], [], 1, 1, 0, 0);
      var t1 := Exec(t0, cfg, InsertFeedback(1, 1, Some("c"), None, false, 0));
      t1.Done? && !ReferencesBounded(t1.tables)
      && var t2 := Exec(t1.tables, cfg, InsertProject(Some("p"), Some("d"), Some("u"), None, None, Some(1), 1));
      t2.Done? && ProjectById(t2.tables.projects, 1).Some?
      && PublicRows(t2.tables.feedback, 1) == [Feedback(1, 1, 1, "c", None, false, 0)]
  {
    var t1 := Exec(Tables([User(1, "f", "f@x", "h", "faculty")], [Team(1, "t", None)], [], [], [], [], [], [], 1, 1, 0, 0),
                   Config(CodeServer, false), InsertFeedback(1, 1, Some("c"), None, false, 0));
    assert Feedback(1, 1, 1, "c", None, false, 0) in t1.tables.feedback;
    var t2 := Exec(t1.tables, Config(CodeServer, false), InsertProject(Some("p"), Some("d"), Some("u"), None, None, Some(1), 1));
    var fs := t2.tables.feedback;
    assert fs == [Feedback(1, 1, 1, "c", None, false, 0)];
    assert PublicRows(fs, 1) == Filter(fs, (f: Feedback) => f.projectId == 1 && !f.isPrivate);
  }
}

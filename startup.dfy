/**
 * What `initializeDB` does to an existing store after the tables are in place: the code server's
 * feedback reset (`Database.Reopen`) and the admin seed both servers run.
 */
module Startup {
  import opened Wrappers
  import opened Schema
  import opened Store
  import opened Routing
  import opened Accounts
  import opened FeedbackRules

  const AdminEmail: string := "admin@example.com"

  lemma ExecSeed(t: Tables, cfg: Config, hash: string)
    ensures Exec(t, cfg, InsertUser("admin", AdminEmail, hash, "admin")) == ExecInsertUser(t, cfg, "admin", AdminEmail, hash, "admin")
  {
  }

  /**
   * `SELECT * FROM users WHERE email = 'admin@example.com'` and, when there is none, the insert
   * of the `admin` user with the hash of its default password. The code schema's role CHECK has
   * no `admin`, so there the insert always throws (and `initializeDB` exits the process).
   */
  method SeedAdmin(db: Database, hash: string) returns (failure: Option<StoreFailure>)
    requires Ready(db)
    modifies db
    ensures Ready(db)
    ensures UserByEmail(old(db.tables.users), AdminEmail).Some? ==> failure.None? && db.tables == old(db.tables)
    ensures UserByEmail(old(db.tables.users), AdminEmail).None? && db.config.variant == CodeServer ==>
      failure == Some(CheckViolation) && db.tables == old(db.tables)
    ensures UserByEmail(old(db.tables.users), AdminEmail).None? && db.config.variant == FrontendServer ==>
      (failure.None? <==> forall u :: u in old(db.tables.users) ==> u.username != "admin")
    ensures failure.None? ==> UserByEmail(db.tables.users, AdminEmail).Some?
    ensures failure.None? && UserByEmail(old(db.tables.users), AdminEmail).None? ==>
      db.tables == old(db.tables).(users := old(db.tables.users) + [User(old(db.tables.userSeq) + 1, "admin", AdminEmail, hash, "admin")],
                                   userSeq := old(db.tables.userSeq) + 1)
    ensures failure.Some? ==> db.tables == old(db.tables)
  {
    if UserByEmail(db.tables.users, AdminEmail).Some? {
      return None;
    }
    ghost var t0 := db.tables;
    ExecSeed(db.tables, db.config, hash);
    var r := db.Run(InsertUser("admin", AdminEmail, hash, "admin"));
    if r.Failed? {
      return Some(r.failure);
    }
    assert db.tables.users == t0.users + [User(t0.userSeq + 1, "admin", AdminEmail, hash, "admin")];
    assert db.tables.users[|t0.users|].email == AdminEmail;
    return None;
  }

  /**
   * The code server's own routes treat `admin` as a privileged role, so its users table evidently
   * meant to admit it, as the frontend schema does. Under a schema that admits `admin`, the seed
   * on a fresh store goes in and the admin is the first user, found by its email. Of the two
   * schemas only the frontend one (`FrontendServer`) meets that requirement.
   */
  lemma SeedSucceedsWhenAdminAdmitted(cfg: Config, hash: string)
    requires "admin" in AllowedRoles(cfg.variant)
    ensures var e := Exec(InitialTables(), cfg, InsertUser("admin", AdminEmail, hash, "admin"));
      e.Done? && UserByEmail(e.tables.users, AdminEmail) == Some(User(1, "admin", AdminEmail, hash, "admin"))
  {
    var e := Exec(InitialTables(), cfg, InsertUser("admin", AdminEmail, hash, "admin"));
    assert e.tables.users == [User(1, "admin", AdminEmail, hash, "admin")];
  }

  /** After a restart of the code server no project has feedback or an average rating left. */
  lemma RestartForgetsFeedback(t: Tables, projectId: int, role: string)
    requires t.feedback == []
    ensures ProjectFeedback(t, projectId, role) == []
    ensures AverageRating(t.feedback, projectId).None?
  {
    ProjectFeedbackRows(t, projectId, role);
  }
}

/**
 * The account routes of `frontend/server`: `POST /api/auth/register` and `POST /api/auth/login`.
 * Password hashing and comparison (bcrypt) and token signing (JWT) are outside the model: the
 * hash arrives as a parameter and the comparison as a predicate on the stored hash.
 */
module Accounts {
  import opened Wrappers
  import opened Schema
  import opened Store
  import opened Seqs
  import opened Routing

  /** The answers of the two routes; both 400s of registration carry their own message. */
  datatype AuthOutcome = Registered(user: User) | UserExists | InvalidRole | InvalidCredentials | LoggedIn(user: User)

  /** `const validRoles = ['viewer', 'student', 'faculty', 'admin', 'management']` */
  const ValidRoles: seq<string> := ["viewer", "student", "faculty", "admin", "management"]

  /** `SELECT * FROM users WHERE email = ? OR username = ?` finds a row. */
  predicate Taken(t: Tables, username: string, email: string) {
    exists u :: u in t.users && (u.email == email || u.username == username)
  }

  /** The role list of the route is exactly what the users table of this server admits. */
  lemma ValidRolesMatchSchema()
    ensures forall role :: role in ValidRoles <==> role in AllowedRoles(FrontendServer)
  {
  }

  lemma ExecRegister(t: Tables, cfg: Config, username: string, email: string, hash: string, role: string)
    requires cfg.variant == FrontendServer && role in ValidRoles && !Taken(t, username, email)
    ensures Exec(t, cfg, InsertUser(username, email, hash, role))
            == Done(t.(users := t.users + [User(t.userSeq + 1, username, email, hash, role)], userSeq := t.userSeq + 1))
  {
  }

  /**
   * `POST /api/auth/register`: 400 "User already exists" when the email or the username is taken,
   * then 400 "Invalid role", then the insert and the read-back of the new row. `hash` is what
   * bcrypt made of the password.
   */
  method Register(db: Database, username: string, email: string, hash: string, role: string) returns (r: AuthOutcome)
    requires Ready(db) && db.config.variant == FrontendServer
    modifies db
    ensures Ready(db)
    ensures r.Registered? || r.UserExists? || r.InvalidRole?
    ensures r.UserExists? <==> Taken(old(db.tables), username, email)
    ensures r.InvalidRole? <==> !Taken(old(db.tables), username, email) && role !in ValidRoles
    ensures !r.Registered? ==> db.tables == old(db.tables)
    ensures r.Registered? ==> r.user == User(old(db.tables.userSeq) + 1, username, email, hash, role)
    ensures r.Registered? ==> db.tables == old(db.tables).(users := old(db.tables.users) + [r.user], userSeq := old(db.tables.userSeq) + 1)
  {
    if UserByLogin(db.tables.users, username, email).Some? {
      return UserExists;
    }
    if role !in ValidRoles {
      return InvalidRole;
    }
    ghost var t0 := db.tables;
    ExecRegister(t0, db.config, username, email, hash, role);
    var _ := db.Run(InsertUser(username, email, hash, role));
    assert forall u :: u in t0.users ==> u.id < t0.userSeq + 1;
    var user := UserById(db.tables.users, db.tables.userSeq);
    return Registered(user.value);
  }

  /** `SELECT * FROM users WHERE email = ? OR username = ?`: the first such row. */
  function UserByLogin(us: seq<User>, username: string, email: string): (r: Option<User>)
    ensures r.None? <==> forall u :: u in us ==> u.email != email && u.username != username
    ensures r.Some? ==> r.value in us && (r.value.email == email || r.value.username == username)
  {
    if us == [] then None
    else if us[0].email == email || us[0].username == username then Some(us[0])
    else UserByLogin(us[1..], username, email)
  }

  /** `SELECT * FROM users WHERE email = ?` */
  function UserByEmail(us: seq<User>, email: string): (r: Option<User>)
    ensures r.None? <==> forall u :: u in us ==> u.email != email
    ensures r.Some? ==> r.value in us && r.value.email == email
  {
    if us == [] then None
    else if us[0].email == email then Some(us[0])
    else UserByEmail(us[1..], email)
  }

  /**
   * `POST /api/auth/login`: the user with that email, if the password matches its stored hash.
   * `matches` is `bcrypt.compare` with the supplied password.
   */
  function Login(t: Tables, email: string, matches: string -> bool): (r: AuthOutcome)
    ensures r.LoggedIn? || r.InvalidCredentials?
    ensures r.LoggedIn? <==> UserByEmail(t.users, email).Some? && matches(UserByEmail(t.users, email).value.passwordHash)
    ensures r.LoggedIn? ==> r.user in t.users && r.user.email == email && matches(r.user.passwordHash)
  {
    var user := UserByEmail(t.users, email);
    if user.None? then InvalidCredentials
    else if !matches(user.value.passwordHash) then InvalidCredentials
    else LoggedIn(user.value)
  }

  /** An unknown email and a wrong password get the same answer, so the answer does not reveal which emails exist. */
  lemma UnknownEmailLikeWrongPassword(t: Tables, t': Tables, email: string, matches: string -> bool, matches': string -> bool)
    requires forall u :: u in t.users ==> u.email != email
    requires exists u :: u in t'.users && u.email == email
    requires !matches'(UserByEmail(t'.users, email).value.passwordHash)
    ensures Login(t, email, matches) == Login(t', email, matches') == InvalidCredentials
  {
  }

  /** With unique emails, a correct password signs in as the one user with that email. */
  lemma LoginFindsTheUser(t: Tables, u: User, matches: string -> bool)
    requires DistinctBy(t.users, (v: User) => v.email)
    requires u in t.users && matches(u.passwordHash)
    ensures Login(t, u.email, matches) == LoggedIn(u)
  {
    FindByEmail(t.users, u);
  }

  lemma {:induction false} FindByEmail(us: seq<User>, u: User)
    requires DistinctBy(us, (v: User) => v.email)
    requires u in us
    ensures UserByEmail(us, u.email) == Some(u)
  {
    if us[0] != u {
      var rest := us[1..];
      assert u in rest;
      assert DistinctBy(rest, (v: User) => v.email) by {
        forall i, j | 0 <= i < j < |rest| ensures rest[i].email != rest[j].email {
          assert rest[i] == us[i + 1] && rest[j] == us[j + 1];
        }
      }
      var k :| 0 <= k < |rest| && rest[k] == u;
      assert us[k + 1] == u;
      FindByEmail(rest, u);
    }
  }
}

/** The credential logic of the auth provider: the demo account, logging in against
    the stored users, registering a new user, and logging out. The stored users list
    and the signed-in user are the provider's state; local storage, where the source
    keeps both, is not modelled. */
module AuthContext {
  import opened Options
  import opened Sequences

  /** A registered user as stored, password included. */
  datatype StoredUser = StoredUser(id: string, name: string, email: string, password: string)

  /** The signed-in user: no password field exists to carry one. */
  datatype SessionUser = SessionUser(id: string, name: string, email: string)

  /** `{ success: true }` or `{ success: false, error }`. */
  datatype AuthResult = Success | Failure(error: string)

  const DemoEmail := "demo@example.com"
  const DemoPassword := "password123"
  const DemoUser := SessionUser("demo", "Demo User", "demo@example.com")

  const InvalidCredentials := "Invalid email or password"
  const EmailRegistered := "Email already registered"

  /** The session copy of a stored user: id, name and email. */
  function Session(u: StoredUser): (s: SessionUser)
    ensures s.id == u.id && s.name == u.name && s.email == u.email
  {
    SessionUser(u.id, u.name, u.email)
  }

  function Matches(email: string, password: string): StoredUser -> bool {
    (u: StoredUser) => u.email == email && u.password == password
  }

  function HasEmail(email: string): StoredUser -> bool {
    (u: StoredUser) => u.email == email
  }

  /** login's decision: the demo credentials first, whatever is stored; then the first
      stored user with that email and password; otherwise failure (None). */
  function LoginDecision(users: seq<StoredUser>, email: string, password: string): (r: Option<SessionUser>)
    ensures email == DemoEmail && password == DemoPassword ==> r == Some(DemoUser)
    ensures !(email == DemoEmail && password == DemoPassword) ==>
      (r.None? <==> forall j :: 0 <= j < |users| ==> !(users[j].email == email && users[j].password == password))
    ensures !(email == DemoEmail && password == DemoPassword) && r.Some? ==>
      exists i :: 0 <= i < |users| && users[i].email == email && users[i].password == password && r.value == Session(users[i]) &&
        forall j :: 0 <= j < i ==> !(users[j].email == email && users[j].password == password)
  {
    var found := Find(users, Matches(email, password));
    if email == DemoEmail && password == DemoPassword then Some(DemoUser)
    else if found.Some? then Some(Session(found.value))
    else None
  }

  /** Whether some stored user already has the email. */
  predicate EmailTaken(users: seq<StoredUser>, email: string) {
    Find(users, HasEmail(email)).Some?
  }

  /** What signup decides: a rejection, or the list with the new user appended and the
      session user made from it. */
  datatype SignupOutcome = Rejected(error: string) | Registered(users: seq<StoredUser>, session: SessionUser)

  function SignupDecision(users: seq<StoredUser>, name: string, email: string, password: string, newId: string): (r: SignupOutcome)
    ensures r.Rejected? <==> exists j :: 0 <= j < |users| && users[j].email == email
    ensures r.Rejected? ==> r.error == EmailRegistered
    ensures r.Registered? ==> r.users == users + [StoredUser(newId, name, email, password)]
    ensures r.Registered? ==> r.session == SessionUser(newId, name, email)
  {
    if EmailTaken(users, email) then Rejected(EmailRegistered)
    else Registered(users + [StoredUser(newId, name, email, password)], SessionUser(newId, name, email))
  }

  /** After a successful signup, logging in with the same email and password signs
      in as the new user (or as the demo user for the demo credentials), and the
      email can no longer be registered. */
  lemma SignupThenLogin(users: seq<StoredUser>, name: string, email: string, password: string, newId: string)
    requires SignupDecision(users, name, email, password, newId).Registered?
    ensures var users' := SignupDecision(users, name, email, password, newId).users;
      && LoginDecision(users', email, password) ==
        (if email == DemoEmail && password == DemoPassword then Some(DemoUser) else Some(SessionUser(newId, name, email)))
      && SignupDecision(users', name, email, password, newId) == Rejected(EmailRegistered)
  {
    var users' := SignupDecision(users, name, email, password, newId).users;
    var n := |users|;
    assert users'[n].email == email;
    if !(email == DemoEmail && password == DemoPassword) {
      var r := LoginDecision(users', email, password);
      assert users'[n].password == password;
      assert forall j :: 0 <= j < n ==> users'[j] == users[j] && users'[j].email != email;
      var i :| 0 <= i < |users'| && users'[i].email == email && users'[i].password == password && r.value == Session(users'[i]) &&
        forall j :: 0 <= j < i ==> !(users'[j].email == email && users'[j].password == password);
      assert i == n;
    }
  }

  /** The result login returns: success exactly when someone is signed in, otherwise
      its one message. */
  function LoginResult(users: seq<StoredUser>, email: string, password: string): (r: AuthResult)
    ensures r == Success <==> LoginDecision(users, email, password).Some?
    ensures r.Failure? ==> r.error == InvalidCredentials
  {
    if LoginDecision(users, email, password).Some? then Success else Failure(InvalidCredentials)
  }

  class AuthProvider {
    /** The stored users. */
    var users: seq<StoredUser>
    /** The signed-in user; None is null. */
    var user: Option<SessionUser>

    /** Mounting: the stored users and the stored session user, if any. */
    constructor (storedUsers: seq<StoredUser>, storedSession: Option<SessionUser>)
      ensures users == storedUsers && user == storedSession
    {
      users := storedUsers;
      user := storedSession;
    }

    /** login: on success the session user is the decided one; on failure the session
        is left as it was. The stored users never change. */
    method Login(email: string, password: string) returns (r: AuthResult)
      modifies this
      ensures r == LoginResult(old(users), email, password)
      ensures r == Success ==> user == LoginDecision(old(users), email, password)
      ensures r.Failure? ==> user == old(user)
      ensures users == old(users)
    {
      var decided := LoginDecision(users, email, password);
      r := LoginResult(users, email, password);
      if decided.Some? {
        user := decided;
      }
    }

    /** signup: a registered email is refused and nothing changes; otherwise exactly
        one user is appended and signed in without the password. */
    method Signup(name: string, email: string, password: string, newId: string) returns (r: AuthResult)
      modifies this
      ensures var d := SignupDecision(old(users), name, email, password, newId);
        && (d.Rejected? ==> r == Failure(d.error) && users == old(users) && user == old(user))
        && (d.Registered? ==> r == Success && users == d.users && user == Some(d.session))
    {
      var d := SignupDecision(users, name, email, password, newId);
      match d {
        case Rejected(e) =>
          r := Failure(e);
        case Registered(us, s) =>
          users := us;
          user := Some(s);
          r := Success;
      }
    }

    /** logout: nobody is signed in; the stored users stay. */
    method Logout()
      modifies this
      ensures user.None? && users == old(users)
    {
      user := None;
    }
  }
}

/** Demo authentication (context/AuthContext.tsx): two hard-coded accounts,
    a session persisted in local storage and restored on start. */
module Auth {
  import opened Wrappers
  import opened Types

  datatype AuthState = AuthState(user: Option<User>, stored: Stored<User>, isLoading: bool)

  const AdminUser: User := User("admin-1", "Administrator", "admin@flow.com", Admin,
    Some("https://ui-avatars.com/api/?name=Admin&background=4f46e5&color=fff"))

  const RegularUser: User := User("user-1", "Project Manager", "user@flow.com", Member,
    Some("https://ui-avatars.com/api/?name=PM&background=0ea5e9&color=fff"))

  /** State before the restore effect has run. */
  function Initial(stored: Stored<User>): AuthState {
    AuthState(None, stored, true)
  }

  /** The restore effect. The stored session is parsed without a guard, so an
      unparsable value throws out of the effect before loading is cleared. */
  function Restore(s: AuthState): (r: Result<AuthState, string>)
    ensures s.stored.Corrupt? <==> r.Failure?
    ensures s.stored.Parsed? ==> r == Success(s.(user := Some(s.stored.value), isLoading := false))
    ensures s.stored.Missing? ==> r == Success(s.(isLoading := false))
  {
    match s.stored
    case Missing => Success(s.(isLoading := false))
    case Corrupt => Failure("stored session is not valid JSON")
    case Parsed(u) => Success(s.(user := Some(u), isLoading := false))
  }

  /** `login`: the resolved boolean and the new state. */
  function Login(s: AuthState, email: string, password: string): (r: (bool, AuthState))
    ensures r.0 <==>
      (email == "admin@flow.com" && password == "admin123") || (email == "user@flow.com" && password == "user123")
    ensures !r.0 ==> r.1 == s
    ensures r.0 ==> r.1.user.Some? && r.1.stored == Parsed(r.1.user.value)
    ensures r.0 ==> r.1.isLoading == s.isLoading
    ensures r.0 && email == "admin@flow.com" ==> r.1.user.value.id == "admin-1" && r.1.user.value.role == Admin
    ensures r.0 && email == "user@flow.com" ==> r.1.user.value.id == "user-1" && r.1.user.value.role == Member
  {
    if email == "admin@flow.com" && password == "admin123" then
      (true, s.(user := Some(AdminUser), stored := Parsed(AdminUser)))
    else if email == "user@flow.com" && password == "user123" then
      (true, s.(user := Some(RegularUser), stored := Parsed(RegularUser)))
    else (false, s)
  }

  /** `logout`: no user and no stored session. */
  function Logout(s: AuthState): (r: AuthState)
    ensures r.user.None? && r.stored == Missing && r.isLoading == s.isLoading
  {
    s.(user := None, stored := Missing)
  }

  /** A correct email with a wrong password is refused. */
  lemma WrongPasswordRefused(s: AuthState, password: string)
    ensures password != "admin123" ==> !Login(s, "admin@flow.com", password).0
    ensures password != "user123" ==> !Login(s, "user@flow.com", password).0
  {
  }

  /** After a successful login, a reload restores exactly that user. */
  lemma LoginSurvivesReload(s: AuthState, email: string, password: string)
    requires Login(s, email, password).0
    ensures Restore(Initial(Login(s, email, password).1.stored))
      == Success(AuthState(Login(s, email, password).1.user, Login(s, email, password).1.stored, false))
  {
  }

  /** After logout, a reload starts signed out. */
  lemma LogoutSurvivesReload(s: AuthState)
    ensures Restore(Initial(Logout(s).stored)) == Success(AuthState(None, Missing, false))
  {
  }
}

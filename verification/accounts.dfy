/**
 * The simulated account system: a user table and a login session, both kept
 * in the per-browser session record. Each session key is an `Option`: `None`
 * is a key that is absent from the record.
 */
module Accounts {
  import opened Wrappers

  datatype Account = Account(password: string, role: string, name: string)

  const TokenPrefix := "eyJhbGciOiJIUzI1NiIsInR5cCI6IkpXVCJ9.simulated_payload."
  const LoginFailed := "Invalid username or password."
  const UsernameTaken := "Username already exists."
  const MissingFields := "Please fill in all fields."
  const PasswordMismatch := "Passwords do not match."
  const NewUserRole := "editor"

  /** The accounts a new session starts with. */
  function DefaultUsers(): map<string, Account>
  {
    map["admin" := Account("123", "admin", "Admin User"),
        "user" := Account("123", "editor", "Standard Editor")]
  }

  function WelcomeMessage(name: string): string
  {
    "Login successful \U{2705}. Welcome, " + name + "!"
  }

  /** The simulated token handed out on login. */
  function Token(user: string): string
  {
    TokenPrefix + user
  }

  /** `user` exists and `password` is its password. */
  predicate Authenticates(users: map<string, Account>, user: string, password: string)
  {
    user in users && users[user].password == password
  }

  /** The registration form's own checks, made before any registration is attempted. */
  function RegistrationFormError(name: string, user: string, password: string, confirm: string): (e: Option<string>)
    ensures e == None <==> name != "" && user != "" && password != "" && password == confirm
    ensures e == Some(PasswordMismatch) <==> name != "" && user != "" && password != "" && confirm != "" && password != confirm
  {
    if name == "" || user == "" || password == "" || confirm == "" then Some(MissingFields)
    else if password != confirm then Some(PasswordMismatch)
    else None
  }

  class Session {
    var users: Option<map<string, Account>>
    var loggedIn: Option<bool>
    var authMode: Option<string>
    var username: Option<string>
    var userRole: Option<string>
    var userName: Option<string>
    var jwtToken: Option<string>

    /** A fresh session record, before the application has run. */
    constructor ()
      ensures users == None && loggedIn == None && authMode == None
      ensures username == None && userRole == None && userName == None && jwtToken == None
    {
      users, loggedIn, authMode := None, None, None;
      username, userRole, userName, jwtToken := None, None, None, None;
    }

    /** Fills in the user table and the login flag when absent; runs at every page run. */
    method Initialize()
      modifies this
      ensures users == (if old(users) == None then Some(DefaultUsers()) else old(users))
      ensures old(loggedIn) == None ==> loggedIn == Some(false) && authMode == Some("login")
      ensures old(loggedIn) != None ==> loggedIn == old(loggedIn) && authMode == old(authMode)
      ensures username == old(username) && userRole == old(userRole)
      ensures userName == old(userName) && jwtToken == old(jwtToken)
    {
      if users == None {
        users := Some(DefaultUsers());
      }
      if loggedIn == None {
        loggedIn := Some(false);
        authMode := Some("login");
      }
    }

    /** Logs in when the user exists with that password; otherwise changes nothing. */
    method Login(user: string, password: string) returns (success: bool, message: string)
      requires users != None
      modifies this
      ensures success <==> Authenticates(old(users).value, user, password)
      ensures users == old(users) && authMode == old(authMode)
      ensures success ==>
        && loggedIn == Some(true)
        && username == Some(user)
        && userRole == Some(users.value[user].role)
        && userName == Some(users.value[user].name)
        && jwtToken == Some(Token(user))
        && message == WelcomeMessage(users.value[user].name)
      ensures !success ==> unchanged(this) && message == LoginFailed
    {
      var db := users.value;
      if user in db && password == db[user].password {
        loggedIn := Some(true);
        username := Some(user);
        userRole := Some(db[user].role);
        userName := Some(db[user].name);
        jwtToken := Some(Token(user));
        return true, WelcomeMessage(db[user].name);
      }
      return false, LoginFailed;
    }

    /** Adds an editor account for a new username and logs it in; refuses a taken username. */
    method Register(user: string, password: string, name: string) returns (success: bool, message: string)
      requires users != None
      modifies this
      ensures user in old(users).value ==> !success && message == UsernameTaken && unchanged(this)
      ensures user !in old(users).value ==>
        && success
        && users == Some(old(users).value[user := Account(password, NewUserRole, name)])
        && loggedIn == Some(true)
        && username == Some(user)
        && userRole == Some(NewUserRole)
        && userName == Some(name)
        && jwtToken == Some(Token(user))
        && message == WelcomeMessage(name)
      ensures authMode == old(authMode)
    {
      var db := users.value;
      if user in db {
        return false, UsernameTaken;
      }
      users := Some(db[user := Account(password, NewUserRole, name)]);
      success, message := Login(user, password);
    }

    /** The registration form: checks the fields, then registers. */
    method SubmitRegistration(name: string, user: string, password: string, confirm: string)
      returns (success: bool, message: string)
      requires users != None
      modifies this
      ensures RegistrationFormError(name, user, password, confirm).Some? ==>
        !success && message == RegistrationFormError(name, user, password, confirm).value && unchanged(this)
      ensures RegistrationFormError(name, user, password, confirm) == None && user in old(users).value ==>
        !success && message == UsernameTaken && unchanged(this)
      ensures success <==> RegistrationFormError(name, user, password, confirm) == None && user !in old(users).value
      ensures success ==>
        && users == Some(old(users).value[user := Account(password, NewUserRole, name)])
        && loggedIn == Some(true)
        && username == Some(user)
        && userRole == Some(NewUserRole)
        && userName == Some(name)
        && jwtToken == Some(Token(user))
        && message == "Registration successful! " + WelcomeMessage(name)
      ensures authMode == old(authMode)
      ensures !success ==> users == old(users)
    {
      var formError := RegistrationFormError(name, user, password, confirm);
      if formError.Some? {
        return false, formError.value;
      }
      success, message := Register(user, password, name);
      if success {
        message := "Registration successful! " + message;
      }
    }

    /** Clears every session key, then records that nobody is logged in. */
    method Logout()
      modifies this
      ensures loggedIn == Some(false)
      ensures users == None && authMode == None
      ensures username == None && userRole == None && userName == None && jwtToken == None
    {
      users, loggedIn, authMode := None, None, None;
      username, userRole, userName, jwtToken := None, None, None, None;
      loggedIn := Some(false);
    }
  }

  /**
   * Logging out and running the page again brings back the default user
   * table, whatever table the session held: an account registered in the
   * session no longer logs in, and no earlier registration survives.
   */
  method LogoutForgetsRegistrations(s: Session, user: string, password: string, name: string)
    requires s.users != None && user !in s.users.value
    requires user !in DefaultUsers()
    modifies s
    ensures s.users == Some(DefaultUsers()) && s.loggedIn == Some(false)
    ensures !Authenticates(s.users.value, user, password)
    ensures forall u :: u in old(s.users).value && u !in DefaultUsers() ==> u !in s.users.value
  {
    var ok, _ := s.Register(user, password, name);
    assert ok && Authenticates(s.users.value, user, password);
    s.Logout();
    s.Initialize();
  }
}

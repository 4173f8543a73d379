/**
 * Local, browser-only accounts: a credentials map from e-mail to password and
 * user id, the stored signed-in user, and the signed-in user of the running
 * app. Sign-up registers a new e-mail, sign-in checks the password, sign-out
 * forgets the user.
 *
 * The fresh user id and the creation time are parameters.
 */
module Auth {
  import opened Strings

  datatype LocalUser = LocalUser(id: string, email: string, createdAt: string)

  /** One entry of the credentials map. */
  datatype Credential = Credential(password: string, userId: string)

  /** How an operation ends: normally, or by throwing an `Error` with this
      message. */
  datatype Outcome = Done | Failed(message: string)

  const UserExistsMessage := "User already exists"
  const InvalidCredentialsMessage := "Invalid credentials"

  /** The check `signIn` makes: the e-mail must be registered with exactly
      this password; the answer is the registered user id. */
  function Authenticate(credentials: map<string, Credential>, email: string, password: string): (id: Option<string>)
    ensures id.Some? <==> email in credentials && credentials[email].password == password
    ensures id.Some? ==> id.value == credentials[email].userId
  {
    if email in credentials && credentials[email].password == password then Some(credentials[email].userId)
    else None
  }

  /** Registering an e-mail makes that e-mail and password sign in as the new
      user id. */
  lemma RegisteredSignsIn(credentials: map<string, Credential>, email: string, password: string, userId: string)
    ensures Authenticate(credentials[email := Credential(password, userId)], email, password) == Some(userId)
  {
  }

  /** Registering an e-mail changes nothing for any other e-mail. */
  lemma RegistrationIsLocal(credentials: map<string, Credential>, email: string, password: string, userId: string,
                            other: string, otherPassword: string)
    requires other != email
    ensures Authenticate(credentials[email := Credential(password, userId)], other, otherPassword)
            == Authenticate(credentials, other, otherPassword)
  {
  }

  /** A registered e-mail signs in with one password only. */
  lemma OnePasswordPerEmail(credentials: map<string, Credential>, email: string, p1: string, p2: string)
    requires Authenticate(credentials, email, p1).Some? && Authenticate(credentials, email, p2).Some?
    ensures p1 == p2
  {
  }

  class AuthStore {
    /** The credentials map kept in the browser's storage. */
    var credentials: map<string, Credential>
    /** The signed-in user kept in the browser's storage. */
    var storedUser: Option<LocalUser>
    /** The signed-in user of the running app (`null` is `None`). */
    var user: Option<LocalUser>

    /** Start-up: the stored user, if any, is signed in. */
    constructor (credentials0: map<string, Credential>, storedUser0: Option<LocalUser>)
      ensures credentials == credentials0 && storedUser == storedUser0 && user == storedUser0
    {
      credentials := credentials0;
      storedUser := storedUser0;
      user := storedUser0;
    }

    /** `signUp(email, password)`; `newId` is the fresh uuid and `now` the
        creation time. */
    method SignUp(email: string, password: string, newId: string, now: string) returns (outcome: Outcome)
      modifies this
      ensures email in old(credentials) ==>
                outcome == Failed(UserExistsMessage)
                && credentials == old(credentials) && user == old(user) && storedUser == old(storedUser)
      ensures email !in old(credentials) ==>
                outcome == Done
                && credentials == old(credentials)[email := Credential(password, newId)]
                && user == Some(LocalUser(newId, email, now)) && storedUser == user
      ensures outcome.Done? ==> Authenticate(credentials, email, password) == Some(user.value.id)
    {
      if email in credentials {
        return Failed(UserExistsMessage);
      }
      var newUser := LocalUser(newId, email, now);
      credentials := credentials[email := Credential(password, newUser.id)];
      storedUser := Some(newUser);
      user := Some(newUser);
      outcome := Done;
    }

    /** `signIn(email, password)` */
    method SignIn(email: string, password: string, now: string) returns (outcome: Outcome)
      modifies this`user, this`storedUser
      ensures Authenticate(credentials, email, password).None? ==>
                outcome == Failed(InvalidCredentialsMessage) && user == old(user) && storedUser == old(storedUser)
      ensures Authenticate(credentials, email, password).Some? ==>
                outcome == Done
                && user == Some(LocalUser(Authenticate(credentials, email, password).value, email, now))
                && storedUser == user
    {
      if email !in credentials || credentials[email].password != password {
        return Failed(InvalidCredentialsMessage);
      }
      var stored := credentials[email];
      var loggedIn := LocalUser(stored.userId, email, now);
      storedUser := Some(loggedIn);
      user := Some(loggedIn);
      outcome := Done;
    }

    /** `signOut()` */
    method SignOut()
      modifies this`user, this`storedUser
      ensures user == None && storedUser == None
    {
      storedUser := None;
      user := None;
    }
  }

  /** Sign-up followed by sign-in with the same e-mail and password signs in
      as the user that sign-up created. */
  method SignUpThenSignIn(store: AuthStore, email: string, password: string, newId: string, t1: string, t2: string)
    returns (first: Outcome, second: Outcome)
    modifies store
    ensures first.Done? ==> second.Done? && store.user.Some? && store.user.value.id == newId
                            && store.user.value.email == email
    ensures email !in old(store.credentials) ==> first.Done?
  {
    first := store.SignUp(email, password, newId, t1);
    second := store.SignIn(email, password, t2);
  }
}

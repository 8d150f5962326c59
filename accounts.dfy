/**
 * The local account registry of the sign-in page: user records kept in
 * browser storage under their e-mail, a stored "current user" e-mail, and
 * the page's form and status fields. Sign-up, sign-in and sign-out move
 * between signed out and signed in.
 */
module Accounts {
  import opened Wrappers

  datatype User = User(email: string, fullName: string, password: string, registeredAt: string)

  const MinPasswordLength: nat := 6

  const FillAllFields: string := "Fadlan buuxi dhammaan goobaha"
  const PasswordTooShort: string := "Password-ku waa in uu ka badan yahay 6 xaraf"
  const AlreadyRegistered: string := "User-kan horay ayuu u jiray. Fadlan gal"
  const AccountCreated: string := "\U{2705} Akoon ayaa loo sameeyay! Hadda gal"
  const EnterCredentials: string := "Fadlan gali email iyo password"
  const UnknownUser: string := "User-kan ma jiro. Fadlan diwan geli"
  const WrongPassword: string := "Password qalad ah"

  /** `getUserData`: the record stored for `email`, if there is one. */
  function GetUserData(users: map<string, User>, email: string): (r: Option<User>)
    ensures r.Some? <==> email in users
    ensures r.Some? ==> r.value == users[email]
  {
    if email in users then Some(users[email]) else None
  }

  /** `saveUserData`: stores `u` under its e-mail; every other record stays. */
  function SaveUserData(users: map<string, User>, u: User): (r: map<string, User>)
    ensures r.Keys == users.Keys + {u.email}
    ensures u.email in r && r[u.email] == u
    ensures forall e :: e in users && e != u.email ==> r[e] == users[e]
  {
    users[u.email := u]
  }

  /**
   * The checks of `handleSignUp`, in their order: all three fields filled,
   * a password of at least six characters, an e-mail not yet registered.
   * The outcome is the record to store or the error to show.
   */
  function SignUpOutcome(users: map<string, User>, email: string, password: string, fullName: string, now: string)
    : (r: Result<User, string>)
    ensures r.Success? <==>
      email != [] && password != [] && fullName != [] && |password| >= MinPasswordLength && email !in users
    ensures (email == [] || password == [] || fullName == []) ==> r == Failure(FillAllFields)
    ensures email != [] && password != [] && fullName != [] && |password| < MinPasswordLength ==> r == Failure(PasswordTooShort)
    ensures email != [] && password != [] && fullName != [] && |password| >= MinPasswordLength && email in users
      ==> r == Failure(AlreadyRegistered)
    ensures r.Success? ==> r.value == User(email, fullName, password, now)
  {
    if email == [] || password == [] || fullName == [] then Failure(FillAllFields)
    else if |password| < MinPasswordLength then Failure(PasswordTooShort)
    else if GetUserData(users, email).Some? then Failure(AlreadyRegistered)
    else Success(User(email, fullName, password, now))
  }

  /**
   * The checks of `handleSignIn`: both fields filled, a record for the
   * e-mail, and the stored password equal to the one typed.
   */
  function SignInOutcome(users: map<string, User>, email: string, password: string): (r: Result<User, string>)
    ensures r.Success? <==> email != [] && password != [] && email in users && users[email].password == password
    ensures r.Success? ==> r.value == users[email]
    ensures (email == [] || password == []) ==> r == Failure(EnterCredentials)
    ensures email != [] && password != [] && email !in users ==> r == Failure(UnknownUser)
    ensures email != [] && password != [] && email in users && users[email].password != password
      ==> r == Failure(WrongPassword)
  {
    if email == [] || password == [] then Failure(EnterCredentials)
    else match GetUserData(users, email)
      case None => Failure(UnknownUser)
      case Some(u) => if u.password != password then Failure(WrongPassword) else Success(u)
  }

  /** What sign-up guarantees of every stored record: filed under its own non-empty e-mail, with a full name and a long enough password. */
  ghost predicate WellFormed(users: map<string, User>)
  {
    forall e :: e in users ==>
      e != [] && users[e].email == e && users[e].fullName != [] && |users[e].password| >= MinPasswordLength
  }

  /** Sign-up keeps the store well formed and never overwrites a record. */
  lemma SignUpKeepsStore(users: map<string, User>, email: string, password: string, fullName: string, now: string)
    requires WellFormed(users)
    requires SignUpOutcome(users, email, password, fullName, now).Success?
    ensures var after := SaveUserData(users, SignUpOutcome(users, email, password, fullName, now).value);
      && WellFormed(after)
      && |after| == |users| + 1
      && forall e :: e in users ==> e in after && after[e] == users[e]
  {
    var u := SignUpOutcome(users, email, password, fullName, now).value;
    var after := SaveUserData(users, u);
    assert after.Keys == users.Keys + {email};
    assert email !in users.Keys;
  }

  /** Right after a successful sign-up, signing in with the same e-mail and password succeeds with the new record. */
  lemma SignInAfterSignUp(users: map<string, User>, email: string, password: string, fullName: string, now: string)
    requires SignUpOutcome(users, email, password, fullName, now).Success?
    ensures var u := SignUpOutcome(users, email, password, fullName, now).value;
      SignInOutcome(SaveUserData(users, u), email, password) == Success(u)
  {
  }

  /** In a well-formed store a sign-in succeeds exactly when a record exists and its password matches; the empty-field check never rejects such a pair. */
  lemma SignInOnWellFormed(users: map<string, User>, email: string, password: string)
    requires WellFormed(users)
    ensures SignInOutcome(users, email, password).Success? <==> email in users && users[email].password == password
  {
    if email in users && users[email].password == password {
      assert |password| >= MinPasswordLength;
    }
  }

  /** The page: the stored accounts and session, and the form and status fields. */
  class Home {
    var users: map<string, User>          // the `user_<email>` entries of browser storage
    var currentUserEmail: Option<string>  // the `currentUserEmail` entry of browser storage
    var currentUser: Option<User>         // signed in when Some
    var email: string
    var password: string
    var fullName: string
    var error: string
    var message: string
    var loading: bool

    /** Mounting the page: a stored, non-empty current e-mail with a record behind it restores the session. */
    constructor (storedUsers: map<string, User>, storedEmail: Option<string>)
      ensures users == storedUsers && currentUserEmail == storedEmail
      ensures currentUser == (if storedEmail.Some? && storedEmail.value != [] then GetUserData(storedUsers, storedEmail.value) else None)
      ensures email == [] && password == [] && fullName == [] && error == [] && message == [] && !loading
    {
      users, currentUserEmail := storedUsers, storedEmail;
      email, password, fullName, error, message, loading := [], [], [], [], [], false;
      currentUser := None;
      if storedEmail.Some? && storedEmail.value != [] {
        var userData := GetUserData(storedUsers, storedEmail.value);
        if userData.Some? {
          currentUser := userData;
        }
      }
    }

    /**
     * `handleSignUp`: on any failed check the store and the form stay and the
     * error is shown; on success the record is stored, the form is cleared
     * and the success message shown. It never signs anyone in.
     */
    method SignUp(now: string)
      modifies this
      ensures !loading
      ensures currentUser == old(currentUser) && currentUserEmail == old(currentUserEmail)
      ensures var r := SignUpOutcome(old(users), old(email), old(password), old(fullName), now);
        && (r.Failure? ==>
              users == old(users) && error == r.error && message == []
              && email == old(email) && password == old(password) && fullName == old(fullName))
        && (r.Success? ==>
              users == SaveUserData(old(users), r.value) && error == [] && message == AccountCreated
              && email == [] && password == [] && fullName == [])
    {
      error := [];
      message := [];
      loading := true;

      if email == [] || password == [] || fullName == [] {
        error := FillAllFields;
        loading := false;
        return;
      }

      if |password| < MinPasswordLength {
        error := PasswordTooShort;
        loading := false;
        return;
      }

      var existingUser := GetUserData(users, email);
      if existingUser.Some? {
        error := AlreadyRegistered;
        loading := false;
        return;
      }

      var newUser := User(email, fullName, password, now);
      users := SaveUserData(users, newUser);
      message := AccountCreated;
      email := [];
      password := [];
      fullName := [];
      loading := false;
    }

    /**
     * `handleSignIn`: on success the record becomes the current user and its
     * e-mail is stored as the session; on every failure the session stays
     * and the error is shown. The store and the form are never changed.
     */
    method SignIn()
      modifies this
      ensures !loading
      ensures users == old(users) && message == old(message)
      ensures email == old(email) && password == old(password) && fullName == old(fullName)
      ensures var r := SignInOutcome(old(users), old(email), old(password));
        && (r.Failure? ==>
              currentUser == old(currentUser) && currentUserEmail == old(currentUserEmail) && error == r.error)
        && (r.Success? ==>
              currentUser == Some(r.value) && currentUserEmail == Some(email) && error == [])
    {
      error := [];
      loading := true;

      if email == [] || password == [] {
        error := EnterCredentials;
        loading := false;
        return;
      }

      var userData := GetUserData(users, email);
      if userData.None? {
        error := UnknownUser;
        loading := false;
        return;
      }

      if userData.value.password != password {
        error := WrongPassword;
        loading := false;
        return;
      }

      currentUser := userData;
      currentUserEmail := Some(email);
      loading := false;
    }

    /** `handleSignOut`: ends the session and clears the e-mail and password fields; the stored records stay. */
    method SignOut()
      modifies this
      ensures currentUser == None && currentUserEmail == None
      ensures users == old(users) && email == [] && password == []
      ensures fullName == old(fullName) && error == old(error) && message == old(message) && loading == old(loading)
    {
      currentUser := None;
      currentUserEmail := None;
      email := [];
      password := [];
    }
  }
}

/**
  The account store of `server.js`: a map from username to `{ password: <bcrypt hash> }`,
  and what the `signup` and `login` handlers do to it and answer, as functions of the map
  they load. The class that owns the persisted file and runs these handlers is in Gateway.
 */
module Accounts {
  import opened Wrappers
  import opened Bcrypt

  /** The value stored under a username in `users.json`. */
  datatype Record = Record(password: string)

  /** The parsed contents of `users.json`. Membership is key presence. */
  type Users = map<string, Record>

  /** The events the handlers emit back on the socket. */
  datatype Response =
    | SignupError(message: string)
    | SignupSuccess(message: string)
    | LoginRes(success: bool, message: string)

  const UsernameTaken := "Username already exists"
  const Registered := "User registered successfully"
  const UserNotFound := "User not found"
  const LoginSucceeded := "Login successful"
  const IncorrectPassword := "Incorrect password"

  /** Every stored password is a bcrypt hash made by `hashSync`, never plaintext. */
  ghost predicate AllHashed(users: Users) {
    forall u :: u in users ==> ParseSetting(users[u].password).Some?
  }

  /**
    The `signup` handler on the loaded map: a taken name is refused and nothing is written;
    otherwise the name is bound to the hash of the password and the new map is the one saved.
   */
  function Signup(kdf: Kdf, users: Users, username: string, password: string, salt: Salt): (r: (Users, Response))
    ensures username in users ==> r == (users, SignupError(UsernameTaken))
    ensures username !in users ==>
      && r.1 == SignupSuccess(Registered)
      && r.0.Keys == users.Keys + {username}
      && CompareSync(kdf, password, r.0[username].password)
      && ParseSetting(r.0[username].password) == Some(Setting('b', Rounds, salt))
      && (forall u :: u in users ==> r.0[u] == users[u])
  {
    if username in users then
      (users, SignupError(UsernameTaken))
    else
      (users[username := Record(HashSync(kdf, password, salt))], SignupSuccess(Registered))
  }

  /**
    The `login` handler on the loaded map: an unknown name, then a password check against
    the stored hash. It answers and never writes.
   */
  function Login(kdf: Kdf, users: Users, username: string, password: string): (r: Response)
    ensures r.LoginRes?
    ensures r.success <==> username in users && CompareSync(kdf, password, users[username].password)
    ensures username !in users ==> r.message == UserNotFound
    ensures username in users ==> r.message == (if r.success then LoginSucceeded else IncorrectPassword)
  {
    if username !in users then
      LoginRes(false, UserNotFound)
    else if CompareSync(kdf, password, users[username].password) then
      LoginRes(true, LoginSucceeded)
    else
      LoginRes(false, IncorrectPassword)
  }

  /** A fresh signup followed by a login with the same credentials succeeds. */
  lemma SignupThenLogin(kdf: Kdf, users: Users, username: string, password: string, salt: Salt)
    requires username !in users
    ensures Signup(kdf, users, username, password, salt).1 == SignupSuccess(Registered)
    ensures Login(kdf, Signup(kdf, users, username, password, salt).0, username, password)
      == LoginRes(true, LoginSucceeded)
  {
  }

  /**
    After a fresh signup, a login with another password whose digest differs under the
    drawn salt is answered "Incorrect password".
   */
  lemma SignupThenWrongLogin(kdf: Kdf, users: Users, username: string, password: string,
                            other: string, salt: Salt)
    requires username !in users
    requires kdf(Rounds, salt, other) != kdf(Rounds, salt, password)
    ensures Login(kdf, Signup(kdf, users, username, password, salt).0, username, other)
      == LoginRes(false, IncorrectPassword)
  {
  }

  /** A second signup under a taken name, with any password, leaves the first record's hash as it was. */
  lemma DuplicateSignupKeepsHash(kdf: Kdf, users: Users, username: string, first: string,
                                 second: string, salt1: Salt, salt2: Salt)
    requires username !in users
    ensures var (after, _) := Signup(kdf, users, username, first, salt1);
            Signup(kdf, after, username, second, salt2) == (after, SignupError(UsernameTaken))
            && Login(kdf, Signup(kdf, after, username, second, salt2).0, username, first)
               == LoginRes(true, LoginSucceeded)
  {
  }

  /** Signup keeps every stored password a bcrypt hash. */
  lemma SignupKeepsHashed(kdf: Kdf, users: Users, username: string, password: string, salt: Salt)
    requires AllHashed(users)
    ensures AllHashed(Signup(kdf, users, username, password, salt).0)
  {
  }

  /**
    In a store where every password is a bcrypt hash, a password that is not itself shaped
    like a bcrypt hash is never what is stored.
   */
  lemma StoredIsNotPlaintext(users: Users, username: string, password: string)
    requires AllHashed(users) && username in users
    requires ParseSetting(password).None?
    ensures users[username].password != password
  {
  }
}

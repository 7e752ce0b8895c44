/**
  The server side of `server.js` that holds state: the persisted `users.json`, the helpers
  that load and save it, and the `signup` and `login` socket handlers, each answering with
  one emitted event. Also the dispatch of a connection's inbound events, one after another.
 */
module Gateway {
  import opened Wrappers
  import opened Bcrypt
  import opened Accounts

  /** The server: the key schedule bcrypt uses and the users file on disk. */
  class Server {
    const kdf: Kdf
    /** `users.json`: None while the file does not exist. */
    var usersFile: Option<Users>

    constructor (kdf: Kdf, usersFile: Option<Users>)
      ensures this.kdf == kdf && this.usersFile == usersFile
    {
      this.kdf := kdf;
      this.usersFile := usersFile;
    }

    /** The map every handler starts from: the file's contents, or empty when there is no file. */
    ghost function Stored(): Users
      reads this
    {
      if usersFile.Some? then usersFile.value else map[]
    }

    /** `loadUsers`: a missing file reads as the empty map. */
    method LoadUsers() returns (users: Users)
      ensures usersFile.None? ==> users == map[]
      ensures usersFile.Some? ==> users == usersFile.value
    {
      if usersFile.None? {
        return map[];
      }
      users := usersFile.value;
    }

    /** `saveUsers`: the whole file is replaced by the given map. */
    method SaveUsers(users: Users)
      modifies this`usersFile
      ensures usersFile == Some(users)
    {
      usersFile := Some(users);
    }

    /** A save followed by a load gives back the saved map. */
    method SaveThenLoad(users: Users) returns (loaded: Users)
      modifies this`usersFile
      ensures loaded == users && Stored() == users
    {
      SaveUsers(users);
      loaded := LoadUsers();
    }

    /**
      The `signup` handler. The file is rewritten only on success, and then holds exactly
      what `Accounts.Signup` computes from the map that was loaded.
     */
    method Signup(username: string, password: string, salt: Salt) returns (ev: Response)
      modifies this`usersFile
      ensures (Stored(), ev) == Accounts.Signup(kdf, old(Stored()), username, password, salt)
      ensures ev.SignupError? ==> usersFile == old(usersFile)
      ensures ev.SignupSuccess? ==> usersFile == Some(Stored())
    {
      var users := LoadUsers();
      if username in users {
        return SignupError(UsernameTaken);
      }
      var hashed := HashSync(kdf, password, salt);
      users := users[username := Record(hashed)];
      SaveUsers(users);
      ev := SignupSuccess(Registered);
    }

    /** The `login` handler: it may not modify anything, so the stored accounts stay as they were. */
    method Login(username: string, password: string) returns (ev: Response)
      ensures ev == Accounts.Login(kdf, Stored(), username, password)
      ensures ev.success <==> username in Stored() && CompareSync(kdf, password, Stored()[username].password)
    {
      var users := LoadUsers();
      if username !in users {
        return LoginRes(false, UserNotFound);
      }
      if CompareSync(kdf, password, users[username].password) {
        ev := LoginRes(true, LoginSucceeded);
      } else {
        ev := LoginRes(false, IncorrectPassword);
      }
    }

    /** Routes one inbound event to its handler and returns the one event emitted in answer. */
    method Dispatch(req: Request) returns (ev: Response)
      modifies this`usersFile
      ensures (Stored(), ev) == Handle(kdf, old(Stored()), req)
      ensures !ev.SignupSuccess? ==> usersFile == old(usersFile)
    {
      match req
      case SignupRequest(username, password, salt) =>
        ev := Signup(username, password, salt);
      case LoginRequest(username, password) =>
        ev := Login(username, password);
    }
  }

  /** The inbound socket events of the account store, with the salt a signup would draw. */
  datatype Request =
    | SignupRequest(username: string, password: string, salt: Salt)
    | LoginRequest(username: string, password: string)

  /** The event a handler may emit for a request: `signupError`/`signupSuccess` or `loginRes`. */
  predicate Answers(req: Request, ev: Response) {
    match req
    case SignupRequest(_, _, _) => ev.SignupError? || ev.SignupSuccess?
    case LoginRequest(_, _) => ev.LoginRes?
  }

  /** One handling cycle on the stored map: the map afterwards and the event emitted. */
  function Handle(kdf: Kdf, users: Users, req: Request): (r: (Users, Response))
    ensures Answers(req, r.1)
    ensures req.LoginRequest? ==> r.0 == users
  {
    match req
    case SignupRequest(username, password, salt) => Accounts.Signup(kdf, users, username, password, salt)
    case LoginRequest(username, password) => (users, Accounts.Login(kdf, users, username, password))
  }

  /** A connection's events handled in order, each on the map the previous one left. */
  function Serve(kdf: Kdf, users: Users, reqs: seq<Request>): (Users, seq<Response>)
    decreases |reqs|
  {
    if reqs == [] then (users, [])
    else
      var (next, ev) := Handle(kdf, users, reqs[0]);
      var (last, evs) := Serve(kdf, next, reqs[1..]);
      (last, [ev] + evs)
  }

  /**
    Over any sequence of events: exactly one answer per event, of the kind the event calls
    for; no account is ever removed or overwritten; and a store of hashes stays one.
   */
  lemma {:induction false} ServeFacts(kdf: Kdf, users: Users, reqs: seq<Request>)
    ensures var (last, evs) := Serve(kdf, users, reqs);
      && |evs| == |reqs|
      && (forall i :: 0 <= i < |reqs| ==> Answers(reqs[i], evs[i]))
      && users.Keys <= last.Keys
      && (forall u :: u in users ==> last[u] == users[u])
      && (AllHashed(users) ==> AllHashed(last))
    decreases |reqs|
  {
    if reqs != [] {
      var (next, ev) := Handle(kdf, users, reqs[0]);
      ServeFacts(kdf, next, reqs[1..]);
      var (last, evs) := Serve(kdf, users, reqs);
      assert evs[1..] == Serve(kdf, next, reqs[1..]).1;
      forall i | 0 <= i < |reqs| ensures Answers(reqs[i], evs[i]) {
        if i > 0 {
          assert reqs[i] == reqs[1..][i - 1] && evs[i] == evs[1..][i - 1];
        }
      }
    }
  }

  /**
    Registering "alice" with "secret1", registering the same name again, then logging in with the right
    and with a wrong password, on a server that starts without a users file.
   */
  method AliceScenario(kdf: Kdf, salt1: Salt, salt2: Salt) returns (evs: seq<Response>)
    requires kdf(Rounds, salt1, "wrong") != kdf(Rounds, salt1, "secret1")
    ensures evs == [SignupSuccess(Registered), SignupError(UsernameTaken),
                    LoginRes(true, LoginSucceeded), LoginRes(false, IncorrectPassword)]
  {
    var server := new Server(kdf, None);
    var e1 := server.Signup("alice", "secret1", salt1);
    var e2 := server.Signup("alice", "other", salt2);
    var e3 := server.Login("alice", "secret1");
    var e4 := server.Login("alice", "wrong");
    evs := [e1, e2, e3, e4];
  }
}

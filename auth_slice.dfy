/** The authentication slice: its own store of registered users and of the
    current session, the `register` and `login` thunks over that store, and
    the reducers over `{user, loading, error}`. */
module AuthSlice {
  import opened Records

  /** `{ username }`: who is logged in, as held in the state and under the "user" key. */
  datatype Session = Session(username: string)

  /** What a thunk settles to: `return { username }` or `rejectWithValue(reason)`. */
  datatype ThunkResult = Fulfilled(payload: Session) | Rejected(reason: string)

  datatype Thunk = LoginThunk | RegisterThunk

  const UserExists := "User already exists"
  const InvalidCredentials := "Invalid credentials"

  /** The text a rejected case falls back to when its payload is missing or empty. */
  function Fallback(thunk: Thunk): string {
    match thunk
    case LoginThunk => "Login failed"
    case RegisterThunk => "Registration failed"
  }

  /** `users.find(u => u.username === username || u.email === email)`. */
  function FindConflict(users: seq<User>, username: string, email: string): (r: Option<User>)
    ensures r.Some? <==> exists k :: 0 <= k < |users| && (users[k].username == username || users[k].email == email)
    ensures r.Some? ==> r.value in users && (r.value.username == username || r.value.email == email)
  {
    if users == [] then None
    else if users[0].username == username || users[0].email == email then Some(users[0])
    else FindConflict(users[1..], username, email)
  }

  /** `action.payload || fallback`: an empty string is falsy and falls back too,
      so the error a rejection leaves is never empty. */
  function RejectionText(thunk: Thunk, payload: Option<string>): (s: string)
    ensures s != ""
    ensures payload.Some? && payload.value != "" ==> s == payload.value
    ensures payload.None? || payload.value == "" ==> s == Fallback(thunk)
  {
    if payload.Some? && payload.value != "" then payload.value else Fallback(thunk)
  }

  /** A registration that passed the conflict check keeps names and emails distinct. */
  lemma RegisterKeepsDistinct(users: seq<User>, u: User)
    requires DistinctUsernames(users) && DistinctEmails(users)
    requires FindConflict(users, u.username, u.email).None?
    ensures DistinctUsernames(users + [u]) && DistinctEmails(users + [u])
  {
  }

  /** After a successful registration, logging in with the same credentials finds that user. */
  lemma RegisterThenLogin(users: seq<User>, u: User)
    requires FindConflict(users, u.username, u.email).None?
    ensures FindCredentials(users + [u], u.username, u.password) == Some(u)
  {
    FindCredentialsAppend(users, [u], u.username, u.password);
    assert FindCredentials([u][1..], u.username, u.password) == None;
  }

  /** The browser storage the slice uses: "registered_users" and "user". */
  class AuthStorage {
    var registeredUsers: seq<User>
    var currentUser: Option<Session>

    /** Storage as the page finds it; an absent key reads as the empty list or no session. */
    constructor (users: seq<User>, current: Option<Session>)
      ensures registeredUsers == users && currentUser == current
    {
      registeredUsers := users;
      currentUser := current;
    }

    /** `saveUserToStorage`: the stored list with the new user pushed at the end. */
    method SaveUserToStorage(u: User)
      modifies this`registeredUsers
      ensures registeredUsers == old(registeredUsers) + [u]
    {
      registeredUsers := registeredUsers + [u];
    }

    /** `saveCurrentUser`: the session `{username}` is stored. */
    method SaveCurrentUser(username: string)
      modifies this`currentUser
      ensures currentUser == Some(Session(username))
    {
      currentUser := Some(Session(username));
    }

    /** `clearCurrentUser`: the stored session is removed. */
    method ClearCurrentUser()
      modifies this`currentUser
      ensures currentUser == None
    {
      currentUser := None;
    }

    /** The `register` thunk: rejected when the username or the email is already
        stored, otherwise the user is stored, becomes the session, and is returned. */
    method Register(username: string, email: string, password: string) returns (r: ThunkResult)
      modifies this
      ensures FindConflict(old(registeredUsers), username, email).Some? ==>
                r == Rejected(UserExists)
                && registeredUsers == old(registeredUsers) && currentUser == old(currentUser)
      ensures FindConflict(old(registeredUsers), username, email).None? ==>
                r == Fulfilled(Session(username))
                && registeredUsers == old(registeredUsers) + [User(username, email, password)]
                && currentUser == Some(Session(username))
      ensures DistinctUsernames(old(registeredUsers)) && DistinctEmails(old(registeredUsers)) ==>
                DistinctUsernames(registeredUsers) && DistinctEmails(registeredUsers)
    {
      var existing := FindConflict(registeredUsers, username, email);
      if existing.Some? {
        return Rejected(UserExists);
      }
      var newUser := User(username, email, password);
      if DistinctUsernames(registeredUsers) && DistinctEmails(registeredUsers) {
        RegisterKeepsDistinct(registeredUsers, newUser);
      }
      SaveUserToStorage(newUser);
      SaveCurrentUser(username);
      r := Fulfilled(Session(username));
    }

    /** The `login` thunk: succeeds iff a stored user matches name and password,
        and only then stores the session. */
    method Login(username: string, password: string) returns (r: ThunkResult)
      modifies this`currentUser
      ensures r.Fulfilled? <==>
                exists k :: 0 <= k < |registeredUsers| && HasCredentials(registeredUsers[k], username, password)
      ensures r.Fulfilled? ==> r.payload == Session(username) && currentUser == Some(Session(username))
      ensures r.Rejected? ==> r.reason == InvalidCredentials && currentUser == old(currentUser)
    {
      var user := FindCredentials(registeredUsers, username, password);
      if user.None? {
        return Rejected(InvalidCredentials);
      }
      ghost var k :| 0 <= k < |registeredUsers| && HasCredentials(registeredUsers[k], username, password);
      SaveCurrentUser(username);
      assert HasCredentials(registeredUsers[k], username, password);
      r := Fulfilled(Session(username));
    }
  }

  /** The slice state `{user, loading, error}` and its reducers. */
  class AuthState {
    var user: Option<Session>
    var loading: bool
    var error: string

    /** `initialState`: the stored session if there is one, not loading, no error. */
    constructor (storage: AuthStorage)
      ensures user == storage.currentUser && !loading && error == ""
    {
      user := storage.currentUser;
      loading := false;
      error := "";
    }

    /** `logout`: no user, and the stored session is removed; `loading` and `error` stay. */
    method Logout(storage: AuthStorage)
      modifies this`user, storage`currentUser
      ensures user == None && storage.currentUser == None
      ensures loading == old(loading) && error == old(error)
    {
      user := None;
      storage.ClearCurrentUser();
    }

    /** `login.pending` and `register.pending`: loading, error cleared, user untouched. */
    method Pending()
      modifies this`loading, this`error
      ensures loading && error == "" && user == old(user)
    {
      loading := true;
      error := "";
    }

    /** `login.fulfilled` and `register.fulfilled`: done loading, the payload becomes
        the user and is stored again as the session; the error stays. */
    method Fulfilled(payload: Session, storage: AuthStorage)
      modifies this`loading, this`user, storage`currentUser
      ensures !loading && user == Some(payload) && storage.currentUser == Some(payload)
      ensures error == old(error)
    {
      loading := false;
      user := Some(payload);
      storage.SaveCurrentUser(payload.username);
    }

    /** `login.rejected` and `register.rejected`: done loading, the rejection text
        (or the thunk's fallback) becomes the error; the user stays. */
    method Rejected(thunk: Thunk, payload: Option<string>)
      modifies this`loading, this`error
      ensures !loading && error == RejectionText(thunk, payload) && user == old(user)
    {
      loading := false;
      error := RejectionText(thunk, payload);
    }
  }

  /** `dispatch(login(...))` run to completion: pending, the thunk, then fulfilled or rejected. */
  method DispatchLogin(state: AuthState, storage: AuthStorage, username: string, password: string)
      returns (r: ThunkResult)
    modifies state, storage
    ensures storage.registeredUsers == old(storage.registeredUsers)
    ensures r.Fulfilled? <==>
              exists k :: 0 <= k < |storage.registeredUsers|
                && HasCredentials(storage.registeredUsers[k], username, password)
    ensures !state.loading
    ensures r.Fulfilled? ==>
              state.user == Some(Session(username)) && state.error == ""
              && storage.currentUser == Some(Session(username))
    ensures r.Rejected? ==> state.user == old(state.user) && state.error == InvalidCredentials
    ensures r.Rejected? ==> storage.currentUser == old(storage.currentUser)
    ensures old(state.user) == old(storage.currentUser) ==> state.user == storage.currentUser
  {
    state.Pending();
    r := storage.Login(username, password);
    match r
    case Fulfilled(session) => state.Fulfilled(session, storage);
    case Rejected(reason) => state.Rejected(LoginThunk, Some(reason));
  }

  /** `dispatch(register(...))` run to completion: pending, the thunk, then fulfilled or rejected. */
  method DispatchRegister(state: AuthState, storage: AuthStorage, username: string, email: string, password: string)
      returns (r: ThunkResult)
    modifies state, storage
    ensures r.Rejected? <==> FindConflict(old(storage.registeredUsers), username, email).Some?
    ensures !state.loading
    ensures r.Fulfilled? ==>
              state.user == Some(Session(username)) && state.error == ""
              && storage.registeredUsers == old(storage.registeredUsers) + [User(username, email, password)]
              && storage.currentUser == Some(Session(username))
    ensures r.Rejected? ==>
              state.user == old(state.user) && state.error == UserExists
              && storage.registeredUsers == old(storage.registeredUsers)
              && storage.currentUser == old(storage.currentUser)
    ensures old(state.user) == old(storage.currentUser) ==> state.user == storage.currentUser
  {
    state.Pending();
    r := storage.Register(username, email, password);
    match r
    case Fulfilled(session) => state.Fulfilled(session, storage);
    case Rejected(reason) => state.Rejected(RegisterThunk, Some(reason));
  }

  /** A walk-through: register, logout, an email clash, a bad and a good login. */
  method AuthScenario() returns (users: seq<User>, session: Option<Session>)
    ensures users == [User("alice", "a@x.com", "pw")]
    ensures session == Some(Session("alice"))
  {
    var storage := new AuthStorage([], None);
    var state := new AuthState(storage);
    assert state.user == None;

    var r := DispatchRegister(state, storage, "alice", "a@x.com", "pw");
    assert r.Fulfilled? && state.user == Some(Session("alice"));
    assert storage.registeredUsers == [User("alice", "a@x.com", "pw")];

    state.Logout(storage);
    r := DispatchRegister(state, storage, "bob", "a@x.com", "pw2");
    assert storage.registeredUsers[0].email == "a@x.com";
    assert r.Rejected? && state.error == UserExists && state.user == None;

    r := DispatchLogin(state, storage, "alice", "wrong");
    assert !HasCredentials(storage.registeredUsers[0], "alice", "wrong");
    assert r.Rejected? && state.error == InvalidCredentials && state.user == None;

    r := DispatchLogin(state, storage, "alice", "pw");
    assert HasCredentials(storage.registeredUsers[0], "alice", "pw");
    assert state.user == Some(Session("alice")) == storage.currentUser;
    users, session := storage.registeredUsers, storage.currentUser;
  }
}

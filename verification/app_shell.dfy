/**
 * The application shell: it restores the signed-in user from browser storage
 * when it mounts, stores the user on login, forgets it on logout, and decides
 * which screen to show.
 *
 * `JSON.stringify`/`JSON.parse` are abstracted: storage holds either the text
 * that serialising a user produced, or some other text that does not parse.
 */
module AppShell {
  import opened Wrappers
  import opened Records

  const UserKey: string := "cbda_user"

  /** A value in browser storage. */
  datatype Stored = Serialized(user: User) | Unparseable(text: string)

  /** `JSON.parse` of a stored value: the user back, or a syntax error. */
  function Parse(s: Stored): (u: Option<User>)
    ensures s.Serialized? ==> u == Some(s.user)
    ensures s.Unparseable? ==> u.None?
  {
    if s.Serialized? then Some(s.user) else None
  }

  /** `if (storedUser)`: only the empty string is falsy among stored texts. */
  predicate IsTruthy(s: Stored) {
    !(s.Unparseable? && s.text == "")
  }

  datatype Screen = Spinner | LoginScreen | AdminScreen | StudentScreen

  /** The render decision: spinner while loading, login without a user, then by role. */
  function Route(loading: bool, user: Option<User>): (screen: Screen)
    ensures screen == Spinner <==> loading
    ensures screen == LoginScreen <==> !loading && user.None?
    ensures screen == AdminScreen <==> !loading && user.Some? && user.value.role == "admin"
    ensures screen == StudentScreen <==> !loading && user.Some? && user.value.role != "admin"
  {
    if loading then Spinner
    else if user.None? then LoginScreen
    else if user.value.role == "admin" then AdminScreen
    else StudentScreen
  }

  /** Only an administrator ever reaches the administrator's dashboard. */
  lemma OnlyAdminsSeeAdminScreen(loading: bool, user: Option<User>)
    requires Route(loading, user) == AdminScreen
    ensures user.Some? && user.value.role == "admin"
  {
  }

  class App {
    var user: Option<User>
    var loading: bool
    var storage: map<string, Stored>

    /** The hooks' initial state, over whatever storage already holds. */
    constructor (storage: map<string, Stored>)
      ensures user == None && loading && this.storage == storage
    {
      user := None;
      loading := true;
      this.storage := storage;
    }

    /** The screen the shell renders in its current state. */
    function View(): (screen: Screen)
      reads this
      ensures screen == Spinner <==> loading
      ensures screen == LoginScreen <==> !loading && user.None?
      ensures screen == AdminScreen ==> user.Some? && user.value.role == "admin"
    {
      Route(loading, user)
    }

    /**
     * The mount effect. A stored user that parses becomes the user; stored
     * text that does not parse is removed; the empty string is skipped. In
     * every case loading ends.
     */
    method Mount()
      modifies this
      ensures !loading
      ensures UserKey !in old(storage) ==> user == old(user) && storage == old(storage)
      ensures UserKey in old(storage) && !IsTruthy(old(storage)[UserKey]) ==>
                user == old(user) && storage == old(storage)
      ensures UserKey in old(storage) && old(storage)[UserKey].Serialized? ==>
                user == Some(old(storage)[UserKey].user) && storage == old(storage)
      ensures UserKey in old(storage) && IsTruthy(old(storage)[UserKey]) && old(storage)[UserKey].Unparseable? ==>
                user == old(user) && storage == old(storage) - {UserKey}
    {
      if UserKey in storage && IsTruthy(storage[UserKey]) {
        var parsed := Parse(storage[UserKey]);
        if parsed.Some? {
          user := parsed;
        } else {
          storage := storage - {UserKey};
        }
      }
      loading := false;
    }

    /** `handleLogin`: the user is kept and stored. */
    method HandleLogin(userData: User)
      modifies this
      ensures user == Some(userData)
      ensures storage == old(storage)[UserKey := Serialized(userData)]
      ensures loading == old(loading)
    {
      user := Some(userData);
      storage := storage[UserKey := Serialized(userData)];
    }

    /** `handleLogout`: the user is forgotten and its storage entry removed. */
    method HandleLogout()
      modifies this
      ensures user == None && UserKey !in storage
      ensures storage == old(storage) - {UserKey}
      ensures loading == old(loading)
    {
      user := None;
      storage := storage - {UserKey};
    }
  }

  /** A login survives a reload: mounting over its storage restores the same user. */
  method LoginSurvivesReload(u: User, initial: map<string, Stored>) returns (restored: Option<User>)
    ensures restored == Some(u)
  {
    var before := new App(initial);
    before.HandleLogin(u);
    var after := new App(before.storage);
    after.Mount();
    restored := after.user;
  }

  /** After logout a reload shows the login screen. */
  method LogoutSurvivesReload(u: User, initial: map<string, Stored>) returns (screen: Screen)
    ensures screen == LoginScreen
  {
    var before := new App(initial);
    before.HandleLogin(u);
    before.HandleLogout();
    var after := new App(before.storage);
    after.Mount();
    screen := after.View();
  }
}

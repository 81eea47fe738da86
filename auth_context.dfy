/** The client's session state of client/src/context/AuthContext.jsx: the
    token, the signed-in user and the loading flag of `AuthProvider`, with
    the browser's `localStorage` as a map. HTTP responses are parameters:
    `None` stands for a request that was rejected. */
module AuthContext {

  import opened Wrappers
  import AuthMiddleware

  /** The key the token is stored under (`AUTH_TOKEN_KEY`). */
  const AuthTokenKey: string := "adaptive-disaster-auth-token"

  /** The user object the server returns; `role` may be missing. */
  datatype User = User(id: int, username: string, displayName: string, role: Option<string>)

  /** The body of a successful `POST /auth/login`. */
  datatype LoginData = LoginData(token: string, user: User)

  /** `isAuthorized(roles)`: with no list (null, undefined or empty) it
      tells whether someone is signed in; otherwise whether `user?.role ?? ''`
      is listed, so a missing user or role matches only an empty-string entry. */
  function IsAuthorized(user: Option<User>, roles: Option<seq<string>>): (ok: bool)
    ensures roles.None? || |roles.value| == 0 ==> (ok <==> user.Some?)
    ensures roles.Some? && |roles.value| > 0 && user.Some? && user.value.role.Some?
            ==> (ok <==> user.value.role.value in roles.value)
    ensures roles.Some? && |roles.value| > 0 && (user.None? || user.value.role.None?)
            ==> (ok <==> "" in roles.value)
  {
    if roles.None? || |roles.value| == 0 then user.Some?
    else
      var role := if user.Some? && user.value.role.Some? then user.value.role.value else "";
      role in roles.value
  }

  /** The client and the server agree on a user whose role is a non-empty
      string; they part only on an empty role listed as an empty string,
      which the client accepts and `authorize` refuses. */
  lemma ClientAgreesWithServer(u: User, roles: seq<string>, claims: AuthMiddleware.Claims)
    requires |roles| > 0 && claims.role == u.role
    ensures u.role.Some? && u.role.value != ""
            ==> (IsAuthorized(Some(u), Some(roles)) <==> AuthMiddleware.Authorize(roles, Some(claims)).Next?)
    ensures u.role == Some("") && "" in roles
            ==> IsAuthorized(Some(u), Some(roles)) && AuthMiddleware.Authorize(roles, Some(claims)).Deny?
  {
  }

  class AuthProvider {
    var token: Option<string>
    var user: Option<User>
    var isLoading: bool
    /** `window.localStorage`. */
    var storage: map<string, string>

    /** The browser's storage holds the token exactly when there is one
        (a non-empty string), and holds it under `AuthTokenKey`. */
    ghost predicate Synced()
      reads this
    {
      && (AuthTokenKey in storage <==> token.Some? && token.value != "")
      && (AuthTokenKey in storage ==> storage[AuthTokenKey] == token.value)
    }

    /** The first render: the token is read back from storage, no user yet,
        still loading. */
    constructor (stored: map<string, string>)
      ensures token == (if AuthTokenKey in stored then Some(stored[AuthTokenKey]) else None)
      ensures user == None && isLoading && storage == stored
    {
      token := if AuthTokenKey in stored then Some(stored[AuthTokenKey]) else None;
      user := None;
      isLoading := true;
      storage := stored;
    }

    /** `login`: on success the token and user come from the response and
        the user is returned; a rejected request changes nothing. Storage is
        written later, when the token effect runs. */
    method Login(response: Option<LoginData>) returns (r: Option<User>)
      modifies this
      ensures response.Some? ==> token == Some(response.value.token) && user == Some(response.value.user)
                                  && r == Some(response.value.user)
      ensures response.None? ==> token == old(token) && user == old(user) && r == None
      ensures isLoading == old(isLoading) && storage == old(storage)
    {
      if response.None? {
        return None;
      }
      token := Some(response.value.token);
      user := Some(response.value.user);
      r := Some(response.value.user);
    }

    /** `logout`: token and user cleared, the stored token removed. */
    method Logout()
      modifies this
      ensures token == None && user == None
      ensures storage == old(storage) - {AuthTokenKey}
      ensures isLoading == old(isLoading)
      ensures Synced()
    {
      token := None;
      user := None;
      storage := storage - {AuthTokenKey};
    }

    /** The effect that runs when the token changes. Without a token (null
        or empty) the stored key is removed, the user cleared and loading
        ends. With one, the token is stored and `GET /auth/me` is awaited:
        its user is kept, or on failure the session is dropped as by
        `logout`; loading ends either way. */
    method OnTokenChange(me: Option<User>)
      modifies this
      ensures !isLoading && Synced()
      ensures old(token).None? || old(token).value == "" ==>
                storage == old(storage) - {AuthTokenKey} && user == None && token == old(token)
      ensures old(token).Some? && old(token).value != "" && me.Some? ==>
                storage == old(storage)[AuthTokenKey := old(token).value]
                && token == old(token) && user == me
      ensures old(token).Some? && old(token).value != "" && me.None? ==>
                storage == old(storage) - {AuthTokenKey} && token == None && user == None
    {
      if token.None? || token.value == "" {
        storage := storage - {AuthTokenKey};
        user := None;
        isLoading := false;
        return;
      }
      storage := storage[AuthTokenKey := token.value];
      isLoading := true;
      if me.Some? {
        user := me;
      } else {
        storage := storage - {AuthTokenKey};
        token := None;
        user := None;
      }
      isLoading := false;
    }
  }

  /** A sign-in followed by the token effect leaves the session signed in
      with the token stored, provided `/auth/me` answers. */
  method SignInFlow(stored: map<string, string>, data: LoginData, me: User) returns (p: AuthProvider)
    requires data.token != ""
    ensures p.token == Some(data.token) && p.user == Some(me) && !p.isLoading
    ensures p.storage == stored[AuthTokenKey := data.token] && p.Synced()
  {
    p := new AuthProvider(stored);
    var u := p.Login(Some(data));
    p.OnTokenChange(Some(me));
  }
}

/** The Node-side sign-in configuration: the common providers plus email
    sign-in, and the `jwt` and `session` callbacks that carry the user's id
    and role from the database user to the token and on to the session. */
module AuthNode {
  import opened Wrappers
  import Json
  import AuthCommon

  /** The common providers, followed by the e-mail provider. */
  function Providers(): (r: seq<AuthCommon.Provider>)
    ensures |r| == |AuthCommon.CommonProviders| + 1
    ensures r[..|AuthCommon.CommonProviders|] == AuthCommon.CommonProviders
    ensures r[|r| - 1] == AuthCommon.Email
  {
    AuthCommon.CommonProviders + [AuthCommon.Email]
  }

  /** The user the adapter hands to `jwt` on sign-in. */
  datatype User = User(id: string, role: Json.Value)

  /** The token's claims. */
  class Token {
    var claims: map<string, Json.Value>

    constructor(claims: map<string, Json.Value>)
      ensures this.claims == claims
    {
      this.claims := claims;
    }

    /** `token.id`, or undefined. */
    function Claim(key: string): Json.Value
      reads this
    {
      Json.Get(Json.Obj(claims), key)
    }
  }

  /** `session.user`, updated in place by the `session` callback. */
  class SessionUser {
    var fields: map<string, Json.Value>

    constructor(fields: map<string, Json.Value>)
      ensures this.fields == fields
    {
      this.fields := fields;
    }
  }

  class Session {
    var user: SessionUser?

    constructor(user: SessionUser?)
      ensures this.user == user
    {
      this.user := user;
    }
  }

  /** The `jwt` callback: on sign-in, stamp the user's id and role on the
      token; otherwise leave it as it is. */
  method Jwt(token: Token, user: Option<User>) returns (r: Token)
    modifies token
    ensures r == token
    ensures user.None? ==> token.claims == old(token.claims)
    ensures user.Some? ==>
      token.claims == old(token.claims)["id" := Json.Str(user.value.id)]["role" := user.value.role]
  {
    if user.Some? {
      token.claims := token.claims["id" := Json.Str(user.value.id)];
      token.claims := token.claims["role" := user.value.role];
    }
    return token;
  }

  /** The `session` callback: copy the id and role from the token to the
      session's user, when the session has one. */
  method SessionCallback(session: Session, token: Token) returns (r: Session)
    modifies session.user
    ensures r == session && session.user == old(session.user)
    ensures session.user != null ==>
      session.user.fields == old(session.user.fields)["id" := token.Claim("id")]["role" := token.Claim("role")]
  {
    if session.user != null {
      session.user.fields := session.user.fields["id" := token.Claim("id")];
      session.user.fields := session.user.fields["role" := token.Claim("role")];
    }
    return session;
  }

  /** Sign-in end to end: the session shows the database user's id and role,
      and keeps every other field. */
  method SignIn(token: Token, user: User, session: Session)
    requires session.user != null
    modifies token, session.user
    ensures "id" in session.user.fields && session.user.fields["id"] == Json.Str(user.id)
    ensures "role" in session.user.fields && session.user.fields["role"] == user.role
    ensures forall k :: k in old(session.user.fields) && k != "id" && k != "role" ==>
      k in session.user.fields && session.user.fields[k] == old(session.user.fields[k])
  {
    var t := Jwt(token, Some(user));
    var s := SessionCallback(session, t);
  }
}

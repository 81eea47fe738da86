/** The two Express middlewares of server/src/middlewares/auth.js:
    `authenticate` turns a bearer header into the session's claims or a
    401, and `authorize(...roles)` lets a request through or answers 403.
    `jwt.verify` with the server's secret is the parameter `verify`: `None`
    stands for the exception it throws on a bad or expired token. */
module AuthMiddleware {

  import opened Wrappers
  import opened Http
  import JsText

  /** The payload `jwt.verify` returns, as `jwt.sign` in the login route
      writes it; `role` may be missing from a foreign token. */
  datatype Claims = Claims(id: int, username: string, role: Option<string>)

  type Verifier = string -> Option<Claims>

  /** The outcome of a middleware: `next()` is called once, or it throws. */
  datatype Decision = Next | Deny(failure: Failure)

  const AuthenticationRequired: string := "Authentication required"
  const InvalidSession: string := "Invalid or expired session token"
  const InsufficientPrivileges: string := "Insufficient privileges"

  const BearerPrefix: string := "bearer "

  /** `toLowerCase` on one character, for the characters that can matter
      here: no character outside ASCII lower-cases to one of the letters of
      "bearer " or to a space, so comparing the ASCII lower case of the
      first seven characters is the same as `toLowerCase().startsWith`. */
  function AsciiLower(c: char): (l: char)
    ensures 'A' <= c <= 'Z' ==> l as int == c as int + 32
    ensures !('A' <= c <= 'Z') ==> l == c
  {
    if 'A' <= c <= 'Z' then (c as int + 32) as char else c
  }

  /** `header.toLowerCase().startsWith('bearer ')`. */
  predicate HasBearerScheme(header: string) {
    |header| >= |BearerPrefix|
    && forall i :: 0 <= i < |BearerPrefix| ==> AsciiLower(header[i]) == BearerPrefix[i]
  }

  /** `header.slice(7).trim()`: the text after the scheme with white space
      cut from both ends; it is empty exactly when that text is blank. */
  function TokenOf(header: string): (token: string)
    requires |header| >= 7
    ensures JsText.Trimmed(token)
    ensures var rest := header[7..]; var k := |rest| - |JsText.TrimStart(rest)|;
            k + |token| <= |rest| && token == rest[k..k + |token|]
    ensures token == [] <==> JsText.Blank(header[7..])
  {
    var rest := header[7..];
    JsText.TrimSpec(rest);
    JsText.Trim(rest)
  }

  /** `authenticate`: `Ok(claims)` is `req.user = claims; next()`. A missing
      or empty header, or one whose scheme is not "bearer " in any casing,
      is 401 "Authentication required"; a token `verify` refuses is 401
      "Invalid or expired session token". */
  function Authenticate(header: Option<string>, verify: Verifier): (r: Outcome<Claims>)
    ensures r.Err? ==> r.error.Unauthorized?
    ensures r == Err(Unauthorized(AuthenticationRequired))
            <==> header.None? || !HasBearerScheme(header.value)
    ensures r == Err(Unauthorized(InvalidSession))
            <==> header.Some? && HasBearerScheme(header.value) && verify(TokenOf(header.value)).None?
    ensures r.Ok? ==> header.Some? && HasBearerScheme(header.value)
                      && verify(TokenOf(header.value)) == Some(r.value)
  {
    if header.None? || header.value == "" || !HasBearerScheme(header.value) then
      Err(Unauthorized(AuthenticationRequired))
    else
      match verify(TokenOf(header.value))
      case Some(claims) => Ok(claims)
      case None => Err(Unauthorized(InvalidSession))
  }

  /** `authorize(...roles)`: with no roles every request passes, even one
      with no user; otherwise the user's role must be present, non-empty
      (a falsy role is refused) and listed, or the answer is 403. */
  function Authorize(roles: seq<string>, user: Option<Claims>): (d: Decision)
    ensures d.Deny? ==> d.failure == Forbidden(InsufficientPrivileges)
    ensures d == Next <==> |roles| == 0 || (user.Some? && user.value.role.Some?
                                              && user.value.role.value != ""
                                              && user.value.role.value in roles)
  {
    if |roles| == 0 then Next
    else
      var role := if user.Some? then user.value.role else None;
      if role.None? || role.value == "" || role.value !in roles then
        Deny(Forbidden(InsufficientPrivileges))
      else Next
  }

  /** The scheme is matched without regard to case: two headers that differ
      only in the ASCII case of their first seven characters authenticate
      alike. */
  lemma SchemeIgnoresCase(h1: string, h2: string, verify: Verifier)
    requires |h1| == |h2| >= 7 && h1[7..] == h2[7..]
    requires forall i :: 0 <= i < 7 ==> AsciiLower(h1[i]) == AsciiLower(h2[i])
    ensures Authenticate(Some(h1), verify) == Authenticate(Some(h2), verify)
  {
    assert HasBearerScheme(h1) <==> HasBearerScheme(h2);
    assert TokenOf(h1) == TokenOf(h2);
  }

  /** The header the client sends, `Bearer ${token}`, hands `verify` the
      token itself whenever it has no white space at its ends. */
  lemma BearerHeaderCarriesToken(token: string, verify: Verifier)
    requires JsText.Trimmed(token)
    ensures Authenticate(Some("Bearer " + token), verify)
            == if verify(token).Some? then Ok(verify(token).value) else Err(Unauthorized(InvalidSession))
  {
    var h := "Bearer " + token;
    assert h[7..] == token;
    assert HasBearerScheme(h);
    JsText.TrimFixed(token);
  }

  /** Widening the list of roles never turns a pass into a refusal. */
  lemma AuthorizeMonotone(roles: seq<string>, more: seq<string>, user: Option<Claims>)
    requires |roles| > 0
    requires forall r :: r in roles ==> r in more
    requires Authorize(roles, user) == Next
    ensures Authorize(more, user) == Next
  {
  }

  /** A user whose role is the empty string is refused by every non-empty
      role list, even one that lists the empty string. */
  lemma EmptyRoleRefused(roles: seq<string>, c: Claims)
    requires |roles| > 0 && c.role == Some("")
    ensures Authorize(roles, Some(c)) == Deny(Forbidden(InsufficientPrivileges))
  {
  }
}

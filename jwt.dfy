/** JwtService and JwtAuthenticationFilter: the claims a login token
    carries, the auth cookies, finding the token of a request, and the
    filter that turns a valid token into an authenticated user. Signing and
    parsing are given as a pair of functions. */
module Jwt {
  import opened Common
  import opened Config
  import Accounts

  const BearerPrefix: string := "Bearer "
  const AuthTokenCookieName: string := "auth_token"

  const TwoTo31: int := 0x8000_0000
  const TwoTo32: int := 0x1_0000_0000

  // ---------------------------------------------------------------------
  // Java integer arithmetic

  /** Milliseconds to whole seconds with Java's `/` on longs: the quotient
      truncated toward zero. */
  function MillisToSeconds(ms: int): (s: int)
    ensures ms >= 0 ==> 0 <= s * 1000 <= ms < s * 1000 + 1000
    ensures ms < 0 ==> s * 1000 - 1000 < ms <= s * 1000 <= 0
  {
    if ms >= 0 then ms / 1000 else -((-ms) / 1000)
  }

  /** Java's `(int)` cast of a long: keeps the low 32 bits, read as a
      two's-complement number. */
  function ToInt32(x: int): (r: int)
    ensures -TwoTo31 <= r < TwoTo31
    ensures (x - r) % TwoTo32 == 0
    ensures -TwoTo31 <= x < TwoTo31 ==> r == x
  {
    var m := x % TwoTo32;
    if m >= TwoTo31 then m - TwoTo32 else m
  }

  // ---------------------------------------------------------------------
  // Tokens

  /** The claims of an issued token; times are whole epoch seconds. */
  datatype Claims = Claims(
    subject: string, username: string, firstName: string, lastName: string,
    issuer: string, issuedAt: int, expiration: int)

  /** The JWT library's signing and verifying, for the configured key: a
      verified token yields its claims, anything else is an exception. */
  datatype Signer = Signer(sign: Claims -> string, parse: string -> Result<Claims>)

  /** Parsing what was signed gives back the claims. */
  ghost predicate Sound(signer: Signer)
  {
    forall c :: signer.parse(signer.sign(c)) == Success(c)
  }

  /** generateToken, before signing: subject is the user id, then the
      username, first and last name and the issuer; the token expires the
      lifetime after `now`. */
  function TokenClaims(user: Accounts.AppUser, issuer: string, expirationMs: int, now: int): (c: Claims)
    ensures c.subject == user.id && c.username == user.username
    ensures c.firstName == user.firstName && c.lastName == user.lastName && c.issuer == issuer
    ensures c.issuedAt == now
    ensures 0 <= expirationMs ==> now <= c.expiration && (c.expiration - now) * 1000 <= expirationMs < (c.expiration - now + 1) * 1000
  {
    Claims(user.id, user.username, user.firstName, user.lastName, issuer, now, now + MillisToSeconds(expirationMs))
  }

  function GenerateToken(signer: Signer, user: Accounts.AppUser, issuer: string, expirationMs: int, now: int): string
  {
    signer.sign(TokenClaims(user, issuer, expirationMs, now))
  }

  /** extractUserIdFromToken: the subject of a verified token; a token that
      does not verify raises the library's exception. */
  function ExtractUserIdFromToken(signer: Signer, token: string): (r: Result<string>)
    ensures r.Success? <==> signer.parse(token).Success?
    ensures r.Success? ==> r.value == signer.parse(token).value.subject
  {
    match signer.parse(token)
    case Success(claims) => Success(claims.subject)
    case Failure(e) => Failure(e)
  }

  /** The token issued for a user names that user. */
  lemma TokenNamesItsUser(signer: Signer, user: Accounts.AppUser, issuer: string, expirationMs: int, now: int)
    requires Sound(signer)
    ensures ExtractUserIdFromToken(signer, GenerateToken(signer, user, issuer, expirationMs, now)) == Success(user.id)
  {
    var c := TokenClaims(user, issuer, expirationMs, now);
    assert signer.parse(signer.sign(c)) == Success(c);
  }

  // ---------------------------------------------------------------------
  // Cookies

  datatype Cookie = Cookie(name: string, value: string, httpOnly: bool, secure: bool, path: string, maxAge: int)

  /** createCookie: the auth cookie carrying the token, HTTP-only, secure in
      production, for the whole site, kept for the token lifetime cast to an
      int. */
  function CreateCookie(token: string, expirationMs: int, environment: string): (c: Cookie)
    ensures c.name == AuthTokenCookieName && c.value == token
    ensures c.httpOnly && c.path == "/"
    ensures c.secure <==> IsProduction(environment)
    ensures -TwoTo31 <= c.maxAge < TwoTo31
  {
    Cookie(AuthTokenCookieName, token, true, IsProduction(environment), "/", ToInt32(MillisToSeconds(expirationMs)))
  }

  /** createLogoutCookie: the same cookie with an empty value and a max-age of 0. */
  function CreateLogoutCookie(environment: string): (c: Cookie)
    ensures c.value == "" && c.maxAge == 0
  {
    Cookie(AuthTokenCookieName, "", true, IsProduction(environment), "/", 0)
  }

  /** The logout cookie replaces the auth cookie: same name, path, flags and
      environment-dependent secure flag, and it expires at once. */
  lemma LogoutCookieMirrorsAuthCookie(token: string, expirationMs: int, environment: string)
    ensures var login := CreateCookie(token, expirationMs, environment);
      CreateLogoutCookie(environment) == login.(value := "", maxAge := 0)
  {
  }

  /** For any lifetime up to the int range, the cookie lives exactly as many
      seconds as the token it carries. */
  lemma CookieLivesAsLongAsToken(signer: Signer, user: Accounts.AppUser, issuer: string, expirationMs: int,
                                 now: int, environment: string)
    requires 0 <= expirationMs < TwoTo31 * 1000
    ensures var claims := TokenClaims(user, issuer, expirationMs, now);
      CreateCookie(GenerateToken(signer, user, issuer, expirationMs, now), expirationMs, environment).maxAge
        == claims.expiration - claims.issuedAt
  {
  }

  /** A lifetime past the int range wraps: 2^31 seconds become a negative
      max-age, which tells the browser to drop the cookie when it closes. */
  lemma LongLifetimeWraps()
    ensures CreateCookie("t", TwoTo31 * 1000, "development").maxAge == -TwoTo31
  {
  }

  // ---------------------------------------------------------------------
  // Finding the token of a request

  /** A cookie as a request carries it. */
  datatype RequestCookie = RequestCookie(name: string, value: string)

  predicate IsAuthCookie(c: RequestCookie)
  {
    EqualsIgnoreCase(c.name, AuthTokenCookieName)
  }

  /** The value of the first cookie named "auth_token" ignoring case. */
  function FirstAuthCookie(cookies: seq<RequestCookie>): (r: Option<string>)
    ensures r.None? <==> forall i :: 0 <= i < |cookies| ==> !IsAuthCookie(cookies[i])
    ensures r.Some? ==> exists i :: 0 <= i < |cookies| && IsAuthCookie(cookies[i]) && cookies[i].value == r.value
                                 && (forall j :: 0 <= j < i ==> !IsAuthCookie(cookies[j]))
  {
    if cookies == [] then None
    else if IsAuthCookie(cookies[0]) then Some(cookies[0].value)
    else
      var rest := FirstAuthCookie(cookies[1..]);
      assert forall i :: 1 <= i < |cookies| ==> cookies[i] == cookies[1..][i - 1];
      if rest.Some? then
        var i :| 0 <= i < |cookies[1..]| && IsAuthCookie(cookies[1..][i]) && cookies[1..][i].value == rest.value
          && forall j :: 0 <= j < i ==> !IsAuthCookie(cookies[1..][j]);
        assert IsAuthCookie(cookies[i + 1]) && cookies[i + 1].value == rest.value;
        rest
      else rest
  }

  /** extractToken, given the Authorization header and the cookies of the
      request: a header starting with "Bearer " (exact case) gives the
      rest of the header, whatever the cookies say; otherwise the first
      auth cookie's value, or no token when the request has no cookies or
      none of them is the auth cookie. */
  function TokenFrom(header: Option<string>, cookies: Option<seq<RequestCookie>>): (r: Option<string>)
    ensures header.Some? && StartsWith(header.value, BearerPrefix) ==>
      r == Some(header.value[|BearerPrefix|..]) && header.value == BearerPrefix + r.value
    ensures !(header.Some? && StartsWith(header.value, BearerPrefix)) ==>
      r == if cookies.Some? then FirstAuthCookie(cookies.value) else None
  {
    if header.Some? && StartsWith(header.value, BearerPrefix) then
      assert header.value == header.value[..|BearerPrefix|] + header.value[|BearerPrefix|..];
      Some(header.value[|BearerPrefix|..])
    else if cookies.Some? then FirstAuthCookie(cookies.value)
    else None
  }

  /** The loop of extractToken over the request's cookies, returning at the
      first match. */
  method ExtractToken(header: Option<string>, cookies: Option<seq<RequestCookie>>) returns (token: Option<string>)
    ensures token == TokenFrom(header, cookies)
  {
    if header.None? || !StartsWith(header.value, BearerPrefix) {
      if cookies.Some? {
        var i := 0;
        while i < |cookies.value|
          invariant 0 <= i <= |cookies.value|
          invariant FirstAuthCookie(cookies.value) == FirstAuthCookie(cookies.value[i..])
        {
          var c := cookies.value[i];
          if EqualsIgnoreCase(c.name, AuthTokenCookieName) {
            return Some(c.value);
          }
          assert cookies.value[i..][1..] == cookies.value[i + 1..];
          i := i + 1;
        }
      }
      return None;
    }
    token := Some(header.value[|BearerPrefix|..]);
  }

  /** A header of exactly "Bearer " yields the empty token, not none; the
      prefix is case-sensitive, so "bearer x" falls back to the cookies. */
  lemma BearerEdgeCases(cookies: Option<seq<RequestCookie>>)
    ensures TokenFrom(Some("Bearer "), cookies) == Some("")
    ensures TokenFrom(Some("bearer x"), None) == None
    ensures TokenFrom(Some("Bearer abc"), Some([RequestCookie("auth_token", "other")])) == Some("abc")
  {
    assert "Bearer "[..|BearerPrefix|] == BearerPrefix;
    assert "bearer x"[..|BearerPrefix|] != BearerPrefix by {
      assert "bearer x"[0] != BearerPrefix[0];
    }
    assert "Bearer abc"[..|BearerPrefix|] == BearerPrefix;
    assert "Bearer abc"[|BearerPrefix|..] == "abc";
  }

  /** Cookie names match ignoring case, and the first of several auth
      cookies wins. */
  lemma CookieEdgeCases()
    ensures TokenFrom(None, Some([RequestCookie("session", "s"), RequestCookie("AUTH_TOKEN", "a"), RequestCookie("auth_token", "b")])) == Some("a")
  {
    var cs := [RequestCookie("session", "s"), RequestCookie("AUTH_TOKEN", "a"), RequestCookie("auth_token", "b")];
    assert Lower("AUTH_TOKEN") == "auth_token";
    assert Lower("session")[0] == 's';
    assert !IsAuthCookie(cs[0]);
    assert IsAuthCookie(cs[1]);
    assert cs[1..][0] == cs[1];
  }

  // ---------------------------------------------------------------------
  // The filter

  /** The user a request authenticates as: its token must verify and name
      a stored user. */
  function Authenticated(signer: Signer, users: map<Accounts.UserId, Accounts.AppUser>,
                         header: Option<string>, cookies: Option<seq<RequestCookie>>): (r: Option<Accounts.AppUser>)
    ensures r.Some? <==>
      && TokenFrom(header, cookies).Some?
      && signer.parse(TokenFrom(header, cookies).value).Success?
      && signer.parse(TokenFrom(header, cookies).value).value.subject in users
    ensures r.Some? ==> r.value == users[signer.parse(TokenFrom(header, cookies).value).value.subject]
  {
    var token := TokenFrom(header, cookies);
    if token.None? then None
    else
      match ExtractUserIdFromToken(signer, token.value)
      case Failure(_) => None
      case Success(id) =>
        match Accounts.FindById(users, id)
        case Success(user) => Some(user)
        case Failure(_) => None
  }

  /** A browser that got the auth cookie at login and sends it back, with no
      bearer header, before the token expires, is authenticated as the user
      who logged in. Expiry is not modelled: `Sound` lets every signed token
      parse, so the lemma holds at every time. */
  lemma LoginCookieAuthenticates(signer: Signer, users: map<Accounts.UserId, Accounts.AppUser>,
                                 user: Accounts.AppUser, issuer: string, expirationMs: int, now: int,
                                 environment: string)
    requires Sound(signer) && user.id in users && users[user.id] == user
    ensures var cookie := CreateCookie(GenerateToken(signer, user, issuer, expirationMs, now), expirationMs, environment);
      Authenticated(signer, users, None, Some([RequestCookie(cookie.name, cookie.value)])) == Some(user)
  {
    var token := GenerateToken(signer, user, issuer, expirationMs, now);
    var c := TokenClaims(user, issuer, expirationMs, now);
    assert signer.parse(signer.sign(c)) == Success(c);
    var cookies := [RequestCookie(AuthTokenCookieName, token)];
    EqualsIgnoreCaseBasics(AuthTokenCookieName, AuthTokenCookieName);
    assert IsAuthCookie(cookies[0]);
    assert TokenFrom(None, Some(cookies)) == Some(token);
  }

  /** The security context of the request being filtered and the number of
      times the rest of the filter chain has been invoked. */
  class FilterState {
    var authentication: Option<Accounts.AppUser>
    var chainInvocations: nat

    constructor ()
      ensures authentication == None && chainInvocations == 0
    {
      authentication := None;
      chainInvocations := 0;
    }

    /** doFilterInternal: without a token the request passes on at once,
        unauthenticated and without a user lookup; with a token the user it
        names is looked up, and authentication is set only when both the
        verification and the lookup succeed. Every path continues the chain
        exactly once. Returns the id that was looked up, if any. */
    method DoFilter(signer: Signer, users: map<Accounts.UserId, Accounts.AppUser>,
                    header: Option<string>, cookies: Option<seq<RequestCookie>>)
      returns (lookedUp: Option<string>)
      modifies this
      ensures chainInvocations == old(chainInvocations) + 1
      ensures authentication ==
        if Authenticated(signer, users, header, cookies).Some? then Authenticated(signer, users, header, cookies)
        else old(authentication)
      ensures lookedUp.Some? <==>
        TokenFrom(header, cookies).Some? && signer.parse(TokenFrom(header, cookies).value).Success?
      ensures lookedUp.Some? ==> lookedUp.value == signer.parse(TokenFrom(header, cookies).value).value.subject
    {
      var token := ExtractToken(header, cookies);
      if token.None? {
        chainInvocations := chainInvocations + 1;
        return None;
      }
      var userId := ExtractUserIdFromToken(signer, token.value);
      if userId.Failure? {
        chainInvocations := chainInvocations + 1;
        return None;
      }
      lookedUp := Some(userId.value);
      var user := Accounts.FindById(users, userId.value);
      if user.Failure? {
        chainInvocations := chainInvocations + 1;
        return;
      }
      authentication := Some(user.value);
      chainInvocations := chainInvocations + 1;
    }
  }
}

/** `createContext`: the per-request context. A candidate token is taken from
    the `adminToken` cookie, else from an `Authorization: Bearer <token>`
    header; it is verified and the admin looked up. Every failure on the way
    (a cookie that does not parse, a token that does not verify, a payload
    without `userId`, a lookup that fails or throws, a missing request)
    leaves the user `null`; the function itself never throws.

    The cookie parser, `verifyToken` and `getAdminById` are collaborators
    whose code is not part of this model: they are passed in as functions
    whose outcomes include throwing. */
module Context {
  import opened Wrappers
  import opened Js
  import opened Strings
  import opened Http

  /** What `parseCookie(header)` did: the cookie jar, or an exception. */
  datatype CookieParse = Cookies(jar: map<string, string>) | ParseThrew

  /** What `verifyToken(token)` did: returned a payload value (`payload` is
      `None` for a falsy return, else its `userId` property), or threw. */
  datatype Verification = Verified(payload: Option<Value>) | VerifyThrew

  /** What `await getAdminById(userId)` did. */
  datatype Lookup = Found(admin: AdminUser) | NotFound | LookupThrew

  /** A call to a collaborator, in the order made. */
  datatype Call = ParseCookie(header: string) | VerifyToken(token: string) | GetAdminById(userId: Value)

  datatype TrpcContext = TrpcContext(req: Request, res: Response?, user: Option<AdminUser>)

  const CookieName: string := "adminToken"
  const BearerPrefix: string := "Bearer "

  /** `headers?.[name]`. */
  function Header(req: Request, name: string): Value
    requires req.Incoming?
  {
    if req.headers.Some? then Get(req.headers.value, name) else Undefined
  }

  /** The header the cookie step parses, when it is a non-empty string. */
  function CookieHeaderText(req: Request): Option<string>
    requires req.Incoming?
  {
    var h := Header(req, "cookie");
    if Truthy(h) && h.Str? then Some(h.s) else None
  }

  /** `cookies.adminToken || null` when the cookie header parses; null
      otherwise. A cookie token is never empty, and it is the jar's
      `adminToken`. */
  function CookieToken(req: Request, parse: string -> CookieParse): (token: Option<string>)
    requires req.Incoming?
    ensures token.Some? <==>
              && CookieHeaderText(req).Some?
              && parse(CookieHeaderText(req).value).Cookies?
              && CookieName in parse(CookieHeaderText(req).value).jar
              && parse(CookieHeaderText(req).value).jar[CookieName] != ""
    ensures token.Some? ==> token.value != "" && token.value == parse(CookieHeaderText(req).value).jar[CookieName]
  {
    match CookieHeaderText(req)
    case None => None
    case Some(text) =>
      match parse(text)
      case ParseThrew => None
      case Cookies(jar) => if CookieName in jar && jar[CookieName] != "" then Some(jar[CookieName]) else None
  }

  /** `headers.authorization || headers["Authorization"]`. */
  function AuthorizationHeader(req: Request): Value
    requires req.Incoming?
  {
    Or(Header(req, "authorization"), Header(req, "Authorization"))
  }

  /** The token of a string header that starts with exactly `"Bearer "`
      (case-sensitive, one space): the rest after those 7 characters. */
  function BearerToken(auth: Value): (token: Option<string>)
    ensures token.Some? <==> auth.Str? && StartsWith(auth.s, BearerPrefix)
    ensures token.Some? ==> auth.s == BearerPrefix + token.value
  {
    if Truthy(auth) && auth.Str? && StartsWith(auth.s, BearerPrefix) then
      assert auth.s == auth.s[..|BearerPrefix|] + auth.s[|BearerPrefix|..];
      Some(auth.s[|BearerPrefix|..])
    else None
  }

  /** The token the request presents: the cookie's when it gave one, else the
      bearer header's (possibly empty). */
  function CandidateToken(req: Request, parse: string -> CookieParse): (token: Option<string>)
    requires req.Incoming?
    ensures token.Some? ==> token == CookieToken(req, parse) || token == BearerToken(AuthorizationHeader(req))
    ensures token.None? <==> CookieToken(req, parse).None? && BearerToken(AuthorizationHeader(req)).None?
  {
    var cookie := CookieToken(req, parse);
    if cookie.Some? then cookie else BearerToken(AuthorizationHeader(req))
  }

  /** The user a candidate token resolves to: only ever the admin the lookup
      found for the payload of a non-empty token that verified. */
  function ResolveUser(token: Option<string>, verify: string -> Verification, lookup: Value -> Lookup): (user: Option<AdminUser>)
    ensures user.Some? ==>
              && token.Some? && token.value != ""
              && verify(token.value).Verified? && verify(token.value).payload.Some?
              && lookup(verify(token.value).payload.value) == Found(user.value)
  {
    if token.None? || token.value == "" then None
    else match verify(token.value)
      case VerifyThrew => None
      case Verified(payload) =>
        if payload.None? || !Truthy(payload.value) then None
        else match lookup(payload.value)
          case Found(admin) => Some(admin)
          case NotFound => None
          case LookupThrew => None
  }

  /** The collaborator calls made while resolving, in order: at most one
      parse, which comes first; `verifyToken` only with a non-empty token;
      `getAdminById` only right after `verifyToken`. */
  function Calls(req: Request, parse: string -> CookieParse, verify: string -> Verification): (calls: seq<Call>)
    ensures |calls| <= 3
    ensures forall i :: 0 <= i < |calls| && calls[i].ParseCookie? ==> i == 0
    ensures forall i :: 0 <= i < |calls| && calls[i].VerifyToken? ==> calls[i].token != ""
    ensures forall i :: 0 <= i < |calls| && calls[i].GetAdminById? ==> i > 0 && calls[i - 1].VerifyToken?
  {
    if req.Missing? then []
    else
      var parsing := if CookieHeaderText(req).Some? then [ParseCookie(CookieHeaderText(req).value)] else [];
      var token := CandidateToken(req, parse);
      var verifying :=
        if token.None? || token.value == "" then []
        else
          var v := verify(token.value);
          [VerifyToken(token.value)]
          + (if v.Verified? && v.payload.Some? && Truthy(v.payload.value) then [GetAdminById(v.payload.value)] else []);
      parsing + verifying
  }

  /** The token search of `createContext`: the `adminToken` cookie when the
      cookie header is a string that parses, else the text after `Bearer ` of
      the `Authorization` header; the only collaborator call is the parse of
      a non-empty cookie header. */
  method FindToken(req: Request, parse: string -> CookieParse) returns (token: Option<string>, calls: seq<Call>)
    requires req.Incoming?
    ensures token == CandidateToken(req, parse)
    ensures calls == if CookieHeaderText(req).Some? then [ParseCookie(CookieHeaderText(req).value)] else []
  {
    token := None;
    calls := [];
    var cookieHeader := Header(req, "cookie");
    if Truthy(cookieHeader) && cookieHeader.Str? {
      calls := calls + [ParseCookie(cookieHeader.s)];
      var parsed := parse(cookieHeader.s);
      if parsed.Cookies? {
        var jar := parsed.jar;
        token := if CookieName in jar && jar[CookieName] != "" then Some(jar[CookieName]) else None;
      }
      // A parse exception is caught and logged; the token stays null.
    }

    if token.None? || token.value == "" {
      var authHeader := AuthorizationHeader(req);
      if Truthy(authHeader) && authHeader.Str? && StartsWith(authHeader.s, BearerPrefix) {
        token := Some(authHeader.s[7..]);
      }
    }
  }

  /** `createContext({req, res})`. It always returns a context (it never
      throws), passes `req` and `res` through untouched, and its user is what
      the candidate token resolves to; a missing request (whose `headers`
      access throws inside the outer `try`) gives the anonymous context. */
  method CreateContext(req: Request, res: Response?, parse: string -> CookieParse,
                       verify: string -> Verification, lookup: Value -> Lookup)
    returns (ctx: TrpcContext, calls: seq<Call>)
    ensures ctx.req == req && ctx.res == res
    ensures req.Missing? ==> ctx.user == None
    ensures req.Incoming? ==> ctx.user == ResolveUser(CandidateToken(req, parse), verify, lookup)
    ensures calls == Calls(req, parse, verify)
  {
    var user: Option<AdminUser> := None;
    if req.Missing? {
      // `opts.req.headers` throws; the outer catch leaves the user null.
      return TrpcContext(req, res, None), [];
    }

    var token;
    token, calls := FindToken(req, parse);
    if token.Some? && token.value != "" {
      calls := calls + [VerifyToken(token.value)];
      var verification := verify(token.value);
      if verification.Verified? {
        var payload := verification.payload;
        if payload.Some? && Truthy(payload.value) {
          calls := calls + [GetAdminById(payload.value)];
          var found := lookup(payload.value);
          user := if found.Found? then Some(found.admin) else None;
        }
      } else {
        // The token is invalid or expired: logged, the user stays null.
        user := None;
      }
    }
    ctx := TrpcContext(req, res, user);
  }

  /** A non-empty `adminToken` cookie is the token, whatever the
      `Authorization` header says: two requests with the same cookie header
      present the same token. */
  lemma CookieTakesPrecedence(req: Request, req': Request, parse: string -> CookieParse)
    requires req.Incoming? && req'.Incoming?
    requires Header(req, "cookie") == Header(req', "cookie")
    requires CookieToken(req, parse).Some?
    ensures CandidateToken(req, parse) == CandidateToken(req', parse) == CookieToken(req, parse)
    ensures CookieToken(req, parse).value != ""
  {
  }

  /** The header is consulted only when the cookie gave no token, and then
      yields the text after exactly `"Bearer "`. */
  lemma HeaderOnlyAsFallback(req: Request, parse: string -> CookieParse)
    requires req.Incoming?
    ensures CandidateToken(req, parse).Some? && CookieToken(req, parse).None? ==>
              var auth := AuthorizationHeader(req);
              auth.Str? && StartsWith(auth.s, BearerPrefix) && auth.s == BearerPrefix + CandidateToken(req, parse).value
    ensures CookieToken(req, parse).None? ==> CandidateToken(req, parse) == BearerToken(AuthorizationHeader(req))
  {
    if CandidateToken(req, parse).Some? && CookieToken(req, parse).None? {
      var auth := AuthorizationHeader(req);
      assert auth.s == auth.s[..7] + auth.s[7..];
    }
  }

  /** A cookie header that fails to parse, or one that is not a string, yields
      no cookie token, so resolution falls through to the header. */
  lemma UnusableCookieFallsThrough(req: Request, parse: string -> CookieParse)
    requires req.Incoming?
    requires !Header(req, "cookie").Str? || parse(Header(req, "cookie").s) == ParseThrew
    ensures CandidateToken(req, parse) == BearerToken(AuthorizationHeader(req))
  {
  }

  /** The prefix match is case-sensitive and needs the space; the bare prefix
      gives the empty token. */
  lemma BearerPrefixIsExact()
    ensures BearerToken(Str("Bearer abc")) == Some("abc")
    ensures BearerToken(Str("bearer abc")) == None
    ensures BearerToken(Str("Bearerabc")) == None
    ensures BearerToken(Str("Bearer ")) == Some("")
  {
    assert "Bearer abc"[..7] == BearerPrefix;
    assert "bearer abc"[..7] != BearerPrefix by { assert "bearer abc"[0] != BearerPrefix[0]; }
    assert "Bearerabc"[..7] != BearerPrefix by { assert "Bearerabc"[6] != BearerPrefix[6]; }
  }

  /** No token, or an empty one: anonymous, and neither `verifyToken` nor
      `getAdminById` is called. */
  lemma NoTokenIsAnonymous(req: Request, parse: string -> CookieParse,
                           verify: string -> Verification, lookup: Value -> Lookup)
    requires req.Incoming?
    requires CandidateToken(req, parse).None? || CandidateToken(req, parse).value == ""
    ensures ResolveUser(CandidateToken(req, parse), verify, lookup) == None
    ensures forall c :: c in Calls(req, parse, verify) ==> c.ParseCookie?
  {
  }

  /** A user is resolved only through a verified payload with a truthy
      `userId` that the lookup found; every other outcome is anonymous. */
  lemma ResolvedOnlyThroughLookup(token: Option<string>, verify: string -> Verification,
                                  lookup: Value -> Lookup, admin: AdminUser)
    ensures ResolveUser(token, verify, lookup) == Some(admin) <==>
              && token.Some? && token.value != ""
              && verify(token.value).Verified?
              && verify(token.value).payload.Some?
              && Truthy(verify(token.value).payload.value)
              && lookup(verify(token.value).payload.value) == Found(admin)
  {
  }
}

/** The RPC procedures around the session: `auth.login`, `auth.logout`,
    `auth.me` and the exact `Set-Cookie` strings they write; the input
    reshaping of `createCourse`, `updateCourse` and `updatePageContent`; and
    which procedures are registered as public and which as protected.

    `authenticateAdmin` and `generateToken` are collaborators whose code is
    not part of this model (password hashing and token signing): they are
    passed in as functions. What the protected gate enforces is not part of
    this model either; only the registration table is. */
module Routers {
  import opened Wrappers
  import opened Js
  import opened Strings
  import opened Http
  import Context
  import Db

  const CookieName: string := "adminToken"

  /** The session cookie lives one week: `7 * 24 * 60 * 60` seconds. */
  const MaxAgeSeconds: nat := 7 * 24 * 60 * 60

  /** The `Set-Cookie` value of a login: `adminToken=<token>` followed by the
      attributes (section 4.1 of RFC 6265, with `SameSite` from the
      rfc6265bis draft). */
  function LoginCookie(token: string, secure: bool): (cookie: string)
    ensures |CookieName + "=" + token| <= |cookie| && cookie[..|CookieName + "=" + token|] == CookieName + "=" + token
  {
    CookieName + "=" + token + "; Path=/" + ("; Max-Age=" + Decimal(MaxAgeSeconds))
    + "; HttpOnly" + "; SameSite=Lax" + (if secure then "; Secure" else "")
  }

  /** Same name, empty value, zero lifetime, no `Secure`. */
  const LogoutCookie: string := CookieName + "=" + "; Path=/" + "; Max-Age=0" + "; HttpOnly" + "; SameSite=Lax"

  datatype ErrorCode = Unauthorized | InternalServerError

  /** A `TRPCError`, or an exception that tRPC reports as an internal error. */
  datatype TrpcError = TrpcError(code: ErrorCode, message: string)

  /** The one error every failed login gets. */
  const InvalidCredentials: TrpcError := TrpcError(Unauthorized, "Invalid username or password")

  /** What reading `ctx.req.secure` throws when there is no request. */
  const MissingRequestError: TrpcError := TrpcError(InternalServerError, "Cannot read properties of undefined (reading 'secure')")

  /** What `authenticateAdmin(username, password)` did: found the admin,
      returned a falsy value (unknown user or wrong password alike), or threw. */
  datatype Authentication = Authenticated(admin: AdminUser) | Rejected | AuthThrew(message: string)

  datatype LoginResult = LoginResult(success: bool, token: string, user: AdminUser)

  /** `auth.login`. A falsy `authenticateAdmin` result fails with the one
      `UNAUTHORIZED` error, before any token exists and without touching the
      response. Otherwise a token is generated, the session cookie is set when
      `res.setHeader` exists (with `Secure` exactly when `req.secure` is
      truthy), and the same token is returned with the user. */
  method Login(username: string, password: string, ctx: Context.TrpcContext,
               authenticate: (string, string) -> Authentication, generate: AdminUser -> string)
    returns (r: Result<LoginResult, TrpcError>)
    modifies ctx.res
    ensures authenticate(username, password).Rejected? ==>
              r == Failure(InvalidCredentials) && (ctx.res != null ==> unchanged(ctx.res))
    ensures authenticate(username, password).AuthThrew? ==>
              r == Failure(TrpcError(InternalServerError, authenticate(username, password).message))
              && (ctx.res != null ==> unchanged(ctx.res))
    ensures authenticate(username, password).Authenticated? ==>
              var admin := authenticate(username, password).admin;
              var token := generate(admin);
              if ctx.res != null && ctx.res.canSetHeader then
                if ctx.req.Missing? then
                  r == Failure(MissingRequestError) && unchanged(ctx.res)
                else
                  && r == Success(LoginResult(true, token, admin))
                  && ctx.res.headers == old(ctx.res.headers)["Set-Cookie" := LoginCookie(token, Truthy(ctx.req.secure))]
              else
                r == Success(LoginResult(true, token, admin)) && (ctx.res != null ==> unchanged(ctx.res))
  {
    var outcome := authenticate(username, password);
    if outcome.AuthThrew? {
      return Failure(TrpcError(InternalServerError, outcome.message));
    }
    if outcome.Rejected? {
      return Failure(InvalidCredentials);
    }
    var user := outcome.admin;
    var token := generate(user);
    if ctx.res != null && ctx.res.canSetHeader {
      if ctx.req.Missing? {
        return Failure(MissingRequestError);
      }
      ctx.res.SetHeader("Set-Cookie", LoginCookie(token, Truthy(ctx.req.secure)));
    }
    r := Success(LoginResult(true, token, user));
  }

  /** `auth.logout`: always `{success: true}`; clears the cookie when
      `res.setHeader` exists. */
  method Logout(ctx: Context.TrpcContext) returns (success: bool)
    modifies ctx.res
    ensures success
    ensures ctx.res != null && ctx.res.canSetHeader ==>
              ctx.res.headers == old(ctx.res.headers)["Set-Cookie" := LogoutCookie]
    ensures ctx.res != null && !ctx.res.canSetHeader ==> unchanged(ctx.res)
  {
    if ctx.res != null && ctx.res.canSetHeader {
      ctx.res.SetHeader("Set-Cookie", LogoutCookie);
    }
    success := true;
  }

  /** `auth.me`: the context's user, or null. */
  function Me(ctx: Context.TrpcContext): (r: Option<AdminUser>)
    ensures r.Some? <==> ctx.user.Some?
    ensures r.Some? ==> r.value == ctx.user.value
  {
    if ctx.user.Some? then ctx.user else None
  }

  /** The attribute literals, each a separator followed by the attribute. */
  lemma CookieSeparators()
    ensures "; Path=/" == ";" + " Path=/"
    ensures "; Max-Age=" + "604800" == ";" + " Max-Age=604800"
    ensures "; Max-Age=0" == ";" + " Max-Age=0"
    ensures "; HttpOnly" == ";" + " HttpOnly"
    ensures "; SameSite=Lax" == ";" + " SameSite=Lax"
    ensures "; Secure" == ";" + " Secure"
    ensures CookieName + "=" == "adminToken="
  {}

  lemma Regroup(n: string, pp: string, mm: string, hh: string, ll: string, x: string,
                p: string, m: string, h: string, l: string)
    requires pp == ";" + p && mm == ";" + m && hh == ";" + h && ll == ";" + l
    ensures n + pp + mm + hh + ll + x == n + ";" + p + ";" + m + ";" + h + ";" + l + x
  {}

  /** The pieces of the login cookie between its `;`s. */
  function LoginAttributes(token: string, secure: bool): seq<string> {
    [CookieName + "=" + token, " Path=/", " Max-Age=604800", " HttpOnly", " SameSite=Lax"]
    + (if secure then [" Secure"] else [])
  }

  lemma LoginCookieJoin(token: string, secure: bool)
    ensures Join(LoginAttributes(token, secure), ";") == LoginCookie(token, secure)
  {
    var pair := CookieName + "=" + token;
    var tail := if secure then "; Secure" else "";
    assert Decimal(MaxAgeSeconds) == "604800";
    CookieSeparators();
    Regroup(pair, "; Path=/", "; Max-Age=" + "604800", "; HttpOnly", "; SameSite=Lax", tail,
            " Path=/", " Max-Age=604800", " HttpOnly", " SameSite=Lax");
    JoinFive(pair, " Path=/", " Max-Age=604800", " HttpOnly", " SameSite=Lax", ";");
    var base := [pair, " Path=/", " Max-Age=604800", " HttpOnly", " SameSite=Lax"];
    if secure {
      JoinAppend(base, " Secure", ";");
    } else {
      assert LoginAttributes(token, secure) == base;
    }
  }

  /** The login cookie, cut at its `;`s: the name-value pair carrying the
      token, then exactly `Path=/`, `Max-Age=604800`, `HttpOnly`,
      `SameSite=Lax`, and `Secure` only on a secure request. */
  lemma LoginCookieAttributes(token: string, secure: bool)
    requires ';' !in token
    ensures Split(LoginCookie(token, secure), ';')
            == ["adminToken=" + token, " Path=/", " Max-Age=604800", " HttpOnly", " SameSite=Lax"]
               + (if secure then [" Secure"] else [])
  {
    PairHasNoSemicolon(token);
    LoginCookieJoin(token, secure);
    CookieSeparators();
    SplitJoin(LoginAttributes(token, secure), ';');
  }

  /** A token without `;` leaves the name-value pair without `;`. */
  lemma PairHasNoSemicolon(token: string)
    requires ';' !in token
    ensures ';' !in CookieName + "=" + token
  {
    var pair := CookieName + "=" + token;
    forall i | 0 <= i < |pair| ensures pair[i] != ';' {
      if i >= 11 { assert pair[i] == token[i - 11]; }
    }
  }

  /** The logout cookie, cut at its `;`s: empty value, `Max-Age=0`, no `Secure`. */
  lemma LogoutCookieAttributes()
    ensures Split(LogoutCookie, ';') == ["adminToken=", " Path=/", " Max-Age=0", " HttpOnly", " SameSite=Lax"]
  {
    var pair := CookieName + "=";
    CookieSeparators();
    Regroup(pair, "; Path=/", "; Max-Age=0", "; HttpOnly", "; SameSite=Lax", "",
            " Path=/", " Max-Age=0", " HttpOnly", " SameSite=Lax");
    var whole := pair + "; Path=/" + "; Max-Age=0" + "; HttpOnly" + "; SameSite=Lax";
    assert whole + "" == whole;
    assert LogoutCookie == whole;
    JoinFive(pair, " Path=/", " Max-Age=0", " HttpOnly", " SameSite=Lax", ";");
    assert Join([pair, " Path=/", " Max-Age=0", " HttpOnly", " SameSite=Lax"], ";") == whole;
    SplitJoin([pair, " Path=/", " Max-Age=0", " HttpOnly", " SameSite=Lax"], ';');
  }

  // ---------------------------------------------------------------
  // Input reshaping
  // ---------------------------------------------------------------

  /** What the `createCourse` schema admits for the prices: a number or nothing. */
  predicate PriceField(v: Value) {
    v.Num? || v.Undefined?
  }

  /** `priceEgp`/`priceUsd: z.number().default(0)`: a missing price becomes 0. */
  function WithPriceDefaults(input: Object): (parsed: Object)
    requires PriceField(Get(input, "priceEgp")) && PriceField(Get(input, "priceUsd"))
    ensures Get(parsed, "priceEgp") == Num(PriceOrZero(Get(input, "priceEgp")))
    ensures Get(parsed, "priceUsd") == Num(PriceOrZero(Get(input, "priceUsd")))
  {
    var egp := if Get(input, "priceEgp").Undefined? then Put(input, "priceEgp", Num(0)) else input;
    GetPut(input, "priceEgp", Num(0), "priceEgp");
    GetPut(input, "priceEgp", Num(0), "priceUsd");
    GetPut(egp, "priceUsd", Num(0), "priceEgp");
    GetPut(egp, "priceUsd", Num(0), "priceUsd");
    if Get(egp, "priceUsd").Undefined? then Put(egp, "priceUsd", Num(0)) else egp
  }

  /** `{...input, priceEgp: String(input.priceEgp), priceUsd: String(input.priceUsd)}`. */
  function CreateCourseObject(input: Object): (course: Object)
    requires Get(input, "priceEgp").Num? && Get(input, "priceUsd").Num?
    ensures Keys(course) == Keys(input)
    ensures Get(course, "priceEgp") == Str(NumberToString(Get(input, "priceEgp").n))
    ensures Get(course, "priceUsd") == Str(NumberToString(Get(input, "priceUsd").n))
  {
    var egpValue := Str(NumberToString(Get(input, "priceEgp").n));
    var usdValue := Str(NumberToString(Get(input, "priceUsd").n));
    var egp := Put(input, "priceEgp", egpValue);
    GetPresent(input, "priceEgp");
    KeysPut(input, "priceEgp", egpValue);
    GetPut(input, "priceEgp", egpValue, "priceUsd");
    GetPresent(egp, "priceUsd");
    KeysPut(egp, "priceUsd", usdValue);
    GetPut(egp, "priceUsd", usdValue, "priceEgp");
    GetPut(egp, "priceUsd", usdValue, "priceUsd");
    GetPut(input, "priceEgp", egpValue, "priceEgp");
    Put(egp, "priceUsd", usdValue)
  }

  /** The price a `createCourse` caller gave, 0 when none. */
  function PriceOrZero(v: Value): int {
    if v.Num? then v.n else 0
  }

  lemma GetWithPriceDefaults(input: Object, k: string)
    ensures Get(WithPriceDefaults(input), k)
            == if k == "priceEgp" || k == "priceUsd" then Num(PriceOrZero(Get(input, k))) else Get(input, k)
    requires PriceField(Get(input, "priceEgp")) && PriceField(Get(input, "priceUsd"))
  {
    var egp := if Get(input, "priceEgp").Undefined? then Put(input, "priceEgp", Num(0)) else input;
    GetPut(input, "priceEgp", Num(0), k);
    GetPut(input, "priceEgp", Num(0), "priceUsd");
    GetPut(egp, "priceUsd", Num(0), k);
  }

  lemma GetCreateCourseObject(parsed: Object, k: string)
    requires Get(parsed, "priceEgp").Num? && Get(parsed, "priceUsd").Num?
    ensures Get(CreateCourseObject(parsed), k)
            == if k == "priceEgp" || k == "priceUsd" then Str(NumberToString(Get(parsed, k).n)) else Get(parsed, k)
  {
    var egp := Put(parsed, "priceEgp", Str(NumberToString(Get(parsed, "priceEgp").n)));
    GetPut(parsed, "priceEgp", Str(NumberToString(Get(parsed, "priceEgp").n)), k);
    GetPut(egp, "priceUsd", Str(NumberToString(Get(parsed, "priceUsd").n)), k);
  }

  /** `admin.createCourse`: the parameters handed to the insert, after the
      schema's price defaults and the handler's `String(...)` of both prices. */
  function CreateCourse(input: Object): (params: seq<Value>)
    requires PriceField(Get(input, "priceEgp")) && PriceField(Get(input, "priceUsd"))
    ensures |params| == 9
  {
    Db.CreateCourseParams(CreateCourseObject(WithPriceDefaults(input)))
  }

  /** The course object `createCourse` hands to the insert, read by name. */
  lemma GetCreatedCourse(input: Object, k: string)
    requires PriceField(Get(input, "priceEgp")) && PriceField(Get(input, "priceUsd"))
    ensures Get(CreateCourseObject(WithPriceDefaults(input)), k)
            == if k == "priceEgp" || k == "priceUsd" then Str(NumberToString(PriceOrZero(Get(input, k)))) else Get(input, k)
  {
    GetWithPriceDefaults(input, k);
    GetCreateCourseObject(WithPriceDefaults(input), k);
  }

  /** Both prices always reach the insert as decimal strings, a missing one
      as `"0"`. */
  lemma CreateCoursePrices(input: Object)
    requires PriceField(Get(input, "priceEgp")) && PriceField(Get(input, "priceUsd"))
    ensures CreateCourse(input)[6] == Str(NumberToString(PriceOrZero(Get(input, "priceEgp"))))
    ensures CreateCourse(input)[7] == Str(NumberToString(PriceOrZero(Get(input, "priceUsd"))))
  {
    GetCreatedCourse(input, "priceEgp");
    GetCreatedCourse(input, "priceUsd");
  }

  /** Every column other than the prices is the caller's value. */
  lemma CreateCourseOtherColumns(input: Object)
    requires PriceField(Get(input, "priceEgp")) && PriceField(Get(input, "priceUsd"))
    ensures CreateCourse(input)[..6] == Db.CreateCourseParams(input)[..6]
    ensures CreateCourse(input)[8] == Get(input, "courseLink")
  {
    GetCreatedCourse(input, "title");
    GetCreatedCourse(input, "description");
    GetCreatedCourse(input, "imageUrl");
    GetCreatedCourse(input, "duration");
    GetCreatedCourse(input, "level");
    GetCreatedCourse(input, "instructor");
    GetCreatedCourse(input, "courseLink");
  }


  /** The `id` that `z.union([z.string(), z.number()]).transform(String)` yields. */
  function IdString(id: Value): (r: string)
    requires id.Str? || id.Num?
    ensures id.Str? ==> r == id.s
    ensures id.Num? && id.n >= 0 ==> AllDigits(r) && ParseDecimal(r) == id.n
    ensures id.Num? && id.n < 0 ==> |r| >= 2 && r[0] == '-' && AllDigits(r[1..]) && ParseDecimal(r[1..]) == -id.n
  {
    if id.Str? then id.s else NumberToString(id.n)
  }

  /** `String(v)` for a price that is present, the object unchanged otherwise:
      the property keeps its place and no property is added. */
  function StringifyPrice(o: Object, k: string): (r: Object)
    requires PriceField(Get(o, k))
    ensures Keys(r) == Keys(o)
    ensures Get(r, k) == if Get(o, k).Num? then Str(NumberToString(Get(o, k).n)) else Undefined
  {
    if Get(o, k) != Undefined then
      var v := Str(NumberToString(Get(o, k).n));
      GetPresent(o, k);
      KeysPut(o, k, v);
      GetPut(o, k, v, k);
      Put(o, k, v)
    else o
  }

  /** The `updates` object `admin.updateCourse` hands to the builder: the
      input's properties less `id`, in their order, each provided price as its
      decimal string and an absent price still absent. */
  function CourseUpdates(input: Object): (updates: Object)
    requires PriceField(Get(input, "priceEgp")) && PriceField(Get(input, "priceUsd"))
    ensures Keys(updates) == Keys(Without(input, "id")) && "id" !in Keys(updates)
    ensures Get(updates, "priceEgp") == if Get(input, "priceEgp").Num? then Str(NumberToString(Get(input, "priceEgp").n)) else Undefined
    ensures Get(updates, "priceUsd") == if Get(input, "priceUsd").Num? then Str(NumberToString(Get(input, "priceUsd").n)) else Undefined
  {
    var data := Without(input, "id");
    GetWithout(input, "id", "priceEgp");
    GetWithout(input, "id", "priceUsd");
    WithoutKeeps(input, "id");
    var egp := StringifyPrice(data, "priceEgp");
    if Get(data, "priceEgp").Num? then
      GetPut(data, "priceEgp", Str(NumberToString(Get(data, "priceEgp").n)), "priceUsd");
      UsdLeavesEgp(egp);
      StringifyPrice(egp, "priceUsd")
    else
      UsdLeavesEgp(egp);
      StringifyPrice(egp, "priceUsd")
  }

  lemma UsdLeavesEgp(o: Object)
    requires PriceField(Get(o, "priceUsd"))
    ensures Get(StringifyPrice(o, "priceUsd"), "priceEgp") == Get(o, "priceEgp")
  {
    if Get(o, "priceUsd").Num? {
      GetPut(o, "priceUsd", Str(NumberToString(Get(o, "priceUsd").n)), "priceEgp");
    }
  }

  lemma {:induction false} GetPresent(o: Object, k: string)
    requires Get(o, k) != Undefined
    ensures k in Keys(o)
  {
    if k !in Keys(o) {
      GetAbsent(o, k);
    }
  }

  /** `updateCourse` drops `id`, turns a provided price into its decimal
      string, leaves an absent one absent, passes every other property
      through, and keeps the properties in their order. */
  lemma CourseUpdatesShape(input: Object, k: string)
    requires PriceField(Get(input, "priceEgp")) && PriceField(Get(input, "priceUsd"))
    ensures Get(CourseUpdates(input), k)
            == if k == "id" then Undefined
               else if (k == "priceEgp" || k == "priceUsd") && Get(input, k).Num? then Str(NumberToString(Get(input, k).n))
               else Get(input, k)
    ensures Keys(CourseUpdates(input)) == Keys(Without(input, "id"))
  {
    var data := Without(input, "id");
    GetWithout(input, "id", k);
    GetWithout(input, "id", "priceEgp");
    GetWithout(input, "id", "priceUsd");
    var egp := StringifyPrice(data, "priceEgp");
    if Get(data, "priceEgp").Num? {
      var egpValue := Str(NumberToString(Get(data, "priceEgp").n));
      GetPut(data, "priceEgp", egpValue, k);
      GetPut(data, "priceEgp", egpValue, "priceUsd");
      GetPresent(data, "priceEgp");
      KeysPut(data, "priceEgp", egpValue);
    }
    if Get(egp, "priceUsd") != Undefined {
      var usdValue := Str(NumberToString(Get(egp, "priceUsd").n));
      GetPut(egp, "priceUsd", usdValue, k);
      GetPresent(egp, "priceUsd");
      KeysPut(egp, "priceUsd", usdValue);
    }
  }

  /** `admin.updateCourse`: `const {id, ...data} = input`, a copy `updates`
      whose prices are overwritten by their strings when present, then
      `db.updateCourse(id, updates)`. */
  method UpdateCourse(input: Object) returns (issued: Option<Db.Query>)
    requires Get(input, "id").Str? || Get(input, "id").Num?
    requires PriceField(Get(input, "priceEgp")) && PriceField(Get(input, "priceUsd"))
    ensures issued == Db.UpdateQuery("courses", "id", None, Str(IdString(Get(input, "id"))), CourseUpdates(input))
  {
    var id := IdString(Get(input, "id"));
    var data := Without(input, "id");
    GetWithout(input, "id", "priceEgp");
    GetWithout(input, "id", "priceUsd");
    var updates := data;
    if Get(data, "priceEgp") != Undefined {
      updates := Put(updates, "priceEgp", Str(NumberToString(Get(data, "priceEgp").n)));
    }
    if Get(data, "priceEgp").Num? {
      GetPut(data, "priceEgp", Str(NumberToString(Get(data, "priceEgp").n)), "priceUsd");
    }
    if Get(data, "priceUsd") != Undefined {
      updates := Put(updates, "priceUsd", Str(NumberToString(Get(data, "priceUsd").n)));
    }
    issued := Db.UpdateCourse(id, updates);
  }

  /** `const {id, pageKey, ...data} = input`: the page fields to update. */
  function PageContentData(input: Object): (data: Object)
    ensures "id" !in Keys(data) && "pageKey" !in Keys(data)
    ensures forall e :: e in data <==> e in input && e.0 != "id" && e.0 != "pageKey"
    ensures IsSubsequence(data, input)
  {
    var withoutId := Without(input, "id");
    WithoutKeeps(input, "id");
    WithoutKeeps(withoutId, "pageKey");
    SubsequenceTransitive(Without(withoutId, "pageKey"), withoutId, input);
    Without(withoutId, "pageKey")
  }

  /** `admin.updatePageContent`: `db.updatePageContent(pageKey, data)`. */
  method UpdatePageContent(input: Object) returns (issued: Option<Db.Query>)
    requires Get(input, "pageKey").Str?
    ensures issued == Db.UpdateQuery("page_content", "page_key", Some("pageKey"), Get(input, "pageKey"), PageContentData(input))
  {
    var pageKey := Get(input, "pageKey").s;
    issued := Db.UpdatePageContent(pageKey, PageContentData(input));
  }

  // ---------------------------------------------------------------
  // Access table
  // ---------------------------------------------------------------

  /** Every procedure of `appRouter`. */
  datatype Procedure =
    | Login | Me | Logout
    | GetPageContent | UpdatePageContentProc
    | GetCourses | CreateCourseProc | UpdateCourseProc | DeleteCourse
    | GetPrograms | CreateProgram | UpdateProgram | DeleteProgram
    | GetBlogPosts | CreateBlogPost | UpdateBlogPost | DeleteBlogPost
    | GetJobListings | GetAllJobListings | CreateJobListing | UpdateJobListing | DeleteJobListing
    | GetApplications | CreateApplication | DeleteApplication
    | GetMessages | CreateMessage | DeleteMessage
    | GetSiteSettings | UpdateSiteSetting

  datatype Access = Public | Protected

  /** What a procedure does, independently of how it is registered. */
  datatype Purpose = Session | ReadPublished | VisitorSubmission | Manage | ReadSubmissions

  /** `getJobListings` and `getAllJobListings` both call `db.getCareers`, an
      unfiltered select of the careers table, so both read the same published
      rows. */
  function PurposeOf(p: Procedure): Purpose {
    match p
    case Login | Me | Logout => Session
    case GetPageContent | GetCourses | GetPrograms | GetBlogPosts | GetSiteSettings => ReadPublished
    case GetJobListings | GetAllJobListings => ReadPublished
    case CreateApplication | CreateMessage => VisitorSubmission
    case GetApplications | GetMessages => ReadSubmissions
    case _ => Manage
  }

  /** How each procedure is registered: `publicProcedure` or
      `protectedProcedure`. The session procedures, the reads of published
      content and the two visitor forms are public; everything that changes
      content and every read of submissions is protected; the one exception
      is `getAllJobListings`, a protected read of the same rows the public
      `getJobListings` returns. */
  function AccessOf(p: Procedure): (r: Access)
    ensures r == Public <==> PurposeOf(p) in {Session, ReadPublished, VisitorSubmission} && p != GetAllJobListings
  {
    match p
    case Login | Me | Logout => Public
    case GetPageContent | GetCourses | GetPrograms | GetBlogPosts | GetJobListings | GetSiteSettings => Public
    case CreateApplication | CreateMessage => Public
    case UpdatePageContentProc => Protected
    case CreateCourseProc | UpdateCourseProc | DeleteCourse => Protected
    case CreateProgram | UpdateProgram | DeleteProgram => Protected
    case CreateBlogPost | UpdateBlogPost | DeleteBlogPost => Protected
    case GetAllJobListings | CreateJobListing | UpdateJobListing | DeleteJobListing => Protected
    case GetApplications | DeleteApplication => Protected
    case GetMessages | DeleteMessage => Protected
    case UpdateSiteSetting => Protected
  }

  /** Every change of content and every read of submissions needs a verified
      admin, and `getAllJobListings` is the only protected procedure that
      reads published content. */
  lemma AccessRule(p: Procedure)
    ensures PurposeOf(p) in {Manage, ReadSubmissions} ==> AccessOf(p) == Protected
    ensures AccessOf(p) == Protected && PurposeOf(p) == ReadPublished <==> p == GetAllJobListings
  {
  }

  // ---------------------------------------------------------------
  // Student applications
  // ---------------------------------------------------------------

  /** The properties the `createApplication` schema lets through. */
  predicate ApplicationInput(input: Object) {
    forall k :: k in Keys(input) ==> k in {"fullName", "email", "phone", "message", "courseId"}
  }

  /** `admin.createApplication` as written: the validated input goes straight
      to `db.createApplication`. */
  function CreateApplicationAsWritten(input: Object): (params: seq<Value>)
    ensures |params| == 6
  {
    Db.CreateApplicationParams(input)
  }

  /** The course a visitor picks never reaches the `course_interest` column:
      the schema names it `courseId`, the insert reads `courseInterest`. */
  lemma CourseChoiceLost(input: Object)
    requires ApplicationInput(input)
    ensures CreateApplicationAsWritten(input)[3] == Undefined
  {
    assert "courseInterest" !in {"fullName", "email", "phone", "message", "courseId"};
    GetAbsent(input, "courseInterest");
  }

  /** A concrete application whose course is dropped. */
  lemma CourseChoiceLostExample()
    ensures var input := [("fullName", Str("A")), ("email", Str("a@b")), ("courseId", Str("7"))];
            Get(input, "courseId") == Str("7") && CreateApplicationAsWritten(input)[3] == Undefined
  {
    var input := [("fullName", Str("A")), ("email", Str("a@b")), ("courseId", Str("7"))];
    CourseChoiceLost(input);
  }

  /** The evidently intended procedure: the chosen course is stored as the
      application's course interest. */
  function CreateApplicationCorrected(input: Object): (params: seq<Value>)
    ensures |params| == 6
  {
    Db.CreateApplicationParams(Put(input, "courseInterest", Get(input, "courseId")))
  }

  lemma CreateApplicationKeepsCourse(input: Object)
    ensures CreateApplicationCorrected(input)[3] == Get(input, "courseId")
    ensures CreateApplicationCorrected(input)[..3] == CreateApplicationAsWritten(input)[..3]
    ensures CreateApplicationCorrected(input)[4] == CreateApplicationAsWritten(input)[4]
    ensures CreateApplicationCorrected(input)[5] == CreateApplicationAsWritten(input)[5]
  {
    var course := Get(input, "courseId");
    GetPut(input, "courseInterest", course, "fullName");
    GetPut(input, "courseInterest", course, "email");
    GetPut(input, "courseInterest", course, "phone");
    GetPut(input, "courseInterest", course, "courseInterest");
    GetPut(input, "courseInterest", course, "message");
    GetPut(input, "courseInterest", course, "status");
  }

  /** The correction sets `courseInterest` and leaves every other property
      of the application as the visitor sent it. */
  lemma CorrectionOnlySetsCourseInterest(input: Object)
    ensures forall k :: k != "courseInterest" ==>
              Get(Put(input, "courseInterest", Get(input, "courseId")), k) == Get(input, k)
  {
    forall k | k != "courseInterest" ensures Get(Put(input, "courseInterest", Get(input, "courseId")), k) == Get(input, k) {
      GetPut(input, "courseInterest", Get(input, "courseId"), k);
    }
  }

}

# InfinityX education site: server core in Dafny

This project models the server logic of the InfinityX education site in Dafny. The site is a tRPC server in TypeScript, backed by Postgres.

- **Update builders.** The dynamic `UPDATE` builders in `server/db.ts` turn camelCase properties into snake_case columns. They number the `$i` placeholders, collect the parameters in key order and bind the row key last. When nothing is left to update, they issue nothing.
- **Insert and read defaults.** The same file holds the small rules of the inserts and reads: the `upsertUser` role, the `'pending'`/`'unread'` statuses and the `getSiteSetting` null mapping.
- **Request context.** `createContext` in `server/_core/context.ts` chooses a token: the `adminToken` cookie first, then an `Authorization: Bearer` header. It verifies the token, looks up the admin, and degrades every failure to an anonymous user.
- **Procedures.** `server/routers.ts` holds the `auth.login`, `auth.logout` and `auth.me` procedures with their exact `Set-Cookie` strings, and the input reshaping of `createCourse`, `updateCourse` and `updatePageContent`. It also registers every procedure as public or protected.
- **Schema bootstrap.** `server/auto-init-db.ts` splits `schema.sql` on `;` and sends the statements once each, in order. A statement that throws an error does not stop the rest; one that rejects with `null` or `undefined` makes the `catch` itself throw and ends the bootstrap. It then seeds the default admin with `ON CONFLICT (username) DO NOTHING`.

Modules:
- `Wrappers`: `Option` and `Result`.
- `Strings`: decimal rendering, `split`/`join`, ECMAScript `trim`, subsequences.
- `Js`: JavaScript values, truthiness, `||`, and objects as ordered property lists with read, assignment and rest-destructuring.
- `Http`: the request, the response with `setHeader`, and the admin user.
- `Db`, `Context`, `Routers`, `AutoInit`: the four server modules (`server/db.ts`, `server/_core/context.ts`, `server/routers.ts`, `server/auto-init-db.ts`).

Modelling choices:
- **Collaborators are parameters.** The cookie parser, `verifyToken`, `getAdminById`, `authenticateAdmin`, `generateToken` and `hashPassword` are function parameters. Every one of them except `generateToken` has an outcome type that includes throwing.
- **`query` is a sink.** The update builders return the statement they would send (`Option<Query>`). The bootstrap talks to a `Database` object that logs every query it receives and answers with a fixed function of the query.

## Model

| member | source | states |
|---|---|---|
| Strings.JoinSplit | server/auto-init-db.ts:53-54 | `split(';')` loses nothing: joining the pieces with `;` gives the text back |
| Strings.SplitJoin | server/auto-init-db.ts:53-54 | splitting text joined from `;`-free pieces gives exactly those pieces |
| Strings.TrimShape | server/auto-init-db.ts:55 | `trim()` yields a slice of its input with no whitespace at either end, everything cut off on either side is whitespace, and trimmed text is left alone |
| Strings.TrimIdempotent | server/auto-init-db.ts:55 | trimming twice is trimming once |
| Strings.ParseDecimalOfDecimal | server/db.ts:192 | the number written into a `$n` placeholder reads back as that number |
| Js.GetPut | server/routers.ts:136-140 | after `{...o, k: v}` or `o[k] = v`, reading `k` gives `v` and every other property is unchanged |
| Js.KeysPut | server/routers.ts:161-163 | assigning an existing property keeps the property order; a new one goes last |
| Js.GetWithout | server/routers.ts:160 | `const {k, ...rest} = o` removes `k` and leaves every other property readable |
| Js.WithoutKeeps | server/routers.ts:110 | rest-destructuring keeps exactly the other properties, in their order |
| Js.GetAbsent | server/db.ts:431 | reading a property the object does not have gives `undefined` |
| Db.SnakeCase | server/db.ts:191 | no ASCII capital survives the conversion, and its length is the key's length plus its number of capitals |
| Db.SnakeCaseConcat | server/db.ts:191 | the conversion works character by character (it distributes over concatenation) |
| Db.CamelCaseOfSnakeCase | server/db.ts:191 | for keys without `_`, camelCase recovers the key from its column |
| Db.SnakeCaseInjective | server/db.ts:191 | two different `_`-free keys never map to the same column |
| Db.Kept | server/db.ts:111-119 | the SET list is never longer than the update object and never contains the skipped key |
| Db.KeptMembers | server/db.ts:112-113 | a property reaches the SET list exactly when it is not the skipped key |
| Db.KeptInOrder | server/db.ts:111-119 | the SET list keeps the properties in `Object.entries` order |
| Db.KeptAll | server/db.ts:189-195 | a builder with no skipped key keeps every property |
| Db.UpdateQuery | server/db.ts:185-205 | no statement exactly when no property is left after the skip; otherwise one parameter per kept property plus the row key, which is last |
| Db.NoQueryWhenNothingLeft | server/db.ts:197 | no query is issued exactly when no property is left (without a skip, exactly when the update object is empty) |
| Db.UpdatePlaceholders | server/db.ts:185-205 | the i-th assignment is `<snake_key> = $i` and binds the i-th value; the row key is the last of n+1 parameters and is bound as `$(n+1)`; `updated_at = CURRENT_TIMESTAMP` is always set |
| Db.PlaceholdersDistinct | server/db.ts:192 | the placeholders `$1`..`$n` are pairwise distinct texts |
| Db.PageKeyNeverAssigned | server/db.ts:106-131 | `updatePageContent` never assigns `pageKey` and assigns every other given property, in order |
| Db.BuildUpdate | server/db.ts:185-205 | the `forEach` loop with `fields`, `values` and `paramIndex` issues exactly the statement and parameters that `UpdateQuery` describes |
| Db.UpdatePageContent | server/db.ts:106-131 | the `page_content` builder, keyed on `page_key`, skipping `pageKey` |
| Db.UpdateCourse | server/db.ts:185-206 | the `courses` builder, keyed on `id` |
| Db.UpdateProgram | server/db.ts:244-265 | the `programs` builder, keyed on `id` |
| Db.UpdateBlogPost | server/db.ts:315-336 | the `blog_posts` builder, keyed on `id` |
| Db.UpdateCareer | server/db.ts:374-395 | the `careers` builder, keyed on `id`; it is also `updateJobListing` (server/db.ts:500) |
| Db.UpsertRole | server/db.ts:31 | an explicit role wins; otherwise the role is admin exactly when `openId` equals the owner id |
| Db.UnsetOwnerMatchesEmptyOpenId | server/db.ts:31 | while the owner id keeps its empty default, a user with an empty `openId` and no role is stored as admin |
| Db.UpsertUserParams | server/db.ts:30-47 | eight parameters: `$1`..`$4` bind `openId`, `name`, `email`, `loginMethod`; `$5` is the derived role's name; `$6` is `lastSignedIn`, else the current time; `$7` and `$8` are the current time |
| Db.CreateApplicationParams | server/db.ts:427-434 | six parameters: `$1`..`$5` bind `fullName`, `email`, `phone`, `courseInterest`, `message`; the status is always truthy, and a falsy status becomes `'pending'` |
| Db.CreateMessageParams | server/db.ts:472-478 | five parameters: `$1`..`$4` bind `name`, `email`, `subject`, `message`; the status is always truthy, and a falsy status becomes `'unread'` |
| Db.CreateCourseParams | server/db.ts:176-183 | nine parameters; placeholder `$(i+1)` binds the i-th course property |
| Db.CourseColumnsMatchProperties | server/db.ts:176-183 | every column of the course insert is the snake_case name of the property bound to its placeholder, so each property lands in its own column |
| Db.ApplicationColumnsMatchProperties | server/db.ts:427-434 | every column of the application insert is the snake_case name of the property bound to its placeholder (`full_name` for `fullName`, `course_interest` for `courseInterest`) |
| Db.MessageColumnsAreProperties | server/db.ts:472-478 | every column of the message insert is the snake_case name of the property bound to its placeholder, here the name itself |
| Db.SiteSettingValue | server/db.ts:532-538 | null exactly for a missing row or a falsy value; otherwise the stored value |
| Context.FindToken | server/_core/context.ts:16-35 | the cookie-then-header search yields exactly the candidate token, and its only collaborator call is the parse of a non-empty string cookie header |
| Context.CreateContext | server/_core/context.ts:11-61 | never fails; returns `req` and `res` unchanged; the user is what the candidate token resolves to, and null without a request; the collaborator calls are exactly those `Calls` lists, in order |
| Context.CookieToken | server/_core/context.ts:19-27 | a cookie token exists exactly when the cookie header is a non-empty string that parses to a jar with a non-empty `adminToken`, and it is that value |
| Context.BearerToken | server/_core/context.ts:30-35 | a header token exists exactly when the header is a string starting with `Bearer `, and the header is that prefix followed by the token |
| Context.Calls | server/_core/context.ts:22-42 | at most three calls: the parse comes first, `verifyToken` only with a non-empty token, `getAdminById` only right after `verifyToken` |
| Context.CandidateToken | server/_core/context.ts:16-35 | a token comes from the cookie or from the bearer header, and there is none exactly when neither gives one |
| Context.ResolveUser | server/_core/context.ts:38-49 | a resolved user is always the admin the lookup found for the payload of a non-empty token that verified |
| Context.CookieTakesPrecedence | server/_core/context.ts:19-30 | a non-empty `adminToken` cookie is the token whatever the `Authorization` header says |
| Context.HeaderOnlyAsFallback | server/_core/context.ts:30-35 | the header is used only without a cookie token, and then only when it starts with exactly `Bearer `; the token is the text after those 7 characters |
| Context.UnusableCookieFallsThrough | server/_core/context.ts:19-27 | a cookie header that is not a string, or that fails to parse, leaves resolution to the header |
| Context.BearerPrefixIsExact | server/_core/context.ts:32-33 | the prefix is case-sensitive and needs its space; `Bearer ` alone gives the empty token |
| Context.NoTokenIsAnonymous | server/_core/context.ts:38 | with no token or an empty one the user is null, and neither `verifyToken` nor `getAdminById` is called |
| Context.ResolvedOnlyThroughLookup | server/_core/context.ts:38-49 | a user is resolved exactly when the token verifies to a payload with a truthy `userId` that the lookup finds |
| Http.Response.SetHeader | server/routers.ts:40-43 | `res.setHeader(name, value)` replaces that header and no other |
| Routers.Login | server/routers.ts:20-47 | a falsy `authenticateAdmin` result gives the single UNAUTHORIZED error and touches nothing; on success the token is generated and the cookie set (with `Secure` iff `req.secure`) when `setHeader` exists, and `{success: true, token, user}` carries the same token |
| Routers.Logout | server/routers.ts:56-65 | always succeeds; sets the clearing cookie when `setHeader` exists and changes nothing otherwise |
| Routers.Me | server/routers.ts:50-53 | the context's user when there is one, else null |
| Routers.LoginCookie | server/routers.ts:39-44 | the login cookie starts with `adminToken=<token>` |
| Routers.LoginCookieJoin | server/routers.ts:39-44 | the login cookie is its name-value pair and attributes joined with `;` |
| Routers.LoginCookieAttributes | server/routers.ts:39-44 | the login cookie is exactly `adminToken=<token>`, `Path=/`, `Max-Age=604800`, `HttpOnly`, `SameSite=Lax`, plus `Secure` only for a secure request |
| Routers.LogoutCookieAttributes | server/routers.ts:59-62 | the logout cookie (`Routers.LogoutCookie`) is exactly `adminToken=`, `Path=/`, `Max-Age=0`, `HttpOnly`, `SameSite=Lax`, with no `Secure` |
| Routers.WithPriceDefaults | server/routers.ts:130-131 | a missing price becomes 0 and a given one is kept |
| Routers.CreateCourse | server/routers.ts:120-141 | `createCourse` hands the insert its nine parameters |
| Routers.CreateCourseObject | server/routers.ts:136-140 | the course object keeps the parsed input's properties, in order, with both prices replaced by their decimal strings |
| Routers.GetCreatedCourse | server/routers.ts:130-140 | the course object handed to the insert has both prices as decimal strings (0 when missing) and every other property as given |
| Routers.CreateCoursePrices | server/routers.ts:120-141 | the insert receives both prices as decimal strings (`"0"` when missing) |
| Routers.CreateCourseOtherColumns | server/routers.ts:120-141 | every column of the insert other than the prices is exactly what the caller gave |
| Routers.IdString | server/routers.ts:146 | a string `id` is kept; a numeric one becomes decimal text that reads back as the number (with `-` for a negative one) |
| Routers.StringifyPrice | server/routers.ts:162-163 | a provided price becomes its decimal string in place, an absent one stays absent, and no property is added |
| Routers.CourseUpdates | server/routers.ts:160-163 | the updates are the input's properties less `id`, in order, with each provided price as its decimal string and an absent price still absent |
| Routers.CourseUpdatesShape | server/routers.ts:159-165 | `updateCourse` drops `id`, stringifies a price only when it is provided, passes every other property through, and keeps the property order |
| Routers.UpdateCourse | server/routers.ts:143-166 | issues the `courses` update for the stringified `id` with exactly the reshaped properties |
| Routers.PageContentData | server/routers.ts:110 | the page fields are the input without `id` and `pageKey`, every other property kept, in order |
| Routers.UpdatePageContent | server/routers.ts:109-113 | issues the `page_content` update for `pageKey` with exactly those page fields |
| Routers.AccessOf | server/routers.ts:20-386 | public exactly for the session procedures, the reads of published content other than `getAllJobListings`, and the two visitor forms |
| Routers.AccessRule | server/routers.ts:77-386 | every change and every read of submissions is protected; `getAllJobListings` is the only protected read of published content (it returns the same `getCareers` rows as the public `getJobListings`, server/db.ts:497-498) |
| Routers.CreateApplicationAsWritten | server/routers.ts:323-335 | the validated application goes straight to the six-parameter insert |
| Routers.CourseChoiceLost | server/routers.ts:323-335 | for any input the schema admits, the `course_interest` parameter is `undefined` |
| Routers.CourseChoiceLostExample | server/routers.ts:323-335 | an application with `courseId: "7"` stores no course |
| Routers.CreateApplicationCorrected | server/routers.ts:323-335 | the corrected procedure hands the same six-parameter insert the input with `courseInterest` set from `courseId` |
| Routers.CreateApplicationKeepsCourse | server/routers.ts:323-335 | the corrected procedure stores the chosen course and leaves every other parameter as before |
| Routers.CorrectionOnlySetsCourseInterest | server/routers.ts:323-335 | the correction changes no property of the application other than `courseInterest` |
| AutoInit.TrimAll | server/auto-init-db.ts:55 | `.map(s => s.trim())` keeps the number of chunks |
| AutoInit.KeepStatements | server/auto-init-db.ts:56 | what the filter keeps is a statement (non-empty, no leading `--`), and it adds nothing |
| AutoInit.Chunks | server/auto-init-db.ts:53-55 | one trimmed chunk per `;` plus one |
| AutoInit.Statements | server/auto-init-db.ts:53-56 | only statements are sent, at most one per `;` plus one |
| AutoInit.KeepStatementsShape | server/auto-init-db.ts:56 | the filter keeps exactly the non-empty chunks that do not start with `--`, in order |
| AutoInit.StatementsWellFormed | server/auto-init-db.ts:53-56 | every statement sent is trimmed, non-empty, and does not start with `--` |
| AutoInit.StatementsInOrder | server/auto-init-db.ts:53-60 | the statements are the filtered chunks in source order, at most the number of `;` plus one |
| AutoInit.ChunksAtSeparator | server/auto-init-db.ts:53-55 | the text before the first `;` is a chunk of its own |
| AutoInit.SemicolonAlwaysSplits | server/auto-init-db.ts:53-56 | a `;` always ends a statement, even inside a string literal |
| AutoInit.QuotedSemicolonExample | server/auto-init-db.ts:53-56 | `SELECT 'a;b'` is sent as `SELECT 'a` and `b'` |
| AutoInit.CommentedChunkDropped | server/auto-init-db.ts:53-56 | a chunk that starts with a `--` line is dropped whole, with the SQL after the comment |
| AutoInit.CommentExample | server/auto-init-db.ts:53-56 | a `CREATE TABLE` after a `--` line in its own chunk is never sent |
| AutoInit.EmptyTextHasNoStatements | server/auto-init-db.ts:53-56 | an empty `schema.sql` yields no statement |
| AutoInit.Database.Run | server/auto-init-db.ts:60 | every query sent is appended to the log, and its answer is the database's |
| AutoInit.ExistsQuery | server/auto-init-db.ts:12-18 | the parameterless existence check of `admin_users` in the `public` schema |
| AutoInit.InitializedFrom | server/auto-init-db.ts:19-23 | truthy exactly when the check returned a row whose `exists` is truthy; otherwise `false`, including when the query threw anything |
| AutoInit.IsDatabaseInitialized | server/auto-init-db.ts:10-24 | sends the one existence query and never throws |
| AutoInit.StatementQueries | server/auto-init-db.ts:58-60 | one parameterless query per statement, in order |
| AutoInit.Sent | server/auto-init-db.ts:58-67 | the number of statements the loop sends: never more than there are, up to and including the first nullish rejection |
| AutoInit.SentStopsAtFirstNullish | server/auto-init-db.ts:58-67 | the loop stops right after the first statement rejected with `null` or `undefined`; when every answer is rows or an error with a message, every statement is sent |
| AutoInit.RunStatements | server/auto-init-db.ts:58-67 | the statements are sent once each, in order, up to and including the first nullish rejection; an error with a message does not stop the loop; a nullish rejection ends it with the `TypeError` that reading `error.message` throws (line 63) |
| AutoInit.InitializeFrom | server/auto-init-db.ts:52-79 | the statements are sent up to the first nullish rejection, which fails with the loop's `TypeError`; otherwise the password is hashed and the admin seeded, and a failing hash or seed is rethrown as it came |
| AutoInit.AutoInitialize | server/auto-init-db.ts:29-91 | an initialised database gets only the check; a missing or unreadable `schema.sql` fails before any statement; otherwise the statements are sent, a nullish rejection rethrows the loop's `TypeError` before the seed, then the admin is seeded, and a failing hash or seed is rethrown as it came |
| AutoInit.SeedQuery | server/auto-init-db.ts:74-79 | the seed statement, whose four parameters are the default admin's username, hash, email and name, in column order |
| AutoInit.InsertOrKeep | server/auto-init-db.ts:74-79 | the username is present afterwards and no other username is added |
| AutoInit.SeedKeepsExistingAdmin | server/auto-init-db.ts:74-79 | an existing `admin` row is left unchanged; a missing one is created with the new hash; other admins are untouched |
| AutoInit.SeedIdempotent | server/auto-init-db.ts:74-79 | seeding again, even with a fresh hash, changes nothing |

## Left out

- **Client code** is not part of this model: the React pages and components, and `client/src/const.ts`. The one-shot `init-db.js` script is not part of it either.
- **Environment.** `server/_core/env.ts` is reduced to its values: the owner id is a parameter, and its empty default appears in `Db.UnsetOwnerMatchesEmptyOpenId`.
- **Crypto and database collaborators.** Token signing and verification, password hashing and the admin lookup are parameters, not JWT or bcrypt semantics. So are `authenticateAdmin`, `generateToken` and the `cookie` library's `parse`.
- **`generateToken` is total** in the model; an exception thrown by it is not modelled.
- **The protected gate.** `protectedProcedure` is not modelled; only the registration table is (`Routers.AccessOf`).
- **Schema validation.** Zod validation of procedure inputs is outside the model, and so is the order in which zod emits properties. The reshaping functions take the validated object. Their `requires` clauses say only what the schema guarantees: prices are numbers or absent, `id` is a string or a number, `pageKey` is a string.
- **Postgres semantics.** `query` and `queryOne` are sinks, and SQL execution is not modelled. The only exception is the seed's conflict rule, stated on a table of admins. `queryOne` is taken to return the first row, or nothing.
- **Clock, async and logging.** `new Date()` is a parameter `now`. The async/Promise machinery is not modelled, and neither is console logging. Whether a failed statement's message mentions `already exists` decides only whether it is logged, so the message's text is not examined.
- **File system.** `fs.existsSync` and `readFileSync` are one `SchemaFile` parameter: missing, unreadable, or its text.
- **Numbers** are unbounded integers, and `String` of a number (`Js.NumberToString`) prints every integer in full decimal. JavaScript doubles are not modelled: rounding above 2^53, exponent notation from 1e21 (`String(1e21)` is `"1e+21"`), fractions and `NaN`. For such values the price strings and `Routers.IdString` differ from the model; the `$n` placeholders count properties and stay far below them.
- **Property order.** Integer-like property names, which JavaScript orders first, are not modelled.
- **Null and undefined users.** A `null` and an `undefined` user from `getAdminById` are both `None`.
- **Other procedures.** The remaining router procedures (`createProgram`, `updateProgram`, the blog, career, message and deletion procedures, and `updateSiteSetting`) are not modelled. Most pass their validated input to `db`, whose builders are modelled in `Db`. Two add a property first, and that is not modelled either: `createBlogPost` defaults `publishedAt` to the current time (server/routers.ts:234-238), and `createJobListing` adds `isActive: true` (server/routers.ts:286-287).
- **Other `db.ts` functions.** The SELECT, DELETE and fixed-text INSERT functions of `server/db.ts` are not modelled. Besides the builders, the parts modelled are the parameter lists of `createCourse`, `createApplication`, `createMessage` and `upsertUser`, and the result mapping of the `getSiteSetting` SELECT.
- **Routers.CreateCourse**: its own contract gives only the length. `Routers.CreateCoursePrices` states the content.
- **AutoInit.RunStatements**: of the rejections whose `error.message?.includes` throws in the `catch`, only `null` and `undefined` are modelled (`Outcome.ThrewNullish`). An error object whose `message` is present but not a string or array (so that `includes` is not a function) is not. Every error with a message is an `Outcome.Threw`, which the loop survives.
- **Job listings.** `getAllJobListings` is protected, yet it returns the same unfiltered `getCareers` rows as the public `getJobListings` (server/db.ts:358-364, 497-498). `Routers.PurposeOf` therefore counts it as a read of published content, and `Routers.AccessRule` names it as the one exception.

## Findings

| source | as written | input that shows it | evidently intended | confidence | as-written member | corrected member |
|---|---|---|---|---|---|---|
| server/routers.ts:323-335 | the `createApplication` schema names the chosen course `courseId`, but `db.createApplication` (server/db.ts:427-434) reads `courseInterest`, so `course_interest` is always bound to `undefined` | `{fullName: "A", email: "a@b", courseId: "7"}` | the chosen course is stored as the application's course interest | medium, not executed | Routers.CourseChoiceLost | Routers.CreateApplicationKeepsCourse |

/** The statement builders of the database layer: the dynamic `UPDATE`
    builder shared (as five copies) by the page-content, course, program,
    blog-post and career updates; the defaulting rules of `upsertUser`,
    `createApplication`, `createMessage`; and the `getSiteSetting` result
    mapping. `query` itself is a sink: a builder's result is the
    `(text, params)` pair it would hand over, or `None` when it issues nothing. */
module Db {
  import opened Wrappers
  import opened Js
  import opened Strings

  /** What `query(text, params)` receives. */
  datatype Query = Query(text: string, params: seq<Value>)

  // ---------------------------------------------------------------
  // camelCase -> snake_case
  // ---------------------------------------------------------------

  predicate IsUpper(c: char) {
    'A' <= c <= 'Z'
  }

  predicate IsLower(c: char) {
    'a' <= c <= 'z'
  }

  function ToLower(c: char): char
    requires IsUpper(c)
  {
    (c as int + 32) as char
  }

  function ToUpper(c: char): char
    requires IsLower(c)
  {
    (c as int - 32) as char
  }

  function CountUpper(s: string): nat {
    if s == [] then 0 else (if IsUpper(s[0]) then 1 else 0) + CountUpper(s[1..])
  }

  /** `key.replace(/[A-Z]/g, letter => "_" + letter.toLowerCase())`: the
      column name of a property. No ASCII capital survives, and every capital
      grows the text by one character (its `_`). */
  function SnakeCase(key: string): (column: string)
    ensures |column| == |key| + CountUpper(key)
    ensures forall i :: 0 <= i < |column| ==> !IsUpper(column[i])
  {
    if key == [] then []
    else (if IsUpper(key[0]) then ['_', ToLower(key[0])] else [key[0]]) + SnakeCase(key[1..])
  }

  /** The conversion works character by character: it distributes over concatenation. */
  lemma {:induction false} SnakeCaseConcat(a: string, b: string)
    ensures SnakeCase(a + b) == SnakeCase(a) + SnakeCase(b)
  {
    if a == [] {
      assert a + b == b;
    } else {
      assert (a + b)[0] == a[0];
      assert (a + b)[1..] == a[1..] + b;
      SnakeCaseConcat(a[1..], b);
    }
  }

  /** snake_case -> camelCase: `_` followed by a lower-case letter becomes the capital. */
  function CamelCase(s: string): string {
    if s == [] then []
    else if |s| >= 2 && s[0] == '_' && IsLower(s[1]) then [ToUpper(s[1])] + CamelCase(s[2..])
    else [s[0]] + CamelCase(s[1..])
  }

  /** For property names without `_` (all the camelCase names of the schemas)
      the conversion loses nothing: camelCase recovers the property. */
  lemma {:induction false} CamelCaseOfSnakeCase(key: string)
    requires '_' !in key
    ensures CamelCase(SnakeCase(key)) == key
  {
    if key != [] {
      var rest := SnakeCase(key[1..]);
      CamelCaseOfSnakeCase(key[1..]);
      if IsUpper(key[0]) {
        var s := ['_', ToLower(key[0])] + rest;
        assert s[2..] == rest;
      } else {
        var s := [key[0]] + rest;
        assert s[1..] == rest;
      }
      assert [key[0]] + key[1..] == key;
    }
  }

  /** Two different camelCase properties never map to the same column. */
  lemma SnakeCaseInjective(a: string, b: string)
    requires '_' !in a && '_' !in b
    requires SnakeCase(a) == SnakeCase(b)
    ensures a == b
  {
    CamelCaseOfSnakeCase(a);
    CamelCaseOfSnakeCase(b);
  }

  // ---------------------------------------------------------------
  // The dynamic UPDATE builder
  // ---------------------------------------------------------------

  /** The properties that reach the `SET` list, in `Object.entries` order:
      every one except the skipped key. */
  function Kept(updates: Object, skip: Option<string>): (kept: Object)
    ensures |kept| <= |updates|
    ensures forall i :: 0 <= i < |kept| ==> Some(kept[i].0) != skip
  {
    if updates == [] then []
    else if Some(updates[0].0) == skip then Kept(updates[1..], skip)
    else [updates[0]] + Kept(updates[1..], skip)
  }

  /** The `forEach` visits one property at a time: keeping is decided per property. */
  lemma {:induction false} KeptSnoc(updates: Object, skip: Option<string>, e: Entry)
    ensures Kept(updates + [e], skip) == Kept(updates, skip) + (if Some(e.0) == skip then [] else [e])
  {
    if updates == [] {
      assert [] + [e] == [e];
    } else {
      assert (updates + [e])[1..] == updates[1..] + [e];
      KeptSnoc(updates[1..], skip, e);
    }
  }

  /** `<snake_key> = $<index>`. */
  function Assignment(key: string, index: nat): string {
    SnakeCase(key) + " = $" + Decimal(index)
  }

  /** The `fields` array: the i-th kept property is assigned placeholder i+1. */
  function Assignments(kept: Object): seq<string> {
    seq(|kept|, i requires 0 <= i < |kept| => Assignment(kept[i].0, i + 1))
  }

  /** The `values` array before the row key is pushed. */
  function ValuesOf(kept: Object): seq<Value> {
    seq(|kept|, i requires 0 <= i < |kept| => kept[i].1)
  }

  const UpdatedAtClause: string := ", updated_at = CURRENT_TIMESTAMP"

  /** The text of the update statement once `fields` is built. */
  function UpdateText(table: string, keyColumn: string, fields: seq<string>, whereIndex: nat): string {
    "UPDATE " + table + " SET " + Join(fields, ", ") + UpdatedAtClause
    + "\n     WHERE " + keyColumn + " = $" + Decimal(whereIndex)
  }

  /** What an update builder hands to `query`: nothing when no property is
      left, otherwise the statement and its parameters, the row key last. */
  function UpdateQuery(table: string, keyColumn: string, skip: Option<string>, rowKey: Value, updates: Object): (r: Option<Query>)
    ensures r.None? <==> Kept(updates, skip) == []
    ensures r.Some? ==> |r.value.params| == |Kept(updates, skip)| + 1 && r.value.params[|Kept(updates, skip)|] == rowKey
  {
    var kept := Kept(updates, skip);
    if kept == [] then None
    else Some(Query(UpdateText(table, keyColumn, Assignments(kept), |kept| + 1), ValuesOf(kept) + [rowKey]))
  }

  /** A property reaches the SET list exactly when it is not the skipped key. */
  lemma {:induction false} KeptMembers(updates: Object, skip: Option<string>)
    ensures forall e :: e in Kept(updates, skip) <==> e in updates && Some(e.0) != skip
  {
    if updates != [] {
      KeptMembers(updates[1..], skip);
      assert updates == [updates[0]] + updates[1..];
    }
  }

  /** The SET list keeps the properties in their `Object.entries` order. */
  lemma {:induction false} KeptInOrder(updates: Object, skip: Option<string>)
    ensures IsSubsequence(Kept(updates, skip), updates)
  {
    if updates != [] {
      KeptInOrder(updates[1..], skip);
      var k := Kept(updates[1..], skip);
      assert updates == [updates[0]] + updates[1..];
      if Some(updates[0].0) == skip {
        SubsequenceExtend(k, updates[0], updates[1..]);
      } else {
        assert ([updates[0]] + k)[1..] == k;
      }
    }
  }

  /** Without a skipped key every property is kept. */
  lemma {:induction false} KeptAll(updates: Object)
    ensures Kept(updates, None) == updates
  {
    if updates != [] {
      KeptAll(updates[1..]);
      assert [updates[0]] + updates[1..] == updates;
    }
  }

  /** No query is issued exactly when no property is left; without a skipped
      key, exactly when the update object is empty. */
  lemma NoQueryWhenNothingLeft(table: string, keyColumn: string, skip: Option<string>, rowKey: Value, updates: Object)
    ensures UpdateQuery(table, keyColumn, skip, rowKey, updates).None? <==> Kept(updates, skip) == []
    ensures skip == None ==> (UpdateQuery(table, keyColumn, skip, rowKey, updates).None? <==> updates == [])
  {
    KeptAll(updates);
  }

  /** The i-th assignment is `<snake_key> = $(i+1)`, and its placeholder reads
      back as its own position. */
  lemma AssignmentsNumbered(kept: Object)
    ensures var fields := Assignments(kept);
            forall i :: 0 <= i < |kept| ==>
              && fields[i] == SnakeCase(kept[i].0) + " = $" + Decimal(i + 1)
              && ParseDecimal(fields[i][|SnakeCase(kept[i].0)| + 4..]) == i + 1
  {
    var fields := Assignments(kept);
    forall i | 0 <= i < |kept|
      ensures ParseDecimal(fields[i][|SnakeCase(kept[i].0)| + 4..]) == i + 1
    {
      var key := SnakeCase(kept[i].0);
      assert fields[i][|key| + 4..] == Decimal(i + 1);
      ParseDecimalOfDecimal(i + 1);
    }
  }

  /** The placeholders `$1`..`$n` of an update are pairwise distinct. */
  lemma PlaceholdersDistinct(n: nat)
    ensures forall i, j :: 1 <= i < j <= n ==> Decimal(i) != Decimal(j)
  {
    forall i, j | 1 <= i < j <= n ensures Decimal(i) != Decimal(j) {
      if Decimal(i) == Decimal(j) {
        DecimalInjective(i, j);
      }
    }
  }

  /** The index invariants of an issued update: n assignments numbered
      `$1`..`$n` in property order, each reading back as its own position;
      the i-th binds the i-th kept value; the row key is bound last, as
      `$(n+1)`, so there are n+1 parameters; and `updated_at` is always set. */
  lemma UpdatePlaceholders(table: string, keyColumn: string, skip: Option<string>, rowKey: Value, updates: Object)
    requires UpdateQuery(table, keyColumn, skip, rowKey, updates).Some?
    ensures var q := UpdateQuery(table, keyColumn, skip, rowKey, updates).value;
            var kept := Kept(updates, skip);
            var n := |kept|;
            var fields := Assignments(kept);
            && |fields| == n && |q.params| == n + 1
            && q.params[n] == rowKey
            && (forall i :: 0 <= i < n ==>
                  && fields[i] == SnakeCase(kept[i].0) + " = $" + Decimal(i + 1)
                  && ParseDecimal(fields[i][|SnakeCase(kept[i].0)| + 4..]) == i + 1
                  && q.params[i] == kept[i].1)
            && q.text == "UPDATE " + table + " SET " + Join(fields, ", ") + UpdatedAtClause
                         + "\n     WHERE " + keyColumn + " = $" + Decimal(|q.params|)
  {
    AssignmentsNumbered(Kept(updates, skip));
  }

  /** `updatePageContent` never assigns `pageKey` (it is the row key) and
      assigns every other property it is given, in order. */
  lemma PageKeyNeverAssigned(pageKey: string, updates: Object)
    ensures var kept := Kept(updates, Some("pageKey"));
            && (forall i :: 0 <= i < |kept| ==> kept[i].0 != "pageKey")
            && (forall e :: e in updates && e.0 != "pageKey" ==> e in kept)
            && IsSubsequence(kept, updates)
  {
    KeptMembers(updates, Some("pageKey"));
    KeptInOrder(updates, Some("pageKey"));
    var kept := Kept(updates, Some("pageKey"));
    forall i | 0 <= i < |kept| ensures kept[i].0 != "pageKey" {
      assert kept[i] in kept;
    }
  }

  /** Pushing one more kept property extends `fields` and `values` by one. */
  lemma AssignmentsSnoc(kept: Object, e: Entry)
    ensures Assignments(kept + [e]) == Assignments(kept) + [Assignment(e.0, |kept| + 1)]
    ensures ValuesOf(kept + [e]) == ValuesOf(kept) + [e.1]
  {
    assert forall i :: 0 <= i < |kept| ==> (kept + [e])[i] == kept[i];
  }

  /** The shared body of the five update functions: walk `Object.entries(updates)`,
      skip `skip`, push `<snake_key> = $<paramIndex>` and the value, then,
      unless nothing was pushed, push the row key and issue the statement. */
  method BuildUpdate(table: string, keyColumn: string, skip: Option<string>, rowKey: Value, updates: Object)
    returns (issued: Option<Query>)
    ensures issued == UpdateQuery(table, keyColumn, skip, rowKey, updates)
  {
    var fields: seq<string> := [];
    var values: seq<Value> := [];
    var paramIndex: nat := 1;
    ghost var kept: Object := [];
    var i := 0;
    while i < |updates|
      invariant 0 <= i <= |updates|
      invariant kept == Kept(updates[..i], skip)
      invariant paramIndex == |kept| + 1
      invariant fields == Assignments(kept) && values == ValuesOf(kept)
    {
      var (key, value) := updates[i];
      KeptSnoc(updates[..i], skip, updates[i]);
      assert updates[..i + 1] == updates[..i] + [updates[i]];
      if Some(key) != skip {
        AssignmentsSnoc(kept, updates[i]);
        var snakeKey := SnakeCase(key);
        fields := fields + [snakeKey + " = $" + Decimal(paramIndex)];
        values := values + [value];
        paramIndex := paramIndex + 1;
        kept := kept + [updates[i]];
      }
      i := i + 1;
    }
    assert updates[..i] == updates;
    if |fields| == 0 {
      return None;
    }
    values := values + [rowKey];
    issued := Some(Query(UpdateText(table, keyColumn, fields, paramIndex), values));
  }

  /** `updatePageContent(pageKey, updates)`: `pageKey` is never assigned and is the row key. */
  method UpdatePageContent(pageKey: string, updates: Object) returns (issued: Option<Query>)
    ensures issued == UpdateQuery("page_content", "page_key", Some("pageKey"), Str(pageKey), updates)
  {
    issued := BuildUpdate("page_content", "page_key", Some("pageKey"), Str(pageKey), updates);
  }

  /** `updateCourse(id, updates)`. */
  method UpdateCourse(id: string, updates: Object) returns (issued: Option<Query>)
    ensures issued == UpdateQuery("courses", "id", None, Str(id), updates)
  {
    issued := BuildUpdate("courses", "id", None, Str(id), updates);
  }

  /** `updateProgram(id, updates)`. */
  method UpdateProgram(id: string, updates: Object) returns (issued: Option<Query>)
    ensures issued == UpdateQuery("programs", "id", None, Str(id), updates)
  {
    issued := BuildUpdate("programs", "id", None, Str(id), updates);
  }

  /** `updateBlogPost(id, updates)`. */
  method UpdateBlogPost(id: string, updates: Object) returns (issued: Option<Query>)
    ensures issued == UpdateQuery("blog_posts", "id", None, Str(id), updates)
  {
    issued := BuildUpdate("blog_posts", "id", None, Str(id), updates);
  }

  /** `updateCareer(id, updates)`, exported a second time as `updateJobListing`. */
  method UpdateCareer(id: string, updates: Object) returns (issued: Option<Query>)
    ensures issued == UpdateQuery("careers", "id", None, Str(id), updates)
  {
    issued := BuildUpdate("careers", "id", None, Str(id), updates);
  }

  // ---------------------------------------------------------------
  // Defaulting rules of the inserts and the site-setting read
  // ---------------------------------------------------------------

  datatype Role = UserRole | AdminRole

  function RoleName(r: Role): string {
    match r
    case UserRole => "user"
    case AdminRole => "admin"
  }

  /** `InsertUser`: `lastSignedIn` is a `Date` (epoch milliseconds) when given. */
  datatype InsertUser = InsertUser(
    openId: string, name: Value, email: Value, loginMethod: Value,
    role: Option<Role>, lastSignedIn: Option<int>)

  /** `user.role || (user.openId === ownerOpenId ? "admin" : "user")`: an explicit
      role wins; otherwise admin exactly for the configured owner. */
  function UpsertRole(user: InsertUser, ownerOpenId: string): (role: Role)
    ensures user.role.Some? ==> role == user.role.value
    ensures user.role.None? ==> (role == AdminRole <==> user.openId == ownerOpenId)
  {
    if user.role.Some? then user.role.value
    else if user.openId == ownerOpenId then AdminRole else UserRole
  }

  /** The owner id defaults to the empty string, so while it is unset a user
      whose `openId` is empty and who names no role is stored as an admin. */
  lemma UnsetOwnerMatchesEmptyOpenId(name: Value, email: Value, loginMethod: Value, lastSignedIn: Option<int>)
    ensures UpsertRole(InsertUser("", name, email, loginMethod, None, lastSignedIn), "") == AdminRole
  {
  }

  /** The eight parameters of the `upsertUser` statement, `now` being the clock. */
  function UpsertUserParams(user: InsertUser, ownerOpenId: string, now: int): (params: seq<Value>)
    ensures |params| == 8
    ensures params[4] == Str(RoleName(UpsertRole(user, ownerOpenId)))
    ensures params[5] == Date(if user.lastSignedIn.Some? then user.lastSignedIn.value else now)
    ensures params[..4] == [Str(user.openId), user.name, user.email, user.loginMethod]
    ensures params[6] == params[7] == Date(now)
  {
    [Str(user.openId), user.name, user.email, user.loginMethod,
     Str(RoleName(UpsertRole(user, ownerOpenId))),
     Or(if user.lastSignedIn.Some? then Date(user.lastSignedIn.value) else Undefined, Date(now)),
     Date(now), Date(now)]
  }

  /** The columns of the `createApplication` insert, in placeholder order. */
  const ApplicationColumns: seq<string> := ["full_name", "email", "phone", "course_interest", "message", "status"]

  /** The application properties the insert reads, in parameter order. */
  const ApplicationProperties: seq<string> := ["fullName", "email", "phone", "courseInterest", "message", "status"]

  /** The six parameters of `createApplication`: `$(i+1)` binds the i-th
      application property, except that a falsy status becomes `'pending'`. */
  function CreateApplicationParams(application: Object): (params: seq<Value>)
    ensures |params| == |ApplicationColumns| == |ApplicationProperties| && Truthy(params[5])
    ensures forall i :: 0 <= i < 5 ==> params[i] == Get(application, ApplicationProperties[i])
    ensures params[5] == (if Truthy(Get(application, "status")) then Get(application, "status") else Str("pending"))
  {
    [Get(application, "fullName"), Get(application, "email"), Get(application, "phone"),
     Get(application, "courseInterest"), Get(application, "message"),
     Or(Get(application, "status"), Str("pending"))]
  }

  /** The columns of the `createMessage` insert, in placeholder order; each
      is also the name of the message property it binds. */
  const MessageColumns: seq<string> := ["name", "email", "subject", "message", "status"]

  /** The five parameters of `createMessage`: `$(i+1)` binds the i-th message
      property, except that a falsy status becomes `'unread'`. */
  function CreateMessageParams(msg: Object): (params: seq<Value>)
    ensures |params| == |MessageColumns| && Truthy(params[4])
    ensures forall i :: 0 <= i < 4 ==> params[i] == Get(msg, MessageColumns[i])
    ensures params[4] == (if Truthy(Get(msg, "status")) then Get(msg, "status") else Str("unread"))
  {
    [Get(msg, "name"), Get(msg, "email"), Get(msg, "subject"), Get(msg, "message"),
     Or(Get(msg, "status"), Str("unread"))]
  }

  /** The columns of the `createCourse` insert, in placeholder order. */
  const CourseColumns: seq<string> :=
    ["title", "description", "image_url", "duration", "level", "instructor", "price_egp", "price_usd", "course_link"]

  /** The course properties the insert reads, in parameter order. */
  const CourseProperties: seq<string> :=
    ["title", "description", "imageUrl", "duration", "level", "instructor", "priceEgp", "priceUsd", "courseLink"]

  /** The nine parameters of `createCourse`: placeholder `$(i+1)` binds the
      property named by the i-th course property. */
  function CreateCourseParams(course: Object): (params: seq<Value>)
    ensures |params| == |CourseColumns| == |CourseProperties|
    ensures forall i :: 0 <= i < |params| ==> params[i] == Get(course, CourseProperties[i])
  {
    [Get(course, "title"), Get(course, "description"), Get(course, "imageUrl"),
     Get(course, "duration"), Get(course, "level"), Get(course, "instructor"),
     Get(course, "priceEgp"), Get(course, "priceUsd"), Get(course, "courseLink")]
  }

  /** A word without capitals is its own column name. */
  lemma {:induction false} SnakeCaseLowerWord(w: string)
    requires forall i :: 0 <= i < |w| ==> IsLower(w[i])
    ensures SnakeCase(w) == w
  {
    if w != [] {
      SnakeCaseLowerWord(w[1..]);
      assert w == [w[0]] + w[1..];
    }
  }

  /** A capital turns into `_` and its lower case. */
  lemma SnakeCaseCapital(c: char, tail: string)
    requires IsUpper(c)
    ensures SnakeCase([c] + tail) == ['_', ToLower(c)] + SnakeCase(tail)
  {
    assert ([c] + tail)[1..] == tail;
  }

  /** A lower-case prefix passes through unchanged. */
  lemma SnakeCaseLowerPrefix(head: string, rest: string)
    requires forall i :: 0 <= i < |head| ==> IsLower(head[i])
    ensures SnakeCase(head + rest) == head + SnakeCase(rest)
  {
    SnakeCaseConcat(head, rest);
    SnakeCaseLowerWord(head);
  }

  /** `head` + `Tail` becomes `head_tail`. */
  lemma TwoWordColumn(head: string, c: char, tail: string)
    requires forall i :: 0 <= i < |head| ==> IsLower(head[i])
    requires forall i :: 0 <= i < |tail| ==> IsLower(tail[i])
    requires IsUpper(c)
    ensures SnakeCase(head + [c] + tail) == head + ['_', ToLower(c)] + tail
  {
    var capital := [c] + tail;
    SnakeCaseLowerWord(tail);
    SnakeCaseCapital(c, tail);
    SnakeCaseLowerPrefix(head, capital);
    assert head + [c] + tail == head + capital;
  }

  lemma TitleColumn()
    ensures SnakeCase("title") == "title"
  {
    SnakeCaseLowerWord("title");
  }

  lemma DescriptionColumn()
    ensures SnakeCase("description") == "description"
  {
    SnakeCaseLowerWord("description");
  }

  lemma DurationColumn()
    ensures SnakeCase("duration") == "duration"
  {
    SnakeCaseLowerWord("duration");
  }

  lemma LevelColumn()
    ensures SnakeCase("level") == "level"
  {
    SnakeCaseLowerWord("level");
  }

  lemma InstructorColumn()
    ensures SnakeCase("instructor") == "instructor"
  {
    SnakeCaseLowerWord("instructor");
  }

  lemma ImageUrlColumn()
    ensures SnakeCase("imageUrl") == "image_url"
  {
    ImageUrlWords();
    TwoWordColumn("image", 'U', "rl");
  }

  lemma ImageUrlWords()
    ensures "image" + ['U'] + "rl" == "imageUrl"
    ensures "image" + ['_', ToLower('U')] + "rl" == "image_url"
    ensures (forall i :: 0 <= i < |"image"| ==> IsLower("image"[i])) && (forall i :: 0 <= i < |"rl"| ==> IsLower("rl"[i]))
  {
  }

  lemma PriceEgpColumn()
    ensures SnakeCase("priceEgp") == "price_egp"
  {
    PriceEgpWords();
    TwoWordColumn("price", 'E', "gp");
  }

  lemma PriceEgpWords()
    ensures "price" + ['E'] + "gp" == "priceEgp"
    ensures "price" + ['_', ToLower('E')] + "gp" == "price_egp"
    ensures (forall i :: 0 <= i < |"price"| ==> IsLower("price"[i])) && (forall i :: 0 <= i < |"gp"| ==> IsLower("gp"[i]))
  {
  }

  lemma PriceUsdColumn()
    ensures SnakeCase("priceUsd") == "price_usd"
  {
    PriceUsdWords();
    TwoWordColumn("price", 'U', "sd");
  }

  lemma PriceUsdWords()
    ensures "price" + ['U'] + "sd" == "priceUsd"
    ensures "price" + ['_', ToLower('U')] + "sd" == "price_usd"
    ensures (forall i :: 0 <= i < |"price"| ==> IsLower("price"[i])) && (forall i :: 0 <= i < |"sd"| ==> IsLower("sd"[i]))
  {
  }

  lemma CourseLinkColumn()
    ensures SnakeCase("courseLink") == "course_link"
  {
    CourseLinkWords();
    TwoWordColumn("course", 'L', "ink");
  }

  lemma CourseLinkWords()
    ensures "course" + ['L'] + "ink" == "courseLink"
    ensures "course" + ['_', ToLower('L')] + "ink" == "course_link"
    ensures (forall i :: 0 <= i < |"course"| ==> IsLower("course"[i])) && (forall i :: 0 <= i < |"ink"| ==> IsLower("ink"[i]))
  {
  }

  /** Each column of the course insert is the column of the property bound
      to its placeholder, so every course property lands in its own column. */
  lemma CourseColumnsMatchProperties()
    ensures forall i :: 0 <= i < |CourseColumns| ==> SnakeCase(CourseProperties[i]) == CourseColumns[i]
  {
    forall i | 0 <= i < |CourseColumns|
      ensures SnakeCase(CourseProperties[i]) == CourseColumns[i]
    {
      ColumnAt(i);
    }
  }

  lemma ColumnAt(i: int)
    requires 0 <= i < |CourseColumns|
    ensures SnakeCase(CourseProperties[i]) == CourseColumns[i]
  {
    if i == 0 {
      assert CourseProperties[i] == "title" && CourseColumns[i] == "title";
      TitleColumn();
    }
    else if i == 1 {
      assert CourseProperties[i] == "description" && CourseColumns[i] == "description";
      DescriptionColumn();
    }
    else if i == 2 {
      assert CourseProperties[i] == "imageUrl" && CourseColumns[i] == "image_url";
      ImageUrlColumn();
    }
    else if i == 3 {
      assert CourseProperties[i] == "duration" && CourseColumns[i] == "duration";
      DurationColumn();
    }
    else if i == 4 {
      assert CourseProperties[i] == "level" && CourseColumns[i] == "level";
      LevelColumn();
    }
    else if i == 5 {
      assert CourseProperties[i] == "instructor" && CourseColumns[i] == "instructor";
      InstructorColumn();
    }
    else if i == 6 {
      assert CourseProperties[i] == "priceEgp" && CourseColumns[i] == "price_egp";
      PriceEgpColumn();
    }
    else if i == 7 {
      assert CourseProperties[i] == "priceUsd" && CourseColumns[i] == "price_usd";
      PriceUsdColumn();
    }
    else {
      assert CourseProperties[i] == "courseLink" && CourseColumns[i] == "course_link";
      CourseLinkColumn();
    }
  }

  lemma PhoneColumn()
    ensures SnakeCase("phone") == "phone"
  {
    SnakeCaseLowerWord("phone");
  }

  lemma EmailColumn()
    ensures SnakeCase("email") == "email"
  {
    SnakeCaseLowerWord("email");
  }

  lemma MessageColumn()
    ensures SnakeCase("message") == "message"
  {
    SnakeCaseLowerWord("message");
  }

  lemma StatusColumn()
    ensures SnakeCase("status") == "status"
  {
    SnakeCaseLowerWord("status");
  }

  lemma NameColumn()
    ensures SnakeCase("name") == "name"
  {
    SnakeCaseLowerWord("name");
  }

  lemma SubjectColumn()
    ensures SnakeCase("subject") == "subject"
  {
    SnakeCaseLowerWord("subject");
  }

  lemma FullNameColumn()
    ensures SnakeCase("fullName") == "full_name"
  {
    FullNameWords();
    TwoWordColumn("full", 'N', "ame");
  }

  lemma FullNameWords()
    ensures "full" + ['N'] + "ame" == "fullName"
    ensures "full" + ['_', ToLower('N')] + "ame" == "full_name"
    ensures (forall i :: 0 <= i < |"full"| ==> IsLower("full"[i])) && (forall i :: 0 <= i < |"ame"| ==> IsLower("ame"[i]))
  {
  }

  lemma CourseInterestColumn()
    ensures SnakeCase("courseInterest") == "course_interest"
  {
    CourseInterestWords();
    TwoWordColumn("course", 'I', "nterest");
  }

  lemma CourseInterestWords()
    ensures "course" + ['I'] + "nterest" == "courseInterest"
    ensures "course" + ['_', ToLower('I')] + "nterest" == "course_interest"
    ensures (forall i :: 0 <= i < |"course"| ==> IsLower("course"[i])) && (forall i :: 0 <= i < |"nterest"| ==> IsLower("nterest"[i]))
  {
  }

  /** Each column of the application insert is the column of the property
      bound to its placeholder. */
  lemma ApplicationColumnsMatchProperties()
    ensures forall i :: 0 <= i < |ApplicationColumns| ==> SnakeCase(ApplicationProperties[i]) == ApplicationColumns[i]
  {
    forall i | 0 <= i < |ApplicationColumns|
      ensures SnakeCase(ApplicationProperties[i]) == ApplicationColumns[i]
    {
      ApplicationColumnAt(i);
    }
  }

  lemma ApplicationColumnAt(i: int)
    requires 0 <= i < |ApplicationColumns|
    ensures SnakeCase(ApplicationProperties[i]) == ApplicationColumns[i]
  {
    if i == 0 {
      assert ApplicationProperties[i] == "fullName" && ApplicationColumns[i] == "full_name";
      FullNameColumn();
    }
    else if i == 1 {
      assert ApplicationProperties[i] == "email" && ApplicationColumns[i] == "email";
      EmailColumn();
    }
    else if i == 2 {
      assert ApplicationProperties[i] == "phone" && ApplicationColumns[i] == "phone";
      PhoneColumn();
    }
    else if i == 3 {
      assert ApplicationProperties[i] == "courseInterest" && ApplicationColumns[i] == "course_interest";
      CourseInterestColumn();
    }
    else if i == 4 {
      assert ApplicationProperties[i] == "message" && ApplicationColumns[i] == "message";
      MessageColumn();
    }
    else {
      assert ApplicationProperties[i] == "status" && ApplicationColumns[i] == "status";
      StatusColumn();
    }
  }

  /** Every column of the message insert is the column of its own name, so
      each message property lands in the column the insert names for it. */
  lemma MessageColumnsAreProperties()
    ensures forall i :: 0 <= i < |MessageColumns| ==> SnakeCase(MessageColumns[i]) == MessageColumns[i]
  {
    forall i | 0 <= i < |MessageColumns|
      ensures SnakeCase(MessageColumns[i]) == MessageColumns[i]
    {
      if i == 0 {
        assert MessageColumns[i] == "name";
        NameColumn();
      }
      else if i == 1 {
        assert MessageColumns[i] == "email";
        EmailColumn();
      }
      else if i == 2 {
        assert MessageColumns[i] == "subject";
        SubjectColumn();
      }
      else if i == 3 {
        assert MessageColumns[i] == "message";
        MessageColumn();
      }
      else {
        assert MessageColumns[i] == "status";
        StatusColumn();
      }
    }
  }

  /** `result?.value || null` of `getSiteSetting`, given the row's `value`
      column when a row was found: null for a missing row and for an empty
      (or null) value, the stored value otherwise. */
  function SiteSettingValue(row: Option<Value>): (r: Value)
    ensures r == Null <==> row.None? || !Truthy(row.value)
    ensures r != Null ==> row == Some(r)
  {
    Or(if row.Some? then row.value else Undefined, Null)
  }
}

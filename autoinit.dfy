/** Schema bootstrap at server start-up: the check whether `admin_users`
    exists, the splitting of `schema.sql` into statements, the loop that
    sends them (surviving errors, but not a `null` or `undefined`
    rejection), and the seed of the default admin.

    The database is a sink that logs every query it receives and answers
    with a fixed function of the query; what Postgres does with a statement
    is not part of this model, except for the `ON CONFLICT (username) DO
    NOTHING` rule of the seed, which `InsertOrKeep` states on a table of admins. */
module AutoInit {
  import opened Wrappers
  import opened Js
  import opened Strings
  import Db

  // ---------------------------------------------------------------
  // Statement splitter
  // ---------------------------------------------------------------

  /** `.map(s => s.trim())`. */
  function TrimAll(chunks: seq<string>): (trimmed: seq<string>)
    ensures |trimmed| == |chunks|
  {
    seq(|chunks|, i requires 0 <= i < |chunks| => Trim(chunks[i]))
  }

  /** The filter of the splitter: non-empty and not starting with `--`. */
  predicate IsStatement(s: string) {
    |s| > 0 && !StartsWith(s, "--")
  }

  /** `.filter(s => s.length > 0 && !s.startsWith('--'))`: what passes is a
      statement, and nothing is added. */
  function KeepStatements(chunks: seq<string>): (kept: seq<string>)
    ensures |kept| <= |chunks|
    ensures forall i :: 0 <= i < |kept| ==> IsStatement(kept[i])
  {
    if chunks == [] then []
    else (if IsStatement(chunks[0]) then [chunks[0]] else []) + KeepStatements(chunks[1..])
  }

  /** The chunks of `schema.sql` between its `;`s, each trimmed: one more
      than there are `;`s, and none contains a `;`. */
  function Chunks(sql: string): (chunks: seq<string>)
    ensures |chunks| == Count(sql, ';') + 1
    ensures forall i :: 0 <= i < |chunks| ==> Trimmed(chunks[i])
  {
    TrimAllTrimmed(Split(sql, ';'));
    TrimAll(Split(sql, ';'))
  }

  /** `schemaSql.split(';').map(s => s.trim()).filter(...)`: statements only,
      at most one per `;` plus one. */
  function Statements(sql: string): (statements: seq<string>)
    ensures |statements| <= Count(sql, ';') + 1
    ensures forall i :: 0 <= i < |statements| ==> IsStatement(statements[i])
  {
    KeepStatements(Chunks(sql))
  }

  /** The filter keeps exactly the statements, in their order, and no more
      of them than there were chunks. */
  lemma {:induction false} KeepStatementsShape(chunks: seq<string>)
    ensures forall s :: s in KeepStatements(chunks) <==> s in chunks && IsStatement(s)
    ensures IsSubsequence(KeepStatements(chunks), chunks)
    ensures |KeepStatements(chunks)| <= |chunks|
  {
    if chunks != [] {
      KeepStatementsShape(chunks[1..]);
      var rest := KeepStatements(chunks[1..]);
      assert chunks == [chunks[0]] + chunks[1..];
      if IsStatement(chunks[0]) {
        assert KeepStatements(chunks) == [chunks[0]] + rest;
        assert ([chunks[0]] + rest)[1..] == rest;
      } else {
        assert KeepStatements(chunks) == rest;
        SubsequenceExtend(rest, chunks[0], chunks[1..]);
      }
    }
  }

  /** Each chunk is trimmed. */
  lemma TrimAllTrimmed(chunks: seq<string>)
    ensures forall i :: 0 <= i < |TrimAll(chunks)| ==> Trimmed(TrimAll(chunks)[i])
  {
    forall i | 0 <= i < |chunks| ensures Trimmed(TrimAll(chunks)[i]) {
      TrimShape(chunks[i]);
    }
  }

  /** Every statement sent is trimmed, non-empty and not a `--` line start. */
  lemma StatementsWellFormed(sql: string)
    ensures forall i :: 0 <= i < |Statements(sql)| ==>
              Trimmed(Statements(sql)[i]) && |Statements(sql)[i]| > 0 && !StartsWith(Statements(sql)[i], "--")
  {
    var chunks := Chunks(sql);
    var statements := KeepStatements(chunks);
    KeepStatementsShape(chunks);
    TrimAllTrimmed(Split(sql, ';'));
    forall i | 0 <= i < |statements|
      ensures Trimmed(statements[i]) && IsStatement(statements[i])
    {
      assert statements[i] in chunks;
    }
  }

  /** The statements are the trimmed chunks that pass the filter, in source
      order, and there are at most as many as `;`s plus one. */
  lemma StatementsInOrder(sql: string)
    ensures forall s :: s in Statements(sql) <==> s in Chunks(sql) && IsStatement(s)
    ensures IsSubsequence(Statements(sql), Chunks(sql))
    ensures |Statements(sql)| <= Count(sql, ';') + 1
  {
    KeepStatementsShape(Chunks(sql));
  }

  /** The text before the first `;` is a chunk of its own, followed by the
      chunks of the rest. */
  lemma ChunksAtSeparator(a: string, rest: string)
    requires ';' !in a
    ensures Chunks(a + [';'] + rest) == [Trim(a)] + Chunks(rest)
  {
    SplitAtFirstSeparator(a, ';', rest);
    var parts := Split(a + [';'] + rest, ';');
    assert parts == [a] + Split(rest, ';');
    assert parts[1..] == Split(rest, ';');
  }

  /** A `;` inside a string literal still ends the statement: whatever stands
      on either side becomes a statement of its own. */
  lemma {:induction false} SemicolonAlwaysSplits(a: string, b: string)
    requires ';' !in a && ';' !in b
    requires IsStatement(Trim(a)) && IsStatement(Trim(b))
    ensures Statements(a + [';'] + b) == [Trim(a), Trim(b)]
  {
    ChunksAtSeparator(a, b);
    SplitWithoutSeparator(b, ';');
    var chunks := [Trim(a)] + Chunks(b);
    assert Chunks(b) == [Trim(b)];
    assert chunks[1..] == [Trim(b)];
    assert KeepStatements([Trim(b)]) == [Trim(b)];
  }

  /** A chunk whose first line is a `--` comment is dropped whole, with the
      SQL that follows the comment. */
  lemma {:induction false} CommentedChunkDropped(a: string, rest: string)
    requires ';' !in a && StartsWith(Trim(a), "--")
    ensures Statements(a + [';'] + rest) == Statements(rest)
  {
    ChunksAtSeparator(a, rest);
    var chunks := [Trim(a)] + Chunks(rest);
    assert chunks[1..] == Chunks(rest);
  }

  lemma QuotedSemicolonText()
    ensures "SELECT 'a;b'" == "SELECT 'a" + [';'] + "b'"
    ensures ';' !in "SELECT 'a" && ';' !in "b'"
    ensures Trimmed("SELECT 'a") && Trimmed("b'")
    ensures IsStatement("SELECT 'a") && IsStatement("b'")
  {
    assert "SELECT 'a"[..2][0] != '-';
    assert "b'"[..2][0] != '-';
  }

  /** `SELECT 'a;b'` is sent as two statements, `SELECT 'a` and `b'`. */
  lemma QuotedSemicolonExample()
    ensures Statements("SELECT 'a;b'") == ["SELECT 'a", "b'"]
  {
    QuotedSemicolonText();
    TrimShape("SELECT 'a");
    TrimShape("b'");
    assert Trim("SELECT 'a") == "SELECT 'a" && Trim("b'") == "b'";
    SemicolonAlwaysSplits("SELECT 'a", "b'");
  }

  lemma CommentText()
    ensures "-- t\nCREATE TABLE t (x int);" == "-- t\nCREATE TABLE t (x int)" + [';'] + ""
    ensures ';' !in "-- t\nCREATE TABLE t (x int)"
    ensures Trimmed("-- t\nCREATE TABLE t (x int)")
    ensures StartsWith("-- t\nCREATE TABLE t (x int)", "--")
  {}

  /** `-- t` on the line before a `CREATE TABLE` removes the table. */
  lemma CommentExample()
    ensures Statements("-- t\nCREATE TABLE t (x int);") == []
  {
    CommentText();
    TrimShape("-- t\nCREATE TABLE t (x int)");
    CommentedChunkDropped("-- t\nCREATE TABLE t (x int)", "");
    EmptyTextHasNoStatements();
  }

  /** An empty schema has no statement. */
  lemma EmptyTextHasNoStatements()
    ensures Statements("") == []
  {
    assert Split("", ';') == [""];
    TrimShape("");
    assert TrimAll([""]) == [""];
    assert !IsStatement("");
    assert KeepStatements([""]) == [];
  }

  // ---------------------------------------------------------------
  // The database sink
  // ---------------------------------------------------------------

  /** What a query did: rows came back, it threw an error with a message,
      or it rejected with `null` or `undefined` instead of an error object. */
  datatype Outcome = Rows(rows: seq<Object>) | Threw(message: string) | ThrewNullish(isNull: bool)

  /** What `autoInitializeDatabase` rethrows: an error with its message, or
      the `null`/`undefined` the seed query rejected with. */
  datatype Thrown = Error(message: string) | NullishValue(isNull: bool)

  /** The connection: every query sent is logged in `received`; the answer
      is whatever `respond` says for that query. */
  class Database {
    const respond: Db.Query -> Outcome
    var received: seq<Db.Query>

    constructor(respond: Db.Query -> Outcome)
      ensures this.respond == respond && received == []
    {
      this.respond := respond;
      received := [];
    }

    /** `query(text, params)`. */
    method Run(q: Db.Query) returns (o: Outcome)
      modifies this
      ensures received == old(received) + [q]
      ensures o == respond(q)
    {
      received := received + [q];
      o := respond(q);
    }
  }

  const ExistsQuery: Db.Query := Db.Query(
    "SELECT EXISTS (\n        SELECT FROM information_schema.tables \n        WHERE table_schema = 'public' \n"
    + "        AND table_name = 'admin_users'\n      )", [])

  /** `result?.exists || false` of the existence check: the first row's
      `exists` when it is truthy, `false` otherwise, and `false` when the
      query threw anything at all. */
  function InitializedFrom(o: Outcome): (r: Value)
    ensures Truthy(r) <==> o.Rows? && |o.rows| > 0 && Truthy(Get(o.rows[0], "exists"))
    ensures !Truthy(r) ==> r == Bool(false)
  {
    if !o.Rows? then Bool(false)
    else Or(if |o.rows| > 0 then Get(o.rows[0], "exists") else Undefined, Bool(false))
  }

  /** `isDatabaseInitialized()`: one query, never throws. */
  method IsDatabaseInitialized(db: Database) returns (initialized: Value)
    modifies db
    ensures db.received == old(db.received) + [ExistsQuery]
    ensures initialized == InitializedFrom(db.respond(ExistsQuery))
  {
    var outcome := db.Run(ExistsQuery);
    if !outcome.Rows? {
      return Bool(false);
    }
    var row := if |outcome.rows| > 0 then Get(outcome.rows[0], "exists") else Undefined;
    initialized := Or(row, Bool(false));
  }

  // ---------------------------------------------------------------
  // Initialisation
  // ---------------------------------------------------------------

  /** The state of `schema.sql` in the working directory. */
  datatype SchemaFile = Missing | Unreadable(message: string) | Text(sql: string)

  /** One `query(statement)` per statement, without parameters. */
  function StatementQueries(statements: seq<string>): (qs: seq<Db.Query>)
    ensures |qs| == |statements|
    ensures forall i :: 0 <= i < |qs| ==> qs[i].text == statements[i] && qs[i].params == []
  {
    seq(|statements|, i requires 0 <= i < |statements| => Db.Query(statements[i], []))
  }

  /** Whether the statement's query rejects with `null` or `undefined`: then
      `error.message?.includes(...)` in the `catch` reads a property of a
      nullish value and throws out of the loop. */
  predicate RejectsNullish(respond: Db.Query -> Outcome, statement: string) {
    respond(Db.Query(statement, [])).ThrewNullish?
  }

  /** The `TypeError` that reading `.message` of a nullish rejection throws. */
  function NullishReadMessage(isNull: bool): string {
    "Cannot read properties of " + (if isNull then "null" else "undefined") + " (reading 'message')"
  }

  /** How many statements the loop sends: all of them, or those up to and
      including the first that rejects with a nullish value. */
  function Sent(respond: Db.Query -> Outcome, statements: seq<string>): (n: nat)
    ensures n <= |statements|
  {
    if statements == [] then 0
    else if RejectsNullish(respond, statements[0]) then 1
    else 1 + Sent(respond, statements[1..])
  }

  /** The loop stops exactly after the first nullish rejection: none of the
      statements before it rejects that way, and when every answer is an
      error with a message or rows, every statement is sent. */
  lemma {:induction false} SentStopsAtFirstNullish(respond: Db.Query -> Outcome, statements: seq<string>)
    ensures forall i :: 0 <= i < Sent(respond, statements) - 1 ==> !RejectsNullish(respond, statements[i])
    ensures Sent(respond, statements) < |statements| ==> RejectsNullish(respond, statements[Sent(respond, statements) - 1])
    ensures (forall i :: 0 <= i < |statements| ==> !RejectsNullish(respond, statements[i])) ==> Sent(respond, statements) == |statements|
  {
    if statements != [] && !RejectsNullish(respond, statements[0]) {
      var rest := statements[1..];
      SentStopsAtFirstNullish(respond, rest);
      forall i | 0 <= i < Sent(respond, statements) - 1 ensures !RejectsNullish(respond, statements[i]) {
        if i > 0 {
          assert statements[i] == rest[i - 1];
        }
      }
      if forall i :: 0 <= i < |statements| ==> !RejectsNullish(respond, statements[i]) {
        assert forall i :: 0 <= i < |rest| ==> rest[i] == statements[i + 1];
      }
    }
  }

  /** `for (const statement of statements) { try { await query(statement) } catch {...} }`:
      the statements are sent once each, in order; one that throws an error
      with a message does not stop the ones after it, one that rejects with
      `null` or `undefined` ends the loop with the `TypeError` of its
      `catch`, returned in `stopped`. */
  method RunStatements(db: Database, statements: seq<string>) returns (stopped: Option<string>)
    modifies db
    ensures var n := Sent(db.respond, statements);
            && db.received == old(db.received) + StatementQueries(statements[..n])
            && (stopped.Some? <==> n > 0 && RejectsNullish(db.respond, statements[n - 1]))
            && (stopped.Some? ==> stopped.value == NullishReadMessage(db.respond(Db.Query(statements[n - 1], [])).isNull))
  {
    var i := 0;
    while i < |statements|
      invariant 0 <= i <= |statements|
      invariant Sent(db.respond, statements) == i + Sent(db.respond, statements[i..])
      invariant i > 0 ==> !RejectsNullish(db.respond, statements[i - 1])
      invariant db.received == old(db.received) + StatementQueries(statements[..i])
    {
      var outcome := db.Run(Db.Query(statements[i], []));
      assert StatementQueries(statements[..i + 1]) == StatementQueries(statements[..i]) + [Db.Query(statements[i], [])];
      if outcome.ThrewNullish? {
        return Some(NullishReadMessage(outcome.isNull));
      }
      assert statements[i..][1..] == statements[i + 1..];
      i := i + 1;
    }
    assert statements[..|statements|] == statements;
    stopped := None;
  }

  const DefaultPassword: string := "admin123"

  const SeedText: string :=
    "INSERT INTO admin_users (username, password_hash, email, name)\n       VALUES ($1, $2, $3, $4)\n       ON CONFLICT (username) DO NOTHING"

  /** The seed of the default admin, with the hash of `admin123`: its four
      parameters are the fields of `DefaultAdmin`, in column order. */
  function SeedQuery(passwordHash: string): (q: Db.Query)
    ensures q.text == SeedText
    ensures var admin := DefaultAdmin(passwordHash);
            q.params == [Str(admin.username), Str(admin.passwordHash), Str(admin.email), Str(admin.name)]
  {
    Db.Query(SeedText, [Str("admin"), Str(passwordHash), Str("admin@infinityx.com"), Str("Administrator")])
  }

  /** What the seed query's answer makes of the initialisation. */
  function SeedResult(o: Outcome): Result<(), Thrown> {
    match o
    case Rows(_) => Success(())
    case Threw(message) => Failure(Error(message))
    case ThrewNullish(isNull) => Failure(NullishValue(isNull))
  }

  /** What follows a readable `schema.sql` on a database that is not yet
      initialised: the statements are sent in order until one rejects with a
      nullish value, which fails with the `TypeError` of the loop's `catch`;
      after the loop the password is hashed and the admin seeded, and a
      failure of either is rethrown as it came. */
  method InitializeFrom(db: Database, sql: string, hashPassword: string -> Result<string, string>)
    returns (r: Result<(), Thrown>)
    modifies db
    ensures var statements := Statements(sql);
      var n := Sent(db.respond, statements);
      var attempted := old(db.received) + StatementQueries(statements[..n]);
      if n > 0 && RejectsNullish(db.respond, statements[n - 1]) then
        r == Failure(Error(NullishReadMessage(db.respond(Db.Query(statements[n - 1], [])).isNull)))
        && db.received == attempted
      else if hashPassword(DefaultPassword).Failure? then
        r == Failure(Error(hashPassword(DefaultPassword).error)) && db.received == attempted
      else
        var seed := SeedQuery(hashPassword(DefaultPassword).value);
        db.received == attempted + [seed] && r == SeedResult(db.respond(seed))
  {
    var stopped := RunStatements(db, Statements(sql));
    if stopped.Some? {
      return Failure(Error(stopped.value));
    }
    var hashed := hashPassword(DefaultPassword);
    if hashed.Failure? {
      return Failure(Error(hashed.error));
    }
    var outcome := db.Run(SeedQuery(hashed.value));
    r := SeedResult(outcome);
  }

  /** `autoInitializeDatabase()`. An initialised database is left alone after
      the check. Otherwise a missing or unreadable `schema.sql` fails before
      any statement; else the initialisation proceeds as `InitializeFrom`
      describes, after the check. */
  method AutoInitialize(db: Database, schema: SchemaFile, hashPassword: string -> Result<string, string>)
    returns (r: Result<(), Thrown>)
    modifies db
    ensures var checked := old(db.received) + [ExistsQuery];
      if Truthy(InitializedFrom(db.respond(ExistsQuery))) then
        r == Success(()) && db.received == checked
      else if schema.Missing? then
        r == Failure(Error("schema.sql file not found")) && db.received == checked
      else if schema.Unreadable? then
        r == Failure(Error(schema.message)) && db.received == checked
      else
        var statements := Statements(schema.sql);
        var n := Sent(db.respond, statements);
        var attempted := checked + StatementQueries(statements[..n]);
        if n > 0 && RejectsNullish(db.respond, statements[n - 1]) then
          r == Failure(Error(NullishReadMessage(db.respond(Db.Query(statements[n - 1], [])).isNull)))
          && db.received == attempted
        else if hashPassword(DefaultPassword).Failure? then
          r == Failure(Error(hashPassword(DefaultPassword).error)) && db.received == attempted
        else
          var seed := SeedQuery(hashPassword(DefaultPassword).value);
          db.received == attempted + [seed] && r == SeedResult(db.respond(seed))
  {
    var isInitialized := IsDatabaseInitialized(db);
    if Truthy(isInitialized) {
      return Success(());
    }
    if schema.Missing? {
      return Failure(Error("schema.sql file not found"));
    }
    if schema.Unreadable? {
      return Failure(Error(schema.message));
    }
    r := InitializeFrom(db, schema.sql, hashPassword);
  }

  // ---------------------------------------------------------------
  // The seed's conflict rule
  // ---------------------------------------------------------------

  datatype AdminRow = AdminRow(username: string, passwordHash: string, email: string, name: string)

  /** The default admin row. */
  function DefaultAdmin(passwordHash: string): AdminRow {
    AdminRow("admin", passwordHash, "admin@infinityx.com", "Administrator")
  }

  /** `ON CONFLICT (username) DO NOTHING` on a table keyed by username. */
  function InsertOrKeep(table: map<string, AdminRow>, row: AdminRow): (t: map<string, AdminRow>)
    ensures row.username in t && t.Keys == table.Keys + {row.username}
  {
    if row.username in table then table else table[row.username := row]
  }

  /** An existing `admin` keeps its password and details; a missing one is
      created with the new hash; no other admin is touched. */
  lemma SeedKeepsExistingAdmin(table: map<string, AdminRow>, passwordHash: string)
    ensures "admin" in table ==> InsertOrKeep(table, DefaultAdmin(passwordHash)) == table
    ensures "admin" !in table ==> InsertOrKeep(table, DefaultAdmin(passwordHash))["admin"] == DefaultAdmin(passwordHash)
    ensures forall u :: u in table && u != "admin" ==> InsertOrKeep(table, DefaultAdmin(passwordHash))[u] == table[u]
  {
  }

  /** Seeding again, even with a fresh hash, changes nothing. */
  lemma SeedIdempotent(table: map<string, AdminRow>, first: string, second: string)
    ensures InsertOrKeep(InsertOrKeep(table, DefaultAdmin(first)), DefaultAdmin(second))
            == InsertOrKeep(table, DefaultAdmin(first))
  {
  }
}

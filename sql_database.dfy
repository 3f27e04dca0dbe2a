/** The database layer of the text-to-SQL service
    (text-to-sql-api/app/database.py): the connection helper that retries,
    the statement runner that shapes every result into a list, and the
    catalog introspection that feeds the prompt. PostgreSQL's answers are
    inputs: what `psycopg2.connect` does on each try, what the statement or
    the catalog query yields. */
module SqlDatabase {
  import opened PyText
  import opened PyData
  import opened Db
  import opened SchemaFormat

  // ---------------------------------------------------------------------
  // get_db_connection

  /** What one call of `psycopg2.connect` does: hand back a connection or raise. */
  datatype ConnectAttempt = Connects | Fails(e: Exc)

  /** The answer of the database server to the `i`-th connection try. */
  type ConnectTries = nat -> ConnectAttempt

  /** `retries = 5`: the helper tries at most this often. */
  const MaxConnectAttempts: nat := 5

  /** How the helper ends: a connection obtained on try `attempt` (counted
      from 0), `None` after every try failed with an `OperationalError`, or
      an exception of another kind that escaped on try `attempt`. */
  datatype ConnectOutcome = Connected(attempt: nat) | Exhausted | ConnectRaised(attempt: nat, e: Exc)

  /** A failed try that the helper answers with a pause and another try:
      only `psycopg2.OperationalError` is caught. */
  predicate Retried(a: ConnectAttempt) {
    a.Fails? && a.e.OperationalError?
  }

  /** The helper's outcome when try `k` is the next to make. */
  function ConnectFrom(tries: ConnectTries, k: nat): ConnectOutcome
    requires k <= MaxConnectAttempts
    decreases MaxConnectAttempts - k
  {
    if k == MaxConnectAttempts then Exhausted
    else match tries(k)
      case Connects => Connected(k)
      case Fails(e) => if e.OperationalError? then ConnectFrom(tries, k + 1) else ConnectRaised(k, e)
  }

  function Connect(tries: ConnectTries): ConnectOutcome {
    ConnectFrom(tries, 0)
  }

  /** How many tries failed, and so how many 5-second pauses were taken: one
      after every caught failure, the last one included. */
  function Pauses(o: ConnectOutcome): nat {
    match o
    case Connected(n) => n
    case Exhausted => MaxConnectAttempts
    case ConnectRaised(n, _) => n
  }

  /** The outcome from try `k` on, characterised by the tries themselves. */
  lemma {:induction false} ConnectFromCharacterised(tries: ConnectTries, k: nat)
    requires k <= MaxConnectAttempts
    decreases MaxConnectAttempts - k
    ensures var o := ConnectFrom(tries, k);
      o.Connected? ==>
        k <= o.attempt < MaxConnectAttempts && tries(o.attempt) == Connects
        && forall m :: k <= m < o.attempt ==> Retried(tries(m))
    ensures var o := ConnectFrom(tries, k);
      o.ConnectRaised? ==>
        k <= o.attempt < MaxConnectAttempts && tries(o.attempt) == Fails(o.e) && !o.e.OperationalError?
        && forall m :: k <= m < o.attempt ==> Retried(tries(m))
    ensures ConnectFrom(tries, k).Exhausted? <==> forall m :: k <= m < MaxConnectAttempts ==> Retried(tries(m))
  {
    if k < MaxConnectAttempts {
      ConnectFromCharacterised(tries, k + 1);
    }
  }

  /** At most five tries: the helper returns the connection of the first try
      that succeeds, provided every earlier try failed with an
      `OperationalError`; it returns `None` exactly when all five tries
      failed that way; any other exception escapes on the try that raised it. */
  lemma ConnectCharacterised(tries: ConnectTries)
    ensures var o := Connect(tries);
      o.Connected? ==>
        o.attempt < MaxConnectAttempts && tries(o.attempt) == Connects
        && forall m :: 0 <= m < o.attempt ==> Retried(tries(m))
    ensures var o := Connect(tries);
      o.ConnectRaised? ==>
        o.attempt < MaxConnectAttempts && tries(o.attempt) == Fails(o.e) && !o.e.OperationalError?
        && forall m :: 0 <= m < o.attempt ==> Retried(tries(m))
    ensures Connect(tries).Exhausted? <==> forall m :: 0 <= m < MaxConnectAttempts ==> Retried(tries(m))
  {
    ConnectFromCharacterised(tries, 0);
  }

  /** `get_db_connection`: counts `retries` down from five, pausing after
      every `OperationalError`. The new connection is fresh: nothing has
      been asked of it yet. */
  method GetDbConnection(tries: ConnectTries) returns (conn: Connection?, outcome: ConnectOutcome, pauses: nat)
    ensures outcome == Connect(tries)
    ensures pauses == Pauses(outcome)
    ensures conn != null <==> outcome.Connected?
    ensures conn != null ==> fresh(conn) && conn.log == []
  {
    var retries: int := MaxConnectAttempts;
    pauses := 0;
    while retries > 0
      invariant 0 <= retries <= MaxConnectAttempts
      invariant pauses == MaxConnectAttempts - retries
      invariant ConnectFrom(tries, MaxConnectAttempts - retries) == Connect(tries)
    {
      var attempt := MaxConnectAttempts - retries;
      match tries(attempt)
      case Connects =>
        conn := new Connection();
        outcome := Connected(attempt);
        return;
      case Fails(e) =>
        if !e.OperationalError? {
          conn, outcome := null, ConnectRaised(attempt, e);
          return;
        }
        retries := retries - 1;
        pauses := pauses + 1;
    }
    conn, outcome := null, Exhausted;
  }

  // ---------------------------------------------------------------------
  // execute_query

  /** What running the user's statement does once connected: `execute`
      raises; or the statement has a result description and `fetchall`
      returns the rows (dictionaries keyed by column name) or raises; or it
      has none, reports `rowcount`, and the commit succeeds or raises. */
  datatype Statement =
    | ExecuteFails(e: Exc)
    | ResultSet(fetched: Outcome<seq<Value>>)
    | NoResultSet(rowcount: int, commitError: Option<Exc>)

  /** What `execute_query` gives back: `None`, a list of rows, or an exception. */
  datatype QueryOutcome = NoConnection | QueryRows(rows: seq<Value>) | QueryRaised(e: Exc)

  /** The one record returned for a statement without a result set. */
  function StatusRecord(rowcount: int): Value {
    Dict([(Str("status"), Str("success")), (Str("rows_affected"), Int(rowcount))])
  }

  function QueryResult(tries: ConnectTries, stmt: Statement): QueryOutcome {
    match Connect(tries)
    case Exhausted => NoConnection
    case ConnectRaised(_, e) => QueryRaised(e)
    case Connected(_) =>
      match stmt
      case ExecuteFails(e) => QueryRaised(e)
      case ResultSet(Returned(rows)) => QueryRows(rows)
      case ResultSet(Raised(e)) => QueryRaised(e)
      case NoResultSet(n, None) => QueryRows([StatusRecord(n)])
      case NoResultSet(_, Some(e)) => QueryRaised(e)
  }

  /** What the connection is asked to do for the statement `sql`. */
  function QueryLog(sql: string, stmt: Statement): seq<Event> {
    [Executed(sql, [])]
    + (match stmt
       case ExecuteFails(_) => []
       case ResultSet(_) => [Fetched]
       case NoResultSet(_, _) => [Committed])
    + [Closed]
  }

  /** `execute_query(sql)`. The connection, when one was obtained, is handed
      back so that what it was asked to do can be stated. */
  method ExecuteQuery(sql: string, tries: ConnectTries, stmt: Statement) returns (r: QueryOutcome, conn: Connection?)
    ensures r == QueryResult(tries, stmt)
    ensures conn != null <==> Connect(tries).Connected?
    ensures conn != null ==> fresh(conn) && conn.log == QueryLog(sql, stmt)
  {
    var c, outcome, _ := GetDbConnection(tries);
    if outcome.ConnectRaised? {
      return QueryRaised(outcome.e), null;
    }
    if c == null {
      return NoConnection, null;
    }
    c.Execute(sql, []);
    match stmt {
      case ExecuteFails(e) =>
        r := QueryRaised(e);
      case ResultSet(fetched) =>
        c.Fetch();
        r := if fetched.Returned? then QueryRows(fetched.value) else QueryRaised(fetched.e);
      case NoResultSet(n, commitError) =>
        c.Commit();
        r := if commitError.None? then QueryRows([StatusRecord(n)]) else QueryRaised(commitError.value);
    }
    c.Close();
    conn := c;
  }

  /** `None` comes back exactly when every connection try failed with an
      `OperationalError`; then no statement runs. */
  lemma NoneOnlyWithoutConnection(tries: ConnectTries, stmt: Statement)
    ensures QueryResult(tries, stmt) == NoConnection <==>
      forall m :: 0 <= m < MaxConnectAttempts ==> Retried(tries(m))
  {
    ConnectCharacterised(tries);
  }

  /** With a result description, the fetched rows come back unchanged; no
      rows gives the empty list, not `None`. */
  lemma ResultSetReturnedUnchanged(tries: ConnectTries, rows: seq<Value>)
    requires Connect(tries).Connected?
    ensures QueryResult(tries, ResultSet(Returned(rows))) == QueryRows(rows)
    ensures QueryResult(tries, ResultSet(Returned([]))) == QueryRows([])
  {
  }

  /** Without a result description the transaction is committed and exactly
      one record comes back, with the keys `status` (`"success"`) and
      `rows_affected` (the row count) and no other. */
  lemma MutationGivesOneStatusRecord(sql: string, tries: ConnectTries, rowcount: int)
    requires Connect(tries).Connected?
    ensures var r := QueryResult(tries, NoResultSet(rowcount, None));
      r.QueryRows? && |r.rows| == 1 && r.rows[0].Dict?
      && Keys(r.rows[0].entries) == [Str("status"), Str("rows_affected")]
      && Lookup(r.rows[0].entries, Str("status")) == Some(Str("success"))
      && Lookup(r.rows[0].entries, Str("rows_affected")) == Some(Int(rowcount))
    ensures Committed in QueryLog(sql, NoResultSet(rowcount, None))
  {
    var entries := StatusRecord(rowcount).entries;
    assert Keys(entries) == [Str("status"), Str("rows_affected")];
    assert IndexOf(entries, Str("rows_affected")) == 1;
    assert QueryLog(sql, NoResultSet(rowcount, None))[1] == Committed;
  }

  /** Every failure is raised again as it is, never turned into `None` or
      rows: a connection error other than `OperationalError`, and, once
      connected, the exception `execute`, `fetchall` or `commit` raised. */
  lemma FailuresAreRaised(tries: ConnectTries, stmt: Statement)
    ensures Connect(tries).ConnectRaised? ==> QueryResult(tries, stmt) == QueryRaised(Connect(tries).e)
    ensures Connect(tries).Connected? && stmt.ExecuteFails? ==>
      QueryResult(tries, stmt) == QueryRaised(stmt.e)
    ensures Connect(tries).Connected? && stmt.ResultSet? && stmt.fetched.Raised? ==>
      QueryResult(tries, stmt) == QueryRaised(stmt.fetched.e)
    ensures Connect(tries).Connected? && stmt.NoResultSet? && stmt.commitError.Some? ==>
      QueryResult(tries, stmt) == QueryRaised(stmt.commitError.value)
  {
  }

  /** An opened connection runs the statement first, commits only for a
      statement without result set, and is closed exactly once, last. */
  lemma QueryClosesConnection(sql: string, stmt: Statement)
    ensures var log := QueryLog(sql, stmt);
      log[0] == Executed(sql, []) && log[|log| - 1] == Closed
      && (forall i :: 0 <= i < |log| - 1 ==> log[i] != Closed)
      && (Committed in log <==> stmt.NoResultSet?)
      && RolledBack !in log
  {
    var log := QueryLog(sql, stmt);
    assert 2 <= |log| <= 3;
    if stmt.NoResultSet? {
      assert log[1] == Committed;
    }
  }

  // ---------------------------------------------------------------------
  // get_dynamic_schema

  /** The catalog query over `information_schema.columns` (its line breaks
      and indentation are collapsed to single spaces here). */
  const CatalogQuery: string :=
    "SELECT c.table_name, c.column_name, c.data_type FROM information_schema.columns c "
    + "WHERE c.table_schema = 'public' ORDER BY c.table_name, c.ordinal_position;"

  /** What the catalog query does once connected: return its rows, or raise
      in `execute` or in `fetchall`. */
  datatype Catalog = CatalogRows(rows: seq<CatalogRow>) | CatalogExecuteFails(e: Exc) | CatalogFetchFails(e: Exc)

  /** What `get_dynamic_schema` gives back: the description, `None`, or an
      exception that is not a `psycopg2.Error`. */
  datatype SchemaOutcome = SchemaText(text: string) | NoSchema | SchemaRaised(e: Exc)

  function CatalogFailure(c: Catalog): Option<Exc> {
    match c
    case CatalogRows(_) => None
    case CatalogExecuteFails(e) => Some(e)
    case CatalogFetchFails(e) => Some(e)
  }

  /** A `psycopg2.Error` turns into `None`; any other exception escapes. */
  function SchemaFailure(e: Exc): SchemaOutcome {
    if IsDbError(e) then NoSchema else SchemaRaised(e)
  }

  function SchemaResult(tries: ConnectTries, catalog: Catalog): SchemaOutcome {
    match Connect(tries)
    case Exhausted => NoSchema
    case ConnectRaised(_, e) => SchemaFailure(e)
    case Connected(_) =>
      match catalog
      case CatalogRows(rows) => if rows == [] then NoSchema else SchemaText(Describe(rows))
      case CatalogExecuteFails(e) => SchemaFailure(e)
      case CatalogFetchFails(e) => SchemaFailure(e)
  }

  function SchemaLog(catalog: Catalog): seq<Event> {
    [Executed(CatalogQuery, [])] + (if catalog.CatalogExecuteFails? then [] else [Fetched]) + [Closed]
  }

  /** `get_dynamic_schema()`. */
  method GetDynamicSchema(tries: ConnectTries, catalog: Catalog) returns (r: SchemaOutcome, conn: Connection?)
    ensures r == SchemaResult(tries, catalog)
    ensures conn != null <==> Connect(tries).Connected?
    ensures conn != null ==> fresh(conn) && conn.log == SchemaLog(catalog)
  {
    var c, outcome, _ := GetDbConnection(tries);
    if outcome.ConnectRaised? {
      return SchemaFailure(outcome.e), null;
    }
    if c == null {
      return NoSchema, null;
    }
    c.Execute(CatalogQuery, []);
    if !catalog.CatalogExecuteFails? {
      c.Fetch();
    }
    match catalog {
      case CatalogRows(rows) =>
        if rows == [] {
          r := NoSchema;
        } else {
          var text := FormatSchema(rows);
          r := SchemaText(text);
        }
      case CatalogExecuteFails(e) =>
        r := SchemaFailure(e);
      case CatalogFetchFails(e) =>
        r := SchemaFailure(e);
    }
    c.Close();
    conn := c;
  }

  /** The description is a non-empty string exactly when a connection was
      obtained and the catalog returned rows; it is then their description.
      No connection, an empty catalog, or a `psycopg2.Error` on the way each
      give `None`, never a string. */
  lemma SchemaTextExactlyForRows(tries: ConnectTries, catalog: Catalog)
    ensures var r := SchemaResult(tries, catalog);
      (r.SchemaText? <==> Connect(tries).Connected? && catalog.CatalogRows? && catalog.rows != [])
      && (r.SchemaText? ==> r.text == Describe(catalog.rows) && r.text != "")
      && (r == NoSchema <==>
          Connect(tries).Exhausted?
          || (Connect(tries).ConnectRaised? && IsDbError(Connect(tries).e))
          || (Connect(tries).Connected? && catalog == CatalogRows([]))
          || (Connect(tries).Connected? && CatalogFailure(catalog).Some? && IsDbError(CatalogFailure(catalog).value)))
  {
    if Connect(tries).Connected? && catalog.CatalogRows? && catalog.rows != [] {
      DescribeNonEmpty(catalog.rows);
    }
  }

  /** An opened connection runs the catalog query and is closed exactly once, last. */
  lemma SchemaClosesConnection(catalog: Catalog)
    ensures var log := SchemaLog(catalog);
      log[0] == Executed(CatalogQuery, []) && log[|log| - 1] == Closed
      && forall i :: 0 <= i < |log| - 1 ==> log[i] != Closed
  {
  }
}

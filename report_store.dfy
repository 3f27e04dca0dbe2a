/** Persistence of diagnosis reports (diagnostics-api/app/database.py): one
    connection try without retry, then an `INSERT ... RETURNING report_id`
    run as a transaction that is committed, or rolled back on any error,
    and a connection that is closed on every path. The database's answers
    are inputs. */
module ReportStore {
  import opened PyText
  import opened PyData
  import opened Db

  /** The statement `save_diagnosis_result` runs (its line breaks and
      indentation are collapsed to single spaces here). */
  const InsertReport: string :=
    "INSERT INTO diagnosis_reports (product_id, product_name, summary, raw_data) "
    + "VALUES (%s, %s, %s, %s) RETURNING report_id;"

  /** What `cursor.fetchone()` does after the insert: return the row with the
      new `report_id`, return `None`, or raise. */
  datatype FetchOne = Row(reportId: int) | NoRow | FetchOneFails(e: Exc)

  /** What the database does during one save: whether connecting raises,
      whether `execute` raises, what `fetchone` does, whether `commit` and
      (if it comes to that) `rollback` raise. */
  datatype StoreScript = StoreScript(
    connectError: Option<Exc>,
    executeError: Option<Exc>,
    fetch: FetchOne,
    commitError: Option<Exc>,
    rollbackError: Option<Exc>)

  /** `get_db_connection` of this service: a single try; an exception from
      `psycopg2.connect` is raised again as it is. */
  method OpenConnection(connectError: Option<Exc>) returns (conn: Connection?)
    ensures conn != null <==> connectError.None?
    ensures conn != null ==> fresh(conn) && conn.log == []
  {
    if connectError.Some? {
      return null;
    }
    conn := new Connection();
  }

  /** The parameters bound to the four placeholders, in this order; the raw
      data travels as its `json.dumps` text. */
  function InsertParams(productId: Value, productName: Value, summary: Value, rawData: Value): seq<Param> {
    [Bound(productId), Bound(productName), Bound(summary), JsonText(rawData)]
  }

  /** `fetchone()[0]` on `None`. */
  const NotSubscriptable := TypeError("'NoneType' object is not subscriptable")

  /** The exception that ends the transaction before its commit succeeded,
      if any. */
  function TransactionFailure(s: StoreScript): Option<Exc> {
    if s.executeError.Some? then s.executeError
    else match s.fetch
      case FetchOneFails(e) => Some(e)
      case NoRow => Some(NotSubscriptable)
      case Row(_) => s.commitError
  }

  /** What `save_diagnosis_result` returns or raises. A failed rollback
      raises its own exception in place of the one being handled. */
  function SaveResult(s: StoreScript): Outcome<int> {
    if s.connectError.Some? then Raised(s.connectError.value)
    else match TransactionFailure(s)
      case None => Returned(s.fetch.reportId)
      case Some(e) => Raised(if s.rollbackError.Some? then s.rollbackError.value else e)
  }

  /** What the connection is asked to do during one save. */
  function SaveLog(params: seq<Param>, s: StoreScript): seq<Event> {
    if s.connectError.Some? then []
    else
      [Executed(InsertReport, params)]
      + (if s.executeError.Some? then [] else [Fetched])
      + (if s.executeError.None? && s.fetch.Row? then [Committed] else [])
      + (if TransactionFailure(s).Some? then [RolledBack] else [])
      + [Closed]
  }

  /** `save_diagnosis_result(product_id, product_name, summary, raw_data)`. */
  method SaveDiagnosisResult(productId: Value, productName: Value, summary: Value, rawData: Value, s: StoreScript)
    returns (r: Outcome<int>, conn: Connection?)
    ensures r == SaveResult(s)
    ensures conn != null <==> s.connectError.None?
    ensures conn != null ==> fresh(conn) && conn.log == SaveLog(InsertParams(productId, productName, summary, rawData), s)
  {
    conn := OpenConnection(s.connectError);
    if conn == null {
      return Raised(s.connectError.value), null;
    }
    var failure: Option<Exc> := None;
    var reportId := 0;
    conn.Execute(InsertReport, InsertParams(productId, productName, summary, rawData));
    if s.executeError.Some? {
      failure := s.executeError;
    } else {
      conn.Fetch();
      match s.fetch {
        case Row(id) =>
          reportId := id;
          conn.Commit();
          failure := s.commitError;
        case NoRow =>
          failure := Some(NotSubscriptable);
        case FetchOneFails(e) =>
          failure := Some(e);
      }
    }
    if failure.Some? {
      conn.Rollback();
      if s.rollbackError.Some? {
        failure := s.rollbackError;
      }
      r := Raised(failure.value);
    } else {
      r := Returned(reportId);
    }
    conn.Close();
  }

  /** The transaction's discipline, whatever the database does: the insert
      comes first with the four fields in order, a commit only right after
      the insert and the fetch of the new id, a rollback exactly when the
      save raises, and one close, last. */
  lemma SaveDiscipline(productId: Value, productName: Value, summary: Value, rawData: Value, s: StoreScript)
    requires s.connectError.None?
    ensures var log := SaveLog(InsertParams(productId, productName, summary, rawData), s);
      log[0] == Executed(InsertReport, [Bound(productId), Bound(productName), Bound(summary), JsonText(rawData)])
      && (forall i :: 0 <= i < |log| && log[i] == Committed ==> i == 2 && log[1] == Fetched)
      && (RolledBack in log <==> SaveResult(s).Raised?)
      && log[|log| - 1] == Closed
      && (forall i :: 0 <= i < |log| - 1 ==> log[i] != Closed)
  {
    var log := SaveLog(InsertParams(productId, productName, summary, rawData), s);
    if s.executeError.Some? {
      assert log == [Executed(InsertReport, InsertParams(productId, productName, summary, rawData)), RolledBack, Closed];
    } else if s.fetch.Row? {
      assert log[1] == Fetched && log[2] == Committed;
      if s.commitError.Some? {
        assert log[3] == RolledBack;
      } else {
        assert |log| == 4;
      }
    } else {
      assert log == [Executed(InsertReport, InsertParams(productId, productName, summary, rawData)), Fetched, RolledBack, Closed];
    }
  }

  /** The save returns the `report_id` produced by `RETURNING`, and only
      once the commit succeeded. */
  lemma ReturnsCommittedId(params: seq<Param>, s: StoreScript, id: int)
    ensures SaveResult(s) == Returned(id) <==>
      s.connectError.None? && s.executeError.None? && s.fetch == Row(id) && s.commitError.None?
    ensures SaveResult(s) == Returned(id) ==> SaveLog(params, s) == [Executed(InsertReport, params), Fetched, Committed, Closed]
  {
  }

  /** Once connected, a failed transaction is rolled back and its own
      exception is raised again; only a rollback that fails itself puts its
      exception in the place of the original one. */
  lemma FailedTransactionIsRaised(params: seq<Param>, s: StoreScript)
    requires s.connectError.None? && TransactionFailure(s).Some?
    ensures s.rollbackError.None? ==> SaveResult(s) == Raised(TransactionFailure(s).value)
    ensures s.rollbackError.Some? ==> SaveResult(s) == Raised(s.rollbackError.value)
    ensures RolledBack in SaveLog(params, s)
  {
    assert SaveLog(params, s)[|SaveLog(params, s)| - 2] == RolledBack;
  }

  /** A failed connection is raised again at once: one try, nothing to roll
      back or close. */
  lemma FailedConnectionIsRaised(params: seq<Param>, s: StoreScript)
    requires s.connectError.Some?
    ensures SaveResult(s) == Raised(s.connectError.value) && SaveLog(params, s) == []
  {
  }
}

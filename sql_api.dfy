/** The `/ask` endpoint of the text-to-SQL service
    (`ask_question` in text-to-sql-api/app/main.py): fetch the schema, ask the
    language model for one SQL statement, run it, and answer with the rows;
    every failure becomes HTTP 500 with a fixed prefix. The language model,
    the Groq client and both database visits are inputs. */
module SqlApi {
  import opened PyText
  import opened PyData
  import opened SqlDatabase

  /** What the outside world does during one request: whether building the
      Groq client raises; the connection tries and the catalog seen by the
      schema fetch; the completion; the connection tries and the statement
      outcome seen when the generated SQL runs. */
  datatype AskScript = AskScript(
    clientError: Option<Exc>,
    schemaTries: ConnectTries,
    catalog: Catalog,
    completion: Completion,
    queryTries: ConnectTries,
    statement: Statement)

  /** The response: the `AskResponse` body, or an `HTTPException`. */
  datatype AskResponse =
    | Answered(question: string, sqlQuery: string, data: seq<Value>)
    | Failed(status: int, detail: string)

  /** The visible steps of a request, in order. The completion request
      carries the two inputs the prompt interpolates. */
  datatype Step = SchemaFetch | CompletionRequest(schema: string, question: string) | QueryRun(sql: string)

  datatype AskHandled = AskHandled(response: AskResponse, steps: seq<Step>)

  const ErrorPrefix := "Error executing SQL query: "
  const SchemaMissing := "Could not retrieve database schema. Is the database empty?"

  /** The text the prompt asks the model to answer with when the schema
      cannot answer the question. Nothing checks for it. */
  const CannotAnswer := "I cannot answer this question with the available data."

  /** `chat_completion.choices[0].message.content.strip()`. */
  function GeneratedSql(c: Completion): (r: Outcome<string>)
    ensures r.Returned? <==> c.Choices? && |c.contents| > 0 && c.contents[0].Some?
    ensures r.Returned? ==> r.value == Strip(c.contents[0].value)
  {
    match c
    case CallFailed(e) => Raised(e)
    case Choices(contents) =>
      if contents == [] then Raised(IndexError)
      else if contents[0].None? then Raised(AttributeError("NoneType", "strip"))
      else Returned(Strip(contents[0].value))
  }

  /** `e.pgerror` when `e` has that attribute (every `psycopg2.Error` does,
      and `None` prints as `None`), otherwise `str(e)`. */
  function ErrorDetail(e: Exc): string {
    if IsDbError(e) then
      match e.pgerror
      case None => "None"
      case Some(p) => p
    else ExcText(e)
  }

  function Failure(e: Exc): AskResponse {
    Failed(500, ErrorPrefix + ErrorDetail(e))
  }

  function AskQuestion(question: string, s: AskScript): AskHandled {
    if s.clientError.Some? then AskHandled(Failure(s.clientError.value), [])
    else
      match SchemaResult(s.schemaTries, s.catalog)
      case SchemaRaised(e) => AskHandled(Failure(e), [SchemaFetch])
      case NoSchema => AskHandled(Failure(HttpException(500, SchemaMissing)), [SchemaFetch])
      case SchemaText(schema) =>
        if schema == "" then AskHandled(Failure(HttpException(500, SchemaMissing)), [SchemaFetch])
        else
          var asked := [SchemaFetch, CompletionRequest(schema, question)];
          match GeneratedSql(s.completion)
          case Raised(e) => AskHandled(Failure(e), asked)
          case Returned(sql) =>
            var ran := asked + [QueryRun(sql)];
            match QueryResult(s.queryTries, s.statement)
            case QueryRaised(e) => AskHandled(Failure(e), ran)
            case NoConnection => AskHandled(Answered(question, sql, []), ran)
            case QueryRows(rows) => AskHandled(Answered(question, sql, rows), ran)
  }

  /** Whether the schema fetch gives text the `if not db_schema` gate lets through. */
  predicate SchemaPasses(s: AskScript) {
    var r := SchemaResult(s.schemaTries, s.catalog);
    r.SchemaText? && r.text != ""
  }

  /** A falsy schema fails the request before any completion request or
      query: the `HTTPException` raised inside the `try` is caught and
      wrapped again, so its text appears after the prefix as `500: ...`. */
  lemma SchemaGateComesFirst(question: string, s: AskScript)
    requires s.clientError.None? && !SchemaPasses(s)
    ensures var h := AskQuestion(question, s);
      h.steps == [SchemaFetch] && h.response.Failed? && h.response.status == 500
    ensures SchemaResult(s.schemaTries, s.catalog) == NoSchema ==>
      AskQuestion(question, s).response.detail == ErrorPrefix + "500: " + SchemaMissing
  {
    if SchemaResult(s.schemaTries, s.catalog) == NoSchema {
      FiveHundredText();
      assert ExcText(HttpException(500, SchemaMissing)) == "500: " + SchemaMissing;
      assert ErrorPrefix + ("500: " + SchemaMissing) == ErrorPrefix + "500: " + SchemaMissing;
    }
  }

  /** The gate lets through exactly a connection that yields a non-empty catalog. */
  lemma SchemaPassesExactly(s: AskScript)
    ensures SchemaPasses(s) <==>
      Connect(s.schemaTries).Connected? && s.catalog.CatalogRows? && s.catalog.rows != []
  {
    SchemaTextExactlyForRows(s.schemaTries, s.catalog);
  }

  /** A request is answered exactly when the client is built, the schema
      passes the gate, the model's first choice has content, and running
      that content does not raise. */
  lemma AnsweredExactly(question: string, s: AskScript)
    ensures AskQuestion(question, s).response.Answered? <==>
      s.clientError.None? && SchemaPasses(s) && GeneratedSql(s.completion).Returned?
      && !QueryResult(s.queryTries, s.statement).QueryRaised?
  {
  }

  /** An answer echoes the question verbatim, reports as `sql_query` exactly
      the stripped completion text, and that same text is the statement that
      ran, last, after the model was shown the schema and the question. */
  lemma AnswerEchoesWhatRan(question: string, s: AskScript)
    requires AskQuestion(question, s).response.Answered?
    ensures var h := AskQuestion(question, s);
      h.response.question == question
      && h.response.sqlQuery == Strip(s.completion.contents[0].value)
      && h.steps == [SchemaFetch, CompletionRequest(SchemaResult(s.schemaTries, s.catalog).text, question),
                     QueryRun(h.response.sqlQuery)]
  {
  }

  /** `None` from the statement runner becomes the empty list; rows come
      back as the runner returned them. */
  lemma DataIsAlwaysTheRows(question: string, s: AskScript)
    requires AskQuestion(question, s).response.Answered?
    ensures var data := AskQuestion(question, s).response.data;
      match QueryResult(s.queryTries, s.statement)
      case NoConnection => data == []
      case QueryRows(rows) => data == rows
      case QueryRaised(_) => false
  {
  }

  /** Nothing stops the refusal sentence: when the model answers with it
      (up to surrounding whitespace), it is run as SQL like any other text. */
  lemma CannotAnswerIsExecuted(question: string, s: AskScript)
    requires s.clientError.None? && SchemaPasses(s)
    requires s.completion.Choices? && |s.completion.contents| > 0 && s.completion.contents[0].Some?
    requires Strip(s.completion.contents[0].value) == CannotAnswer
    ensures QueryRun(CannotAnswer) in AskQuestion(question, s).steps
  {
    var h := AskQuestion(question, s);
    assert h.steps[2] == QueryRun(CannotAnswer);
  }

  /** Every failure is HTTP 500 with the fixed prefix; a database error's
      detail is its `pgerror` (`None` printed as such), anything else's is
      its text. */
  lemma FailuresAreWrapped(question: string, s: AskScript)
    requires AskQuestion(question, s).response.Failed?
    ensures var r := AskQuestion(question, s).response;
      r.status == 500 && |ErrorPrefix| <= |r.detail| && r.detail[..|ErrorPrefix|] == ErrorPrefix
  {
    var r := AskQuestion(question, s).response;
    var d :| r.detail == ErrorPrefix + d;
    assert (ErrorPrefix + d)[..|ErrorPrefix|] == ErrorPrefix;
  }

  /** The detail of a database error that escapes while the statement runs. */
  lemma StatementErrorShowsPgerror(question: string, s: AskScript, e: Exc)
    requires s.clientError.None? && SchemaPasses(s) && GeneratedSql(s.completion).Returned?
    requires QueryResult(s.queryTries, s.statement) == QueryRaised(e) && IsDbError(e)
    ensures AskQuestion(question, s).response ==
      Failed(500, ErrorPrefix + if e.pgerror.Some? then e.pgerror.value else "None")
  {
  }
}

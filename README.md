# Customer Diagnostics Platform: a Dafny model of its core

The platform consists of two small Python web services.

- **text-to-SQL**: `/ask` reads the PostgreSQL catalog and formats it as a
  schema description. It asks a language model to turn a question into one
  SQL statement, runs that statement, and answers with the rows.
- **diagnostics**: `/tools/diagnose-product` asks a language model for
  investigatory questions about a product. It sends each question to the
  text-to-SQL service, asks for a summary, saves the report in its own
  database, and returns it.

The model follows the code function by function. Everything outside the code
is an input, as a datatype value or a function from attempt number to
outcome:

- the database server (connection tries, cursor behaviour, catalog rows);
- the language model (completions);
- the HTTP peer (one outcome per attempt).

Modules:

- `PyText`: Python's `str.strip()` (the `isspace` set) and `str()` of an integer.
- `PyData`: Python values, dictionaries with insertion order and last-write-wins assignment, and the exceptions that cross the code together with the text `str(e)` gives for each.
- `Db`: a `Connection` class that logs every request made to the database: execute, fetch, commit, rollback, close.
- `SchemaFormat`: the formatting loop of `get_dynamic_schema`, with an independent description by maximal same-table runs.
- `SqlDatabase` (text-to-sql-api/app/database.py): the five-try connection loop, `execute_query` and `get_dynamic_schema`.
- `SqlApi` (text-to-sql-api/app/main.py): `ask_question`.
- `DiagnosisTools` (diagnostics-api/app/tools.py):
  - the question extraction;
  - the retrying fetch;
  - the summary fallbacks;
  - `diagnose_product_issues` with its `raw_data` loop.
- `ReportStore` (diagnostics-api/app/database.py): the single-try connection and the insert transaction.
- `DiagnosticsApi` (diagnostics-api/app/main.py): `run_product_diagnosis`.

Where the code and its documented intent differ, the model follows the code:

- The summary helper can return the empty string, when the model answers
  with whitespace only.
- The text the prompt reserves for unanswerable questions is run as SQL like
  any other reply. There is no guard and no allow-list, and the model adds
  none.
- An HTTP error status from the text-to-SQL service is not retried. It
  escapes the fetch and ends the whole diagnosis with an `error` dictionary.
- An `HTTPException` raised inside a handler's `try` is caught by that
  handler's own `except` and wrapped in a new one. Its detail appears once,
  but the status appears twice: as the response's status, and as the
  `500: ` that `str()` of the caught exception puts in front of the detail.

## Model

| member | source | states |
|---|---|---|
| PyText.Strip | text-to-sql-api/app/database.py:117 | `strip()` gives a text that neither starts nor ends with whitespace and is no longer than its input |
| PyText.StripCore | text-to-sql-api/app/main.py:101 | when only whitespace surrounds a stretch that starts and ends with a non-space character, `strip()` gives exactly that stretch |
| PyText.StripAllSpace | diagnostics-api/app/tools.py:144 | a reply of whitespace only strips to the empty string |
| PyData.Store | diagnostics-api/app/tools.py:41 | `raw_data[q] = d`: keys stay unique, `q` maps to `d`, every other key keeps its value, a new key goes last and an existing key keeps its place |
| Db.Connection.Execute | diagnostics-api/app/database.py:40 | one statement with its bound parameters is appended to the connection's log |
| Db.Connection.Commit | diagnostics-api/app/database.py:42 | one commit is appended to the log |
| Db.Connection.Rollback | diagnostics-api/app/database.py:49 | one rollback is appended to the log |
| Db.Connection.Fetch | text-to-sql-api/app/database.py:57 | one fetch (`fetchall`, or `fetchone` at diagnostics-api/app/database.py:41) is appended to the log |
| Db.Connection.Close | diagnostics-api/app/database.py:53 | one close is appended to the log |
| SchemaFormat.Emit | text-to-sql-api/app/database.py:110-115 | definition, no contract of its own: the text the loop accumulates, a `\nTable: <name>\n` header whenever a row's table differs from the current one, then the row's column line |
| SchemaFormat.Describe | text-to-sql-api/app/database.py:117 | definition, no contract of its own: the accumulated text, stripped, starting from the current table `""` |
| SchemaFormat.FormatSchema | text-to-sql-api/app/database.py:109-117 | the loop's result is the stripped concatenation of a header for each change of table (starting from `""`) and one column line per row |
| SchemaFormat.Advance | text-to-sql-api/app/database.py:111-115 | each turn of the loop keeps the text built so far a prefix of the final text |
| SchemaFormat.Runs | text-to-sql-api/app/database.py:111-114 | the rows cut into maximal non-empty same-table runs whose concatenation is the rows; neighbouring runs differ in table |
| SchemaFormat.EveryRowOneLine | text-to-sql-api/app/database.py:115 | headers aside, the text is exactly one `  - column (type)` line per row, in row order |
| SchemaFormat.EmitByRuns | text-to-sql-api/app/database.py:110-115 | the accumulated text lists the runs in order, a header before every run except a first run whose table is already current |
| SchemaFormat.ListingIsRuns | text-to-sql-api/app/database.py:110-115 | when the first table differs from the current one, every run gets exactly one header |
| SchemaFormat.ClusteredRunsAreDistinct | text-to-sql-api/app/database.py:110-114 | rows that keep each table together give runs that all have different tables |
| SchemaFormat.NameLeAntisymmetric | text-to-sql-api/app/database.py:91-93 | the name order used for `ORDER BY table_name` is antisymmetric |
| SchemaFormat.SortedIsClustered | text-to-sql-api/app/database.py:91-93 | rows sorted by table keep each table together |
| SchemaFormat.SortedCatalogOneHeaderPerTable | text-to-sql-api/app/database.py:110-114 | for a sorted catalog, the text is one header per run with no table repeated, so each table appears under exactly one header |
| SchemaFormat.EmitEndsWithColumnLine | text-to-sql-api/app/database.py:115 | the accumulated text ends with the last row's `)` and a newline |
| SchemaFormat.EmitStartsWithHeader | text-to-sql-api/app/database.py:114 | the accumulated text opens with `\nTable: ` and the first table |
| SchemaFormat.StripFramed | text-to-sql-api/app/database.py:117 | stripping such a framed text removes exactly one newline at each end |
| SchemaFormat.DescribeNonEmpty | text-to-sql-api/app/database.py:105-117 | a non-empty catalog never formats to the empty (falsy) string |
| SchemaFormat.DescribeTrimsOneNewlineEachSide | text-to-sql-api/app/database.py:117 | the result is the accumulated text without its first and last newline, and it begins with `Table: <first table>` |
| SqlDatabase.ConnectFrom | text-to-sql-api/app/database.py:12-32 | definition, no contract of its own: from try `k` on, a success returns the connection, an `OperationalError` moves to the next try, any other exception escapes, and after try five the result is `None` |
| SqlDatabase.ConnectFromCharacterised | text-to-sql-api/app/database.py:13-31 | from any try on: a connection from the first successful try, a re-raise of the first non-`OperationalError`, or exhaustion exactly when all remaining tries raise `OperationalError` |
| SqlDatabase.ConnectCharacterised | text-to-sql-api/app/database.py:12-32 | at most five tries; the first success is returned; `None` exactly after five `OperationalError`s |
| SqlDatabase.GetDbConnection | text-to-sql-api/app/database.py:10-32 | the countdown loop yields that outcome, with one pause per failed try, and a fresh connection exactly when one was obtained |
| SqlDatabase.QueryResult | text-to-sql-api/app/database.py:42-70 | definition, no contract of its own: `None` without a connection; once connected, the fetched rows, the one status record after a commit, or the exception raised again |
| SqlDatabase.QueryLog | text-to-sql-api/app/database.py:49-74 | definition, no contract of its own: execute, then a fetch or a commit unless execute raised, then close |
| SqlDatabase.ExecuteQuery | text-to-sql-api/app/database.py:37-74 | the result and the requests made on the connection are those of `QueryResult` and `QueryLog` |
| SqlDatabase.NoneOnlyWithoutConnection | text-to-sql-api/app/database.py:44-47 | `None` comes back exactly when no connection was obtained |
| SqlDatabase.ResultSetReturnedUnchanged | text-to-sql-api/app/database.py:56-59 | with a result description the fetched rows come back unchanged, and zero rows give `[]`, not `None` |
| SqlDatabase.MutationGivesOneStatusRecord | text-to-sql-api/app/database.py:60-63 | without a description the statement is committed and exactly one record `{status: success, rows_affected: rowcount}` comes back |
| SqlDatabase.FailuresAreRaised | text-to-sql-api/app/database.py:65-70 | the very exception the connection, `execute`, `fetchall` or `commit` raised is raised again, never turned into `None` or rows |
| SqlDatabase.QueryClosesConnection | text-to-sql-api/app/database.py:49-74 | an opened connection runs the statement first, commits only for a mutation, and is closed exactly once, last |
| SqlDatabase.SchemaResult | text-to-sql-api/app/database.py:95-121 | definition, no contract of its own: `None` without a connection, for no rows or on a `psycopg2.Error`; any other exception escapes; otherwise the formatted catalog |
| SqlDatabase.SchemaLog | text-to-sql-api/app/database.py:101-124 | definition, no contract of its own: the catalog query, a fetch unless it raised, then close |
| SqlDatabase.GetDynamicSchema | text-to-sql-api/app/database.py:78-124 | the result and the connection's log are those of `SchemaResult` and `SchemaLog` |
| SqlDatabase.SchemaTextExactlyForRows | text-to-sql-api/app/database.py:96-121 | text comes back exactly for a connection and a non-empty catalog, and it is the formatted catalog; no connection, no rows or a database error give `None`; nothing gives an empty string |
| SqlDatabase.SchemaClosesConnection | text-to-sql-api/app/database.py:101-124 | an opened connection runs the catalog query and is closed exactly once, last |
| SqlApi.AskQuestion | text-to-sql-api/app/main.py:54-129 | definition, no contract of its own: client, schema gate, completion, statement, `None` as `[]`, and every exception as HTTP 500 with the prefix and the `pgerror` or text; the lemmas below state its properties |
| SqlApi.GeneratedSql | text-to-sql-api/app/main.py:101 | the SQL exists exactly when the first choice has content, and it is that content stripped |
| SqlApi.SchemaGateComesFirst | text-to-sql-api/app/main.py:68-70 | a falsy schema fails the request with 500 before any completion request or query; for `None` the detail is the prefix, `500: ` and the schema message |
| SqlApi.SchemaPassesExactly | text-to-sql-api/app/main.py:68-70 | the gate lets through exactly a connection that yields a non-empty catalog |
| SqlApi.AnsweredExactly | text-to-sql-api/app/main.py:60-121 | a request is answered exactly when the client is built, the schema passes, the first choice has content and running it does not raise |
| SqlApi.AnswerEchoesWhatRan | text-to-sql-api/app/main.py:101-121 | an answer echoes the question, its `sql_query` is the stripped completion, and that text is the statement run, after the schema and question went to the model |
| SqlApi.DataIsAlwaysTheRows | text-to-sql-api/app/main.py:111-112 | `None` from the runner becomes `[]`; rows come back as returned |
| SqlApi.CannotAnswerIsExecuted | text-to-sql-api/app/main.py:101-106 | a reply that strips to the refusal sentence is run as SQL |
| SqlApi.FailuresAreWrapped | text-to-sql-api/app/main.py:122-129 | every failure is HTTP 500 whose detail starts with `Error executing SQL query: ` |
| SqlApi.StatementErrorShowsPgerror | text-to-sql-api/app/main.py:126-128 | a database error's detail is its `pgerror` (`None` printed as `None`) |
| DiagnosisTools.InvestigatoryQuestions | diagnostics-api/app/tools.py:66-103 | definition, no contract of its own: `[]` for empty choices or any exception; the decoded list; or the first list-valued entry of a decoded object, else `[]` |
| DiagnosisTools.FirstListIndex | diagnostics-api/app/tools.py:96-99 | the first entry, in key order, whose value is a list, or none |
| DiagnosisTools.QuestionsFromReply | diagnostics-api/app/tools.py:87-103 | a list reply is returned as is; an object reply gives its first list-valued entry or `[]`; empty choices, undecodable text, a scalar or a failed call give `[]` |
| DiagnosisTools.ResponseData | diagnostics-api/app/tools.py:109-111 | definition, no contract of its own: `raise_for_status`, `response.json()` and `.get("data", [])` on one response |
| DiagnosisTools.FetchFrom | diagnostics-api/app/tools.py:105-116 | definition, no contract of its own: the fetch's result from attempt `k` on, retrying transport failures only, and the `error` marker after the last attempt |
| DiagnosisTools.FetchPauses | diagnostics-api/app/tools.py:107-114 | definition, no contract of its own: one pause after each transport failure, the last one included |
| DiagnosisTools.FetchData | diagnostics-api/app/tools.py:105-116 | the attempt loop yields `FetchFrom`'s result and pauses |
| DiagnosisTools.FetchFromGivesUp | diagnostics-api/app/tools.py:107-116 | when every remaining attempt fails at the transport level, the `error` marker comes back after one pause per attempt |
| DiagnosisTools.FetchFromFirstResponse | diagnostics-api/app/tools.py:107-114 | the first attempt that gets a response decides the result, after one pause per earlier failure |
| DiagnosisTools.FetchCharacterised | diagnostics-api/app/tools.py:107-116 | at most `max_retries` attempts, retrying only transport failures; the marker only after all fail |
| DiagnosisTools.ResponseDataCases | diagnostics-api/app/tools.py:109-111 | a 2xx response gives its `data` field, or `[]` without one; a non-2xx status raises |
| DiagnosisTools.SummaryText | diagnostics-api/app/tools.py:118-148 | definition, no contract of its own: the empty-choices fallback, the stripped first reply, or the error fallback |
| DiagnosisTools.SummaryCases | diagnostics-api/app/tools.py:140-148 | the summary is a fixed fallback on empty choices or any exception, otherwise the stripped reply, which can be empty |
| DiagnosisTools.GatherOne | diagnostics-api/app/tools.py:38-41 | one turn of the loop keeps the keys unique and records the question as fetched; a returned fetch for a hashable question is stored under it with no failure; a raising fetch, or an unhashable question (`TypeError`), ends the loop with that exception and leaves `raw_data` unchanged |
| DiagnosisTools.Gather | diagnostics-api/app/tools.py:37-42 | the loop keeps `raw_data`'s keys unique, fetches a prefix of the questions in order, and all of them unless an exception ended it |
| DiagnosisTools.GatherStopsAtFailure | diagnostics-api/app/tools.py:38-42 | once an exception ended the loop, later questions change nothing |
| DiagnosisTools.Diagnose | diagnostics-api/app/tools.py:21-61 | definition, no contract of its own: no questions give the `error` dictionary; otherwise the loop, and either the fatal `error` dictionary or the four-key report with the summary |
| DiagnosisTools.DiagnoseProductIssues | diagnostics-api/app/tools.py:21-61 | the tool's loop yields `Diagnose`'s result |
| DiagnosisTools.NoQuestionsNoFetch | diagnostics-api/app/tools.py:29-32 | without questions the result is the `error` dictionary, with no fetch and no summary |
| DiagnosisTools.ErrorOrReport | diagnostics-api/app/tools.py:29-61 | the result has the key `error` exactly when there were no questions or an exception escaped, and then that is its only key; otherwise its keys are exactly `product_id`, `product_name`, `summary`, `raw_data` |
| DiagnosisTools.ReportKeys | diagnostics-api/app/tools.py:49-54 | the report holds each of its four fields under its own key and has no `error` key |
| DiagnosisTools.GatheredRawData | diagnostics-api/app/tools.py:37-42 | on success `raw_data` has one key per distinct question, keys in first-occurrence order, each holding the fetch for its last occurrence |
| DiagnosisTools.GatheredKeys | diagnostics-api/app/tools.py:37-42 | the keys of `raw_data` are exactly the questions |
| DiagnosisTools.GatheredValues | diagnostics-api/app/tools.py:38-41 | each question's key holds what the fetch for its last occurrence returned |
| DiagnosisTools.GatheredOrder | diagnostics-api/app/tools.py:38-41 | the keys appear in the order the questions first occur |
| DiagnosisTools.SuccessFetchedEveryQuestion | diagnostics-api/app/tools.py:37-53 | on success every question was fetched in order, and the summary was asked about the report's `raw_data` |
| ReportStore.OpenConnection | diagnostics-api/app/database.py:6-22 | one try, no retry: a fresh connection or the connect error raised again |
| ReportStore.TransactionFailure | diagnostics-api/app/database.py:40-42 | definition, no contract of its own: the exception of `execute`, of `fetchone`, of subscripting a `None` row, or of `commit`, whichever comes first |
| ReportStore.SaveResult | diagnostics-api/app/database.py:28-50 | definition, no contract of its own: the connection error, the new id, or the transaction's exception, replaced by the rollback's own when the rollback raises |
| ReportStore.SaveLog | diagnostics-api/app/database.py:30-53 | definition, no contract of its own: nothing without a connection; else execute, fetch, commit, rollback as far as they are reached, and close |
| ReportStore.SaveDiagnosisResult | diagnostics-api/app/database.py:24-53 | the result and the connection's log are those of `SaveResult` and `SaveLog` |
| ReportStore.SaveDiscipline | diagnostics-api/app/database.py:38-53 | insert first, with the four fields in order and `raw_data` as JSON text; commit only right after the insert and the fetch; rollback exactly when the save raises; one close, last |
| ReportStore.ReturnsCommittedId | diagnostics-api/app/database.py:35-44 | the returned id is the one `RETURNING` produced, exactly when insert, fetch and commit succeeded |
| ReportStore.FailedTransactionIsRaised | diagnostics-api/app/database.py:45-50 | once connected, a failed transaction is rolled back and its own exception raised again, unless the rollback itself raises |
| ReportStore.FailedConnectionIsRaised | diagnostics-api/app/database.py:20-22 | a failed connection is raised again at once, with no rollback and no close |
| DiagnosticsApi.Field | diagnostics-api/app/main.py:58-61 | definition, no contract of its own: `diagnosis_report[key]`, raising `KeyError` or `TypeError` |
| DiagnosticsApi.SaveArguments | diagnostics-api/app/main.py:57-62 | definition, no contract of its own: the four subscripts in argument order, the first that raises ending the call |
| DiagnosticsApi.HandleReport | diagnostics-api/app/main.py:52-70 | definition, no contract of its own: the `error` gate, the save and the return, with every exception as HTTP 500 behind the server-error prefix |
| DiagnosticsApi.RunProductDiagnosis | diagnostics-api/app/main.py:40-70 | definition, no contract of its own: the handler applied to the tool's result |
| DiagnosticsApi.ErrorIsNeverPersisted | diagnostics-api/app/main.py:52-54 | a result with an `error` key is never saved and becomes 500 with the server prefix, `500: ` and the message |
| DiagnosticsApi.ReportIsSavedThenReturned | diagnostics-api/app/main.py:57-65 | a report is saved exactly once with its four fields, and returned unchanged exactly when the save returned |
| DiagnosticsApi.SavedOnceThenReturned | diagnostics-api/app/main.py:47-65 | without an `error` key, the tool's report is saved exactly once, and success is returned exactly when the save returned, so it is never unpersisted |
| DiagnosticsApi.FailuresAreServerErrors | diagnostics-api/app/main.py:67-70 | every failure is HTTP 500 whose detail starts with `An unexpected server error occurred: ` |
| DiagnosticsApi.PersistedRawDataAnswersTheQuestions | diagnostics-api/app/main.py:47-65 | when the endpoint succeeds, the saved `raw_data` has one key per generated question, holding the data fetched for its last occurrence |

## Left out

- Prompt wording, logging, CORS, `load_dotenv`, environment lookups and the fallback URL of the text-to-SQL service: these are configuration and I/O. The completion request records only the two values the prompt interpolates.
- The language model, PostgreSQL and `httpx` are oracles. The model does not say what a reply or a statement means.
- `health_check` and the frontend: they have no logic to verify.
- SqlDatabase.GetDbConnection: the five-second sleeps are counted as pauses, not timed.
- DiagnosisTools.FetchData: the two-second sleeps are counted as pauses, and the 30-second timeout is one kind of transport failure.
- DiagnosisTools.SummaryText: the reply is an input that does not depend on `raw_data`. The prompt built from `json.dumps(raw_data)` is not modelled.
- ReportStore.SaveDiagnosisResult: `json.dumps(raw_data)` is a parameter tag around the value. The JSON text itself is not produced.
- PyData.ExcText: the texts of library exceptions (`httpx` status errors, JSON decoding errors) are shortened to fixed strings.
- The SQL texts: the catalog query and the insert keep their words, but their line breaks and indentation are collapsed to single spaces.
- `conn.close()` and the cursor context manager are assumed never to raise.
- PyData.Store: keys are compared structurally, not with Python's `==` and `hash`. So `True` and `1` (and `False` and `0`) stay two keys here, where a Python dict keeps one. Floats, which would alias further, are not among the modelled values. Only non-string questions from the language model can tell the difference.
- DiagnosticsApi.HandleReport: the detail of an `error` value that is not a string is rendered by its type name. The tool only builds string messages.
- SchemaFormat.SortedCatalogOneHeaderPerTable: the order by code point (`NameLe`) stands in for PostgreSQL's collation. Only the fact that sorting keeps each table's rows together is used. The first table name is taken to be non-empty, as PostgreSQL table names are.
- The question sent to the text-to-SQL service travels only as the request body. Each fetch is identified by the question's position.

/** The `/tools/diagnose-product` endpoint of the diagnostics service
    (`run_product_diagnosis` in diagnostics-api/app/main.py): run the
    diagnosis tool, refuse a result carrying an `error` key, otherwise save
    the report and return it. */
module DiagnosticsApi {
  import opened PyText
  import opened PyData
  import opened DiagnosisTools
  import opened ReportStore

  const ServerErrorPrefix := "An unexpected server error occurred: "

  /** The response: the report as the tool built it, or an `HTTPException`. */
  datatype DiagnoseResponse = Reported(report: Value) | DiagnoseFailed(status: int, detail: string)

  /** One call of `save_diagnosis_result`, with the values it was given. */
  datatype SaveCall = SaveCall(productId: Value, productName: Value, summary: Value, rawData: Value)

  datatype DiagnoseHandled = DiagnoseHandled(response: DiagnoseResponse, saves: seq<SaveCall>)

  /** `diagnosis_report[key]`. */
  function Field(report: Value, key: string): Outcome<Value> {
    if !report.Dict? then Raised(TypeError("'" + TypeName(report) + "' object is not subscriptable"))
    else match Lookup(report.entries, Str(key))
      case Some(v) => Returned(v)
      case None => Raised(KeyError(key))
  }

  /** `str(v)` of a value used as an `HTTPException` detail. The error
      dictionaries the tool builds hold strings only, and for them this is
      exact; any other value is rendered by its type name, which is not what
      Python's `str` gives (`str(5)` is `"5"`). */
  function DetailText(v: Value): string {
    if v.Str? then v.s else TypeName(v)
  }

  /** Everything caught by the handler's `except Exception` becomes HTTP 500. */
  function ServerError(e: Exc): DiagnoseResponse {
    DiagnoseFailed(500, ServerErrorPrefix + ExcText(e))
  }

  /** The four subscripts that build the arguments of the save, in the
      order the call evaluates them: the first that raises wins. */
  function SaveArguments(report: Value): Outcome<SaveCall> {
    match Field(report, "product_id")
    case Raised(e) => Raised(e)
    case Returned(id) =>
      match Field(report, "product_name")
      case Raised(e) => Raised(e)
      case Returned(name) =>
        match Field(report, "summary")
        case Raised(e) => Raised(e)
        case Returned(summary) =>
          match Field(report, "raw_data")
          case Raised(e) => Raised(e)
          case Returned(rawData) => Returned(SaveCall(id, name, summary, rawData))
  }

  /** The handler, given the report the tool returned and the database's
      behaviour during the save. */
  function HandleReport(report: Value, store: StoreScript): DiagnoseHandled {
    if HasKey(report, Str("error")) then
      var detail := DetailText(Lookup(report.entries, Str("error")).value);
      DiagnoseHandled(ServerError(HttpException(500, detail)), [])
    else
      match SaveArguments(report)
      case Raised(e) => DiagnoseHandled(ServerError(e), [])
      case Returned(call) =>
        match SaveResult(store)
        case Returned(_) => DiagnoseHandled(Reported(report), [call])
        case Raised(e) => DiagnoseHandled(ServerError(e), [call])
  }

  /** `run_product_diagnosis(request)`. */
  function RunProductDiagnosis(productId: int, productName: string, tool: DiagnoseScript, store: StoreScript): DiagnoseHandled {
    HandleReport(Diagnose(productId, productName, tool).result, store)
  }

  /** A result carrying an `error` key is never saved. The `HTTPException`
      raised for it is caught by the handler's own `except`, so the client
      sees its text behind a second prefix, as `500: <message>`. */
  lemma ErrorIsNeverPersisted(report: Value, store: StoreScript, message: string)
    requires report.Dict? && Lookup(report.entries, Str("error")) == Some(Str(message))
    ensures HandleReport(report, store) ==
      DiagnoseHandled(DiagnoseFailed(500, ServerErrorPrefix + "500: " + message), [])
  {
    FiveHundredText();
    assert ExcText(HttpException(500, message)) == "500: " + message;
    assert ServerErrorPrefix + ("500: " + message) == ServerErrorPrefix + "500: " + message;
  }

  /** A report the tool built is saved exactly once, with its four fields,
      and returned unchanged exactly when the save returned. */
  lemma ReportIsSavedThenReturned(productId: int, productName: string, summary: string,
                                  rawData: seq<(Value, Value)>, store: StoreScript)
    ensures var report := Report(productId, productName, summary, rawData);
      var h := HandleReport(report, store);
      h.saves == [SaveCall(Int(productId), Str(productName), Str(summary), Dict(rawData))]
      && (h.response.Reported? <==> SaveResult(store).Returned?)
      && (h.response.Reported? ==> h.response.report == report)
  {
    ReportKeys(productId, productName, summary, rawData);
  }

  /** When the tool succeeds, its report is saved exactly once, with the
      product, the summary and the gathered `raw_data`, before anything is
      returned; success is returned exactly when the save returned, so it
      never goes unpersisted. */
  lemma SavedOnceThenReturned(productId: int, productName: string, tool: DiagnoseScript, store: StoreScript)
    requires !HasKey(Diagnose(productId, productName, tool).result, Str("error"))
    ensures var qs := InvestigatoryQuestions(tool.questionReply);
      var rawData := Gather(qs, Fetched(tool.fetches)).entries;
      var h := RunProductDiagnosis(productId, productName, tool, store);
      qs != [] && Gather(qs, Fetched(tool.fetches)).failure.None?
      && h.saves == [SaveCall(Int(productId), Str(productName), Str(SummaryText(tool.summaryReply)), Dict(rawData))]
      && (h.response.Reported? <==> SaveResult(store).Returned?)
      && (h.response.Reported? ==> h.response.report == Diagnose(productId, productName, tool).result)
  {
    ErrorOrReport(productId, productName, tool);
    var qs := InvestigatoryQuestions(tool.questionReply);
    ReportIsSavedThenReturned(productId, productName, SummaryText(tool.summaryReply), Gather(qs, Fetched(tool.fetches)).entries, store);
  }

  /** Whatever goes wrong, the failure is HTTP 500 with the fixed prefix. */
  lemma FailuresAreServerErrors(report: Value, store: StoreScript)
    requires HandleReport(report, store).response.DiagnoseFailed?
    ensures var r := HandleReport(report, store).response;
      r.status == 500 && |ServerErrorPrefix| <= |r.detail| && r.detail[..|ServerErrorPrefix|] == ServerErrorPrefix
  {
    var h := HandleReport(report, store);
    var e: Exc;
    if HasKey(report, Str("error")) {
      e := HttpException(500, DetailText(Lookup(report.entries, Str("error")).value));
    } else if SaveArguments(report).Raised? {
      e := SaveArguments(report).e;
    } else {
      e := SaveResult(store).e;
    }
    assert h.response == ServerError(e);
    assert (ServerErrorPrefix + ExcText(e))[..|ServerErrorPrefix|] == ServerErrorPrefix;
  }

  /** End to end: when the endpoint reports success, the saved `raw_data`
      holds one key per distinct generated question, and each holds the data
      fetched for that question's last occurrence. */
  lemma PersistedRawDataAnswersTheQuestions(productId: int, productName: string, tool: DiagnoseScript, store: StoreScript)
    requires RunProductDiagnosis(productId, productName, tool, store).response.Reported?
    ensures var qs := InvestigatoryQuestions(tool.questionReply);
      var h := RunProductDiagnosis(productId, productName, tool, store);
      |h.saves| == 1 && h.saves[0].rawData.Dict?
      && (forall q :: q in Keys(h.saves[0].rawData.entries) <==> q in qs)
      && forall q :: q in qs ==>
        FetchFor(tool.fetches, LastIndex(qs, q)).Returned?
        && Lookup(h.saves[0].rawData.entries, q) == Some(FetchFor(tool.fetches, LastIndex(qs, q)).value)
  {
    var report := Diagnose(productId, productName, tool).result;
    assert !HasKey(report, Str("error"));
    SavedOnceThenReturned(productId, productName, tool, store);
    GatheredRawData(InvestigatoryQuestions(tool.questionReply), Fetched(tool.fetches));
  }
}

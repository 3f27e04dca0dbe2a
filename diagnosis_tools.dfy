/** The diagnosis tool of the diagnostics service
    (diagnostics-api/app/tools.py): ask the language model for questions
    about a product, put each to the text-to-SQL service over HTTP with
    retries, and summarise what came back. The model's replies and the HTTP
    exchanges are inputs. */
module DiagnosisTools {
  import opened PyText
  import opened PyData

  /** What `json.loads` makes of a text: a value, or a decoding error. */
  datatype Json = Undecodable | Decoded(v: Value)

  /** `{"error": message}`: how the tool reports a failure to its caller. */
  function ErrorDict(message: string): Value {
    Dict([(Str("error"), Str(message))])
  }

  // ---------------------------------------------------------------------
  // _get_investigatory_questions

  /** What the question request gives back: the call raises, `choices` is
      empty, or the first choice's content is missing (`None`) or decodes
      to some JSON value or not at all. */
  datatype QuestionReply = QuestionCallFailed(e: Exc) | NoChoices | FirstContent(content: Option<Json>)

  /** The position of the first entry whose value is a list, or `|entries|`. */
  function FirstListIndex(entries: seq<(Value, Value)>): (i: nat)
    ensures i <= |entries|
    ensures forall j :: 0 <= j < i ==> !entries[j].1.List?
    ensures i < |entries| ==> entries[i].1.List?
  {
    if entries == [] then 0
    else if entries[0].1.List? then 0
    else 1 + FirstListIndex(entries[1..])
  }

  /** The questions to ask. Every failure on the way (including
      `json.loads(None)` and `.items()` on a scalar) is caught and gives the
      empty list. */
  function InvestigatoryQuestions(reply: QuestionReply): seq<Value> {
    match reply
    case QuestionCallFailed(_) => []
    case NoChoices => []
    case FirstContent(None) => []
    case FirstContent(Some(Undecodable)) => []
    case FirstContent(Some(Decoded(v))) =>
      match v
      case List(items) => items
      case Dict(entries) =>
        var i := FirstListIndex(entries);
        if i < |entries| then entries[i].1.items else []
      case _ => []
  }

  /** A reply decoding to a list gives that list as it is; one decoding to
      an object gives its first list-valued entry in key order, and `[]`
      when no top-level value is a list (nested objects are not searched);
      anything else gives `[]`. */
  lemma QuestionsFromReply(reply: QuestionReply)
    ensures var qs := InvestigatoryQuestions(reply);
      match reply
      case FirstContent(Some(Decoded(List(items)))) => qs == items
      case FirstContent(Some(Decoded(Dict(entries)))) =>
        (forall i :: 0 <= i < |entries| ==> !entries[i].1.List?) ==> qs == []
      case _ => qs == []
    ensures forall entries: seq<(Value, Value)>, i ::
      reply == FirstContent(Some(Decoded(Dict(entries)))) && 0 <= i < |entries| && entries[i].1.List?
      && (forall j :: 0 <= j < i ==> !entries[j].1.List?)
      ==> InvestigatoryQuestions(reply) == entries[i].1.items
  {
    forall entries: seq<(Value, Value)>, i |
      reply == FirstContent(Some(Decoded(Dict(entries)))) && 0 <= i < |entries| && entries[i].1.List?
      && (forall j :: 0 <= j < i ==> !entries[j].1.List?)
      ensures InvestigatoryQuestions(reply) == entries[i].1.items
    {
      assert FirstListIndex(entries) == i;
    }
  }

  // ---------------------------------------------------------------------
  // _fetch_data_from_text_to_sql_api

  /** What one `httpx.post` does: fail at the transport level
      (`httpx.RequestError`), or answer with a status and a body. */
  datatype HttpAttempt = TransportFailure | Responded(status: int, body: Json)

  /** The service's behaviour on the `i`-th attempt. */
  type HttpTries = nat -> HttpAttempt

  const DefaultMaxRetries: int := 3

  function GaveUpMessage(maxRetries: int): string {
    "Failed to get data from Text-to-SQL API after " + IntToString(maxRetries) + " attempts."
  }

  /** What the fetch makes of a response: `raise_for_status` raises for a
      status outside 2xx, `response.json()` for a body that is not JSON,
      `.get` for a body that is not an object; otherwise the `data` field,
      `[]` when it is absent. */
  function ResponseData(status: int, body: Json): Outcome<Value> {
    if !(200 <= status < 300) then Raised(HttpStatusError(status))
    else match body
      case Undecodable => Raised(JsonDecodeError)
      case Decoded(Dict(entries)) =>
        (match Lookup(entries, Str("data"))
         case Some(d) => Returned(d)
         case None => Returned(List([])))
      case Decoded(v) => Raised(AttributeError(TypeName(v), "get"))
  }

  /** The fetch's result when attempt `k` is the next to make. */
  function FetchFrom(maxRetries: int, tries: HttpTries, k: nat): Outcome<Value>
    decreases maxRetries - k
  {
    if k >= maxRetries then Returned(ErrorDict(GaveUpMessage(maxRetries)))
    else match tries(k)
      case TransportFailure => FetchFrom(maxRetries, tries, k + 1)
      case Responded(status, body) => ResponseData(status, body)
  }

  /** How many pauses the fetch takes from attempt `k` on: one after every
      transport failure, the last attempt's included. */
  function FetchPauses(maxRetries: int, tries: HttpTries, k: nat): nat
    decreases maxRetries - k
  {
    if k >= maxRetries then 0
    else match tries(k)
      case TransportFailure => 1 + FetchPauses(maxRetries, tries, k + 1)
      case Responded(_, _) => 0
  }

  /** `_fetch_data_from_text_to_sql_api(question, max_retries)`. The
      question only travels in the request body, so the attempts stand for it. */
  method FetchData(maxRetries: int, tries: HttpTries) returns (r: Outcome<Value>, pauses: nat)
    ensures r == FetchFrom(maxRetries, tries, 0)
    ensures pauses == FetchPauses(maxRetries, tries, 0)
  {
    pauses := 0;
    var attempt: nat := 0;
    while attempt < maxRetries
      invariant attempt == 0 || attempt <= maxRetries
      invariant FetchFrom(maxRetries, tries, attempt) == FetchFrom(maxRetries, tries, 0)
      invariant pauses + FetchPauses(maxRetries, tries, attempt) == FetchPauses(maxRetries, tries, 0)
      decreases maxRetries - attempt
    {
      match tries(attempt)
      case TransportFailure =>
        pauses := pauses + 1;
        attempt := attempt + 1;
      case Responded(status, body) =>
        r := ResponseData(status, body);
        return;
    }
    r := Returned(ErrorDict(GaveUpMessage(maxRetries)));
  }

  /** From attempt `k` on, when every remaining attempt fails at the
      transport level, the marker comes back after one pause each. */
  lemma {:induction false} FetchFromGivesUp(maxRetries: int, tries: HttpTries, k: nat)
    requires forall m :: k <= m < maxRetries ==> tries(m).TransportFailure?
    decreases maxRetries - k
    ensures FetchFrom(maxRetries, tries, k) == Returned(ErrorDict(GaveUpMessage(maxRetries)))
    ensures FetchPauses(maxRetries, tries, k) == if k < maxRetries then maxRetries - k else 0
  {
    if k < maxRetries {
      FetchFromGivesUp(maxRetries, tries, k + 1);
    }
  }

  /** From attempt `k` on, the first attempt that gets a response decides
      the result alone, and the transport failures before it each cost one
      pause. */
  lemma {:induction false} FetchFromFirstResponse(maxRetries: int, tries: HttpTries, k: nat, n: nat)
    requires k <= n < maxRetries && tries(n).Responded?
    requires forall m :: k <= m < n ==> tries(m).TransportFailure?
    decreases n - k
    ensures FetchFrom(maxRetries, tries, k) == ResponseData(tries(n).status, tries(n).body)
    ensures FetchPauses(maxRetries, tries, k) == n - k
  {
    if k < n {
      FetchFromFirstResponse(maxRetries, tries, k + 1, n);
    }
  }

  /** At most `max_retries` attempts, retrying only transport failures: the
      first response decides (its `data`, or the exception it provokes),
      and the error marker comes back only when every attempt failed at the
      transport level. */
  lemma FetchCharacterised(maxRetries: int, tries: HttpTries)
    ensures (forall m :: 0 <= m < maxRetries ==> tries(m).TransportFailure?) ==>
      FetchFrom(maxRetries, tries, 0) == Returned(ErrorDict(GaveUpMessage(maxRetries)))
      && FetchPauses(maxRetries, tries, 0) == if 0 < maxRetries then maxRetries else 0
    ensures forall n: nat ::
      (n < maxRetries && tries(n).Responded? && forall m :: 0 <= m < n ==> tries(m).TransportFailure?) ==>
      FetchFrom(maxRetries, tries, 0) == ResponseData(tries(n).status, tries(n).body)
      && FetchPauses(maxRetries, tries, 0) == n
  {
    if forall m :: 0 <= m < maxRetries ==> tries(m).TransportFailure? {
      FetchFromGivesUp(maxRetries, tries, 0);
    }
    forall n: nat | n < maxRetries && tries(n).Responded? && forall m :: 0 <= m < n ==> tries(m).TransportFailure?
      ensures FetchFrom(maxRetries, tries, 0) == ResponseData(tries(n).status, tries(n).body)
      ensures FetchPauses(maxRetries, tries, 0) == n
    {
      FetchFromFirstResponse(maxRetries, tries, 0, n);
    }
  }

  /** A successful response's `data` comes back unchanged, and `[]` when it
      has none; a non-2xx status is not retried but escapes as an exception. */
  lemma ResponseDataCases(status: int, entries: seq<(Value, Value)>)
    ensures 200 <= status < 300 && Lookup(entries, Str("data")).Some? ==>
      ResponseData(status, Decoded(Dict(entries))) == Returned(Lookup(entries, Str("data")).value)
    ensures 200 <= status < 300 && Lookup(entries, Str("data")).None? ==>
      ResponseData(status, Decoded(Dict(entries))) == Returned(List([]))
    ensures !(200 <= status < 300) ==>
      ResponseData(status, Decoded(Dict(entries))) == Raised(HttpStatusError(status))
  {
  }

  // ---------------------------------------------------------------------
  // _create_summary_from_data

  const EmptySummaryReply := "Could not generate summary because the AI returned an empty response."
  const SummaryError := "Could not generate a summary due to an error."

  /** The summary: the stripped first choice, or a fixed fallback. Every
      exception (including `.strip()` on a missing content) is caught. */
  function SummaryText(c: Completion): string {
    match c
    case CallFailed(_) => SummaryError
    case Choices(contents) =>
      if contents == [] then EmptySummaryReply
      else if contents[0].None? then SummaryError
      else Strip(contents[0].value)
  }

  /** The summary is always a string: a fallback on an empty `choices` or on
      any exception, otherwise the reply without surrounding whitespace. A
      reply of whitespace only gives the empty string. */
  lemma SummaryCases(c: Completion)
    ensures c.CallFailed? ==> SummaryText(c) == SummaryError
    ensures c == Choices([]) ==> SummaryText(c) == EmptySummaryReply
    ensures c.Choices? && c.contents != [] && c.contents[0].None? ==> SummaryText(c) == SummaryError
    ensures c.Choices? && c.contents != [] && c.contents[0].Some? ==>
      var t := SummaryText(c);
      t == Strip(c.contents[0].value) && (t != "" ==> !IsSpace(t[0]) && !IsSpace(t[|t| - 1]))
    ensures c == Choices([Some(" ")]) ==> SummaryText(c) == ""
  {
    if c == Choices([Some(" ")]) {
      assert LeadingSpaces(" ") == 1;
    }
  }

  // ---------------------------------------------------------------------
  // diagnose_product_issues

  const NoQuestionsMessage := "Could not generate investigatory questions from the AI."
  const FatalPrefix := "An unexpected fatal error occurred during diagnosis: "

  /** What the outside world does during one diagnosis: the question reply,
      the attempts seen by the fetch for the `i`-th question, the summary reply. */
  datatype DiagnoseScript = DiagnoseScript(
    questionReply: QuestionReply,
    fetches: nat -> HttpTries,
    summaryReply: Completion)

  /** The fetch for the question at position `i`, with the default retries. */
  function FetchFor(fetches: nat -> HttpTries, i: nat): Outcome<Value> {
    FetchFrom(DefaultMaxRetries, fetches(i), 0)
  }

  /** The outcome of each question's fetch, by the question's position. */
  function Fetched(fetches: nat -> HttpTries): nat -> Outcome<Value> {
    (i: nat) => FetchFor(fetches, i)
  }

  /** `raw_data[question] = data` raises for a question that cannot be a key. */
  function Unhashable(q: Value): Exc {
    TypeError("unhashable type: '" + TypeName(q) + "'")
  }

  /** The state of the question loop: the `raw_data` entries so far, the
      questions fetched so far, and the exception that ended it, if any. */
  datatype Gathered = Gathered(entries: seq<(Value, Value)>, asked: seq<Value>, failure: Option<Exc>)

  lemma PrefixOfPrefix(a: seq<Value>, qs: seq<Value>, n: nat)
    requires n <= |qs| && a <= qs[..n]
    ensures a <= qs
  {
    assert qs[..n][..|a|] == qs[..|a|];
  }

  /** One turn of the question loop after `g`, for question `q` whose fetch
      gave `fetched`: record the data under the question, or stop with the
      exception the fetch or the store raised. */
  function GatherOne(g: Gathered, q: Value, fetched: Outcome<Value>): (r: Gathered)
    requires UniqueKeys(g.entries)
    ensures UniqueKeys(r.entries) && r.asked == g.asked + [q]
    ensures fetched.Returned? && Hashable(q) ==>
      r.failure.None? && r.entries == Store(g.entries, q, fetched.value)
    ensures fetched.Raised? ==> r.failure == Some(fetched.e) && r.entries == g.entries
    ensures fetched.Returned? && !Hashable(q) ==>
      r.failure == Some(Unhashable(q)) && r.entries == g.entries
  {
    match fetched
    case Raised(e) => Gathered(g.entries, g.asked + [q], Some(e))
    case Returned(d) =>
      if Hashable(q) then Gathered(Store(g.entries, q, d), g.asked + [q], None)
      else Gathered(g.entries, g.asked + [q], Some(Unhashable(q)))
  }

  /** The question loop over `qs`, one question after another. */
  function Gather(qs: seq<Value>, fetched: nat -> Outcome<Value>): (g: Gathered)
    decreases |qs|
    ensures UniqueKeys(g.entries)
    ensures g.asked <= qs
    ensures g.failure.None? ==> g.asked == qs
  {
    if qs == [] then Gathered([], [], None)
    else
      var n := |qs| - 1;
      var g := Gather(qs[..n], fetched);
      if g.failure.Some? then
        assert g.asked <= qs by { PrefixOfPrefix(g.asked, qs, n); }
        g
      else
        assert qs[..n] + [qs[n]] == qs;
        GatherOne(g, qs[n], fetched(n))
  }

  /** The report's four fields, in this order. */
  function Report(productId: int, productName: string, summary: string, rawData: seq<(Value, Value)>): Value {
    Dict([(Str("product_id"), Int(productId)), (Str("product_name"), Str(productName)),
          (Str("summary"), Str(summary)), (Str("raw_data"), Dict(rawData))])
  }

  /** What a diagnosis returns, which questions it fetched, and the
      `raw_data` it asked to have summarised, if it got that far. */
  datatype Diagnosis = Diagnosis(result: Value, asked: seq<Value>, summarised: Option<Value>)

  function Diagnose(productId: int, productName: string, s: DiagnoseScript): Diagnosis {
    var qs := InvestigatoryQuestions(s.questionReply);
    if qs == [] then Diagnosis(ErrorDict(NoQuestionsMessage), [], None)
    else
      var g := Gather(qs, Fetched(s.fetches));
      match g.failure
      case Some(e) => Diagnosis(ErrorDict(FatalPrefix + ExcText(e)), g.asked, None)
      case None =>
        Diagnosis(Report(productId, productName, SummaryText(s.summaryReply), g.entries), qs, Some(Dict(g.entries)))
  }

  /** One more turn of the loop, from the loop's state after the first `i` questions. */
  lemma GatherStep(qs: seq<Value>, fetched: nat -> Outcome<Value>, i: nat)
    requires i < |qs|
    ensures var g := Gather(qs[..i], fetched);
      Gather(qs[..i + 1], fetched) ==
        if g.failure.Some? then g else GatherOne(g, qs[i], fetched(i))
  {
    assert qs[..i + 1][..i] == qs[..i];
  }

  /** Once an exception has ended the loop, later questions change nothing. */
  lemma {:induction false} GatherStopsAtFailure(qs: seq<Value>, fetched: nat -> Outcome<Value>, i: nat)
    requires i <= |qs| && Gather(qs[..i], fetched).failure.Some?
    decreases |qs| - i
    ensures Gather(qs, fetched) == Gather(qs[..i], fetched)
  {
    if i < |qs| {
      GatherStep(qs, fetched, i);
      GatherStopsAtFailure(qs, fetched, i + 1);
    } else {
      assert qs[..i] == qs;
    }
  }

  /** `diagnose_product_issues(product_id, product_name)`: the questions,
      then one fetch per question filling `raw_data` in list order, then the
      summary and the report. */
  method DiagnoseProductIssues(productId: int, productName: string, s: DiagnoseScript) returns (d: Diagnosis)
    ensures d == Diagnose(productId, productName, s)
  {
    var questions := InvestigatoryQuestions(s.questionReply);
    if questions == [] {
      return Diagnosis(ErrorDict(NoQuestionsMessage), [], None);
    }
    ghost var fetched := Fetched(s.fetches);
    var rawData: seq<(Value, Value)> := [];
    var asked: seq<Value> := [];
    for i := 0 to |questions|
      invariant Gather(questions[..i], fetched) == Gathered(rawData, asked, None)
    {
      var question := questions[i];
      GatherStep(questions, fetched, i);
      var data, _ := FetchData(DefaultMaxRetries, s.fetches(i));
      assert data == fetched(i);
      asked := asked + [question];
      if data.Raised? {
        GatherStopsAtFailure(questions, fetched, i + 1);
        return Diagnosis(ErrorDict(FatalPrefix + ExcText(data.e)), asked, None);
      }
      if !Hashable(question) {
        GatherStopsAtFailure(questions, fetched, i + 1);
        return Diagnosis(ErrorDict(FatalPrefix + ExcText(Unhashable(question))), asked, None);
      }
      rawData := Store(rawData, question, data.value);
    }
    assert questions[..|questions|] == questions;
    var summary := SummaryText(s.summaryReply);
    d := Diagnosis(Report(productId, productName, summary, rawData), questions, Some(Dict(rawData)));
  }

  /** Without questions the diagnosis stops with the error dictionary: no
      fetch, no summary. */
  lemma NoQuestionsNoFetch(productId: int, productName: string, s: DiagnoseScript)
    requires InvestigatoryQuestions(s.questionReply) == []
    ensures Diagnose(productId, productName, s) == Diagnosis(ErrorDict(NoQuestionsMessage), [], None)
  {
  }

  /** The diagnosis returns a dictionary with the single key `error`
      exactly when there were no questions or an exception ended the loop;
      otherwise it returns the report with exactly the keys `product_id`,
      `product_name`, `summary` and `raw_data`, and asks for the summary. */
  lemma ErrorOrReport(productId: int, productName: string, s: DiagnoseScript)
    ensures var d := Diagnose(productId, productName, s);
      var qs := InvestigatoryQuestions(s.questionReply);
      var failed := qs == [] || Gather(qs, Fetched(s.fetches)).failure.Some?;
      d.result.Dict?
      && (HasKey(d.result, Str("error")) <==> failed)
      && (failed ==> Keys(d.result.entries) == [Str("error")] && d.summarised.None?)
      && (!failed ==> Keys(d.result.entries) == [Str("product_id"), Str("product_name"), Str("summary"), Str("raw_data")]
                      && d.summarised.Some?)
  {
    var qs := InvestigatoryQuestions(s.questionReply);
    if qs == [] {
      ErrorDictKeys(NoQuestionsMessage);
    } else {
      var g := Gather(qs, Fetched(s.fetches));
      if g.failure.Some? {
        ErrorDictKeys(FatalPrefix + ExcText(g.failure.value));
      } else {
        ReportKeys(productId, productName, SummaryText(s.summaryReply), g.entries);
      }
    }
  }

  lemma ErrorDictKeys(message: string)
    ensures Keys(ErrorDict(message).entries) == [Str("error")]
    ensures Lookup(ErrorDict(message).entries, Str("error")) == Some(Str(message))
  {
  }

  /** The report's keys, and each field under its key. */
  lemma ReportKeys(productId: int, productName: string, summary: string, rawData: seq<(Value, Value)>)
    ensures var es := Report(productId, productName, summary, rawData).entries;
      Keys(es) == [Str("product_id"), Str("product_name"), Str("summary"), Str("raw_data")]
      && Lookup(es, Str("error")).None?
      && Lookup(es, Str("product_id")) == Some(Int(productId))
      && Lookup(es, Str("product_name")) == Some(Str(productName))
      && Lookup(es, Str("summary")) == Some(Str(summary))
      && Lookup(es, Str("raw_data")) == Some(Dict(rawData))
  {
    var es := Report(productId, productName, summary, rawData).entries;
    var ks := Keys(es);
    assert ks == [Str("product_id"), Str("product_name"), Str("summary"), Str("raw_data")];
    assert |"product_id"| == 10 && |"product_name"| == 12 && |"summary"| == 7 && |"raw_data"| == 8 && |"error"| == 5;
    assert Str("error") !in ks;
    assert es[0].0 == Str("product_id") && es[1].0 == Str("product_name");
    assert es[2].0 == Str("summary") && es[3].0 == Str("raw_data");
    assert IndexOf(es, Str("product_name")) == 1;
    assert IndexOf(es, Str("summary")) == 2;
    assert IndexOf(es, Str("raw_data")) == 3;
  }

  // ---------------------------------------------------------------------
  // What raw_data holds

  /** The position of the first occurrence of `q` in `qs`. */
  function FirstIndex(qs: seq<Value>, q: Value): (i: nat)
    requires q in qs
    ensures i < |qs| && qs[i] == q && q !in qs[..i]
  {
    if qs[0] == q then 0 else 1 + FirstIndex(qs[1..], q)
  }

  /** The position of the last occurrence of `q` in `qs`. */
  function LastIndex(qs: seq<Value>, q: Value): (i: nat)
    requires q in qs
    ensures i < |qs| && qs[i] == q && forall j :: i < j < |qs| ==> qs[j] != q
  {
    if qs[|qs| - 1] == q then |qs| - 1 else LastIndex(qs[..|qs| - 1], q)
  }

  /** After a loop that no exception ended, `raw_data` has one key per
      distinct question, in the order the questions first occur, and each
      key holds what the fetch for its last occurrence returned. */
  lemma GatheredRawData(qs: seq<Value>, fetched: nat -> Outcome<Value>)
    requires Gather(qs, fetched).failure.None?
    ensures var g := Gather(qs, fetched);
      forall q :: q in Keys(g.entries) <==> q in qs
    ensures var g := Gather(qs, fetched);
      forall q :: q in qs ==>
        fetched(LastIndex(qs, q)).Returned?
        && Lookup(g.entries, q) == Some(fetched(LastIndex(qs, q)).value)
    ensures var g := Gather(qs, fetched);
      forall a, b :: 0 <= a < b < |g.entries| ==>
        g.entries[a].0 in qs && g.entries[b].0 in qs
        && FirstIndex(qs, g.entries[a].0) < FirstIndex(qs, g.entries[b].0)
  {
    GatheredKeys(qs, fetched);
    GatheredValues(qs, fetched);
    GatheredOrder(qs, fetched);
  }

  /** The last turn of a loop that no exception ended. */
  lemma GatherLast(qs: seq<Value>, fetched: nat -> Outcome<Value>)
    requires qs != [] && Gather(qs, fetched).failure.None?
    ensures var n := |qs| - 1;
      var g0 := Gather(qs[..n], fetched);
      g0.failure.None? && fetched(n).Returned?
      && Gather(qs, fetched).entries == Store(g0.entries, qs[n], fetched(n).value)
      && qs == qs[..n] + [qs[n]]
  {
    var n := |qs| - 1;
    var g0 := Gather(qs[..n], fetched);
    assert Gather(qs, fetched) == if g0.failure.Some? then g0 else GatherOne(g0, qs[n], fetched(n));
  }

  lemma {:induction false} GatheredKeys(qs: seq<Value>, fetched: nat -> Outcome<Value>)
    requires Gather(qs, fetched).failure.None?
    decreases |qs|
    ensures forall q :: q in Keys(Gather(qs, fetched).entries) <==> q in qs
  {
    if qs != [] {
      var n := |qs| - 1;
      GatherLast(qs, fetched);
      GatheredKeys(qs[..n], fetched);
      var pre, q := qs[..n], qs[n];
      forall x ensures x in Keys(Gather(qs, fetched).entries) <==> x in qs {
        assert x in qs <==> x in pre || x == q;
      }
    }
  }

  lemma {:induction false} GatheredValues(qs: seq<Value>, fetched: nat -> Outcome<Value>)
    requires Gather(qs, fetched).failure.None?
    decreases |qs|
    ensures var g := Gather(qs, fetched);
      forall q :: q in qs ==>
        fetched(LastIndex(qs, q)).Returned?
        && Lookup(g.entries, q) == Some(fetched(LastIndex(qs, q)).value)
  {
    if qs != [] {
      var n := |qs| - 1;
      GatherLast(qs, fetched);
      GatheredValues(qs[..n], fetched);
      var pre, q := qs[..n], qs[n];
      var g := Gather(qs, fetched);
      forall x | x in qs
        ensures fetched(LastIndex(qs, x)).Returned?
        ensures Lookup(g.entries, x) == Some(fetched(LastIndex(qs, x)).value)
      {
        if x == q {
          assert LastIndex(qs, x) == n;
        } else {
          assert x in pre;
          assert LastIndex(qs, x) == LastIndex(pre, x);
        }
      }
    }
  }

  lemma {:induction false} GatheredOrder(qs: seq<Value>, fetched: nat -> Outcome<Value>)
    requires Gather(qs, fetched).failure.None?
    decreases |qs|
    ensures var g := Gather(qs, fetched);
      forall a, b :: 0 <= a < b < |g.entries| ==>
        g.entries[a].0 in qs && g.entries[b].0 in qs
        && FirstIndex(qs, g.entries[a].0) < FirstIndex(qs, g.entries[b].0)
  {
    if qs != [] {
      var n := |qs| - 1;
      GatherLast(qs, fetched);
      GatheredKeys(qs[..n], fetched);
      GatheredOrder(qs[..n], fetched);
      var pre, q := qs[..n], qs[n];
      var g0, g := Gather(pre, fetched), Gather(qs, fetched);
      forall a, b | 0 <= a < b < |g.entries|
        ensures g.entries[a].0 in qs && g.entries[b].0 in qs
        ensures FirstIndex(qs, g.entries[a].0) < FirstIndex(qs, g.entries[b].0)
      {
        KeysInOrder(g0.entries, q, fetched(n).value, pre, qs, a, b);
      }
    }
  }

  /** How one `raw_data[q] = d` keeps the keys in first-occurrence order. */
  lemma KeysInOrder(entries: seq<(Value, Value)>, q: Value, d: Value, pre: seq<Value>, qs: seq<Value>, a: nat, b: nat)
    requires UniqueKeys(entries) && qs == pre + [q]
    requires forall x :: x in Keys(entries) <==> x in pre
    requires forall a', b' :: 0 <= a' < b' < |entries| ==>
      entries[a'].0 in pre && entries[b'].0 in pre
      && FirstIndex(pre, entries[a'].0) < FirstIndex(pre, entries[b'].0)
    requires a < b < |Store(entries, q, d)|
    ensures var r := Store(entries, q, d);
      r[a].0 in qs && r[b].0 in qs && FirstIndex(qs, r[a].0) < FirstIndex(qs, r[b].0)
  {
    var r := Store(entries, q, d);
    var ks, ks0 := Keys(r), Keys(entries);
    assert r[a].0 == ks[a] && r[b].0 == ks[b];
    forall x | x in pre ensures x in qs && FirstIndex(qs, x) == FirstIndex(pre, x) {
      FirstIndexOfPrefix(pre, q, x);
    }
    if q in ks0 {
      assert ks == ks0;
      assert ks0[a] == entries[a].0 && ks0[b] == entries[b].0;
    } else {
      assert ks == ks0 + [q];
      assert ks0[a] == entries[a].0;
      if b < |entries| {
        assert ks0[b] == entries[b].0;
      } else {
        assert ks[b] == q && q !in pre;
        assert FirstIndex(qs, q) == |pre|;
      }
    }
  }

  lemma FirstIndexOfPrefix(pre: seq<Value>, q: Value, x: Value)
    requires x in pre
    ensures x in pre + [q] && FirstIndex(pre + [q], x) == FirstIndex(pre, x)
  {
    var i, j := FirstIndex(pre + [q], x), FirstIndex(pre, x);
    assert (pre + [q])[j] == x;
    assert (pre + [q])[..j] == pre[..j];
    assert i <= j;
    assert pre[i] == x;
    assert pre[..i] == (pre + [q])[..i];
  }

  /** On success every question was fetched, in list order, and the
      report's `raw_data` is what was handed to the summary. */
  lemma SuccessFetchedEveryQuestion(productId: int, productName: string, s: DiagnoseScript)
    requires var qs := InvestigatoryQuestions(s.questionReply);
      qs != [] && Gather(qs, Fetched(s.fetches)).failure.None?
    ensures var d := Diagnose(productId, productName, s);
      d.asked == InvestigatoryQuestions(s.questionReply)
      && d.summarised == Some(d.result.entries[3].1)
  {
  }
}

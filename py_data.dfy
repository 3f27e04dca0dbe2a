/** The Python data both services pass around: JSON-decoded values, database
    rows and the dictionaries built from them; the exceptions that cross the
    modelled code; and what a chat-completion call hands back. */
module PyData {
  import opened PyText

  /** A Python value built from JSON or by the services. Dictionaries keep
      their insertion order, as Python's do. */
  datatype Value =
    | Null
    | Bool(b: bool)
    | Int(i: int)
    | Str(s: string)
    | List(items: seq<Value>)
    | Dict(entries: seq<(Value, Value)>)

  /** `type(v).__name__`. */
  function TypeName(v: Value): string {
    match v
    case Null => "NoneType"
    case Bool(_) => "bool"
    case Int(_) => "int"
    case Str(_) => "str"
    case List(_) => "list"
    case Dict(_) => "dict"
  }

  /** Lists and dictionaries cannot be dictionary keys: `hash()` raises for them. */
  predicate Hashable(v: Value) {
    !v.List? && !v.Dict?
  }

  /** A well-formed dictionary holds each key once. */
  predicate UniqueKeys(entries: seq<(Value, Value)>) {
    forall i, j :: 0 <= i < j < |entries| ==> entries[i].0 != entries[j].0
  }

  /** The keys of a dictionary in insertion order. */
  function Keys(entries: seq<(Value, Value)>): (ks: seq<Value>)
    ensures |ks| == |entries|
    ensures forall i :: 0 <= i < |entries| ==> ks[i] == entries[i].0
  {
    if entries == [] then [] else [entries[0].0] + Keys(entries[1..])
  }

  /** The position of key `k` among the entries, or `|entries|` when it is absent. */
  function IndexOf(entries: seq<(Value, Value)>, k: Value): (i: nat)
    ensures i <= |entries|
    ensures forall j :: 0 <= j < i ==> entries[j].0 != k
    ensures i < |entries| ==> entries[i].0 == k
  {
    if entries == [] then 0
    else if entries[0].0 == k then 0
    else 1 + IndexOf(entries[1..], k)
  }

  /** `d.get(k)`: the value stored under `k`, or nothing. */
  function Lookup(entries: seq<(Value, Value)>, k: Value): (r: Option<Value>)
    ensures r.Some? <==> k in Keys(entries)
    ensures r.Some? ==> (k, r.value) in entries
  {
    var i := IndexOf(entries, k);
    if i < |entries| then Some(entries[i].1) else None
  }

  /** `k in d`. */
  predicate HasKey(v: Value, k: Value) {
    v.Dict? && Lookup(v.entries, k).Some?
  }

  /** `d[k] = v` on a dictionary: an existing key keeps its place and takes the
      new value; a new key goes at the end. */
  function Store(entries: seq<(Value, Value)>, k: Value, v: Value): (r: seq<(Value, Value)>)
    requires UniqueKeys(entries)
    ensures UniqueKeys(r)
    ensures Lookup(r, k) == Some(v)
    ensures forall k' :: k' != k ==> Lookup(r, k') == Lookup(entries, k')
    ensures Keys(r) == if k in Keys(entries) then Keys(entries) else Keys(entries) + [k]
  {
    var i := IndexOf(entries, k);
    if i < |entries| then
      ReplacedEntry(entries, i, k, v);
      entries[i := (k, v)]
    else
      AppendedEntry(entries, k, v);
      entries + [(k, v)]
  }

  lemma ReplacedEntry(entries: seq<(Value, Value)>, i: nat, k: Value, v: Value)
    requires UniqueKeys(entries) && i < |entries| && entries[i].0 == k
    ensures var r := entries[i := (k, v)];
      UniqueKeys(r) && Lookup(r, k) == Some(v) && Keys(r) == Keys(entries)
      && forall k' :: k' != k ==> Lookup(r, k') == Lookup(entries, k')
  {
    var r := entries[i := (k, v)];
    assert Keys(r) == Keys(entries);
    assert IndexOf(r, k) == i;
    forall k' | k' != k ensures Lookup(r, k') == Lookup(entries, k') {
      ReplacedLookup(entries, i, v, k');
    }
  }

  lemma AppendedEntry(entries: seq<(Value, Value)>, k: Value, v: Value)
    requires UniqueKeys(entries) && k !in Keys(entries)
    ensures var r := entries + [(k, v)];
      UniqueKeys(r) && Lookup(r, k) == Some(v) && Keys(r) == Keys(entries) + [k]
      && forall k' :: k' != k ==> Lookup(r, k') == Lookup(entries, k')
  {
    var r := entries + [(k, v)];
    assert Keys(r) == Keys(entries) + [k];
    assert forall x :: 0 <= x < |entries| ==> r[x].0 == entries[x].0 == Keys(entries)[x] != k;
    assert r[|entries|].0 == k;
    assert IndexOf(r, k) == |entries|;
    forall k' | k' != k ensures Lookup(r, k') == Lookup(entries, k') {
      AppendedLookup(entries, k, v, k');
    }
  }

  lemma ReplacedLookup(entries: seq<(Value, Value)>, i: nat, v: Value, k': Value)
    requires i < |entries| && entries[i].0 != k'
    ensures Lookup(entries[i := (entries[i].0, v)], k') == Lookup(entries, k')
  {
    var r := entries[i := (entries[i].0, v)];
    var j := IndexOf(entries, k');
    assert forall x :: 0 <= x < |entries| ==> r[x].0 == entries[x].0;
    assert IndexOf(r, k') == j by {
      var j' := IndexOf(r, k');
      assert j' <= j;
      assert j <= j';
    }
  }

  lemma AppendedLookup(entries: seq<(Value, Value)>, k: Value, v: Value, k': Value)
    requires k != k'
    ensures Lookup(entries + [(k, v)], k') == Lookup(entries, k')
  {
    var r := entries + [(k, v)];
    var j, j' := IndexOf(entries, k'), IndexOf(r, k');
    assert forall x :: 0 <= x < |entries| ==> r[x] == entries[x];
    if j < |entries| {
      assert r[j].0 == k';
      assert j' == j;
    } else {
      assert r[|entries|].0 == k;
      assert j' == |r|;
    }
  }

  /** The exceptions that cross the modelled code, with what `str(e)` gives. */
  datatype Exc =
    | OperationalError(pgerror: Option<string>, text: string)   // psycopg2.OperationalError
    | DatabaseError(pgerror: Option<string>, text: string)      // any other psycopg2.Error
    | HttpStatusError(status: int)                              // httpx.HTTPStatusError
    | JsonDecodeError                                           // json.JSONDecodeError
    | AttributeError(typeName: string, attr: string)
    | TypeError(text: string)
    | IndexError
    | KeyError(key: string)
    | HttpException(status: int, detail: string)                // fastapi.HTTPException
    | OtherError(text: string)                                  // raised by a collaborator

  /** `isinstance(e, psycopg2.Error)`: exactly these carry a `pgerror` attribute. */
  predicate IsDbError(e: Exc) {
    e.OperationalError? || e.DatabaseError?
  }

  /** `str(e)`. The texts httpx and json build (status line and URL, error
      position) are abbreviated. */
  function ExcText(e: Exc): string {
    match e
    case OperationalError(_, t) => t
    case DatabaseError(_, t) => t
    case HttpStatusError(status) => "HTTP status " + IntToString(status)
    case JsonDecodeError => "Expecting value"
    case AttributeError(t, a) => "'" + t + "' object has no attribute '" + a + "'"
    case TypeError(t) => t
    case IndexError => "list index out of range"
    case KeyError(k) => "'" + k + "'"
    case HttpException(status, detail) => IntToString(status) + ": " + detail
    case OtherError(t) => t
  }

  /** The outcome of a Python call: the value it returned or the exception it raised. */
  datatype Outcome<T> = Returned(value: T) | Raised(e: Exc)

  /** What a chat-completion call gave back: the `message.content` of each
      choice in order (`None` when missing), or the exception raised while
      building the client or making the call. */
  datatype Completion = Choices(contents: seq<Option<string>>) | CallFailed(e: Exc)
}

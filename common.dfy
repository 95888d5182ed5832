/** Failure-carrying values shared by every module, and the JavaScript value model.

    Every asynchronous collaborator of the application (the database client,
    object storage, `fetch`, the camera) is modelled by the outcome it delivers;
    the outcome is an input of the operation that awaits it. */
module Common {

  datatype Option<+T> = None | Some(value: T) {
    function GetOr(default: T): T {
      match this
      case Some(v) => v
      case None => default
    }
  }

  datatype Result<+R, +E> = Success(value: R) | Failure(error: E)

  /** A value thrown by a collaborator. `catch (e)` blocks in the source read
      `e instanceof Error ? e.message : <fallback>`, so whether the thrown value
      is an `Error` instance matters. */
  datatype Thrown = ErrorInstance(message: string) | NonError

  /** `error instanceof Error ? error.message : fallback` */
  function MessageOr(t: Thrown, fallback: string): (r: string)
    ensures t.NonError? ==> r == fallback
    ensures t.ErrorInstance? ==> r == t.message
  {
    match t
    case ErrorInstance(m) => m
    case NonError => fallback
  }
}

/** The dynamic values the source inspects with `typeof`, `??` and `Boolean(..)`:
    rows returned by the database and parsed request bodies. Numbers are
    integers here (no NaN, no fractions); arrays have no enumerable keys in
    this model. */
module Json {
  import opened Common

  datatype Json =
    | JNull
    | JBool(b: bool)
    | JNum(n: int)
    | JStr(s: string)
    | JArr(items: seq<Json>)
    | JObj(fields: map<string, Json>)

  /** JavaScript truthiness, `Boolean(value)`. */
  predicate Truthy(j: Json) {
    match j
    case JNull => false
    case JBool(b) => b
    case JNum(n) => n != 0
    case JStr(s) => s != ""
    case JArr(_) => true
    case JObj(_) => true
  }

  /** `typeof value === "object"` (true of null and of arrays). */
  predicate TypeofObject(j: Json) {
    j.JNull? || j.JArr? || j.JObj?
  }

  /** `isRecord`: `typeof value === "object" && value !== null`. */
  predicate IsRecord(j: Json) {
    j.JArr? || j.JObj?
  }

  /** The own enumerable entries of a value (`Object.entries`). */
  function Entries(j: Json): (m: map<string, Json>)
    ensures !j.JObj? ==> m == map[]
  {
    if j.JObj? then j.fields else map[]
  }

  /** `value[key]`, where `None` stands for `undefined`. */
  function Field(j: Json, key: string): (r: Option<Json>)
    ensures r.Some? <==> key in Entries(j)
    ensures r.Some? ==> r.value == Entries(j)[key]
  {
    if key in Entries(j) then Some(Entries(j)[key]) else None
  }

  /** `typeof value[key] === "string" ? value[key] : null` */
  function StringField(j: Json, key: string): (r: Option<string>)
    ensures r.Some? <==> Field(j, key).Some? && Field(j, key).value.JStr?
    ensures r.Some? ==> Field(j, key) == Some(JStr(r.value))
  {
    match Field(j, key)
    case Some(JStr(s)) => Some(s)
    case _ => None
  }

  /** `typeof value[key] === "boolean" ? value[key] : null` */
  function BoolField(j: Json, key: string): (r: Option<bool>)
    ensures r.Some? <==> Field(j, key).Some? && Field(j, key).value.JBool?
    ensures r.Some? ==> Field(j, key) == Some(JBool(r.value))
  {
    match Field(j, key)
    case Some(JBool(b)) => Some(b)
    case _ => None
  }

  /** `typeof value[key] === "number" ? value[key] : null` */
  function NumField(j: Json, key: string): (r: Option<int>)
    ensures r.Some? <==> Field(j, key).Some? && Field(j, key).value.JNum?
    ensures r.Some? ==> Field(j, key) == Some(JNum(r.value))
  {
    match Field(j, key)
    case Some(JNum(n)) => Some(n)
    case _ => None
  }
}

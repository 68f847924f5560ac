/** What a handler sees of a request, and how Gin binds a JSON body to the
    request structs. */
module Requests {
  import opened Wrappers
  import opened Domain

  datatype Identity = NoIdentity | Caller(roles: seq<string>)

  // The :id path parameter.
  datatype PathId = MissingId | MalformedId | ParsedId(id: Uuid)

  // One JSON value, one JSON value with more data behind it, or neither.
  datatype RequestBody = EmptyBody | MalformedBody | JsonBody(j: Json) | TrailingBody(j: Json)

  function RequireOperator(who: Identity): Option<Error> {
    if who.NoIdentity? then Some(NewError(MissingIdentity, "missing identity"))
    else if "platform_operator" !in who.roles then Some(NewError(InsufficientRole, "platform_operator required"))
    else None
  }

  function ParseId(p: PathId): Result<Uuid, Error> {
    match p
    case MissingId => Err(DomainError(Validation, "id is required", map["code" := Text("invalid_uuid")]))
    case MalformedId => Err(DomainError(Validation, "id is not a valid UUID", map["code" := Text("invalid_uuid")]))
    case ParsedId(id) => Ok(id)
  }

  const INVALID_BODY := NewError(Validation, "invalid request body")

  // ── encoding/json into struct fields: absent and null leave the field alone ──

  function Field(fields: map<string, Json>, k: string): Json {
    if k in fields then fields[k] else JNull
  }

  function BindString(j: Json): Result<Option<string>, ()> {
    match j case JNull => Ok(None) case JStr(s) => Ok(Some(s)) case _ => Err(())
  }

  function BindBool(j: Json): Result<Option<bool>, ()> {
    match j case JNull => Ok(None) case JBool(b) => Ok(Some(b)) case _ => Err(())
  }

  predicate InInt64(n: int) { -0x8000_0000_0000_0000 <= n < 0x8000_0000_0000_0000 }

  // int and int64 fields take integer literals in range only.
  function BindInt(j: Json): Result<Option<int>, ()> {
    match j
    case JNull => Ok(None)
    case JNum(n) => if n.whole.Some? && InInt64(n.whole.value) then Ok(n.whole) else Err(())
    case _ => Err(())
  }

  // Every number in it has a float64.
  predicate InRange(j: Json) {
    match j
    case JNum(n) => n.float.Some?
    case JArr(items) => forall i | 0 <= i < |items| :: InRange(items[i])
    case JObj(m) => forall k | k in m :: InRange(m[k])
    case _ => true
  }

  // Decoding into `any`.
  function ToAny(j: Json): Any
    requires InRange(j)
  {
    match j
    case JNull => ANull
    case JBool(b) => ABool(b)
    case JNum(n) => ANum(n.float.value)
    case JStr(s) => AStr(s)
    case JArr(items) => AArr(seq(|items|, i requires 0 <= i < |items| => ToAny(items[i])))
    case JObj(m) => AObj(map k | k in m :: ToAny(m[k]))
  }

  function BindObject(j: Json): Result<Option<Features>, ()> {
    match j
    case JNull => Ok(None)
    case JObj(m) => if InRange(j) then Ok(Some(ToAny(j).fields)) else Err(())
    case _ => Err(())
  }

  // The top level must be an object; null binds to the zero struct.
  function TopFields(j: Json): Result<map<string, Json>, ()> {
    match j case JNull => Ok(map[]) case JObj(m) => Ok(m) case _ => Err(())
  }
}

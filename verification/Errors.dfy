/** Classification of errors on their way from the driver to the HTTP response
    (db.go, middleware.go). */
module Errors {
  import opened Domain

  // Errors a statement can fail with before the server has judged it, or that
  // the server raises for its own reasons.
  predicate DriverError(e: Error) {
    e.PgError? || e.ContextDone? || e.OtherError?
  }

  // SQLSTATE classes 08, 53, 57 and 58: connection, resources, operator, system.
  predicate Unavailable(e: Error) {
    e.PgError? && ("08" <= e.sqlstate || "53" <= e.sqlstate || "57" <= e.sqlstate || "58" <= e.sqlstate)
  }

  function WrapConnErr(e: Error): Error {
    if e.DomainError? then e
    else if Unavailable(e) then NewError(DBUnavailable, "database unavailable")
    else if e.PgError? || e.NoRows? || e.ContextDone? then e
    else NewError(DependencyUnavailable, "database unavailable")
  }

  // DepartmentService.Patch's reading of a CHECK violation.
  function MapCheckViolation(e: Error): Error {
    if e.PgError? && e.sqlstate == CHECK_VIOLATION && e.constraint == "chk_system_department_active" then
      NewError(SystemDepartmentCannotBeRetired, "system department cannot be retired")
    else if e.PgError? && e.sqlstate == CHECK_VIOLATION && e.constraint == "chk_system_department_name_immutable" then
      DomainError(SystemNameImmutable, "system department name is immutable", map["field" := Text("name")])
    else e
  }

  function StatusOf(cause: Sentinel): int {
    match cause
    case Validation => 400
    case NoMutableField => 400
    case InvalidFeatureValue => 400
    case MissingIdentity => 401
    case InsufficientRole => 403
    case DepartmentNotFound => 404
    case PlanNotFound => 404
    case OptimisticLockConflict => 409
    case Conflict => 409
    case DBUnavailable => 503
    case CacheUnavailable => 503
    case DependencyUnavailable => 503
    case MethodNotAllowed => 405
    case _ => 422
  }

  // Correlation ids found in the request; empty ones are left out of the body.
  datatype Ids = Ids(trace: string, request: string)

  type Body = map<string, Detail>

  function IdFields(ids: Ids): Body {
    (if ids.trace != "" then map["trace_id" := Text(ids.trace)] else map[])
    + (if ids.request != "" then map["request_id" := Text(ids.request)] else map[])
  }

  function Envelope(status: int, code: string, message: string, ids: Ids): Body {
    map["error" := Text(code), "code" := Text(code), "status" := Number(status), "message" := Text(message)]
      + IdFields(ids)
  }

  // Details win over the envelope, then "error" follows "code".
  function MergedBody(envelope: Body, details: Body): Body {
    var out := envelope + details;
    if "code" in out then out["error" := out["code"]] else out
  }

  datatype Response<T> = Success(status: int, value: T) | Failure(status: int, body: Body)

  // A failure whose wire code differs from its sentinel's carries it in details.
  function Fail<T>(status: int, code: string, message: string, extra: Body, ids: Ids): Response<T> {
    Failure(status, Envelope(status, code, message, ids) + extra)
  }

  // HandleError, by cases.
  function ErrorResponse<T>(e: Error, ids: Ids): Response<T> {
    if e.DomainError? then
      Failure(StatusOf(e.cause), MergedBody(Envelope(StatusOf(e.cause), WireCode(e.cause), e.message, ids), e.details))
    else if Unavailable(e) then Fail(503, "db_unavailable", "database unavailable", map[], ids)
    else Fail(500, "internal_error", "an unexpected error occurred", map[], ids)
  }

  // The envelope as errorResponseWithDetails fills it.
  lemma EnvelopeFilled(status: int, code: string, message: string, ids: Ids)
    ensures
      var first: Body := map["error" := Text(code), "code" := Text(code), "status" := Number(status),
                             "message" := Text(message)];
      var traced := if ids.trace != "" then first["trace_id" := Text(ids.trace)] else first;
      Envelope(status, code, message, ids)
        == if ids.request != "" then traced["request_id" := Text(ids.request)] else traced
  {
  }

  // All details but those of `keys` are in, over the envelope.
  ghost predicate Partly(out: Body, envelope: Body, details: Body, keys: set<string>) {
    && out.Keys == envelope.Keys + (details.Keys - keys)
    && forall k | k in out :: out[k] == if k in details && k !in keys then details[k] else envelope[k]
  }

  lemma PutDetail(out: Body, envelope: Body, details: Body, keys: set<string>, k: string)
    requires Partly(out, envelope, details, keys) && k in keys && k in details
    ensures Partly(out[k := details[k]], envelope, details, keys - {k})
  {
  }

  lemma AllDetailsIn(out: Body, envelope: Body, details: Body)
    requires Partly(out, envelope, details, {})
    ensures out == envelope + details
  {
  }

  // errorResponseWithDetails: the map is filled entry by entry.
  method ErrorResponseWithDetails(status: int, code: string, message: string, ids: Ids, details: Body)
    returns (out: Body)
    ensures out == MergedBody(Envelope(status, code, message, ids), details)
  {
    EnvelopeFilled(status, code, message, ids);
    out := map["error" := Text(code), "code" := Text(code), "status" := Number(status), "message" := Text(message)];
    if ids.trace != "" {
      out := out["trace_id" := Text(ids.trace)];
    }
    if ids.request != "" {
      out := out["request_id" := Text(ids.request)];
    }
    ghost var envelope := Envelope(status, code, message, ids);
    hide Envelope;
    var keys := details.Keys;
    assert Partly(out, envelope, details, keys);
    hide Partly;
    while keys != {}
      invariant keys <= details.Keys && Partly(out, envelope, details, keys)
      decreases keys
    {
      var k :| k in keys;
      PutDetail(out, envelope, details, keys, k);
      out := out[k := details[k]];
      keys := keys - {k};
    }
    AllDetailsIn(out, envelope, details);
    if "code" in out {
      out := out["error" := out["code"]];
    }
  }

  method HandleError<T>(e: Error, ids: Ids) returns (r: Response<T>)
    ensures r == ErrorResponse(e, ids)
  {
    match e
    case DomainError(cause, message, details) =>
      var body := ErrorResponseWithDetails(StatusOf(cause), WireCode(cause), message, ids, details);
      r := Failure(StatusOf(cause), body);
    case _ =>
      if Unavailable(e) {
        r := Fail(503, "db_unavailable", "database unavailable", map[], ids);
      } else {
        r := Fail(500, "internal_error", "an unexpected error occurred", map[], ids);
      }
  }

  // In every error body "error" repeats "code"; "status" is the HTTP status
  // exactly when the details do not put another value there.
  lemma BodyAgrees(e: Error, ids: Ids)
    ensures var r: Response<()> := ErrorResponse(e, ids);
      && r.Failure? && 400 <= r.status < 600
      && "error" in r.body && "code" in r.body && r.body["error"] == r.body["code"]
      && "status" in r.body
      && (r.body["status"] == Number(r.status)
          <==> !e.DomainError? || "status" !in e.details || e.details["status"] == Number(StatusOf(e.cause)))
  {
    hide WireCode, Unavailable;
    if e.DomainError? {
      hide StatusOf;
      StatusIsError(e.cause);
      MergedAgrees(Envelope(StatusOf(e.cause), WireCode(e.cause), e.message, ids), e.details);
      EnvelopeFields(StatusOf(e.cause), WireCode(e.cause), e.message, ids);
    } else {
      FailIsConsistent<()>(503, "db_unavailable", "database unavailable", map[], ids);
      FailIsConsistent<()>(500, "internal_error", "an unexpected error occurred", map[], ids);
    }
  }

  lemma StatusIsError(cause: Sentinel)
    ensures 400 <= StatusOf(cause) < 600
  {
  }

  lemma EnvelopeFields(status: int, code: string, message: string, ids: Ids)
    ensures var b := Envelope(status, code, message, ids);
      "error" in b && "code" in b && "status" in b && b["status"] == Number(status)
  {
    assert IdFields(ids).Keys <= {"trace_id", "request_id"};
  }

  lemma MergedAgrees(envelope: Body, details: Body)
    requires "code" in envelope && "status" in envelope
    ensures var b := MergedBody(envelope, details);
      && "error" in b && "code" in b && b["error"] == b["code"]
      && "status" in b && b["status"] == if "status" in details then details["status"] else envelope["status"]
  {
    assert "error"[0] == 'e' && "code"[0] == 'c' && "status"[0] == 's';
  }

  lemma MergeAtKey(status: int, wire: string, message: string, details: Body, ids: Ids, k: string)
    requires forall f | f in {"error", "status", "message", "trace_id", "request_id"} :: f !in details
    requires "code" in details ==> details["code"].Text?
    ensures var code := if "code" in details then details["code"].s else wire;
      var a := MergedBody(Envelope(status, wire, message, ids), details);
      var b := Envelope(status, code, message, ids) + (details - {"code"});
      (k in a <==> k in b) && (k in a ==> a[k] == b[k])
  {
    var code := if "code" in details then details["code"].s else wire;
    var e, e' := Envelope(status, wire, message, ids), Envelope(status, code, message, ids);
    assert IdFields(ids).Keys <= {"trace_id", "request_id"};
    if k == "error" {
      assert e'["error"] == Text(code);
    } else if k == "code" {
      assert e'["code"] == Text(code) && e["code"] == Text(wire);
    } else {
      assert k in e <==> k in e';
      assert k in e ==> e[k] == e'[k];
    }
  }

  // A domain error on the wire: its own sub-code, if it has one, as both "error"
  // and "code", its other details beside them.
  lemma DomainErrorBody<T>(cause: Sentinel, message: string, details: Body, ids: Ids)
    requires forall f | f in {"error", "status", "message", "trace_id", "request_id"} :: f !in details
    requires "code" in details ==> details["code"].Text?
    ensures var code := if "code" in details then details["code"].s else WireCode(cause);
      ErrorResponse<T>(DomainError(cause, message, details), ids)
        == Fail(StatusOf(cause), code, message, details - {"code"}, ids)
  {
    hide WireCode, StatusOf;
    var code := if "code" in details then details["code"].s else WireCode(cause);
    var a := MergedBody(Envelope(StatusOf(cause), WireCode(cause), message, ids), details);
    var b := Envelope(StatusOf(cause), code, message, ids) + (details - {"code"});
    hide MergedBody, Envelope;
    forall k ensures (k in a <==> k in b) && (k in a ==> a[k] == b[k]) {
      MergeAtKey(StatusOf(cause), WireCode(cause), message, details, ids, k);
    }
    assert a == b;
  }

  lemma PlainErrorBody<T>(cause: Sentinel, message: string, ids: Ids)
    ensures ErrorResponse<T>(NewError(cause, message), ids)
      == Fail(StatusOf(cause), WireCode(cause), message, map[], ids)
  {
    DomainErrorBody<T>(cause, message, map[], ids);
    var none: Body := map[];
    assert none - {"code"} == none;
  }

  // ── error bodies that agree with their status ──

  ghost predicate ConsistentBody<T>(r: Response<T>) {
    r.Failure? ==>
      && "error" in r.body && "code" in r.body && "status" in r.body
      && r.body["error"] == r.body["code"] && r.body["status"] == Number(r.status) && 400 <= r.status < 600
  }

  // A failure that says this, in all three members.
  ghost predicate Says<T>(r: Response<T>, status: int, code: string) {
    && r.Failure? && r.status == status
    && "error" in r.body && "code" in r.body && "status" in r.body
    && r.body["error"] == Text(code) == r.body["code"] && r.body["status"] == Number(status)
  }

  lemma FailSays<T>(status: int, code: string, message: string, extra: Body, ids: Ids)
    requires forall f | f in {"error", "code", "status"} :: f !in extra
    ensures Says<T>(Fail(status, code, message, extra, ids), status, code)
  {
    var body := Fail<T>(status, code, message, extra, ids).body;
    assert IdFields(ids).Keys <= {"trace_id", "request_id"};
    assert body["error"] == Text(code) == body["code"] && body["status"] == Number(status);
  }

  lemma PlainFailSays<T>(status: int, code: string, message: string, ids: Ids)
    ensures Says<T>(Fail(status, code, message, map[], ids), status, code)
  {
    FailSays<T>(status, code, message, map[], ids);
  }

  // One more member beside the three, shown as it is.
  lemma DetailedFailSays<T>(status: int, code: string, message: string, k: string, v: Detail, ids: Ids)
    requires k == "field" || k == "record_version" || k == "key"
    ensures var r: Response<T> := Fail(status, code, message, map[k := v], ids);
      Says(r, status, code) && k in r.body && r.body[k] == v
  {
    assert k[0] == 'f' || k[0] == 'r' || k[0] == 'k';
    assert "error"[0] == 'e' && "code"[0] == 'c' && "status"[0] == 's';
    FailSays<T>(status, code, message, map[k := v], ids);
  }

  // Status and code of a failure of the database, from its SQLSTATE class alone: 503
  // for the four availability classes and for what is neither a SQL error nor a
  // cancelled context, 500 for the rest.
  function FaultExpected(e: Error): (int, string) {
    match e
    case PgError(state, _) =>
      if |state| >= 2 && state[..2] in {"08", "53", "57", "58"} then (503, "db_unavailable")
      else (500, "internal_error")
    case OtherError => (503, "dependency_unavailable")
    case _ => (500, "internal_error")
  }

  lemma AvailabilityIs503<T>(e: Error, ids: Ids)
    requires DriverError(e)
    ensures var f := FaultExpected(e); Says<T>(ErrorResponse(WrapConnErr(e), ids), f.0, f.1)
  {
    hide Fail, MergedBody, Envelope, Unavailable, Says;
    PlainErrorBody<T>(DBUnavailable, "database unavailable", ids);
    PlainErrorBody<T>(DependencyUnavailable, "database unavailable", ids);
    PlainFailSays<T>(503, "db_unavailable", "database unavailable", ids);
    PlainFailSays<T>(503, "dependency_unavailable", "database unavailable", ids);
    PlainFailSays<T>(500, "internal_error", "an unexpected error occurred", ids);
    UnavailableClasses(e);
  }

  lemma UnavailableClasses(e: Error)
    ensures Unavailable(e) <==>
      e.PgError? && |e.sqlstate| >= 2 && e.sqlstate[..2] in {"08", "53", "57", "58"}
  {
    if e.PgError? && |e.sqlstate| >= 2 {
      PrefixIs("08", e.sqlstate);
      PrefixIs("53", e.sqlstate);
      PrefixIs("57", e.sqlstate);
      PrefixIs("58", e.sqlstate);
    }
  }

  lemma PrefixIs(p: string, s: string)
    requires |p| <= |s|
    ensures p <= s <==> s[..|p|] == p
  {
  }

  // The two sentinels no answer above needs: a conflict without a sub-code of its
  // own, and an unreachable cache, which the services swallow.
  lemma OtherSentinelsSay<T>(message: string, ids: Ids)
    ensures Says<T>(ErrorResponse(NewError(Conflict, message), ids), 409, "conflict")
    ensures Says<T>(ErrorResponse(NewError(CacheUnavailable, message), ids), 503, "cache_unavailable")
  {
    hide ErrorResponse, Fail, Says;
    PlainErrorBody<T>(Conflict, message, ids);
    PlainErrorBody<T>(CacheUnavailable, message, ids);
    PlainFailSays<T>(409, "conflict", message, ids);
    PlainFailSays<T>(503, "cache_unavailable", message, ids);
  }

  lemma FailIsConsistent<T>(status: int, code: string, message: string, extra: Body, ids: Ids)
    requires 400 <= status < 600 && forall f | f in {"error", "code", "status"} :: f !in extra
    ensures ConsistentBody<T>(Fail(status, code, message, extra, ids))
  {
    FailSays<T>(status, code, message, extra, ids);
  }

  lemma PlainFail<T>(status: int, code: string, message: string, ids: Ids)
    requires 400 <= status < 600
    ensures ConsistentBody<T>(Fail(status, code, message, map[], ids))
  {
    FailIsConsistent<T>(status, code, message, map[], ids);
  }

  lemma DetailedFail<T>(status: int, code: string, message: string, k: string, v: Detail, ids: Ids)
    requires 400 <= status < 600 && (k == "field" || k == "record_version" || k == "key")
    ensures ConsistentBody<T>(Fail(status, code, message, map[k := v], ids))
  {
    assert k[0] == 'f' || k[0] == 'r' || k[0] == 'k';
    assert "error"[0] == 'e' && "code"[0] == 'c' && "status"[0] == 's';
    FailIsConsistent<T>(status, code, message, map[k := v], ids);
  }

  // An error the driver raised shows in a consistent body.
  lemma DriverErrorIsConsistent<T>(e: Error, ids: Ids)
    requires DriverError(e)
    ensures ConsistentBody<T>(ErrorResponse(WrapConnErr(e), ids)) && ErrorResponse<T>(WrapConnErr(e), ids).Failure?
  {
    BodyAgrees(WrapConnErr(e), ids);
    var r: Response<()> := ErrorResponse(WrapConnErr(e), ids);
    var s: Response<T> := ErrorResponse(WrapConnErr(e), ids);
    assert s.body == r.body && s.status == r.status;
  }
}

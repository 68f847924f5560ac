/** The department handlers, and the flat decision the whole request pipeline
    comes down to (department_handler.go, middleware.go). */
module DepartmentHandlers {
  import opened Wrappers
  import opened Domain
  import opened Cache
  import opened Errors
  import opened Requests
  import opened Store
  import opened Runs
  import opened DepartmentServices
  import D = Departments

  datatype DepartmentResponse = DepartmentResponse(id: Uuid, code: string, name: string, isSystem: bool, isActive: bool,
      recordVersion: int)

  function ToResponse(d: Department): DepartmentResponse {
    DepartmentResponse(d.id, d.code, d.name, d.isSystem, d.isActive, d.recordVersion)
  }

  // ── CAT-2, decided in one place ──

  // The request: caller, path, body, correlation ids.
  datatype PatchRequest = PatchRequest(who: Identity, id: PathId, body: RequestBody, ids: Ids)

  function Immutable(field: string, ids: Ids): Response<DepartmentResponse> {
    Fail(422, "field_immutable", field + " is immutable", map["field" := Text(field)], ids)
  }

  function VersionConflict(v: int, ids: Ids): Response<DepartmentResponse> {
    Fail(409, "optimistic_lock_conflict", "record version conflict", map["record_version" := Number(v)], ids)
  }

  // The flat decision: first failing check wins, the request's before the table's.
  function DecidePatch(t: D.Table, q: PatchRequest, now: Time, io: DbIo): Response<DepartmentResponse> {
    match DecideRequest(q)
    case Err(failure) => failure
    case Ok(req) => DecideFields(t, req.0, req.1, now, io, q.ids)
  }

  function DecideRequest(q: PatchRequest): (r: Result<(Uuid, PatchFields), Response<DepartmentResponse>>)
    ensures r.Err? ==> r.error.Failure?
  {
    var ids := q.ids;
    if q.who.NoIdentity? then Err(Fail(401, "missing_identity_headers", "missing identity", map[], ids))
    else if "platform_operator" !in q.who.roles then
      Err(Fail(403, "insufficient_role", "platform_operator required", map[], ids))
    else if q.id.MissingId? then Err(Fail(400, "invalid_uuid", "id is required", map[], ids))
    else if q.id.MalformedId? then Err(Fail(400, "invalid_uuid", "id is not a valid UUID", map[], ids))
    else if !WellFormedBody(q.body) then Err(Fail(400, "validation_error", "invalid request body", map[], ids))
    else if "code" in Members(q.body) then Err(Immutable("code", ids))
    else if "is_system" in Members(q.body) then Err(Immutable("is_system", ids))
    else if !Bindable(q.body) then Err(Fail(400, "validation_error", "invalid request body", map[], ids))
    else Ok((q.id.id, Fields(q.body)))
  }

  function DecideFields(t: D.Table, id: Uuid, f: PatchFields, now: Time, io: DbIo, ids: Ids)
    : Response<DepartmentResponse>
  {
    if f.name.None? && f.active.None? then
      Fail(400, "no_mutable_field", "at least one of name or is_active must be provided", map[], ids)
    else if f.name.Some? && Blank(f.name.value) then Fail(400, "validation_error", "name must not be empty", map[], ids)
    else if io.statement.Some? then Outage(io.statement.value, ids)
    else if (id !in t || t[id].recordVersion != f.version) && io.probe.Some? then Outage(io.probe.value, ids)
    else if id !in t then Fail(404, "department_not_found", "department not found", map[], ids)
    else if t[id].recordVersion != f.version then VersionConflict(t[id].recordVersion, ids)
    else if t[id].isSystem && f.name.Some? && f.name.value != t[id].name then
      Fail(422, "system_name_immutable", "system department name is immutable", map["field" := Text("name")], ids)
    else if t[id].isSystem && f.active == Some(false) then
      Fail(422, "system_department_cannot_be_retired", "system department cannot be retired", map[], ids)
    else if io.commit.Some? then Outage(io.commit.value, ids)
    else Success(200, ToResponse(Patched(t[id], f, now)))
  }

  // A database failure, after the service had a look at it.
  function Outage(e: Error, ids: Ids): Response<DepartmentResponse> {
    ErrorResponse(MapCheckViolation(WrapConnErr(e)), ids)
  }

  // The row with the present fields replaced and, if that changed it, the next
  // version.
  function Patched(r: Department, f: PatchFields, now: Time): Department {
    var name, active := f.name.GetOr(r.name), f.active.GetOr(r.isActive);
    if name == r.name && active == r.isActive then r
    else r.(name := name, isActive := active, recordVersion := r.recordVersion + 1, updatedAt := now)
  }

  // The table afterwards: only a 200 changes it, and only the one row.
  function TableAfter(t: D.Table, q: PatchRequest, now: Time, io: DbIo): D.Table {
    if DecidePatch(t, q, now, io).Success? then
      var (id, f) := DecideRequest(q).value;
      t[id := Patched(t[id], f, now)]
    else t
  }

  // ── the body ──

  datatype PatchFields = PatchFields(name: Option<string>, active: Option<bool>, version: int)

  // json.Unmarshal of a non-empty body into a map.
  predicate WellFormedBody(b: RequestBody) {
    b.EmptyBody? || (b.JsonBody? && (b.j.JNull? || b.j.JObj?))
  }

  function Members(b: RequestBody): map<string, Json> {
    if b.JsonBody? && b.j.JObj? then b.j.fields else map[]
  }

  predicate Bindable(b: RequestBody) {
    && b.JsonBody? && (b.j.JNull? || b.j.JObj?)
    && var m := Members(b);
      && BindString(Field(m, "name")).Ok? && BindBool(Field(m, "is_active")).Ok?
        && BindInt(Field(m, "record_version")).Ok?
  }

  function Fields(b: RequestBody): PatchFields
    requires Bindable(b)
  {
    var m := Members(b);
    PatchFields(BindString(Field(m, "name")).value, BindBool(Field(m, "is_active")).value,
                BindInt(Field(m, "record_version")).value.GetOr(0))
  }

  // ShouldBindJSON into DepartmentPatchRequest.
  function Bind(b: RequestBody): Result<PatchFields, Error> {
    if b.EmptyBody? || b.MalformedBody? then Err(INVALID_BODY)
    else
      match TopFields(b.j)
      case Err(_) => Err(INVALID_BODY)
      case Ok(m) =>
        match (BindString(Field(m, "name")), BindBool(Field(m, "is_active")), BindInt(Field(m, "record_version")))
        case (Ok(name), Ok(active), Ok(version)) => Ok(PatchFields(name, active, version.GetOr(0)))
        case _ => Err(INVALID_BODY)
  }

  function ImmutableError(field: string): Error {
    DomainError(FieldImmutable, field + " is immutable", map["code" := Text("field_immutable"), "field" := Text(field)])
  }

  // ── CAT-1 ──

  datatype CreateRequest = CreateRequest(who: Identity, body: RequestBody, ids: Ids)
  datatype CreateFields = CreateFields(code: string, name: string, isSystem: bool)

  // binding:"required" rejects the empty string.
  function BindCreate(b: RequestBody): Result<CreateFields, Error> {
    if b.EmptyBody? || b.MalformedBody? then Err(INVALID_BODY)
    else
      match TopFields(b.j)
      case Err(_) => Err(INVALID_BODY)
      case Ok(m) =>
        match (BindString(Field(m, "code")), BindString(Field(m, "name")), BindBool(Field(m, "is_system")))
        case (Ok(Some(code)), Ok(Some(name)), Ok(isSystem)) =>
          if code == "" || name == "" then Err(INVALID_BODY) else Ok(CreateFields(code, name, isSystem.GetOr(false)))
        case _ => Err(INVALID_BODY)
  }

  function DecideCreate(t: D.Table, q: CreateRequest, id: Uuid, now: Time, io: DbIo): Response<DepartmentResponse> {
    match DecideCreateRequest(q)
    case Err(failure) => failure
    case Ok(f) => DecideNewFields(t, f, id, now, io, q.ids)
  }

  function DecideCreateRequest(q: CreateRequest): (r: Result<CreateFields, Response<DepartmentResponse>>)
    ensures r.Err? ==> r.error.Failure?
  {
    if q.who.NoIdentity? then Err(Fail(401, "missing_identity_headers", "missing identity", map[], q.ids))
    else if "platform_operator" !in q.who.roles then
      Err(Fail(403, "insufficient_role", "platform_operator required", map[], q.ids))
    else if BindCreate(q.body).Err? then Err(Fail(400, "validation_error", "invalid request body", map[], q.ids))
    else Ok(BindCreate(q.body).value)
  }

  predicate IsUniqueViolation(e: Error) { e.PgError? && e.sqlstate == UNIQUE_VIOLATION }

  function DecideNewFields(t: D.Table, f: CreateFields, id: Uuid, now: Time, io: DbIo, ids: Ids)
    : Response<DepartmentResponse>
  {
    if Blank(f.code) || Blank(f.name) then Fail(400, "validation_error", "code and name are required", map[], ids)
    else if io.statement.Some? && !IsUniqueViolation(io.statement.value) then
      ErrorResponse(WrapConnErr(io.statement.value), ids)
    else if io.statement.Some? || exists i | i in t :: t[i].code == f.code then
      Fail(409, "duplicate_code", "department code already exists", map[], ids)
    else if io.commit.Some? then ErrorResponse(WrapConnErr(io.commit.value), ids)
    else Success(201, DepartmentResponse(id, f.code, f.name, f.isSystem, true, 1))
  }

  lemma OutageIsConsistent(e: Error, ids: Ids)
    requires DriverError(e)
    ensures ConsistentBody(Outage(e, ids)) && Outage(e, ids).Failure?
  {
    BodyAgrees(MapCheckViolation(WrapConnErr(e)), ids);
    var r: Response<()> := ErrorResponse(MapCheckViolation(WrapConnErr(e)), ids);
    assert Outage(e, ids).Failure? && Outage(e, ids).body == r.body && Outage(e, ids).status == r.status;
  }

  lemma RequestBodiesConsistent(q: PatchRequest)
    ensures DecideRequest(q).Err? ==> ConsistentBody(DecideRequest(q).error)
  {
    hide Fail, ConsistentBody, WellFormedBody, Members, Bindable, Fields;
    PlainFail<DepartmentResponse>(401, "missing_identity_headers", "missing identity", q.ids);
    PlainFail<DepartmentResponse>(403, "insufficient_role", "platform_operator required", q.ids);
    PlainFail<DepartmentResponse>(400, "invalid_uuid", "id is required", q.ids);
    PlainFail<DepartmentResponse>(400, "invalid_uuid", "id is not a valid UUID", q.ids);
    PlainFail<DepartmentResponse>(400, "validation_error", "invalid request body", q.ids);
    DetailedFail<DepartmentResponse>(422, "field_immutable", "code" + " is immutable", "field", Text("code"), q.ids);
    DetailedFail<DepartmentResponse>(422, "field_immutable", "is_system" + " is immutable", "field",
                                     Text("is_system"), q.ids);
  }

  lemma FieldBodiesConsistent(t: D.Table, id: Uuid, f: PatchFields, now: Time, io: DbIo, ids: Ids)
    requires RealFaults(io)
    ensures ConsistentBody(DecideFields(t, id, f, now, io, ids))
  {
    hide Fail, ConsistentBody, Outage, ToResponse, Patched, Blank;
    PlainFail<DepartmentResponse>(400, "no_mutable_field", "at least one of name or is_active must be provided", ids);
    PlainFail<DepartmentResponse>(400, "validation_error", "name must not be empty", ids);
    PlainFail<DepartmentResponse>(404, "department_not_found", "department not found", ids);
    PlainFail<DepartmentResponse>(422, "system_department_cannot_be_retired", "system department cannot be retired",
                                  ids);
    DetailedFail<DepartmentResponse>(422, "system_name_immutable", "system department name is immutable", "field",
                                     Text("name"), ids);
    if id in t {
      DetailedFail<DepartmentResponse>(409, "optimistic_lock_conflict", "record version conflict", "record_version",
                                       Number(t[id].recordVersion), ids);
      SuccessIsConsistent(Patched(t[id], f, now));
    }
    if io.statement.Some? { OutageIsConsistent(io.statement.value, ids); }
    if io.probe.Some? { OutageIsConsistent(io.probe.value, ids); }
    if io.commit.Some? { OutageIsConsistent(io.commit.value, ids); }
  }

  // Every error answer of CAT-2 has error = code and status = the HTTP status.
  lemma PatchBodiesConsistent(t: D.Table, q: PatchRequest, now: Time, io: DbIo)
    requires RealFaults(io)
    ensures ConsistentBody(DecidePatch(t, q, now, io))
  {
    hide ConsistentBody, DecideFields, DecideRequest;
    RequestBodiesConsistent(q);
    if DecideRequest(q).Ok? {
      var (id, f) := DecideRequest(q).value;
      FieldBodiesConsistent(t, id, f, now, io, q.ids);
    }
  }

  lemma SuccessIsConsistent(d: Department)
    ensures ConsistentBody(Success(200, ToResponse(d)))
  {
  }

  // What an answer says about the table: a failure left it alone; a 200 shows the
  // stored row, one lawful step from the row with the version that was sent, and
  // no other row moved.
  lemma PatchAnswersTruthfully(t: D.Table, q: PatchRequest, now: Time, io: DbIo)
    requires D.Valid(t) && RealFaults(io)
    ensures var r, t' := DecidePatch(t, q, now, io), TableAfter(t, q, now, io);
      && (r.Failure? ==> t' == t)
      && (r.Success? ==>
            && r.status == 200 && q.id.ParsedId? && q.id.id in t && Bindable(q.body)
            && t[q.id.id].recordVersion == Fields(q.body).version
            && D.Valid(t') && D.Evolves(t[q.id.id], t'[q.id.id]) && r.value == ToResponse(t'[q.id.id])
            && forall i | i in t && i != q.id.id :: i in t' && t'[i] == t[i])
  {
    hide ErrorResponse, D.Valid, D.Evolves, WellFormedBody, Members, ToResponse;
    ErrorsFail(q.ids);
    if DecidePatch(t, q, now, io).Success? {
      var (id, f) := DecideRequest(q).value;
      FlatPatchCases(t, id, f, now);
      D.FlatPatchKeepsValid(t, id, f.name, f.active, f.version, now);
    }
  }

  // The same for CAT-1.
  lemma CreateBodiesConsistent(t: D.Table, q: CreateRequest, id: Uuid, now: Time, io: DbIo)
    requires RealFaults(io)
    ensures ConsistentBody(DecideCreate(t, q, id, now, io))
  {
    hide Fail, ConsistentBody, ErrorResponse, WrapConnErr, BindCreate, Blank, IsUniqueViolation;
    PlainFail<DepartmentResponse>(401, "missing_identity_headers", "missing identity", q.ids);
    PlainFail<DepartmentResponse>(403, "insufficient_role", "platform_operator required", q.ids);
    PlainFail<DepartmentResponse>(400, "validation_error", "invalid request body", q.ids);
    PlainFail<DepartmentResponse>(400, "validation_error", "code and name are required", q.ids);
    PlainFail<DepartmentResponse>(409, "duplicate_code", "department code already exists", q.ids);
    if io.statement.Some? { DriverErrorIsConsistent<DepartmentResponse>(io.statement.value, q.ids); }
    if io.commit.Some? { DriverErrorIsConsistent<DepartmentResponse>(io.commit.value, q.ids); }
    AnySuccessIsConsistent();
  }

  lemma AnySuccessIsConsistent()
    ensures forall r: Response<DepartmentResponse> | r.Success? :: ConsistentBody(r)
  {
  }

  // A 201 adds one active row at version 1; nothing else changes the table.
  function TableWith(t: D.Table, r: Response<DepartmentResponse>, id: Uuid, now: Time): D.Table {
    match r
    case Success(_, v) => t[id := Department(id, v.code, v.name, v.isSystem, true, 1, now, now)]
    case Failure(_, _) => t
  }

  // ── the layers below the handler come down to the same decision ──

  function Respond(r: Result<Department, Error>, ids: Ids): Response<DepartmentResponse> {
    match r
    case Ok(d) => Success(200, ToResponse(d))
    case Err(e) => ErrorResponse(e, ids)
  }

  lemma FieldErrorBodies(ids: Ids)
    ensures ErrorResponse<DepartmentResponse>(NothingToChange(), ids)
         == Fail(400, "no_mutable_field", "at least one of name or is_active must be provided", map[], ids)
    ensures ErrorResponse<DepartmentResponse>(NewError(Validation, "name must not be empty"), ids)
         == Fail(400, "validation_error", "name must not be empty", map[], ids)
    ensures ErrorResponse<DepartmentResponse>(DepartmentMissing(), ids)
         == Fail(404, "department_not_found", "department not found", map[], ids)
    ensures ErrorResponse<DepartmentResponse>(
              NewError(SystemDepartmentCannotBeRetired, "system department cannot be retired"), ids)
         == Fail(422, "system_department_cannot_be_retired", "system department cannot be retired", map[], ids)
    ensures ErrorResponse<DepartmentResponse>(
              DomainError(SystemNameImmutable, "system department name is immutable", map["field" := Text("name")]),
              ids)
         == Fail(422, "system_name_immutable", "system department name is immutable", map["field" := Text("name")], ids)
    ensures forall v :: ErrorResponse<DepartmentResponse>(ConflictWith(v), ids) == VersionConflict(v, ids)
  {
    hide ErrorResponse, Fail;
    var code: Body := map["code" := Text("no_mutable_field")];
    DomainErrorBody<DepartmentResponse>(NoMutableField, "at least one of name or is_active must be provided", code,
                                        ids);
    assert code - {"code"} == map[];
    PlainErrorBody<DepartmentResponse>(Validation, "name must not be empty", ids);
    PlainErrorBody<DepartmentResponse>(DepartmentNotFound, "department not found", ids);
    PlainErrorBody<DepartmentResponse>(SystemDepartmentCannotBeRetired, "system department cannot be retired", ids);
    var field: Body := map["field" := Text("name")];
    DomainErrorBody<DepartmentResponse>(SystemNameImmutable, "system department name is immutable", field, ids);
    assert field - {"code"} == field;
    forall v: int ensures ErrorResponse<DepartmentResponse>(ConflictWith(v), ids) == VersionConflict(v, ids) {
      var version: Body := map["record_version" := Number(v)];
      DomainErrorBody<DepartmentResponse>(OptimisticLockConflict, "record version conflict", version, ids);
      assert version - {"code"} == version;
    }
  }

  lemma RequestErrorBodies(ids: Ids)
    ensures ErrorResponse<DepartmentResponse>(NewError(MissingIdentity, "missing identity"), ids)
         == Fail(401, "missing_identity_headers", "missing identity", map[], ids)
    ensures ErrorResponse<DepartmentResponse>(NewError(InsufficientRole, "platform_operator required"), ids)
         == Fail(403, "insufficient_role", "platform_operator required", map[], ids)
    ensures ErrorResponse<DepartmentResponse>(INVALID_BODY, ids)
         == Fail(400, "validation_error", "invalid request body", map[], ids)
    ensures ParseId(MissingId).Err?
    ensures ErrorResponse<DepartmentResponse>(ParseId(MissingId).error, ids)
      == Fail(400, "invalid_uuid", "id is required", map[], ids)
    ensures ParseId(MalformedId).Err?
    ensures ErrorResponse<DepartmentResponse>(ParseId(MalformedId).error, ids)
      == Fail(400, "invalid_uuid", "id is not a valid UUID", map[], ids)
    ensures forall f :: ErrorResponse<DepartmentResponse>(ImmutableError(f), ids) == Immutable(f, ids)
  {
    hide ErrorResponse, Fail;
    PlainErrorBody<DepartmentResponse>(MissingIdentity, "missing identity", ids);
    PlainErrorBody<DepartmentResponse>(InsufficientRole, "platform_operator required", ids);
    PlainErrorBody<DepartmentResponse>(Validation, "invalid request body", ids);
    var code: Body := map["code" := Text("invalid_uuid")];
    DomainErrorBody<DepartmentResponse>(Validation, "id is required", code, ids);
    DomainErrorBody<DepartmentResponse>(Validation, "id is not a valid UUID", code, ids);
    assert code - {"code"} == map[];
    forall f: string ensures ErrorResponse<DepartmentResponse>(ImmutableError(f), ids) == Immutable(f, ids) {
      var both: Body := map["code" := Text("field_immutable"), "field" := Text(f)];
      DomainErrorBody<DepartmentResponse>(FieldImmutable, f + " is immutable", both, ids);
      assert both - {"code"} == map["field" := Text(f)];
    }
  }

  // The flat table patch in the decision's own terms.
  lemma FlatPatchCases(t: D.Table, id: Uuid, f: PatchFields, now: Time)
    requires D.Valid(t) && (f.name.Some? ==> !Blank(f.name.value))
    ensures D.FlatPatch(t, id, f.name, f.active, f.version, now)
         == if id !in t || t[id].recordVersion != f.version then D.NoMatch
            else if t[id].isSystem && f.name.Some? && f.name.value != t[id].name then
              D.Failed(PgError(CHECK_VIOLATION, "chk_system_department_name_immutable"))
            else if t[id].isSystem && f.active == Some(false) then
              D.Failed(PgError(CHECK_VIOLATION, "chk_system_department_active"))
            else D.Updated(t[id := Patched(t[id], f, now)], Patched(t[id], f, now))
  {
    if id in t {
      assert D.CheckRow(t[id]).None?;
      assert D.Touched(t[id], D.Merge(t[id], f.name, f.active), now) == Patched(t[id], f, now);
      BlankEmpty();
    }
  }

  // Service, repository, SQL, triggers, CHECKs and error mapping against the
  // decision on the decoded fields.
  lemma ServiceDecides(t: D.Table, id: Uuid, f: PatchFields, now: Time, io: DbIo, ids: Ids)
    requires D.Valid(t)
    ensures var w := ServicePatch(t, id, f.name, f.active, f.version, now, io);
      && Respond(w.result, ids) == DecideFields(t, id, f, now, io, ids)
      && (w.result.Ok? ==> id in t)
      && w.table == (if w.result.Ok? && id in t then t[id := Patched(t[id], f, now)] else t)
  {
    hide ErrorResponse, Fail, MapCheckViolation, WrapConnErr, D.FlatPatch, Patched, ConflictWith, DepartmentMissing,
      NothingToChange, VersionConflict, Blank;
    FieldErrorBodies(ids);
    CheckViolationsMap();
    if (f.name.Some? || f.active.Some?) && (f.name.Some? ==> !Blank(f.name.value)) {
      FlatPatchCases(t, id, f, now);
    }
  }

  lemma BlankEmpty()
    ensures Blank("")
  {
  }

  lemma CheckViolationsMap()
    ensures MapCheckViolation(PgError(CHECK_VIOLATION, "chk_system_department_active"))
         == NewError(SystemDepartmentCannotBeRetired, "system department cannot be retired")
    ensures MapCheckViolation(PgError(CHECK_VIOLATION, "chk_system_department_name_immutable"))
         == DomainError(SystemNameImmutable, "system department name is immutable", map["field" := Text("name")])
    ensures forall v :: MapCheckViolation(ConflictWith(v)) == ConflictWith(v)
    ensures MapCheckViolation(DepartmentMissing()) == DepartmentMissing()
  {
    assert "chk_system_department_active"[22] == 'a' && "chk_system_department_name_immutable"[22] == 'n';
  }

  lemma ValidDepartments(db: Db)
    requires Runs.Valid(db)
    ensures D.Valid(db.departments)
  {
  }

  lemma ErrorsFail(ids: Ids)
    ensures forall e :: ErrorResponse<DepartmentResponse>(e, ids).Failure?
  {
  }

  lemma CreateErrorBodies(ids: Ids)
    ensures ErrorResponse<DepartmentResponse>(NewError(Validation, "code and name are required"), ids)
         == Fail(400, "validation_error", "code and name are required", map[], ids)
    ensures ErrorResponse<DepartmentResponse>(DuplicateCode(), ids)
         == Fail(409, "duplicate_code", "department code already exists", map[], ids)
  {
    hide ErrorResponse, Fail;
    PlainErrorBody<DepartmentResponse>(Validation, "code and name are required", ids);
    var code: Body := map["code" := Text("duplicate_code")];
    DomainErrorBody<DepartmentResponse>(Conflict, "department code already exists", code, ids);
    assert code - {"code"} == map[];
  }

  lemma InsertFaults(e: Error)
    ensures WrapConnErr(InsertError(e)) == if IsUniqueViolation(e) then DuplicateCode() else WrapConnErr(e)
  {
  }

  lemma CreateDecides(t: D.Table, f: CreateFields, id: Uuid, now: Time, io: DbIo, ids: Ids)
    requires id !in t
    ensures var w, r := ServiceCreate(t, id, f.code, f.name, f.isSystem, now, io),
        DecideNewFields(t, f, id, now, io, ids);
      && r == (match w.result case Ok(d) => Success(201, ToResponse(d)) case Err(e) => ErrorResponse(e, ids))
      && w.table == TableWith(t, r, id, now)
  {
    hide ErrorResponse, Fail, WrapConnErr, Blank, InsertError, IsUniqueViolation, DuplicateCode;
    CreateErrorBodies(ids);
    if io.statement.Some? {
      InsertFaults(io.statement.value);
    }
    assert D.CodeTaken(t, id, f.code) <==> exists i | i in t :: t[i].code == f.code;
    ErrorsFail(ids);
    CreateFailsFail(ids);
  }

  lemma CreateFailsFail(ids: Ids)
    ensures forall status, code, message :: Fail<DepartmentResponse>(status, code, message, map[], ids).Failure?
  {
  }

  lemma BindCreateError(b: RequestBody)
    ensures BindCreate(b).Err? ==> BindCreate(b).error == INVALID_BODY
  {
  }

  // The handler's two readings of the body and the struct binding.
  lemma BodyStages(b: RequestBody)
    ensures WellFormedBody(b) <==> b.EmptyBody? || (b.JsonBody? && TopFields(b.j).Ok?)
    ensures WellFormedBody(b) && !b.EmptyBody? ==> TopFields(b.j).value == Members(b)
    ensures b.EmptyBody? ==> Members(b) == map[]
    ensures WellFormedBody(b) ==> (Bind(b).Ok? <==> Bindable(b))
    ensures Bindable(b) ==> Bind(b) == Ok(Fields(b))
    ensures Bind(b).Err? ==> Bind(b).error == INVALID_BODY
  {
  }

  class DepartmentHandler {
    const svc: DepartmentService

    constructor (svc: DepartmentService)
      ensures this.svc == svc
    {
      this.svc := svc;
    }

    method Patch(q: PatchRequest, now: Time, io: DbIo, deleteReached: bool) returns (r: Response<DepartmentResponse>)
      requires Runs.Valid(svc.repo.pool.db) && RealFaults(io)
      modifies svc.repo.pool, svc.cache
      ensures r == DecidePatch(old(svc.repo.pool.db).departments, q, now, io)
      ensures var t := old(svc.repo.pool.db).departments;
        svc.repo.pool.db == old(svc.repo.pool.db).(departments := TableAfter(t, q, now, io))
      ensures svc.cache != null ==>
        svc.cache.items == old(svc.cache.items) - if r.Success? && deleteReached then {DepartmentsKey} else {}
    {
      ghost var t := svc.repo.pool.db.departments;
      hide ErrorResponse, ServicePatch, DecideFields, DecideRequest, Patched, Runs.Valid;
      var req := DecodePatch(q);
      if req.Err? {
        return req.error;
      }
      var (id, f) := req.value;
      assert D.Valid(t) by { ValidDepartments(svc.repo.pool.db); }
      ServiceDecides(t, id, f, now, io, q.ids);
      ErrorsFail(q.ids);
      var d := svc.Patch(id, f.name, f.active, f.version, now, io, deleteReached);
      if d.Err? {
        r := HandleError(d.error, q.ids);
        return;
      }
      r := Success(200, ToResponse(d.value));
    }

    // Everything the handler checks before it calls the service.
    method DecodePatch(q: PatchRequest) returns (r: Result<(Uuid, PatchFields), Response<DepartmentResponse>>)
      ensures r == DecideRequest(q)
    {
      hide ErrorResponse, Fail, WellFormedBody, Members, Bind, Bindable, Fields, TopFields, Immutable, ImmutableError;
      RequestErrorBodies(q.ids);
      BodyStages(q.body);
      var denied := RequireOperator(q.who);
      if denied.Some? {
        var e := HandleError(denied.value, q.ids);
        return Err(e);
      }
      var id := ParseId(q.id);
      if id.Err? {
        var e := HandleError(id.error, q.ids);
        return Err(e);
      }
      var raw: map<string, Json> := map[];
      if !q.body.EmptyBody? {
        if !q.body.JsonBody? || TopFields(q.body.j).Err? {
          var e := HandleError(INVALID_BODY, q.ids);
          return Err(e);
        }
        raw := TopFields(q.body.j).value;
      }
      if "code" in raw {
        var e := HandleError(ImmutableError("code"), q.ids);
        return Err(e);
      }
      if "is_system" in raw {
        var e := HandleError(ImmutableError("is_system"), q.ids);
        return Err(e);
      }
      var req := Bind(q.body);
      if req.Err? {
        var e := HandleError(req.error, q.ids);
        return Err(e);
      }
      r := Ok((id.value, req.value));
    }

    method Create(q: CreateRequest, id: Uuid, now: Time, io: DbIo, deleteReached: bool)
      returns (r: Response<DepartmentResponse>)
      requires Runs.Valid(svc.repo.pool.db) && id !in svc.repo.pool.db.departments && RealFaults(io)
      modifies svc.repo.pool, svc.cache
      ensures r == DecideCreate(old(svc.repo.pool.db).departments, q, id, now, io)
      ensures var t := old(svc.repo.pool.db).departments;
        svc.repo.pool.db == old(svc.repo.pool.db).(departments := TableWith(t, r, id, now))
      ensures svc.cache != null ==>
        svc.cache.items == old(svc.cache.items) - if r.Success? && deleteReached then {DepartmentsKey} else {}
    {
      ghost var t := svc.repo.pool.db.departments;
      hide ErrorResponse, DecideCreateRequest, DecideNewFields, ServiceCreate, Runs.Valid;
      var req := DecodeCreate(q);
      if req.Err? {
        return req.error;
      }
      var f := req.value;
      CreateDecides(t, f, id, now, io, q.ids);
      ErrorsFail(q.ids);
      var d := svc.Create(id, f.code, f.name, f.isSystem, now, io, deleteReached);
      if d.Err? {
        r := HandleError(d.error, q.ids);
        return;
      }
      r := Success(201, ToResponse(d.value));
    }

    method DecodeCreate(q: CreateRequest) returns (r: Result<CreateFields, Response<DepartmentResponse>>)
      ensures r == DecideCreateRequest(q)
    {
      hide ErrorResponse, Fail, BindCreate;
      RequestErrorBodies(q.ids);
      BindCreateError(q.body);
      var denied := RequireOperator(q.who);
      if denied.Some? {
        var e := HandleError(denied.value, q.ids);
        return Err(e);
      }
      var req := BindCreate(q.body);
      if req.Err? {
        var e := HandleError(req.error, q.ids);
        return Err(e);
      }
      r := Ok(req.value);
    }

    method DeleteBlocked(who: Identity, ids: Ids) returns (r: Response<DepartmentResponse>)
      ensures r == if who.NoIdentity? then Fail(401, "missing_identity_headers", "missing identity", map[], ids)
                   else if "platform_operator" !in who.roles then
                     Fail(403, "insufficient_role", "platform_operator required", map[], ids)
                   else Fail(405, "method_not_allowed", "departments cannot be deleted; retire via is_active=false",
                             map[], ids)
    {
      RequestErrorBodies(ids);
      PlainErrorBody<DepartmentResponse>(MethodNotAllowed, "departments cannot be deleted; retire via is_active=false",
                                         ids);
      hide ErrorResponse, Fail;
      var denied := RequireOperator(who);
      if denied.Some? {
        r := HandleError(denied.value, ids);
        return;
      }
      var e := svc.DeleteBlocked();
      r := HandleError(e, ids);
    }
  }
}

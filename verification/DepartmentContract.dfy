/** What an operator sees of CAT-1 and CAT-2, said of the JSON members of the body
    and the columns of the rows alone. */
module DepartmentContracts {
  import opened Wrappers
  import opened Domain
  import opened Errors
  import opened Requests
  import opened Bodies
  import opened Store
  import opened DepartmentHandlers
  import D = Departments

  // ── CAT-2 ──

  // Status and code of the answer, whatever the database does meanwhile.
  function PatchExpected(t: D.Table, q: PatchRequest, io: DbIo): (int, string) {
    match (q.who, q.id, Top(q.body))
    case (NoIdentity, _, _) => (401, "missing_identity_headers")
    case (Caller(roles), id, body) =>
      if !(exists i | 0 <= i < |roles| :: roles[i] == "platform_operator") then (403, "insufficient_role")
      else
        match (id, body)
        case (ParsedId(uuid), Some(m)) => MembersExpected(t, uuid, m, io)
        case (ParsedId(_), None) => (400, "validation_error")
        case _ => (400, "invalid_uuid")
  }

  function MembersExpected(t: D.Table, id: Uuid, m: map<string, Json>, io: DbIo): (int, string) {
    if "code" in m || "is_system" in m then (422, "field_immutable")
    else if !TextOrAbsent(m, "name") || !BoolOrAbsent(m, "is_active") || !Int64OrAbsent(m, "record_version") then
      (400, "validation_error")
    else if Absent(m, "name") && Absent(m, "is_active") then (400, "no_mutable_field")
    else if !Absent(m, "name") && !Solid(m["name"].s) then (400, "validation_error")
    else if io.statement.Some? then PatchFault(io.statement.value)
    else if (id !in t || t[id].recordVersion != SentVersion(m)) && io.probe.Some? then PatchFault(io.probe.value)
    else if id !in t then (404, "department_not_found")
    else if t[id].recordVersion != SentVersion(m) then (409, "optimistic_lock_conflict")
    else if t[id].isSystem && !Absent(m, "name") && m["name"].s != t[id].name then (422, "system_name_immutable")
    else if t[id].isSystem && !Absent(m, "is_active") && !m["is_active"].b then
      (422, "system_department_cannot_be_retired")
    else if io.commit.Some? then PatchFault(io.commit.value)
    else (200, "")
  }

  // The two CHECKs on system rows have answers of their own.
  function PatchFault(e: Error): (int, string) {
    if e == PgError("23514", "chk_system_department_active") then (422, "system_department_cannot_be_retired")
    else if e == PgError("23514", "chk_system_department_name_immutable") then (422, "system_name_immutable")
    else FaultExpected(e)
  }

  lemma FaultIsMapped(e: Error)
    requires DriverError(e)
    ensures MapCheckViolation(WrapConnErr(e))
      == if e == PgError("23514", "chk_system_department_active") then
           NewError(SystemDepartmentCannotBeRetired, "system department cannot be retired")
         else if e == PgError("23514", "chk_system_department_name_immutable") then
           DomainError(SystemNameImmutable, "system department name is immutable", map["field" := Text("name")])
         else WrapConnErr(e)
  {
    UnavailableClasses(e);
    assert "23514"[..2] == "23";
    hide Unavailable;
  }

  lemma CheckSays(ids: Ids)
    ensures Says<DepartmentResponse>(
      ErrorResponse(NewError(SystemDepartmentCannotBeRetired, "system department cannot be retired"), ids),
      422, "system_department_cannot_be_retired")
  {
    hide Fail, Says, ErrorResponse;
    PlainErrorBody<DepartmentResponse>(SystemDepartmentCannotBeRetired, "system department cannot be retired", ids);
    PlainFailSays<DepartmentResponse>(422, "system_department_cannot_be_retired",
      "system department cannot be retired", ids);
  }

  lemma NameCheckSays(ids: Ids)
    ensures Says<DepartmentResponse>(
      ErrorResponse(DomainError(SystemNameImmutable, "system department name is immutable",
                                map["field" := Text("name")]), ids),
      422, "system_name_immutable")
  {
    hide Fail, Says, ErrorResponse;
    var field: Body := map["field" := Text("name")];
    assert "field"[0] == 'f' && "error"[0] == 'e' && "status"[0] == 's' && "message"[0] == 'm' && "trace_id"[0] == 't'
      && "request_id"[0] == 'r' && "code"[0] == 'c';
    DomainErrorBody<DepartmentResponse>(SystemNameImmutable, "system department name is immutable", field, ids);
    assert field - {"code"} == field;
    DetailedFailSays<DepartmentResponse>(422, "system_name_immutable", "system department name is immutable", "field",
      Text("name"), ids);
  }

  lemma OutageSays(e: Error, ids: Ids)
    requires DriverError(e)
    ensures Says(Outage(e, ids), PatchFault(e).0, PatchFault(e).1)
    ensures PatchFault(e).0 !in {200, 409} && PatchFault(e).1 != "field_immutable"
  {
    hide Says, ErrorResponse, MapCheckViolation, WrapConnErr;
    FaultIsMapped(e);
    AvailabilityIs503<DepartmentResponse>(e, ids);
    CheckSays(ids);
    NameCheckSays(ids);
  }

  const HEALTHY := DbIo(None, None, None)

  // What the decoding says in terms of the members.
  lemma BodyDecodes(b: RequestBody)
    ensures WellFormedBody(b) <==> b.EmptyBody? || Top(b).Some?
    ensures Members(b) == Top(b).GetOr(map[])
    ensures Bindable(b) <==> Top(b).Some? && (var m := Top(b).value;
      TextOrAbsent(m, "name") && BoolOrAbsent(m, "is_active") && Int64OrAbsent(m, "record_version"))
    ensures Bindable(b) ==> var m, f := Top(b).value, Fields(b);
      && f.name == (if Absent(m, "name") then None else Some(m["name"].s))
      && f.active == (if Absent(m, "is_active") then None else Some(m["is_active"].b))
      && f.version == SentVersion(m)
  {
  }

  lemma RequestSays(q: PatchRequest)
    ensures var e, r := PatchExpected(map[], q, HEALTHY), DecideRequest(q);
      && (r.Err? ==> Says(r.error, e.0, e.1))
      && (r.Err? && e.1 == "field_immutable" ==>
            && Top(q.body).Some? && "field" in r.error.body
            && r.error.body["field"] == Text(if "code" in Top(q.body).value then "code" else "is_system"))
      && (r.Ok? ==> q.id == ParsedId(r.value.0))
  {
    hide Fail, Says, WellFormedBody, Members, Bindable, Fields, Top, TextOrAbsent, BoolOrAbsent, Int64OrAbsent, Solid;
    BodyDecodes(q.body);
    PlainFailSays<DepartmentResponse>(401, "missing_identity_headers", "missing identity", q.ids);
    PlainFailSays<DepartmentResponse>(403, "insufficient_role", "platform_operator required", q.ids);
    PlainFailSays<DepartmentResponse>(400, "invalid_uuid", "id is required", q.ids);
    PlainFailSays<DepartmentResponse>(400, "invalid_uuid", "id is not a valid UUID", q.ids);
    PlainFailSays<DepartmentResponse>(400, "validation_error", "invalid request body", q.ids);
    ImmutableSays("code", q.ids);
    ImmutableSays("is_system", q.ids);
  }

  lemma ImmutableSays(field: string, ids: Ids)
    ensures Says(Immutable(field, ids), 422, "field_immutable")
    ensures "field" in Immutable(field, ids).body && Immutable(field, ids).body["field"] == Text(field)
  {
    DetailedFailSays<DepartmentResponse>(422, "field_immutable", field + " is immutable", "field", Text(field), ids);
  }

  lemma FieldsSay(t: D.Table, id: Uuid, m: map<string, Json>, f: PatchFields, now: Time, io: DbIo, ids: Ids)
    requires RealFaults(io)
    requires TextOrAbsent(m, "name") && BoolOrAbsent(m, "is_active") && Int64OrAbsent(m, "record_version")
    requires "code" !in m && "is_system" !in m
    requires f.name == (if Absent(m, "name") then None else Some(m["name"].s))
    requires f.active == (if Absent(m, "is_active") then None else Some(m["is_active"].b))
    requires f.version == SentVersion(m)
    ensures var e, r := MembersExpected(t, id, m, io), DecideFields(t, id, f, now, io, ids);
      && (if e.0 == 200 then r.Success? && r.status == 200 else Says(r, e.0, e.1))
      && e.1 != "field_immutable"
      && (e.0 == 409 ==>
            && r.Failure? && id in t && "record_version" in r.body
            && r.body["record_version"] == Number(t[id].recordVersion))
  {
    hide Fail, Says, ToResponse, Patched, TextOrAbsent, BoolOrAbsent, Int64OrAbsent, Absent, SentVersion, IsSpace,
      Outage, PatchFault;
    PlainFailSays<DepartmentResponse>(400, "no_mutable_field",
      "at least one of name or is_active must be provided", ids);
    PlainFailSays<DepartmentResponse>(400, "validation_error", "name must not be empty", ids);
    PlainFailSays<DepartmentResponse>(404, "department_not_found", "department not found", ids);
    PlainFailSays<DepartmentResponse>(422, "system_department_cannot_be_retired",
      "system department cannot be retired", ids);
    DetailedFailSays<DepartmentResponse>(422, "system_name_immutable", "system department name is immutable", "field",
      Text("name"), ids);
    if id in t {
      DetailedFailSays<DepartmentResponse>(409, "optimistic_lock_conflict", "record version conflict", "record_version",
        Number(t[id].recordVersion), ids);
    }
    if io.statement.Some? { OutageSays(io.statement.value, ids); }
    if io.probe.Some? { OutageSays(io.probe.value, ids); }
    if io.commit.Some? { OutageSays(io.commit.value, ids); }
  }

  // Status and code of every answer, from the members, the row and the database's
  // failures alone; a conflict shows the current version, a refused member is named.
  lemma PatchAnswersAsExpected(t: D.Table, q: PatchRequest, now: Time, io: DbIo)
    requires RealFaults(io)
    ensures var e, r := PatchExpected(t, q, io), DecidePatch(t, q, now, io);
      && (if e.0 == 200 then r.Success? && r.status == 200 else Says(r, e.0, e.1))
      && (e.0 == 409 ==>
            && r.Failure? && q.id.ParsedId? && q.id.id in t && "record_version" in r.body
            && r.body["record_version"] == Number(t[q.id.id].recordVersion))
      && (e.1 == "field_immutable" ==>
            && r.Failure? && Top(q.body).Some? && "field" in r.body
            && r.body["field"] == Text(if "code" in Top(q.body).value then "code" else "is_system"))
  {
    hide Says, MembersExpected, DecideFields, Members, WellFormedBody, Bindable, Fields, Top, Immutable, Fail,
      TextOrAbsent, BoolOrAbsent, Int64OrAbsent, Absent, SentVersion;
    RequestSays(q);
    BodyDecodes(q.body);
    if DecideRequest(q).Ok? {
      var (id, f) := DecideRequest(q).value;
      FieldsSay(t, id, Top(q.body).value, f, now, io, q.ids);
    } else {
      RequestDecidedAlone(t, q, io);
    }
  }

  // A refused request is refused whatever the table holds.
  lemma RequestDecidedAlone(t: D.Table, q: PatchRequest, io: DbIo)
    requires DecideRequest(q).Err?
    ensures PatchExpected(t, q, io) == PatchExpected(map[], q, HEALTHY) && PatchExpected(t, q, io).0 !in {200, 409}
  {
    hide Fail, Immutable, PatchFault;
    BodyDecodes(q.body);
  }

  // A 200 shows the stored row, column by column; that row is the one before with
  // the members of the body that are there, and no other row moved.
  lemma PatchShowsStoredRow(t: D.Table, q: PatchRequest, now: Time, io: DbIo)
    requires D.Valid(t) && DecidePatch(t, q, now, io).Success?
    ensures q.id.ParsedId? && q.id.id in t && Top(q.body).Some?
    ensures
      var before, t', v := t[q.id.id], TableAfter(t, q, now, io), DecidePatch(t, q, now, io).value;
      && q.id.id in t'
      && var row := t'[q.id.id];
        && v.id == row.id == q.id.id && v.code == row.code == before.code && v.name == row.name
        && v.isSystem == row.isSystem == before.isSystem && v.isActive == row.isActive
        && v.recordVersion == row.recordVersion
        && row.createdAt == before.createdAt
        && forall i | i != q.id.id :: (i in t' <==> i in t) && (i in t ==> t'[i] == t[i])
    ensures
      var m, before, row := Top(q.body).value, t[q.id.id], TableAfter(t, q, now, io)[q.id.id];
      && (Absent(m, "name") || m["name"].JStr?) && (Absent(m, "is_active") || m["is_active"].JBool?)
      && row.name == (if Absent(m, "name") then before.name else m["name"].s)
      && row.isActive == (if Absent(m, "is_active") then before.isActive else m["is_active"].b)
      && (if row.name == before.name && row.isActive == before.isActive then row == before
          else row.recordVersion == before.recordVersion + 1 && row.updatedAt == now)
  {
    hide DecidePatch, TableAfter, Members, WellFormedBody, Bindable, Fields, Top, TextOrAbsent, BoolOrAbsent,
      Int64OrAbsent, Absent, SentVersion, Patched, ToResponse, D.Valid;
    PatchStores(t, q, now, io);
    BodyDecodes(q.body);
    PatchedColumns(t[q.id.id], Top(q.body).value, Fields(q.body), now);
    RowsKeepIds(t, q.id);
    MembersFit(Top(q.body).value);
  }

  lemma MembersFit(m: map<string, Json>)
    ensures TextOrAbsent(m, "name") ==> Absent(m, "name") || m["name"].JStr?
    ensures BoolOrAbsent(m, "is_active") ==> Absent(m, "is_active") || m["is_active"].JBool?
  {
  }

  lemma PatchStores(t: D.Table, q: PatchRequest, now: Time, io: DbIo)
    requires DecidePatch(t, q, now, io).Success?
    ensures q.id.ParsedId? && q.id.id in t && Bindable(q.body)
    ensures var row := Patched(t[q.id.id], Fields(q.body), now);
      DecidePatch(t, q, now, io).value == ToResponse(row) && TableAfter(t, q, now, io) == t[q.id.id := row]
  {
    hide ErrorResponse, Members, WellFormedBody, Bindable, Fields, WrapConnErr, MapCheckViolation, Patched, ToResponse,
      Blank;
    ErrorsFail(q.ids);
  }

  lemma PatchedColumns(before: Department, m: map<string, Json>, f: PatchFields, now: Time)
    requires TextOrAbsent(m, "name") && BoolOrAbsent(m, "is_active")
    requires f.name == (if Absent(m, "name") then None else Some(m["name"].s))
    requires f.active == (if Absent(m, "is_active") then None else Some(m["is_active"].b))
    ensures var row := Patched(before, f, now);
      && row.id == before.id && row.code == before.code && row.isSystem == before.isSystem
      && row.createdAt == before.createdAt
      && row.name == (if Absent(m, "name") then before.name else m["name"].s)
      && row.isActive == (if Absent(m, "is_active") then before.isActive else m["is_active"].b)
      && (if row.name == before.name && row.isActive == before.isActive then row == before
          else row.recordVersion == before.recordVersion + 1 && row.updatedAt == now)
    ensures var row := Patched(before, f, now);
      ToResponse(row)
      == DepartmentResponse(row.id, row.code, row.name, row.isSystem, row.isActive, row.recordVersion)
  {
    hide TextOrAbsent, BoolOrAbsent, Absent;
  }

  lemma RowsKeepIds(t: D.Table, p: PathId)
    requires D.Valid(t)
    ensures p.ParsedId? && p.id in t ==> t[p.id].id == p.id
  {
  }

  // ── CAT-1 ──

  function CreateExpected(t: D.Table, q: CreateRequest, io: DbIo): (int, string) {
    match (q.who, First(q.body))
    case (NoIdentity, _) => (401, "missing_identity_headers")
    case (Caller(roles), body) =>
      if !(exists i | 0 <= i < |roles| :: roles[i] == "platform_operator") then (403, "insufficient_role")
      else if body.None? then (400, "validation_error")
      else NewMembersExpected(t, body.value, io)
  }

  function NewMembersExpected(t: D.Table, m: map<string, Json>, io: DbIo): (int, string) {
    if !NonEmptyText(m, "code") || !NonEmptyText(m, "name") || !BoolOrAbsent(m, "is_system") then
      (400, "validation_error")
    else if !Solid(m["code"].s) || !Solid(m["name"].s) then (400, "validation_error")
    else if io.statement.Some? then CreateFault(io.statement.value)
    else if exists i | i in t :: t[i].code == m["code"].s then (409, "duplicate_code")
    else if io.commit.Some? then FaultExpected(io.commit.value)
    else (201, "")
  }

  // A violated unique index at the INSERT means the code is taken.
  function CreateFault(e: Error): (int, string) {
    if e.PgError? && e.sqlstate == "23505" then (409, "duplicate_code") else FaultExpected(e)
  }

  lemma NewBodyDecodes(b: RequestBody)
    ensures var d := BindCreate(b);
      && (d.Ok? <==> First(b).Some? && (var m := First(b).value;
        NonEmptyText(m, "code") && NonEmptyText(m, "name") && BoolOrAbsent(m, "is_system")))
      && (d.Ok? ==> var m := First(b).value;
        && d.value.code == m["code"].s && d.value.name == m["name"].s
        && d.value.isSystem == (!Absent(m, "is_system") && m["is_system"].b))
  {
  }

  // Status and code of every answer to a POST.
  lemma CreateAnswersAsExpected(t: D.Table, q: CreateRequest, id: Uuid, now: Time, io: DbIo)
    requires RealFaults(io)
    ensures var e, r := CreateExpected(t, q, io), DecideCreate(t, q, id, now, io);
      if e.0 == 201 then r.Success? && r.status == 201 else Says(r, e.0, e.1)
  {
    hide Fail, Says, BindCreate, First, NonEmptyText, BoolOrAbsent, IsSpace, ErrorResponse, WrapConnErr, FaultExpected;
    if io.statement.Some? { FaultIsNo201(io.statement.value, q.ids); }
    if io.commit.Some? { FaultIsNo201(io.commit.value, q.ids); }
    NewBodyDecodes(q.body);
    PlainFailSays<DepartmentResponse>(401, "missing_identity_headers", "missing identity", q.ids);
    PlainFailSays<DepartmentResponse>(403, "insufficient_role", "platform_operator required", q.ids);
    PlainFailSays<DepartmentResponse>(400, "validation_error", "invalid request body", q.ids);
    PlainFailSays<DepartmentResponse>(400, "validation_error", "code and name are required", q.ids);
    PlainFailSays<DepartmentResponse>(409, "duplicate_code", "department code already exists", q.ids);
  }

  lemma FaultIsNo201(e: Error, ids: Ids)
    requires DriverError(e)
    ensures FaultExpected(e).0 != 201
    ensures Says<DepartmentResponse>(ErrorResponse(WrapConnErr(e), ids), FaultExpected(e).0, FaultExpected(e).1)
  {
    AvailabilityIs503<DepartmentResponse>(e, ids);
  }

  // A 201 shows the new row, column by column; it holds the members of the body, is
  // active and at version 1, and stands beside the rows that were there.
  lemma CreateShowsNewRow(t: D.Table, q: CreateRequest, id: Uuid, now: Time, io: DbIo)
    requires DecideCreate(t, q, id, now, io).Success?
    ensures First(q.body).Some?
    ensures
      var m, r := First(q.body).value, DecideCreate(t, q, id, now, io);
      var t' := TableWith(t, r, id, now);
      && "code" in m && m["code"].JStr? && "name" in m && m["name"].JStr?
      && (Absent(m, "is_system") || m["is_system"].JBool?)
      && id in t'
      && var row, v := t'[id], r.value;
        && v.id == row.id == id && v.code == row.code == m["code"].s && v.name == row.name == m["name"].s
        && v.isSystem == row.isSystem == (!Absent(m, "is_system") && m["is_system"].b)
        && v.isActive && row.isActive && v.recordVersion == row.recordVersion == 1
        && row.createdAt == row.updatedAt == now
        && forall i | i != id :: (i in t' <==> i in t) && (i in t ==> t'[i] == t[i])
  {
    hide DecideCreate, TableWith, BindCreate, NonEmptyText, First, BoolOrAbsent, Absent;
    NewBodyDecodes(q.body);
    CreateStores(t, q, id, now, io);
    NewMembersFit(First(q.body).value);
  }

  lemma NewMembersFit(m: map<string, Json>)
    ensures forall key | NonEmptyText(m, key) :: key in m && m[key].JStr?
    ensures BoolOrAbsent(m, "is_system") ==> Absent(m, "is_system") || m["is_system"].JBool?
  {
  }

  lemma CreateStores(t: D.Table, q: CreateRequest, id: Uuid, now: Time, io: DbIo)
    requires DecideCreate(t, q, id, now, io).Success?
    ensures BindCreate(q.body).Ok?
    ensures
      var f, r := BindCreate(q.body).value, DecideCreate(t, q, id, now, io);
      && r.value == DepartmentResponse(id, f.code, f.name, f.isSystem, true, 1)
      && TableWith(t, r, id, now) == t[id := Department(id, f.code, f.name, f.isSystem, true, 1, now, now)]
  {
    hide ErrorResponse, BindCreate, WrapConnErr, Blank;
    CreateFailsFail(q.ids);
    ErrorsFail(q.ids);
  }
}

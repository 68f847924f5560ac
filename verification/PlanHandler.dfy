/** The plan handler: the request body's three-valued limits, and the flat decision
    a plan PATCH comes down to (plan_handler.go, middleware.go). */
module PlanHandlers {
  import opened Wrappers
  import opened Domain
  import opened Cache
  import opened Errors
  import opened Requests
  import opened Store
  import opened PlanServices
  import P = Plans

  // ── the body ──

  function NotInteger(field: string): string { field + " must be an integer or null" }

  // parseLimit over a json.RawMessage field: absent, null, or an integer.
  function ParseLimit(m: map<string, Json>, field: string): Result<Option<Limit>, Error> {
    if field !in m then Ok(None)
    else
      match m[field]
      case JNull => Ok(Some(None))
      case JNum(n) =>
        if n.whole.Some? && InInt64(n.whole.value) then Ok(Some(n.whole))
        else Err(NewError(Validation, NotInteger(field)))
      case _ => Err(NewError(Validation, NotInteger(field)))
  }

  // The body struct; the two limits stay raw. Data behind the first JSON value
  // goes unread here.
  function BindPatch(b: RequestBody): Result<(map<string, Json>, PlanPatch), Error> {
    if b.EmptyBody? || b.MalformedBody? then Err(INVALID_BODY)
    else
      match TopFields(b.j)
      case Err(_) => Err(INVALID_BODY)
      case Ok(m) =>
        match (BindString(Field(m, "display_name")), BindInt(Field(m, "trial_duration_days")),
               BindBool(Field(m, "sso_enabled")), BindString(Field(m, "custom_branding")),
               BindObject(Field(m, "feature_set")), BindInt(Field(m, "record_version")))
        case (Ok(name), Ok(days), Ok(sso), Ok(branding), Ok(features), Ok(version)) =>
          Ok((m, PlanPatch(name, None, None, days, sso, branding, features, version.GetOr(0))))
        case _ => Err(INVALID_BODY)
  }

  function DecodePatch(b: RequestBody): Result<PlanPatch, Error> {
    match BindPatch(b)
    case Err(e) => Err(e)
    case Ok((m, p)) =>
      match ParseLimit(m, "workflow_template_limit")
      case Err(e) => Err(e)
      case Ok(workflow) =>
        match ParseLimit(m, "tender_limit")
        case Err(e) => Err(e)
        case Ok(tender) => Ok(p.(workflowLimit := workflow, tenderLimit := tender))
  }

  datatype PlanResponse = PlanResponse(
    code: TenantPlan, displayName: string, workflowLimit: Limit, tenderLimit: Limit, trialDays: int, sso: bool,
    branding: Branding, features: Features, recordVersion: int)

  function ToResponse(p: Plan): PlanResponse {
    PlanResponse(p.code, p.displayName, p.workflowLimit, p.tenderLimit, p.trialDays, p.sso, p.branding, p.features,
                 p.recordVersion)
  }

  datatype PatchRequest = PatchRequest(who: Identity, code: string, body: RequestBody, ids: Ids)

  // ── CAT-5, decided in one place ──

  function Refuse(status: int, code: string, message: string, ids: Ids): Response<PlanResponse> {
    Fail(status, code, message, map[], ids)
  }

  function Nested(k: string, ids: Ids): Response<PlanResponse> {
    Fail(400, "invalid_feature_value", "feature_set values must be scalars", map["key" := Text(k)], ids)
  }

  function VersionConflict(v: int, ids: Ids): Response<PlanResponse> {
    Fail(409, "optimistic_lock_conflict", "record version conflict", map["record_version" := Number(v)], ids)
  }

  // Neither absent nor null nor an integer.
  predicate BadLimit(m: map<string, Json>, field: string) {
    field in m && !m[field].JNull? && !(m[field].JNum? && m[field].n.whole.Some? && InInt64(m[field].n.whole.value))
  }

  predicate Below(l: Option<Limit>, least: int) { l.Some? && l.value.Some? && l.value.value < least }

  // What is wrong with the request itself, if anything: first failing check wins.
  // `bad` is the feature an error about one names.
  function Refusal(q: PatchRequest, bad: string): Option<Response<PlanResponse>> {
    var ids := q.ids;
    if q.who.NoIdentity? then Some(Refuse(401, "missing_identity_headers", "missing identity", ids))
    else if "platform_operator" !in q.who.roles then
      Some(Refuse(403, "insufficient_role", "platform_operator required", ids))
    else if BindPatch(q.body).Err? then Some(Refuse(400, "validation_error", "invalid request body", ids))
    else
      var m := BindPatch(q.body).value.0;
      if BadLimit(m, "workflow_template_limit") then
        Some(Refuse(400, "validation_error", NotInteger("workflow_template_limit"), ids))
      else if BadLimit(m, "tender_limit") then Some(Refuse(400, "validation_error", NotInteger("tender_limit"), ids))
      else
        LimitsDecode(q.body);
        FieldRefusal(q.code, DecodePatch(q.body).value, bad, ids)
  }

  lemma LimitParses(m: map<string, Json>, field: string)
    ensures ParseLimit(m, field).Err? <==> BadLimit(m, field)
    ensures BadLimit(m, field) ==> ParseLimit(m, field).error == NewError(Validation, NotInteger(field))
  {
  }

  lemma LimitsDecode(b: RequestBody)
    requires BindPatch(b).Ok?
    ensures
      var m, d := BindPatch(b).value.0, DecodePatch(b);
      && (d.Ok? <==> !BadLimit(m, "workflow_template_limit") && !BadLimit(m, "tender_limit"))
      && (BadLimit(m, "workflow_template_limit") ==>
            d == Err(NewError(Validation, NotInteger("workflow_template_limit"))))
      && (!BadLimit(m, "workflow_template_limit") && BadLimit(m, "tender_limit") ==>
            d == Err(NewError(Validation, NotInteger("tender_limit"))))
  {
    hide BindPatch, NewError, ParseLimit, BadLimit, NotInteger;
    LimitParses(BindPatch(b).value.0, "workflow_template_limit");
    LimitParses(BindPatch(b).value.0, "tender_limit");
  }

  function FieldRefusal(code: string, p: PlanPatch, bad: string, ids: Ids): Option<Response<PlanResponse>> {
    if ParsePlanCode(code).None? then Some(Refuse(404, "plan_not_found", "plan not found", ids))
    else if P.Empty(p) then Some(Refuse(400, "no_mutable_field", "at least one field must be provided", ids))
    else if p.displayName.Some? && Blank(p.displayName.value) then
      Some(Refuse(400, "validation_error", "display_name must not be empty", ids))
    else if Below(p.workflowLimit, 0) then
      Some(Refuse(400, "validation_error", "workflow_template_limit must be >= 0", ids))
    else if Below(p.tenderLimit, 0) then Some(Refuse(400, "validation_error", "tender_limit must be >= 0", ids))
    else if p.trialDays.Some? && p.trialDays.value < 0 then
      Some(Refuse(400, "validation_error", "trial_duration_days must be >= 0", ids))
    else if !P.KnownBranding(p) then
      Some(Refuse(400, "validation_error", "custom_branding must be one of: none, logo", ids))
    else if p.features.Some? && exists k | k in p.features.value :: !IsScalar(p.features.value[k]) then
      Some(Nested(bad, ids))
    else None
  }

  // What the row makes of an acceptable patch.
  function DecideRow(t: P.Table, code: TenantPlan, p: PlanPatch, now: Time, io: DbIo, ids: Ids): Response<PlanResponse>
    requires P.KnownBranding(p)
  {
    if io.statement.Some? then ErrorResponse(WrapConnErr(io.statement.value), ids)
    else if (code !in t || t[code].recordVersion != p.recordVersion) && io.probe.Some? then
      ErrorResponse(WrapConnErr(io.probe.value), ids)
    else if code !in t then Refuse(404, "plan_not_found", "plan not found", ids)
    else if t[code].recordVersion != p.recordVersion then
      VersionConflict(t[code].recordVersion, ids)
    else if io.commit.Some? then ErrorResponse(WrapConnErr(io.commit.value), ids)
    else Success(200, Shown(Stored(t[code], p, now)))
  }

  // The row with the present fields replaced and, if that changed it, the next
  // version.
  function Stored(r: P.Row, p: PlanPatch, now: Time): P.Row
    requires P.KnownBranding(p)
  {
    var after := P.Merge(r, p);
    if after == r then r else after.(recordVersion := r.recordVersion + 1, updatedAt := now)
  }

  function Shown(r: P.Row): PlanResponse {
    PlanResponse(r.code, r.displayName, r.workflowLimit, r.tenderLimit, r.trialDays, r.sso, r.branding,
                 if r.featureSet.AObj? then r.featureSet.fields else map[], r.recordVersion)
  }

  // The patch and its plan, once nothing is wrong with the request.
  predicate Acceptable(q: PatchRequest) {
    DecodePatch(q.body).Ok? && ParsePlanCode(q.code).Some? && P.KnownBranding(DecodePatch(q.body).value)
  }

  // The flat decision and the table after it.
  ghost predicate Decides(t: P.Table, q: PatchRequest, now: Time, io: DbIo, bad: string, r: Response<PlanResponse>,
      t': P.Table)
  {
    if Refusal(q, bad).Some? then r == Refusal(q, bad).value && t' == t
    else
      && Acceptable(q)
      && var code, p := ParsePlanCode(q.code).value, DecodePatch(q.body).value;
        && r == DecideRow(t, code, p, now, io, q.ids)
        && t' == if r.Success? && code in t then t[code := Stored(t[code], p, now)] else t
  }

  // The feature an error names is one that is no scalar.
  ghost predicate NamesNested(q: PatchRequest, bad: string) {
    DecodePatch(q.body).Ok? && HasNested(DecodePatch(q.body).value) ==>
      var features := DecodePatch(q.body).value.features;
      features.Some? && bad in features.value && !IsScalar(features.value[bad])
  }

  // The handler's answer from what lies below it.
  ghost predicate Answered(t: P.Table, q: PatchRequest, now: Time, io: DbIo, r: Response<PlanResponse>, t': P.Table) {
    if RequireOperator(q.who).Some? then r == ErrorResponse(RequireOperator(q.who).value, q.ids) && t' == t
    else if DecodePatch(q.body).Err? then r == ErrorResponse(DecodePatch(q.body).error, q.ids) && t' == t
    else
      exists result ::
        && PatchOutcome(t, q.code, DecodePatch(q.body).value, now, io, result, t')
        && r == match result case Ok(p) => Success(200, ToResponse(p)) case Err(e) => ErrorResponse(e, q.ids)
  }

  class PlanHandler {
    const svc: PlanService

    constructor (svc: PlanService)
      ensures this.svc == svc
    {
      this.svc := svc;
    }

    method Patch(q: PatchRequest, now: Time, io: DbIo, deleteReached: bool) returns (r: Response<PlanResponse>)
      requires RealFaults(io)
      modifies svc.repo.pool, svc.cache
      ensures Answered(old(svc.repo.pool.db).plans, q, now, io, r, svc.repo.pool.db.plans)
      ensures svc.repo.pool.db.departments == old(svc.repo.pool.db).departments
      ensures svc.cache != null ==>
        svc.cache.items == old(svc.cache.items) - if r.Success? && deleteReached then {PlansKey} else {}
      ensures P.Valid(old(svc.repo.pool.db).plans) ==>
        exists bad :: NamesNested(q, bad)
          && Decides(old(svc.repo.pool.db).plans, q, now, io, bad, r, svc.repo.pool.db.plans)
    {
      hide ErrorResponse, PatchOutcome, BindPatch, ParseLimit, Decides, NamesNested;
      PlanErrorsFail(q.ids);
      AnswersAreDecisions(svc.repo.pool.db.plans, q, now, io);
      var denied := RequireOperator(q.who);
      if denied.Some? {
        r := HandleError(denied.value, q.ids);
        return;
      }
      var body := BindPatch(q.body);
      if body.Err? {
        r := HandleError(body.error, q.ids);
        return;
      }
      var (m, patch) := body.value;
      var workflow := ParseLimit(m, "workflow_template_limit");
      if workflow.Err? {
        r := HandleError(workflow.error, q.ids);
        return;
      }
      patch := patch.(workflowLimit := workflow.value);
      var tender := ParseLimit(m, "tender_limit");
      if tender.Err? {
        r := HandleError(tender.error, q.ids);
        return;
      }
      patch := patch.(tenderLimit := tender.value);
      var p := svc.Patch(q.code, patch, now, io, deleteReached);
      if p.Err? {
        r := HandleError(p.error, q.ids);
        return;
      }
      r := Success(200, ToResponse(p.value));
    }
  }

  // ── every error body agrees with its status ──

  lemma FieldRefusalConsistent(code: string, p: PlanPatch, bad: string, ids: Ids)
    ensures FieldRefusal(code, p, bad, ids).Some? ==> ConsistentBody(FieldRefusal(code, p, bad, ids).value)
  {
    hide Fail, ConsistentBody, ParsePlanCode, P.Empty, P.KnownBranding, Blank, IsScalar;
    PlainFail<PlanResponse>(404, "plan_not_found", "plan not found", ids);
    PlainFail<PlanResponse>(400, "no_mutable_field", "at least one field must be provided", ids);
    PlainFail<PlanResponse>(400, "validation_error", "display_name must not be empty", ids);
    PlainFail<PlanResponse>(400, "validation_error", "workflow_template_limit must be >= 0", ids);
    PlainFail<PlanResponse>(400, "validation_error", "tender_limit must be >= 0", ids);
    PlainFail<PlanResponse>(400, "validation_error", "trial_duration_days must be >= 0", ids);
    PlainFail<PlanResponse>(400, "validation_error", "custom_branding must be one of: none, logo", ids);
    DetailedFail<PlanResponse>(400, "invalid_feature_value", "feature_set values must be scalars", "key", Text(bad),
                               ids);
  }

  lemma RefusalConsistent(q: PatchRequest, bad: string)
    ensures Refusal(q, bad).Some? ==> ConsistentBody(Refusal(q, bad).value)
  {
    hide Fail, ConsistentBody, FieldRefusal, BindPatch, DecodePatch, BadLimit;
    PlainFail<PlanResponse>(401, "missing_identity_headers", "missing identity", q.ids);
    PlainFail<PlanResponse>(403, "insufficient_role", "platform_operator required", q.ids);
    PlainFail<PlanResponse>(400, "validation_error", "invalid request body", q.ids);
    PlainFail<PlanResponse>(400, "validation_error", NotInteger("workflow_template_limit"), q.ids);
    PlainFail<PlanResponse>(400, "validation_error", NotInteger("tender_limit"), q.ids);
    if DecodePatch(q.body).Ok? {
      FieldRefusalConsistent(q.code, DecodePatch(q.body).value, bad, q.ids);
    }
    if BindPatch(q.body).Ok? {
      LimitsDecode(q.body);
    }
  }

  lemma RowConsistent(t: P.Table, code: TenantPlan, p: PlanPatch, now: Time, io: DbIo, ids: Ids)
    requires P.KnownBranding(p) && RealFaults(io)
    ensures ConsistentBody(DecideRow(t, code, p, now, io, ids))
  {
    hide Fail, ConsistentBody, ErrorResponse, WrapConnErr, Shown, Stored;
    PlainFail<PlanResponse>(404, "plan_not_found", "plan not found", ids);
    if code in t {
      DetailedFail<PlanResponse>(409, "optimistic_lock_conflict", "record version conflict", "record_version",
                                 Number(t[code].recordVersion), ids);
      SuccessIsConsistent(Stored(t[code], p, now));
    }
    if io.statement.Some? { DriverErrorIsConsistent<PlanResponse>(io.statement.value, ids); }
    if io.probe.Some? { DriverErrorIsConsistent<PlanResponse>(io.probe.value, ids); }
    if io.commit.Some? { DriverErrorIsConsistent<PlanResponse>(io.commit.value, ids); }
  }

  lemma SuccessIsConsistent(r: P.Row)
    ensures ConsistentBody(Success(200, Shown(r)))
  {
  }

  // Every error answer of CAT-5 has error = code and status = the HTTP status.
  lemma PatchBodiesConsistent(t: P.Table, q: PatchRequest, now: Time, io: DbIo, bad: string, r: Response<PlanResponse>,
      t': P.Table)
    requires RealFaults(io) && Decides(t, q, now, io, bad, r, t')
    ensures ConsistentBody(r)
  {
    hide ConsistentBody, Refusal, DecideRow, Stored;
    RefusalConsistent(q, bad);
    if Refusal(q, bad).None? {
      RowConsistent(t, ParsePlanCode(q.code).value, DecodePatch(q.body).value, now, io, q.ids);
    }
  }

  lemma AnswersAreDecisions(t: P.Table, q: PatchRequest, now: Time, io: DbIo)
    ensures forall r, t' | Answered(t, q, now, io, r, t') ::
      P.Valid(t) ==> exists bad :: NamesNested(q, bad) && Decides(t, q, now, io, bad, r, t')
  {
    hide Answered, Decides, NamesNested;
    forall r, t' | Answered(t, q, now, io, r, t')
      ensures P.Valid(t) ==> exists bad :: NamesNested(q, bad) && Decides(t, q, now, io, bad, r, t')
    {
      if P.Valid(t) {
        AnswerIsDecision(t, q, now, io, r, t');
      }
    }
  }

  // ── from the body to the response ──

  // What the stored limit should be, given the request's field and the row before.
  function LimitAfter(m: map<string, Json>, field: string, before: Limit): Limit {
    if field !in m then before else if m[field].JNum? then m[field].n.whole else None
  }

  lemma DecodedLimits(b: RequestBody)
    requires DecodePatch(b).Ok?
    ensures (b.JsonBody? || b.TrailingBody?) && TopFields(b.j).Ok?
    ensures var m, p := TopFields(b.j).value, DecodePatch(b).value;
      && forall before :: p.workflowLimit.GetOr(before) == LimitAfter(m, "workflow_template_limit", before)
                       && p.tenderLimit.GetOr(before) == LimitAfter(m, "tender_limit", before)
  {
    var m := TopFields(b.j).value;
    assert BindPatch(b).value.0 == m;
    assert ParseLimit(m, "workflow_template_limit").Ok? && ParseLimit(m, "tender_limit").Ok?;
  }

  // Absent, null and n come through decoding, UPDATE, scan and response as
  // unchanged, unlimited and n: zero is never taken for unlimited. The answer is
  // the stored row; a failure leaves the table alone.
  lemma TriStateEndToEnd(t: P.Table, q: PatchRequest, now: Time, io: DbIo, r: Response<PlanResponse>, t': P.Table)
    requires P.Valid(t) && Answered(t, q, now, io, r, t')
    ensures r.Failure? ==> t' == t
    ensures r.Success? ==>
      && (q.body.JsonBody? || q.body.TrailingBody?) && TopFields(q.body.j).Ok? && ParsePlanCode(q.code).Some?
      && var m, code := TopFields(q.body.j).value, ParsePlanCode(q.code).value;
        && code in t && code in t' && P.Valid(t') && t' == t[code := t'[code]]
        && P.Evolves(t[code], t'[code])
        && P.Scan(t'[code]).Ok? && r.value == ToResponse(P.Scan(t'[code]).value)
        && r.value.workflowLimit == LimitAfter(m, "workflow_template_limit", t[code].workflowLimit)
        && r.value.tenderLimit == LimitAfter(m, "tender_limit", t[code].tenderLimit)
  {
    hide ErrorResponse, DecodePatch, LimitAfter, TopFields, P.CheckRow, P.ValidRow;
    PlanErrorsFail(q.ids);
    if RequireOperator(q.who).None? && DecodePatch(q.body).Ok? {
      var p := DecodePatch(q.body).value;
      var result :| PatchOutcome(t, q.code, p, now, io, result, t')
        && r == match result case Ok(x) => Success(200, ToResponse(x)) case Err(e) => ErrorResponse(e, q.ids);
      DecodedLimits(q.body);
      AcceptedIff(q.code, p);
      if Validate(q.code, p).None? && !HasNested(p) {
        var code := ParsePlanCode(q.code).value;
        P.AllPlans(code);
        StoredPatch(t, code, p, now, io);
      }
    }
  }

  lemma PlanErrorsFail(ids: Ids)
    ensures forall e :: ErrorResponse<PlanResponse>(e, ids).Failure?
  {
  }

  // ── the layers below come down to the decision ──

  lemma RefusalBodies(ids: Ids)
    ensures ErrorResponse<PlanResponse>(NewError(MissingIdentity, "missing identity"), ids)
         == Refuse(401, "missing_identity_headers", "missing identity", ids)
    ensures ErrorResponse<PlanResponse>(NewError(InsufficientRole, "platform_operator required"), ids)
         == Refuse(403, "insufficient_role", "platform_operator required", ids)
    ensures ErrorResponse<PlanResponse>(PlanMissing(), ids) == Refuse(404, "plan_not_found", "plan not found", ids)
    ensures forall m ::
      ErrorResponse<PlanResponse>(NewError(Validation, m), ids) == Refuse(400, "validation_error", m, ids)
  {
    hide ErrorResponse, Fail;
    PlainErrorBody<PlanResponse>(MissingIdentity, "missing identity", ids);
    PlainErrorBody<PlanResponse>(InsufficientRole, "platform_operator required", ids);
    PlainErrorBody<PlanResponse>(PlanNotFound, "plan not found", ids);
    forall m
      ensures ErrorResponse<PlanResponse>(NewError(Validation, m), ids) == Refuse(400, "validation_error", m, ids)
    {
      ValidationBody(m, ids);
    }
  }

  lemma ValidationBody(m: string, ids: Ids)
    ensures ErrorResponse<PlanResponse>(NewError(Validation, m), ids) == Refuse(400, "validation_error", m, ids)
  {
    hide ErrorResponse, Fail;
    PlainErrorBody<PlanResponse>(Validation, m, ids);
  }

  lemma DetailedBodies(ids: Ids)
    ensures ErrorResponse<PlanResponse>(NothingProvided(), ids)
         == Refuse(400, "no_mutable_field", "at least one field must be provided", ids)
    ensures forall k :: ErrorResponse<PlanResponse>(NotScalar(k), ids) == Nested(k, ids)
    ensures forall v :: ErrorResponse<PlanResponse>(ConflictWith(v), ids) == VersionConflict(v, ids)
  {
    hide ErrorResponse, Fail;
    var code: Body := map["code" := Text("no_mutable_field")];
    DomainErrorBody<PlanResponse>(NoMutableField, "at least one field must be provided", code, ids);
    assert code - {"code"} == map[];
    forall k ensures ErrorResponse<PlanResponse>(NotScalar(k), ids) == Nested(k, ids) {
      var key: Body := map["key" := Text(k)];
      DomainErrorBody<PlanResponse>(InvalidFeatureValue, "feature_set values must be scalars", key, ids);
      assert key - {"code"} == key;
    }
    forall v: int ensures ErrorResponse<PlanResponse>(ConflictWith(v), ids) == VersionConflict(v, ids) {
      var version: Body := map["record_version" := Number(v)];
      DomainErrorBody<PlanResponse>(OptimisticLockConflict, "record version conflict", version, ids);
      assert version - {"code"} == version;
    }
  }

  // The service's checks are the decision's, in the same order.
  lemma FieldsDecide(code: string, p: PlanPatch, bad: string, ids: Ids)
    ensures var v := Validate(code, p);
      FieldRefusal(code, p, bad, ids) ==
        if v.Some? then Some(ErrorResponse(v.value, ids))
        else if HasNested(p) then Some(ErrorResponse(NotScalar(bad), ids))
        else None
  {
    hide ErrorResponse, Fail, ParsePlanCode, P.Empty, P.KnownBranding, Blank, IsScalar, Refuse, NotScalar, PlanMissing;
    RefusalBodies(ids);
    DetailedBodies(ids);
  }

  // On a valid table an accepted patch misses or stores a row that scans.
  lemma FlatPatchStores(t: P.Table, code: TenantPlan, p: PlanPatch, now: Time)
    requires P.Valid(t) && P.Accepted(p)
    ensures code in t && P.KnownBranding(p) && !P.Empty(p)
    ensures var s := Stored(t[code], p, now);
      && P.FlatPatch(t, code, p, now)
         == (if t[code].recordVersion != p.recordVersion then P.NoMatch else P.Updated(t[code := s], s))
      && P.Scan(s).Ok? && ToResponse(P.Scan(s).value) == Shown(s)
  {
    hide P.Merge;
    P.AllPlans(code);
    P.MergeKeepsValidRow(t[code], p, now);
  }

  lemma RowDecides(t: P.Table, code: TenantPlan, p: PlanPatch, now: Time, io: DbIo, ids: Ids)
    requires P.Valid(t) && P.Accepted(p)
    ensures var w := RepoPlanPatch(t, code, p, now, io);
      && (w.result.Ok? ==> code in t)
      && DecideRow(t, code, p, now, io, ids)
         == (match w.result case Ok(x) => Success(200, ToResponse(x)) case Err(e) => ErrorResponse(e, ids))
      && w.table == if w.result.Ok? && code in t then t[code := Stored(t[code], p, now)] else t
  {
    hide ErrorResponse, Fail, WrapConnErr, ConflictWith, Stored, Shown, ToResponse, P.FlatPatch, P.Scan, P.Valid,
      Refuse, VersionConflict;
    RefusalBodies(ids);
    DetailedBodies(ids);
    FlatPatchStores(t, code, p, now);
  }

  lemma BindError(b: RequestBody)
    ensures BindPatch(b).Err? ==> BindPatch(b).error == INVALID_BODY && DecodePatch(b) == Err(INVALID_BODY)
  {
  }

  // The handler's checks before it calls the service are the decision's.
  lemma RequestDecides(q: PatchRequest, bad: string)
    ensures var denied, d := RequireOperator(q.who), DecodePatch(q.body);
      Refusal(q, bad) ==
        if denied.Some? then Some(ErrorResponse(denied.value, q.ids))
        else if d.Err? then Some(ErrorResponse(d.error, q.ids))
        else FieldRefusal(q.code, d.value, bad, q.ids)
  {
    hide ErrorResponse, Fail, Refuse, BindPatch, DecodePatch, FieldRefusal, BadLimit, NewError;
    RefusalBodies(q.ids);
    BindError(q.body);
    if BindPatch(q.body).Ok? {
      LimitsDecode(q.body);
      var w, t := NotInteger("workflow_template_limit"), NotInteger("tender_limit");
      ValidationBody(w, q.ids);
      ValidationBody(t, q.ids);
    } else {
      DecodeNeedsBind(q.body);
    }
  }

  lemma DecodeNeedsBind(b: RequestBody)
    ensures DecodePatch(b).Ok? ==> BindPatch(b).Ok?
  {
  }

  lemma SomeFeature(q: PatchRequest) returns (bad: string)
    ensures NamesNested(q, bad)
  {
    bad := "";
    if DecodePatch(q.body).Ok? && HasNested(DecodePatch(q.body).value) {
      var features := DecodePatch(q.body).value.features.value;
      bad :| bad in features && !IsScalar(features[bad]);
    }
  }

  // On a valid table the handler's answer and the table after it are the flat
  // decision's; which of several nested features an error names is open.
  lemma AnswerIsDecision(t: P.Table, q: PatchRequest, now: Time, io: DbIo, r: Response<PlanResponse>, t': P.Table)
    requires P.Valid(t) && Answered(t, q, now, io, r, t')
    ensures exists bad :: NamesNested(q, bad) && Decides(t, q, now, io, bad, r, t')
  {
    hide ErrorResponse, Refusal, FieldRefusal, DecodePatch, DecideRow, Validate, RepoPlanPatch, P.Valid, Stored,
      ToResponse, NotScalar, ParsePlanCode;
    if RequireOperator(q.who).Some? || DecodePatch(q.body).Err? {
      var bad := SomeFeature(q);
      RequestDecides(q, bad);
      assert Decides(t, q, now, io, bad, r, t');
    } else {
      var p := DecodePatch(q.body).value;
      var result :| PatchOutcome(t, q.code, p, now, io, result, t')
        && r == match result case Ok(x) => Success(200, ToResponse(x)) case Err(e) => ErrorResponse(e, q.ids);
      var bad := SomeFeature(q);
      if Validate(q.code, p).None? && HasNested(p) {
        bad :| bad in p.features.value && !IsScalar(p.features.value[bad]) && result == Err(NotScalar(bad));
      }
      RequestDecides(q, bad);
      FieldsDecide(q.code, p, bad, q.ids);
      AcceptedIff(q.code, p);
      if Validate(q.code, p).None? && !HasNested(p) {
        PlanErrorsFail(q.ids);
        RowDecides(t, ParsePlanCode(q.code).value, p, now, io, q.ids);
      }
      assert Decides(t, q, now, io, bad, r, t');
    }
  }
}

/** What an operator sees of CAT-5, said of the JSON members of the body and the
    columns of the row alone. */
module PlanContracts {
  import opened Wrappers
  import opened Domain
  import opened Errors
  import opened Requests
  import opened Bodies
  import opened Store
  import PS = PlanServices
  import opened PlanHandlers
  import P = Plans

  // ── the body ──

  ghost predicate MembersFit(m: map<string, Json>) {
    && TextOrAbsent(m, "display_name") && Int64OrAbsent(m, "trial_duration_days") && BoolOrAbsent(m, "sso_enabled")
    && TextOrAbsent(m, "custom_branding") && Int64OrAbsent(m, "record_version")
    && (Absent(m, "feature_set") || (m["feature_set"].JObj? && exists a :: Same(m["feature_set"], a)))
  }

  predicate LimitsFit(m: map<string, Json>) {
    Int64OrAbsent(m, "workflow_template_limit") && Int64OrAbsent(m, "tender_limit")
  }

  // What a limit member asks for: nothing, no limit, or a number.
  function LimitAsked(m: map<string, Json>, k: string): Option<Limit>
    requires Int64OrAbsent(m, k)
  {
    if k !in m then None else if m[k] == JNull then Some(None) else Some(Some(m[k].n.whole.value))
  }

  // The patch holds what the members say.
  ghost predicate Carries(m: map<string, Json>, p: PlanPatch)
    requires MembersFit(m) && LimitsFit(m)
  {
    && p.displayName == (if Absent(m, "display_name") then None else Some(m["display_name"].s))
    && p.workflowLimit == LimitAsked(m, "workflow_template_limit")
    && p.tenderLimit == LimitAsked(m, "tender_limit")
    && p.trialDays == (if Absent(m, "trial_duration_days") then None else Some(m["trial_duration_days"].n.whole.value))
    && p.sso == (if Absent(m, "sso_enabled") then None else Some(m["sso_enabled"].b))
    && p.branding == (if Absent(m, "custom_branding") then None else Some(m["custom_branding"].s))
    && p.recordVersion == SentVersion(m)
    && (if Absent(m, "feature_set") then p.features == None
        else p.features.Some? && Same(m["feature_set"], AObj(p.features.value)))
  }

  lemma BodyBinds(b: RequestBody)
    ensures BindPatch(b).Ok? <==> First(b).Some? && MembersFit(First(b).value)
    ensures BindPatch(b).Ok? ==> BindPatch(b).value.0 == First(b).value
  {
    hide Same, InRange, ToAny;
    if First(b).Some? && !Absent(First(b).value, "feature_set") {
      DecodesToSame(First(b).value["feature_set"]);
    }
  }

  // A body decodes exactly when every member is absent or of its type, and then to
  // the patch its members describe.
  lemma BodyDecodes(b: RequestBody)
    ensures var d := DecodePatch(b);
      && (d.Ok? <==> First(b).Some? && MembersFit(First(b).value) && LimitsFit(First(b).value))
      && (d.Ok? ==> Carries(First(b).value, d.value))
  {
    BodyBinds(b);
    if First(b).Some? && MembersFit(First(b).value) && LimitsFit(First(b).value) {
      BoundFields(b);
    }
    if First(b).Some? {
      LimitsAreAsked(First(b).value, "workflow_template_limit");
      LimitsAreAsked(First(b).value, "tender_limit");
    }
  }

  lemma LimitsAreAsked(m: map<string, Json>, k: string)
    ensures ParseLimit(m, k).Ok? <==> Int64OrAbsent(m, k)
    ensures BadLimit(m, k) <==> !Int64OrAbsent(m, k)
    ensures Int64OrAbsent(m, k) ==> ParseLimit(m, k) == Ok(LimitAsked(m, k))
    ensures !Int64OrAbsent(m, k) ==>
      ParseLimit(m, k) == Err(DomainError(Validation, k + " must be an integer or null", map[]))
  {
  }

  // The fields bound straight from the struct; the limits are still to come.
  lemma BoundFields(b: RequestBody)
    requires BindPatch(b).Ok? && First(b).Some? && MembersFit(First(b).value) && LimitsFit(First(b).value)
    ensures
      var m := First(b).value;
      Carries(m, BindPatch(b).value.1.(workflowLimit := LimitAsked(m, "workflow_template_limit"),
                                       tenderLimit := LimitAsked(m, "tender_limit")))
  {
    var m := First(b).value;
    if !Absent(m, "feature_set") {
      DecodesToSame(m["feature_set"]);
    }
  }

  // ── the answer ──

  function PlanNamed(code: string): Option<TenantPlan> {
    match code
    case "starter" => Some(Starter)
    case "pro" => Some(Pro)
    case "enterprise" => Some(Enterprise)
    case _ => None
  }

  // Status and code of the answer, whatever the database does meanwhile.
  ghost function Expected(t: P.Table, q: PatchRequest, io: DbIo): (int, string) {
    match (q.who, First(q.body))
    case (NoIdentity, _) => (401, "missing_identity_headers")
    case (Caller(roles), body) =>
      if !(exists i | 0 <= i < |roles| :: roles[i] == "platform_operator") then (403, "insufficient_role")
      else if body.None? || !MembersFit(body.value) || !LimitsFit(body.value) then (400, "validation_error")
      else MembersExpected(t, q.code, body.value, io)
  }

  ghost function MembersExpected(t: P.Table, code: string, m: map<string, Json>, io: DbIo): (int, string)
    requires MembersFit(m) && LimitsFit(m)
  {
    if PlanNamed(code).None? then (404, "plan_not_found")
    else if NothingAsked(m) then (400, "no_mutable_field")
    else if !ValuesFit(m) then (400, "validation_error")
    else if HasNestedFeature(m) then (400, "invalid_feature_value")
    else RowExpected(t, PlanNamed(code).value, SentVersion(m), io)
  }

  function RowExpected(t: P.Table, code: TenantPlan, version: int, io: DbIo): (int, string) {
    if io.statement.Some? then FaultExpected(io.statement.value)
    else if (code !in t || t[code].recordVersion != version) && io.probe.Some? then FaultExpected(io.probe.value)
    else if code !in t then (404, "plan_not_found")
    else if t[code].recordVersion != version then (409, "optimistic_lock_conflict")
    else if io.commit.Some? then FaultExpected(io.commit.value)
    else (200, "")
  }

  // A limit given as null asks for something: no limit.
  predicate NothingAsked(m: map<string, Json>) {
    && Absent(m, "display_name") && "workflow_template_limit" !in m && "tender_limit" !in m
    && Absent(m, "trial_duration_days") && Absent(m, "sso_enabled") && Absent(m, "custom_branding")
    && Absent(m, "feature_set")
  }

  ghost predicate ValuesFit(m: map<string, Json>)
    requires MembersFit(m) && LimitsFit(m)
  {
    && (!Absent(m, "display_name") ==> Solid(m["display_name"].s))
    && (!Absent(m, "workflow_template_limit") ==> m["workflow_template_limit"].n.whole.value >= 0)
    && (!Absent(m, "tender_limit") ==> m["tender_limit"].n.whole.value >= 0)
    && (!Absent(m, "trial_duration_days") ==> m["trial_duration_days"].n.whole.value >= 0)
    && (!Absent(m, "custom_branding") ==> m["custom_branding"].s == "none" || m["custom_branding"].s == "logo")
  }

  predicate HasNestedFeature(m: map<string, Json>)
    requires Absent(m, "feature_set") || m["feature_set"].JObj?
  {
    !Absent(m, "feature_set")
    && exists k | k in m["feature_set"].fields :: m["feature_set"].fields[k].JArr? || m["feature_set"].fields[k].JObj?
  }

  lemma PlanNamesAgree(code: string)
    ensures ParsePlanCode(code) == PlanNamed(code)
  {
  }

  // The checks on the decoded patch are the checks on the members.
  lemma ChecksAgree(m: map<string, Json>, p: PlanPatch)
    requires MembersFit(m) && LimitsFit(m) && Carries(m, p)
    ensures P.Empty(p) <==> NothingAsked(m)
    ensures ValuesFit(m) <==>
      && (p.displayName.Some? ==> !Blank(p.displayName.value)) && !Below(p.workflowLimit, 0) && !Below(p.tenderLimit, 0)
      && (p.trialDays.Some? ==> p.trialDays.value >= 0) && P.KnownBranding(p)
    ensures HasNestedFeature(m) <==> PS.HasNested(p)
  {
    if !Absent(m, "feature_set") {
      NestedAgree(m["feature_set"].fields, p.features.value);
    }
  }

  lemma NestedAgree(fields: map<string, Json>, features: Features)
    requires Same(JObj(fields), AObj(features))
    ensures (exists k | k in fields :: fields[k].JArr? || fields[k].JObj?)
      <==> (exists k | k in features :: !IsScalar(features[k]))
  {
    assert forall k | k in fields :: Same(fields[k], features[k]);
    assert forall k | k in fields :: (fields[k].JArr? || fields[k].JObj?) <==> !IsScalar(features[k]);
    if k :| k in features && !IsScalar(features[k]) {
      assert k in fields;
    }
  }

  lemma RefusalSays(code: string, m: map<string, Json>, p: PlanPatch, bad: string, ids: Ids)
    requires MembersFit(m) && LimitsFit(m) && Carries(m, p)
    ensures var r := FieldRefusal(code, p, bad, ids);
      && (r.None? <==> PlanNamed(code).Some? && !NothingAsked(m) && ValuesFit(m) && !HasNestedFeature(m))
      && (r.Some? ==> forall t, io ::
            var e := MembersExpected(t, code, m, io); Says(r.value, e.0, e.1) && e.0 !in {200, 409})
  {
    hide Fail, Says, MembersFit, LimitsFit, Carries, ValuesFit, HasNestedFeature, NothingAsked, P.Empty,
      P.KnownBranding, Blank, Below, IsScalar, PlanNamed, ParsePlanCode;
    ChecksAgree(m, p);
    PlanNamesAgree(code);
    PlainFailSays<PlanResponse>(404, "plan_not_found", "plan not found", ids);
    PlainFailSays<PlanResponse>(400, "no_mutable_field", "at least one field must be provided", ids);
    PlainFailSays<PlanResponse>(400, "validation_error", "display_name must not be empty", ids);
    PlainFailSays<PlanResponse>(400, "validation_error", "workflow_template_limit must be >= 0", ids);
    PlainFailSays<PlanResponse>(400, "validation_error", "tender_limit must be >= 0", ids);
    PlainFailSays<PlanResponse>(400, "validation_error", "trial_duration_days must be >= 0", ids);
    PlainFailSays<PlanResponse>(400, "validation_error", "custom_branding must be one of: none, logo", ids);
    DetailedFailSays<PlanResponse>(400, "invalid_feature_value", "feature_set values must be scalars", "key",
      Text(bad), ids);
  }

  lemma RowSays(t: P.Table, code: TenantPlan, p: PlanPatch, now: Time, io: DbIo, ids: Ids)
    requires P.KnownBranding(p) && RealFaults(io)
    ensures var e, r := RowExpected(t, code, p.recordVersion, io), DecideRow(t, code, p, now, io, ids);
      && (if e.0 == 200 then r.Success? && r.status == 200 else Says(r, e.0, e.1))
      && (e.0 == 409 ==>
            && r.Failure? && code in t && "record_version" in r.body
            && r.body["record_version"] == Number(t[code].recordVersion))
  {
    hide Fail, Says, P.KnownBranding, P.Merge, ErrorResponse, WrapConnErr, FaultExpected;
    PlainFailSays<PlanResponse>(404, "plan_not_found", "plan not found", ids);
    if code in t {
      DetailedFailSays<PlanResponse>(409, "optimistic_lock_conflict", "record version conflict", "record_version",
        Number(t[code].recordVersion), ids);
    }
    if io.statement.Some? { FaultIsNo200(io.statement.value, ids); }
    if io.probe.Some? { FaultIsNo200(io.probe.value, ids); }
    if io.commit.Some? { FaultIsNo200(io.commit.value, ids); }
  }

  lemma FaultIsNo200(e: Error, ids: Ids)
    requires DriverError(e)
    ensures FaultExpected(e).0 !in {200, 409}
    ensures Says<PlanResponse>(ErrorResponse(WrapConnErr(e), ids), FaultExpected(e).0, FaultExpected(e).1)
  {
    AvailabilityIs503<PlanResponse>(e, ids);
  }

  // Status and code of every answer, from the members, the row and the database's
  // failures alone; a conflict shows the current version.
  lemma PatchAnswersAsExpected(t: P.Table, q: PatchRequest, now: Time, io: DbIo, bad: string,
      r: Response<PlanResponse>, t': P.Table)
    requires RealFaults(io) && Decides(t, q, now, io, bad, r, t')
    ensures var e := Expected(t, q, io);
      && (if e.0 == 200 then r.Success? && r.status == 200 else Says(r, e.0, e.1))
      && (e.0 == 409 ==>
            && r.Failure? && PlanNamed(q.code).Some? && PlanNamed(q.code).value in t && "record_version" in r.body
            && r.body["record_version"] == Number(t[PlanNamed(q.code).value].recordVersion))
  {
    hide Fail, Says, MembersFit, LimitsFit, Carries, ValuesFit, HasNestedFeature, NothingAsked, DecideRow,
      RowExpected, FieldRefusal, BindPatch, DecodePatch, BadLimit, PlanNamed, ParsePlanCode, Stored, P.KnownBranding,
      First;
    PlainFailSays<PlanResponse>(401, "missing_identity_headers", "missing identity", q.ids);
    PlainFailSays<PlanResponse>(403, "insufficient_role", "platform_operator required", q.ids);
    PlainFailSays<PlanResponse>(400, "validation_error", "invalid request body", q.ids);
    PlainFailSays<PlanResponse>(400, "validation_error", NotInteger("workflow_template_limit"), q.ids);
    PlainFailSays<PlanResponse>(400, "validation_error", NotInteger("tender_limit"), q.ids);
    BodyBinds(q.body);
    BodyDecodes(q.body);
    PlanNamesAgree(q.code);
    if BindPatch(q.body).Ok? {
      LimitsDecode(q.body);
    }
    if DecodePatch(q.body).Ok? {
      RefusalSays(q.code, First(q.body).value, DecodePatch(q.body).value, bad, q.ids);
      if Acceptable(q) {
        RowSays(t, ParsePlanCode(q.code).value, DecodePatch(q.body).value, now, io, q.ids);
        CarriesVersion(First(q.body).value, DecodePatch(q.body).value);
      }
    }
  }

  lemma CarriesVersion(m: map<string, Json>, p: PlanPatch)
    requires MembersFit(m) && LimitsFit(m) && Carries(m, p)
    ensures Int64OrAbsent(m, "record_version") && p.recordVersion == SentVersion(m)
  {
  }

  lemma AllNamed(t: P.Table)
    requires P.Valid(t)
    ensures forall code: TenantPlan :: code in t
  {
    forall code: TenantPlan ensures code in t { P.AllPlans(code); }
  }

  // ── what a success stores and shows ──

  // The row is the one before with the members that are there.
  ghost predicate RowTakes(m: map<string, Json>, before: P.Row, row: P.Row)
    requires MembersFit(m) && LimitsFit(m)
  {
    && row.displayName == (if Absent(m, "display_name") then before.displayName else m["display_name"].s)
    && row.workflowLimit == LimitAsked(m, "workflow_template_limit").GetOr(before.workflowLimit)
    && row.tenderLimit == LimitAsked(m, "tender_limit").GetOr(before.tenderLimit)
    && row.trialDays
       == (if Absent(m, "trial_duration_days") then before.trialDays else m["trial_duration_days"].n.whole.value)
    && row.sso == (if Absent(m, "sso_enabled") then before.sso else m["sso_enabled"].b)
    && (Absent(m, "custom_branding") ==> row.branding == before.branding)
    && (!Absent(m, "custom_branding") ==> m["custom_branding"].s == if row.branding.Plain? then "none" else "logo")
    && (if Absent(m, "feature_set") then row.featureSet == before.featureSet
        else Same(m["feature_set"], row.featureSet))
    && row.code == before.code && row.createdAt == before.createdAt
  }

  lemma StoredTakes(m: map<string, Json>, p: PlanPatch, before: P.Row, now: Time)
    requires MembersFit(m) && LimitsFit(m) && Carries(m, p) && P.KnownBranding(p)
    ensures RowTakes(m, before, Stored(before, p, now))
  {
    hide Same;
    var merged := P.Merge(before, p);
    assert RowTakes(m, before, merged);
  }

  // A 200 shows the stored row, column by column. That row is the one the path
  // names, with the version that was sent before, and takes the members that are
  // there; the version grows by one iff it changed; no other row moved.
  lemma PatchShowsStoredRow(t: P.Table, q: PatchRequest, now: Time, io: DbIo, bad: string, r: Response<PlanResponse>,
      t': P.Table)
    requires P.Valid(t) && Decides(t, q, now, io, bad, r, t') && r.Success?
    ensures First(q.body).Some? && MembersFit(First(q.body).value) && LimitsFit(First(q.body).value)
    ensures PlanNamed(q.code).Some? && PlanNamed(q.code).value in t && PlanNamed(q.code).value in t'
    ensures
      var code, m := PlanNamed(q.code).value, First(q.body).value;
      var before, row := t[code], t'[code];
      && t' == t[code := row]
      && before.recordVersion == SentVersion(m) && before.code == code
      && RowTakes(m, before, row)
      && (row == before
          || (row.recordVersion == before.recordVersion + 1 && row.updatedAt == now
              && row.(recordVersion := before.recordVersion, updatedAt := before.updatedAt) != before))
    ensures
      var row, v := t'[PlanNamed(q.code).value], r.value;
      && v.code == row.code && v.displayName == row.displayName && v.workflowLimit == row.workflowLimit
      && v.tenderLimit == row.tenderLimit && v.trialDays == row.trialDays && v.sso == row.sso
      && v.branding == row.branding && row.featureSet == AObj(v.features) && v.recordVersion == row.recordVersion
  {
    hide MembersFit, LimitsFit, Carries, BindPatch, DecodePatch, PlanNamed, ParsePlanCode, First, RowTakes, Stored,
      P.KnownBranding, ErrorResponse, WrapConnErr, Refusal, Shown, P.Valid, SentVersion, Int64OrAbsent;
    BodyDecodes(q.body);
    PlanNamesAgree(q.code);
    AllNamed(t);
    RefusalsFail(q, bad);
    PlanErrorsFail(q.ids);
    var code, p := ParsePlanCode(q.code).value, DecodePatch(q.body).value;
    CarriesVersion(First(q.body).value, p);
    StoredTakes(First(q.body).value, p, t[code], now);
    StoredSteps(t, code, p, now);
    ShownColumns(t, code, p, now);
  }

  lemma RefusalsFail(q: PatchRequest, bad: string)
    ensures Refusal(q, bad).Some? ==> Refusal(q, bad).value.Failure?
  {
    hide BindPatch, DecodePatch, P.Empty, P.KnownBranding, Blank, IsScalar, ParsePlanCode, Below, BadLimit;
    if BindPatch(q.body).Ok? {
      LimitsDecode(q.body);
    }
  }

  lemma StoredSteps(t: P.Table, code: TenantPlan, p: PlanPatch, now: Time)
    requires P.Valid(t) && code in t && P.KnownBranding(p)
    ensures var before, row := t[code], Stored(t[code], p, now);
      && before.code == code
      && (row == before
          || (row.recordVersion == before.recordVersion + 1 && row.updatedAt == now
              && row.(recordVersion := before.recordVersion, updatedAt := before.updatedAt) != before))
  {
    hide P.ValidRow;
    assert t[code].code == code;
    var merged := P.Merge(t[code], p);
    assert merged.recordVersion == t[code].recordVersion && merged.updatedAt == t[code].updatedAt;
  }

  lemma ShownColumns(t: P.Table, code: TenantPlan, p: PlanPatch, now: Time)
    requires P.Valid(t) && code in t && P.KnownBranding(p)
    ensures var row, v := Stored(t[code], p, now), Shown(Stored(t[code], p, now));
      && v.code == row.code && v.displayName == row.displayName && v.workflowLimit == row.workflowLimit
      && v.tenderLimit == row.tenderLimit && v.trialDays == row.trialDays && v.sso == row.sso
      && v.branding == row.branding && row.featureSet == AObj(v.features) && v.recordVersion == row.recordVersion
  {
    hide P.CheckRow;
  }
}

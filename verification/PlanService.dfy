/** The plan repository and the plan service (plan_repository.go,
    plan_service.go). */
module PlanServices {
  import opened Wrappers
  import opened Domain
  import opened Sql
  import opened Cache
  import opened Errors
  import opened Listing
  import opened Strings
  import opened Store
  import opened Runs
  import opened ReadThrough
  import P = Plans

  // ── repository ──

  // The repository's PATCH, flat. A row that does not scan is an error of the
  // whole transaction.
  function RepoPlanPatch(t: P.Table, code: TenantPlan, p: PlanPatch, now: Time, io: DbIo): Written<P.Table, Plan>
  {
    if P.Empty(p) then Written(Err(NewError(NoMutableField, "at least one field must be provided")), t)
    else if io.statement.Some? then Written(Err(WrapConnErr(io.statement.value)), t)
    else if !P.KnownBranding(p) then Written(Err(PgError("22P02", "")), t)
    else
      match P.FlatPatch(t, code, p, now)
      case Failed(e) => Written(Err(WrapConnErr(e)), t)
      case NoMatch =>
        if io.probe.Some? then Written(Err(WrapConnErr(io.probe.value)), t)
        else if code in t then Written(Err(ConflictWith(t[code].recordVersion)), t)
        else Written(Err(PlanMissing()), t)
      case Updated(t', row) =>
        match P.Scan(row)
        case Err(e) => Written(Err(WrapConnErr(e)), t)
        case Ok(plan) =>
          if io.commit.Some? then Written(Err(WrapConnErr(io.commit.value)), t) else Written(Ok(plan), t')
  }

  // The answers mean what the department repository's do, on a valid table.
  lemma RepoPlanPatchAnswers(t: P.Table, code: TenantPlan, p: PlanPatch, now: Time, io: DbIo)
    requires P.Valid(t) && RealFaults(io)
    ensures var w := RepoPlanPatch(t, code, p, now, io);
      && (w.result.Ok? ==>
            && code in t && t[code].recordVersion == p.recordVersion
            && code in w.table && w.table == t[code := w.table[code]] && P.Scan(w.table[code]) == w.result)
      && (w.result.Err? ==> w.table == t)
      && (w.result.Err? && w.result.error.DomainError? && w.result.error.cause == OptimisticLockConflict ==>
            && code in t && t[code].recordVersion != p.recordVersion
            && w.result.error == ConflictWith(t[code].recordVersion))
      && (w.result.Err? && w.result.error.DomainError? ==> w.result.error.cause != PlanNotFound)
  {
    hide WrapConnErr, P.Merge, P.ValidRow;
    P.AllPlans(code);
    WrappedCauses();
  }

  // An error that is not the domain's own becomes one of two at most.
  lemma WrappedCauses()
    ensures forall e: Error | !e.DomainError? && WrapConnErr(e).DomainError? ::
      WrapConnErr(e).cause == DBUnavailable || WrapConnErr(e).cause == DependencyUnavailable
  {
  }

  function PlanMissing(): Error { NewError(PlanNotFound, "plan not found") }

  class PlanRepository {
    const pool: Database

    constructor (pool: Database)
      ensures this.pool == pool
    {
      this.pool := pool;
    }

    // `next` and the SET item it is called for: the placeholder's number is the
    // argument count at that moment.
    method Append(items: seq<Assign<P.Column>>, args: seq<Value>, col: P.Column, v: Option<Value>)
      returns (items': seq<Assign<P.Column>>, args': seq<Value>)
      ensures Builder(items', args') == Builder(items, args).AddIf(col, v)
    {
      items', args' := items, args;
      if v.Some? {
        args' := args' + [v.value];
        items' := items' + [Assign(col, |args'|)];
      }
    }

    method BuildUpdate(code: TenantPlan, p: PlanPatch) returns (items: seq<Assign<P.Column>>, args: seq<Value>)
      ensures Builder(items, args) == P.PatchBuilder(code, p)
    {
      hide Builder.AddIf;
      items, args := [], [VPlanCode(code), VInt(p.recordVersion)];
      items, args := Append(items, args, P.CDisplayName, P.TextOf(p.displayName));
      items, args := Append(items, args, P.CWorkflowLimit, P.LimitOf(p.workflowLimit));
      items, args := Append(items, args, P.CTenderLimit, P.LimitOf(p.tenderLimit));
      items, args := Append(items, args, P.CTrialDays, P.IntOf(p.trialDays));
      items, args := Append(items, args, P.CSso, P.BoolOf(p.sso));
      items, args := Append(items, args, P.CBranding, P.TextOf(p.branding));
      items, args := Append(items, args, P.CFeatureSet, P.JsonOf(p.features));
    }

    method Update(code: TenantPlan, p: PlanPatch, now: Time, io: DbIo) returns (r: Result<Plan, Error>)
      requires RealFaults(io)
      modifies pool
      ensures var w := RepoPlanPatch(old(pool.db).plans, code, p, now, io);
        r == w.result && pool.db == old(pool.db).(plans := w.table)
    {
      hide P.PatchBuilder, P.FlatPatch, P.ExecUpdate, P.Scan, P.KnownBranding;
      ghost var t := pool.db.plans;
      var items, args := BuildUpdate(code, p);
      P.BuilderSteps(code, p, P.SAMPLE);
      if items == [] {
        return Err(NewError(NoMutableField, "at least one field must be provided"));
      }
      P.PatchRefinesFlat(t, code, p, now);
      InvalidTextPassesThrough();
      var before := pool.db;
      r := UpdateFromTx(code, Statement(items, 1, 2), args, now, io);
      if r.Ok? && io.commit.Some? {
        r := Err(io.commit.value);
      }
      if r.Err? {
        pool.db := before;
        r := Err(WrapConnErr(r.error));
      }
    }

    method UpdateFromTx(code: TenantPlan, stmt: Statement<P.Column>, args: seq<Value>, now: Time, io: DbIo)
      returns (r: Result<Plan, Error>)
      modifies pool
      ensures var x := P.ExecUpdate(old(pool.db).plans, stmt, args, now);
        && r == (if io.statement.Some? then Err(io.statement.value)
                 else match x
                      case Updated(_, row) => P.Scan(row)
                      case Failed(e) => Err(e)
                      case NoMatch =>
                        if io.probe.Some? then Err(io.probe.value)
                        else if code in old(pool.db).plans then
                          Err(ConflictWith(old(pool.db).plans[code].recordVersion))
                        else Err(PlanMissing()))
        && pool.db == if io.statement.None? && x.Updated? then old(pool.db).(plans := x.table) else old(pool.db)
    {
      if io.statement.Some? {
        return Err(io.statement.value);
      }
      var x := pool.UpdatePlans(stmt, args, now);
      match x {
        case Updated(_, row) => r := P.Scan(row);
        case Failed(e) => r := Err(e);
        case NoMatch =>
          if io.probe.Some? {
            r := Err(io.probe.value);
          } else if code in pool.db.plans {
            r := Err(ConflictWith(pool.db.plans[code].recordVersion));
          } else {
            r := Err(PlanMissing());
          }
      }
    }

    // planListFromTx over the rows the server streams: scanned one after the
    // other, all or nothing.
    method List(stream: seq<P.Row>, fault: Option<Error>) returns (r: Result<seq<Plan>, Error>)
      ensures fault.Some? ==> r == Err(WrapConnErr(fault.value))
      ensures fault.None? && (exists k | 0 <= k < |stream| :: P.Scan(stream[k]).Err?) ==>
        r == Err(WrapConnErr(OtherError))
      ensures fault.None? && (forall k | 0 <= k < |stream| :: P.Scan(stream[k]).Ok?) ==>
        r.Ok? && |r.value| == |stream| && forall k | 0 <= k < |stream| :: P.Scan(stream[k]) == Ok(r.value[k])
    {
      if fault.Some? {
        return Err(WrapConnErr(fault.value));
      }
      var out: seq<Plan> := [];
      for i := 0 to |stream|
        invariant |out| == i
        invariant forall k | 0 <= k < i :: P.Scan(stream[k]) == Ok(out[k])
      {
        var p := P.Scan(stream[i]);
        if p.Err? {
          return Err(WrapConnErr(p.error));
        }
        out := out + [p.value];
      }
      r := Ok(out);
    }
  }

  lemma InvalidTextPassesThrough()
    ensures WrapConnErr(PgError("22P02", "")) == PgError("22P02", "")
  {
    assert "22P02"[0] == '2';
  }

  // ── service ──

  // The checks before the feature loop, in order.
  function Validate(code: string, p: PlanPatch): Option<Error> {
    if ParsePlanCode(code).None? then Some(PlanMissing())
    else if P.Empty(p) then Some(NothingProvided())
    else if p.displayName.Some? && Blank(p.displayName.value) then
      Some(NewError(Validation, "display_name must not be empty"))
    else if p.workflowLimit.Some? && p.workflowLimit.value.Some? && p.workflowLimit.value.value < 0 then
      Some(NewError(Validation, "workflow_template_limit must be >= 0"))
    else if p.tenderLimit.Some? && p.tenderLimit.value.Some? && p.tenderLimit.value.value < 0 then
      Some(NewError(Validation, "tender_limit must be >= 0"))
    else if p.trialDays.Some? && p.trialDays.value < 0 then
      Some(NewError(Validation, "trial_duration_days must be >= 0"))
    else if !P.KnownBranding(p) then Some(NewError(Validation, "custom_branding must be one of: none, logo"))
    else None
  }

  function NothingProvided(): Error {
    DomainError(NoMutableField, "at least one field must be provided", map["code" := Text("no_mutable_field")])
  }

  function NotScalar(k: string): Error {
    DomainError(InvalidFeatureValue, "feature_set values must be scalars", map["key" := Text(k)])
  }

  ghost predicate HasNested(p: PlanPatch) {
    p.features.Some? && exists k | k in p.features.value :: !IsScalar(p.features.value[k])
  }

  // Validation and the loop together accept exactly the patches that keep the
  // table valid.
  lemma AcceptedIff(code: string, p: PlanPatch)
    ensures Validate(code, p).None? && !HasNested(p) <==> ParsePlanCode(code).Some? && P.Accepted(p)
  {
  }

  // With the current version: what the checks and the loop let through is exactly
  // what the store takes and the table invariant survives.
  lemma AcceptsExactlyWhatStaysValid(t: P.Table, code: string, p: PlanPatch, now: Time)
    requires P.Valid(t) && ParsePlanCode(code).Some?
    requires ParsePlanCode(code).value in t && t[ParsePlanCode(code).value].recordVersion == p.recordVersion
    ensures var x := P.ExecPatch(t, ParsePlanCode(code).value, p, now);
      Validate(code, p).None? && !HasNested(p) <==> x.Updated? && P.Valid(x.table)
  {
    hide Validate, HasNested, P.Accepted, P.ExecPatch, P.Valid, ParsePlanCode;
    AcceptedIff(code, p);
    P.AcceptedIffStoredValid(t, ParsePlanCode(code).value, p, now);
  }

  // What CAT-5 may answer. Which nested feature is reported is up to Go's map order.
  ghost predicate PatchOutcome(t: P.Table, code: string, p: PlanPatch, now: Time, io: DbIo, r: Result<Plan, Error>,
      t': P.Table)
  {
    if Validate(code, p).Some? then r == Err(Validate(code, p).value) && t' == t
    else if HasNested(p) then
      && t' == t && p.features.Some?
      && exists k | k in p.features.value :: !IsScalar(p.features.value[k]) && r == Err(NotScalar(k))
    else
      var w := RepoPlanPatch(t, ParsePlanCode(code).value, p, now, io);
      r == w.result && t' == w.table
  }

  class PlanService {
    const repo: PlanRepository
    const cache: ValkeyStore?
    var cacheTTL: int

    ghost predicate Valid()
      reads this
    {
      cacheTTL > 0
    }

    constructor (repo: PlanRepository, cache: ValkeyStore?)
      ensures Valid() && cacheTTL == 60_000 && this.repo == repo && this.cache == cache
    {
      this.repo := repo;
      this.cache := cache;
      this.cacheTTL := DEFAULT_TTL;
    }

    method WithCacheTTL(d: int)
      requires Valid()
      modifies this
      ensures Valid() && cacheTTL == TtlAfter(old(cacheTTL), d)
    {
      if d > 0 {
        cacheTTL := d;
      }
    }

    twostate function Step(le: Collation, io: ListIo): Listed
      reads this, repo.pool, cache
    {
      var items := if cache != null then old(cache.items) else map[];
      ListStep(le, PlansKey, old(repo.pool.db), cache != null, items, old(cacheTTL), io)
    }

    method List(ghost le: Collation, stream: seq<P.Row>, io: ListIo) returns (r: Result<seq<Plan>, Error>)
      requires Valid() && P.Valid(repo.pool.db.plans)
      requires stream == [repo.pool.db.plans[Starter], repo.pool.db.plans[Pro], repo.pool.db.plans[Enterprise]]
      modifies cache
      ensures r == match Step(le, io).result case Ok(c) => Ok(c.plans) case Err(e) => Err(e)
      ensures cache != null ==> cache.items == Step(le, io).items
    {
      hide P.ValidRow, P.Scan;
      if cache != null {
        var raw := cache.Get(PlansKey, io.gotAt, io.getReached);
        if raw.Some? && raw.value.Encoded? && raw.value.catalog.PlanCatalog? {
          return Ok(raw.value.catalog.plans);
        }
      }
      PlansListInFull(repo.pool.db.plans);
      r := repo.List(stream, io.fault);
      assert io.fault.None? ==> forall k | 0 <= k < 3 :: P.Scan(stream[k]).Ok?;
      assert r.Ok? ==> r.value == [r.value[0], r.value[1], r.value[2]];
      if r.Ok? && cache != null {
        cache.Set(PlansKey, Encoded(PlanCatalog(r.value)), cacheTTL, io.setAt, io.setReached);
      }
    }

    // The checks before the loop.
    method CheckFields(code: string, p: PlanPatch) returns (invalid: Option<Error>)
      ensures invalid == Validate(code, p)
      ensures invalid.None? ==> ParsePlanCode(code).Some?
    {
      hide ParsePlanCode, ParseBranding, P.Empty, Blank, NewError, PlanMissing, NothingProvided;
      if ParsePlanCode(code).None? {
        return Some(PlanMissing());
      }
      if P.Empty(p) {
        return Some(NothingProvided());
      }
      if p.displayName.Some? && Blank(p.displayName.value) {
        return Some(NewError(Validation, "display_name must not be empty"));
      }
      if p.workflowLimit.Some? && p.workflowLimit.value.Some? && p.workflowLimit.value.value < 0 {
        return Some(NewError(Validation, "workflow_template_limit must be >= 0"));
      }
      if p.tenderLimit.Some? && p.tenderLimit.value.Some? && p.tenderLimit.value.value < 0 {
        return Some(NewError(Validation, "tender_limit must be >= 0"));
      }
      if p.trialDays.Some? && p.trialDays.value < 0 {
        return Some(NewError(Validation, "trial_duration_days must be >= 0"));
      }
      if p.branding.Some? && ParseBranding(p.branding.value).None? {
        return Some(NewError(Validation, "custom_branding must be one of: none, logo"));
      }
      invalid := None;
    }

    // The loop over feature_set: any value that is no scalar ends it.
    method CheckFeatures(features: Features) returns (bad: Option<string>)
      ensures bad.None? <==> forall k | k in features :: IsScalar(features[k])
      ensures bad.Some? ==> bad.value in features && !IsScalar(features[bad.value])
    {
      var keys := features.Keys;
      while keys != {}
        invariant keys <= features.Keys
        invariant forall k | k in features && k !in keys :: IsScalar(features[k])
        decreases keys
      {
        var k :| k in keys;
        if !IsScalar(features[k]) {
          return Some(k);
        }
        keys := keys - {k};
      }
      bad := None;
    }

    method Patch(code: string, p: PlanPatch, now: Time, io: DbIo, deleteReached: bool) returns (r: Result<Plan, Error>)
      requires RealFaults(io)
      modifies repo.pool, cache
      ensures PatchOutcome(old(repo.pool.db).plans, code, p, now, io, r, repo.pool.db.plans)
      ensures repo.pool.db.departments == old(repo.pool.db).departments
      ensures cache != null ==>
        cache.items == old(cache.items) - if r.Ok? && deleteReached then {PlansKey} else {}
    {
      hide RepoPlanPatch, Validate, ParsePlanCode, NotScalar, IsScalar;
      var invalid := CheckFields(code, p);
      if invalid.Some? {
        return Err(invalid.value);
      }
      if p.features.Some? {
        var bad := CheckFeatures(p.features.value);
        if bad.Some? {
          return Err(NotScalar(bad.value));
        }
      }
      r := repo.Update(ParsePlanCode(code).value, p, now, io);
      if r.Ok? && cache != null {
        cache.Delete(PlansKey, deleteReached);
      }
    }
  }

  lemma StoredPatch(t: P.Table, code: TenantPlan, p: PlanPatch, now: Time, io: DbIo)
    requires P.Valid(t) && P.Accepted(p) && code in t
    ensures var w := RepoPlanPatch(t, code, p, now, io);
      && (w.result.Err? ==> w.table == t)
      && (w.result.Ok? ==>
            && P.Valid(w.table) && code in w.table && w.table == t[code := w.table[code]]
            && P.Evolves(t[code], w.table[code]) && P.Scan(w.table[code]) == Ok(w.result.value)
            && w.table[code].workflowLimit == p.workflowLimit.GetOr(t[code].workflowLimit)
            && w.table[code].tenderLimit == p.tenderLimit.GetOr(t[code].tenderLimit))
  {
    hide P.Valid, P.ValidRow, P.ExecPatch;
    P.PatchKeepsValid(t, code, p, now);
    P.PatchRefinesFlat(t, code, p, now);
  }
}

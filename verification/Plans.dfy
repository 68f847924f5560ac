/** The plans table, the tri-state patch and the UPDATE generated from it
    (plan_repository.go, migrations/000001_init_schema.up.sql). */
module Plans {
  import opened Wrappers
  import opened Domain
  import opened Sql

  // A stored row: limits are NULL or a number, the feature set is any jsonb.
  datatype Row = Row(
    code: TenantPlan,
    displayName: string,
    workflowLimit: Limit,
    tenderLimit: Limit,
    trialDays: int,
    sso: bool,
    branding: Branding,
    featureSet: Any,
    recordVersion: int,
    createdAt: Time,
    updatedAt: Time)

  type Table = map<TenantPlan, Row>

  datatype Column =
    | CDisplayName | CWorkflowLimit | CTenderLimit | CTrialDays | CSso | CBranding | CFeatureSet | CVersion

  datatype Exec = Updated(table: Table, row: Row) | NoMatch | Failed(err: Error)

  function Put(r: Row, c: Column, v: Value): Option<Row> {
    match (c, v)
    case (CDisplayName, VText(s)) => Some(r.(displayName := s))
    case (CWorkflowLimit, VInt(n)) => Some(r.(workflowLimit := Some(n)))
    case (CWorkflowLimit, VNull) => Some(r.(workflowLimit := None))
    case (CTenderLimit, VInt(n)) => Some(r.(tenderLimit := Some(n)))
    case (CTenderLimit, VNull) => Some(r.(tenderLimit := None))
    case (CTrialDays, VInt(n)) => Some(r.(trialDays := n))
    case (CSso, VBool(b)) => Some(r.(sso := b))
    case (CBranding, VText(s)) =>
      (match ParseBranding(s)
       case None => None
       case Some(b) => Some(r.(branding := b)))
    case (CFeatureSet, VJsonb(j)) => Some(r.(featureSet := j))
    case (CVersion, VInt(n)) => Some(r.(recordVersion := n))
    case _ => None
  }

  // CHECK constraints, tested in name order.
  function CheckRow(r: Row): Option<Error> {
    if r.displayName == "" then Some(PgError(CHECK_VIOLATION, "plans_display_name_not_empty"))
    else if r.recordVersion <= 0 then Some(PgError(CHECK_VIOLATION, "plans_record_version_positive"))
    else if r.tenderLimit.Some? && r.tenderLimit.value < 0 then
      Some(PgError(CHECK_VIOLATION, "plans_tender_limit_nonneg"))
    else if r.trialDays < 0 then Some(PgError(CHECK_VIOLATION, "plans_trial_days_nonneg"))
    else if r.workflowLimit.Some? && r.workflowLimit.value < 0 then
      Some(PgError(CHECK_VIOLATION, "plans_wf_limit_nonneg"))
    else None
  }

  const SAMPLE := Row(Starter, "", None, None, 0, false, Plain, ANull, 0, 0, 0)

  // Parameters are converted to their columns' types before any row is looked
  // at (an unknown branding level is rejected even when no row matches).
  predicate Binds(sets: seq<Assign<Column>>, args: seq<Value>) {
    EvalSets(Put, sets, args, SAMPLE).Some?
  }

  // trg_touch_plans, the table's only trigger, bumps a changed row.
  function BeforeUpdate(before: Row, after: Row, now: Time): Row {
    if after != before then after.(recordVersion := before.recordVersion + 1, updatedAt := now) else after
  }

  // UPDATE plans SET ... WHERE code = $k AND record_version = $v RETURNING ...
  function ExecUpdate(t: Table, stmt: Statement<Column>, args: seq<Value>, now: Time): Exec {
    if !WellFormed(stmt.sets) then Failed(PgError("42601", ""))
    else if !Binds(stmt.sets, args) then Failed(PgError("22P02", ""))
    else
      match (Arg(args, stmt.key), Arg(args, stmt.version))
      case (Some(VPlanCode(code)), Some(VInt(v))) =>
        if code !in t || t[code].recordVersion != v then NoMatch
        else
          (match EvalSets(Put, stmt.sets, args, t[code])
           case None => Failed(PgError("22P02", ""))
           case Some(raw) =>
             var after := BeforeUpdate(t[code], raw, now);
             match CheckRow(after)
             case Some(e) => Failed(e)
             case None => Updated(t[code := after], after))
      case _ => Failed(PgError("42804", ""))
  }

  // ── the statement PlanRepository.Update generates ──

  function TextOf(o: Option<string>): Option<Value> { if o.Some? then Some(VText(o.value)) else None }
  function IntOf(o: Option<int>): Option<Value> { if o.Some? then Some(VInt(o.value)) else None }
  function BoolOf(o: Option<bool>): Option<Value> { if o.Some? then Some(VBool(o.value)) else None }
  function JsonOf(o: Option<Features>): Option<Value> { if o.Some? then Some(VJsonb(AObj(o.value))) else None }

  // A nil *int reaches the driver as NULL.
  function LimitValue(l: Limit): Value { if l.Some? then VInt(l.value) else VNull }
  function LimitOf(o: Option<Limit>): Option<Value> { if o.Some? then Some(LimitValue(o.value)) else None }

  function PatchBuilder(code: TenantPlan, p: PlanPatch): Builder<Column> {
    Builder([], [VPlanCode(code), VInt(p.recordVersion)])
      .AddIf(CDisplayName, TextOf(p.displayName))
      .AddIf(CWorkflowLimit, LimitOf(p.workflowLimit))
      .AddIf(CTenderLimit, LimitOf(p.tenderLimit))
      .AddIf(CTrialDays, IntOf(p.trialDays))
      .AddIf(CSso, BoolOf(p.sso))
      .AddIf(CBranding, TextOf(p.branding))
      .AddIf(CFeatureSet, JsonOf(p.features))
  }

  function ExecPatch(t: Table, code: TenantPlan, p: PlanPatch, now: Time): Exec {
    var b := PatchBuilder(code, p);
    ExecUpdate(t, Statement(b.sets, 1, 2), b.args, now)
  }

  // ── what it is meant to do ──

  predicate Empty(p: PlanPatch) {
    p.displayName.None? && p.workflowLimit.None? && p.tenderLimit.None? && p.trialDays.None?
    && p.sso.None? && p.branding.None? && p.features.None?
  }

  predicate KnownBranding(p: PlanPatch) {
    p.branding.Some? ==> ParseBranding(p.branding.value).Some?
  }

  // The patched row: every present field replaced, nothing else touched.
  function Merge(r: Row, p: PlanPatch): Row
    requires KnownBranding(p)
  {
    r.(displayName := p.displayName.GetOr(r.displayName),
       workflowLimit := p.workflowLimit.GetOr(r.workflowLimit),
       tenderLimit := p.tenderLimit.GetOr(r.tenderLimit),
       trialDays := p.trialDays.GetOr(r.trialDays),
       sso := p.sso.GetOr(r.sso),
       branding := if p.branding.Some? then ParseBranding(p.branding.value).value else r.branding,
       featureSet := if p.features.Some? then AObj(p.features.value) else r.featureSet)
  }

  function FlatPatch(t: Table, code: TenantPlan, p: PlanPatch, now: Time): Exec
    requires KnownBranding(p)
  {
    if code !in t || t[code].recordVersion != p.recordVersion then NoMatch
    else
      var after := BeforeUpdate(t[code], Merge(t[code], p), now);
      match CheckRow(after)
      case Some(e) => Failed(e)
      case None => Updated(t[code := after], after)
  }

  // The order in which the builder considers the columns.
  function Rank(c: Column): nat {
    match c
    case CDisplayName => 0 case CWorkflowLimit => 1 case CTenderLimit => 2 case CTrialDays => 3
    case CSso => 4 case CBranding => 5 case CFeatureSet => 6 case CVersion => 7
  }

  // Each placeholder resolves to its own field's value: the generated items turn
  // a row into one PutIf per field; $1 and $2 stay the key and the version.
  lemma BuilderSteps(code: TenantPlan, p: PlanPatch, row: Row)
    ensures Progress(Put, Rank, PatchBuilder(code, p), 7, row, Puts(row, p))
    ensures PatchBuilder(code, p).args[..2] == [VPlanCode(code), VInt(p.recordVersion)]
    ensures PatchBuilder(code, p).sets == [] <==> Empty(p)
  {
    hide Progress, Put, PutIf, Names;
    var b0: Builder<Column> := Builder([], [VPlanCode(code), VInt(p.recordVersion)]);
    Start(Put, Rank, b0.args, row);
    var r0 := Some(row);
    var b1 := AddOne(Put, Rank, b0, CDisplayName, TextOf(p.displayName), row, r0);
    var r1 := PutIf(Put, r0, CDisplayName, TextOf(p.displayName));
    var b2 := AddOne(Put, Rank, b1, CWorkflowLimit, LimitOf(p.workflowLimit), row, r1);
    var r2 := PutIf(Put, r1, CWorkflowLimit, LimitOf(p.workflowLimit));
    var b3 := AddOne(Put, Rank, b2, CTenderLimit, LimitOf(p.tenderLimit), row, r2);
    var r3 := PutIf(Put, r2, CTenderLimit, LimitOf(p.tenderLimit));
    var b4 := AddOne(Put, Rank, b3, CTrialDays, IntOf(p.trialDays), row, r3);
    var r4 := PutIf(Put, r3, CTrialDays, IntOf(p.trialDays));
    var b5 := AddOne(Put, Rank, b4, CSso, BoolOf(p.sso), row, r4);
    var r5 := PutIf(Put, r4, CSso, BoolOf(p.sso));
    var b6 := AddOne(Put, Rank, b5, CBranding, TextOf(p.branding), row, r5);
    var r6 := PutIf(Put, r5, CBranding, TextOf(p.branding));
    var b7 := AddOne(Put, Rank, b6, CFeatureSet, JsonOf(p.features), row, r6);
  }

  function Puts(row: Row, p: PlanPatch): Option<Row> {
    PutIf(Put, PutIf(Put, PutIf(Put, PutIf(Put, PutIf(Put, PutIf(Put, PutIf(Put, Some(row),
      CDisplayName, TextOf(p.displayName)), CWorkflowLimit, LimitOf(p.workflowLimit)),
      CTenderLimit, LimitOf(p.tenderLimit)), CTrialDays, IntOf(p.trialDays)), CSso, BoolOf(p.sso)),
      CBranding, TextOf(p.branding)), CFeatureSet, JsonOf(p.features))
  }

  lemma PutEach(r: Row, p: PlanPatch)
    ensures PutIf(Put, Some(r), CDisplayName, TextOf(p.displayName))
      == Some(r.(displayName := p.displayName.GetOr(r.displayName)))
    ensures PutIf(Put, Some(r), CWorkflowLimit, LimitOf(p.workflowLimit))
      == Some(r.(workflowLimit := p.workflowLimit.GetOr(r.workflowLimit)))
    ensures PutIf(Put, Some(r), CTenderLimit, LimitOf(p.tenderLimit))
      == Some(r.(tenderLimit := p.tenderLimit.GetOr(r.tenderLimit)))
    ensures PutIf(Put, Some(r), CTrialDays, IntOf(p.trialDays)) == Some(r.(trialDays := p.trialDays.GetOr(r.trialDays)))
    ensures PutIf(Put, Some(r), CSso, BoolOf(p.sso)) == Some(r.(sso := p.sso.GetOr(r.sso)))
    ensures PutIf(Put, Some(r), CBranding, TextOf(p.branding))
         == if p.branding.None? then Some(r)
            else if ParseBranding(p.branding.value).None? then None
            else Some(r.(branding := ParseBranding(p.branding.value).value))
    ensures PutIf(Put, Some(r), CFeatureSet, JsonOf(p.features))
         == Some(r.(featureSet := if p.features.Some? then AObj(p.features.value) else r.featureSet))
    ensures PutIf(Put, None, CFeatureSet, JsonOf(p.features)) == None
  {
  }

  lemma PutsAreMerge(row: Row, p: PlanPatch)
    ensures Puts(row, p) == if KnownBranding(p) then Some(Merge(row, p)) else None
  {
    hide PutIf, TextOf, LimitOf, IntOf, BoolOf, JsonOf, ParseBranding;
    PutEach(row, p);
    var r1 := row.(displayName := p.displayName.GetOr(row.displayName));
    PutEach(r1, p);
    var r2 := r1.(workflowLimit := p.workflowLimit.GetOr(r1.workflowLimit));
    PutEach(r2, p);
    var r3 := r2.(tenderLimit := p.tenderLimit.GetOr(r2.tenderLimit));
    PutEach(r3, p);
    var r4 := r3.(trialDays := p.trialDays.GetOr(r3.trialDays));
    PutEach(r4, p);
    var r5 := r4.(sso := p.sso.GetOr(r4.sso));
    PutEach(r5, p);
    if KnownBranding(p) {
      var r6 := if p.branding.Some? then r5.(branding := ParseBranding(p.branding.value).value) else r5;
      PutEach(r6, p);
    }
  }

  // The generated SET list and arguments evaluate to the merge on every row
  // (and to an error exactly for an unknown branding level), $1 and $2 are the
  // key and the expected version, and the list is one PostgreSQL accepts exactly
  // when some field is present.
  lemma BuilderMeaning(code: TenantPlan, p: PlanPatch, row: Row)
    ensures var b := PatchBuilder(code, p);
      && EvalSets(Put, b.sets, b.args, row) == (if KnownBranding(p) then Some(Merge(row, p)) else None)
      && Arg(b.args, 1) == Some(VPlanCode(code)) && Arg(b.args, 2) == Some(VInt(p.recordVersion))
      && (WellFormed(b.sets) <==> !Empty(p))
  {
    hide PatchBuilder, Puts, Put, Merge, Names;
    BuilderSteps(code, p, row);
    PutsAreMerge(row, p);
    var args := PatchBuilder(code, p).args;
    assert args[0] == args[..2][0] && args[1] == args[..2][1];
  }

  // Statement, trigger and CHECKs together are the flat patch.
  lemma PatchRefinesFlat(t: Table, code: TenantPlan, p: PlanPatch, now: Time)
    requires !Empty(p)
    ensures ExecPatch(t, code, p, now)
         == if KnownBranding(p) then FlatPatch(t, code, p, now) else Failed(PgError("22P02", ""))
  {
    hide PatchBuilder, EvalSets, Put, Merge;
    BuilderMeaning(code, p, SAMPLE);
    if code in t {
      BuilderMeaning(code, p, t[code]);
    }
  }

  // ── the service's validation, and what it buys ──

  predicate Accepted(p: PlanPatch) {
    && !Empty(p)
    && (p.displayName.Some? ==> !Blank(p.displayName.value))
    && (p.workflowLimit.Some? && p.workflowLimit.value.Some? ==> p.workflowLimit.value.value >= 0)
    && (p.tenderLimit.Some? && p.tenderLimit.value.Some? ==> p.tenderLimit.value.value >= 0)
    && (p.trialDays.Some? ==> p.trialDays.value >= 0)
    && KnownBranding(p)
    && (p.features.Some? ==> forall k | k in p.features.value :: IsScalar(p.features.value[k]))
  }

  // Exactly the three tiers, limits null or non-negative, display names more
  // than white space, every feature a scalar.
  ghost predicate Valid(t: Table) {
    && t.Keys == {Starter, Pro, Enterprise}
    && forall c | c in t :: ValidRow(t[c]) && t[c].code == c
  }

  lemma AllPlans(code: TenantPlan)
    ensures code in {Starter, Pro, Enterprise}
  {
    match code { case Starter => case Pro => case Enterprise => }
  }

  ghost predicate ValidRow(r: Row) {
    && CheckRow(r).None? && !Blank(r.displayName)
    && r.featureSet.AObj? && forall k | k in r.featureSet.fields :: IsScalar(r.featureSet.fields[k])
  }

  // The invariant, column by column.
  lemma ValidIff(t: Table)
    ensures Valid(t) <==>
      && Starter in t && Pro in t && Enterprise in t
      && forall c | c in t ::
        && t[c].code == c && !Blank(t[c].displayName) && t[c].trialDays >= 0 && t[c].recordVersion >= 1
        && (t[c].workflowLimit == None || t[c].workflowLimit.value >= 0)
        && (t[c].tenderLimit == None || t[c].tenderLimit.value >= 0)
        && t[c].featureSet.AObj?
        && forall k | k in t[c].featureSet.fields ::
          !t[c].featureSet.fields[k].AArr? && !t[c].featureSet.fields[k].AObj?
  {
    forall c | c in t ensures c in {Starter, Pro, Enterprise} {
      AllPlans(c);
    }
  }

  ghost predicate Evolves(o: Row, n: Row) {
    || n == o
    || (n.recordVersion == o.recordVersion + 1 && n.code == o.code && n.createdAt == o.createdAt)
  }

  lemma MergeKeepsValidRow(r: Row, p: PlanPatch, now: Time)
    requires ValidRow(r) && Accepted(p)
    ensures ValidRow(BeforeUpdate(r, Merge(r, p), now))
  {
  }

  lemma FlatPatchKeepsValid(t: Table, code: TenantPlan, p: PlanPatch, now: Time)
    requires Valid(t) && Accepted(p)
    ensures code in t
    ensures var x := FlatPatch(t, code, p, now);
      && (x.NoMatch? <==> t[code].recordVersion != p.recordVersion)
      && !x.Failed?
      && (x.Updated? ==>
            && Valid(x.table) && x.table == t[code := x.row] && Evolves(t[code], x.row)
            && (x.row.recordVersion == p.recordVersion <==> x.row == t[code]))
  {
    hide CheckRow;
    AllPlans(code);
    MergeKeepsValidRow(t[code], p, now);
  }

  lemma PatchKeepsValid(t: Table, code: TenantPlan, p: PlanPatch, now: Time)
    requires Valid(t) && Accepted(p)
    ensures code in t
    ensures var x := ExecPatch(t, code, p, now);
      && (x.NoMatch? <==> t[code].recordVersion != p.recordVersion)
      && !x.Failed?
      && (x.Updated? ==>
            && Valid(x.table) && x.table == t[code := x.row] && Evolves(t[code], x.row)
            && (x.row.recordVersion == p.recordVersion <==> x.row == t[code]))
  {
    hide ExecPatch, FlatPatch, Valid, Evolves;
    FlatPatchKeepsValid(t, code, p, now);
    PatchRefinesFlat(t, code, p, now);
  }

  // A merged row within the rules comes of a patch within the rules.
  lemma ValidMergeOnly(r: Row, p: PlanPatch, now: Time)
    requires !Empty(p) && KnownBranding(p)
    requires ValidRow(BeforeUpdate(r, Merge(r, p), now))
    ensures Accepted(p)
  {
  }

  // With the current version, the patches the service accepts are exactly those
  // that are stored and leave the table valid.
  lemma AcceptedIffStoredValid(t: Table, code: TenantPlan, p: PlanPatch, now: Time)
    requires Valid(t) && code in t && t[code].recordVersion == p.recordVersion
    ensures var x := ExecPatch(t, code, p, now); x.Updated? && Valid(x.table) <==> Accepted(p)
  {
    hide Accepted, ValidRow, Merge, BeforeUpdate, PatchBuilder, CheckRow;
    if Accepted(p) {
      PatchKeepsValid(t, code, p, now);
    }
    BuilderMeaning(code, p, t[code]);
    if !Empty(p) {
      PatchRefinesFlat(t, code, p, now);
      var x := ExecPatch(t, code, p, now);
      if x.Updated? && Valid(x.table) {
        assert ValidRow(x.table[code]);
        ValidMergeOnly(t[code], p, now);
      }
    }
  }

  // The database has no rule about features: without the service's loop a
  // nested value is stored.
  lemma StoreAloneAcceptsNestedFeatures(t: Table, now: Time)
    requires Valid(t)
    ensures var p := PlanPatch(None, None, None, None, None, None, Some(map["k" := AArr([])]),
                               t[Starter].recordVersion);
      var x := ExecPatch(t, Starter, p, now);
      x.Updated? && !Valid(x.table)
  {
    var m := map["k" := AArr([])];
    var p := PlanPatch(None, None, None, None, None, None, Some(m), t[Starter].recordVersion);
    PatchRefinesFlat(t, Starter, p, now);
    assert "k" in m && !IsScalar(m["k"]);
    var x := ExecPatch(t, Starter, p, now);
    assert x.table[Starter].featureSet == AObj(m);
  }

  // Nor does it let a statement choose a version: the touch trigger puts the next.
  lemma VersionCannotBeChosen(t: Table, code: TenantPlan, version: int, now: Time)
    requires Valid(t) && code in t && version != t[code].recordVersion
    ensures var x := ExecUpdate(t, Statement([Assign(CVersion, 3)], 1, 2),
                                [VPlanCode(code), VInt(t[code].recordVersion), VInt(version)], now);
      x.Updated? && x.row == t[code].(recordVersion := t[code].recordVersion + 1, updatedAt := now)
  {
    var b : Builder<Column> := Builder([], [VPlanCode(code), VInt(t[code].recordVersion)]);
    AddMeaning(Put, b, CVersion, VInt(version), t[code]);
    AddMeaning(Put, b, CVersion, VInt(version), SAMPLE);
    var c := b.Add(CVersion, VInt(version));
    assert c.sets == [Assign(CVersion, 3)];
    assert c.args == [VPlanCode(code), VInt(t[code].recordVersion), VInt(version)];
  }

  // ── reading a row back ──

  // scanPlan: SQL NULL never occurs, JSON null and the empty object both read
  // as no features, any other non-object fails to decode.
  function Scan(r: Row): Result<Plan, Error> {
    if !r.featureSet.ANull? && !r.featureSet.AObj? then Err(OtherError)
    else
      Ok(Plan(r.code, r.displayName, r.workflowLimit, r.tenderLimit, r.trialDays, r.sso, r.branding,
              if r.featureSet.AObj? then r.featureSet.fields else map[],
              r.recordVersion, r.createdAt, r.updatedAt))
  }

  // A row scans exactly when its features are JSON null or an object, and every
  // field is then its column.
  lemma ScanIff(r: Row)
    ensures Scan(r).Ok? <==> r.featureSet.ANull? || r.featureSet.AObj?
    ensures Scan(r).Ok? ==>
      var p := Scan(r).value;
      && p.code == r.code && p.displayName == r.displayName && p.workflowLimit == r.workflowLimit
      && p.tenderLimit == r.tenderLimit && p.trialDays == r.trialDays && p.sso == r.sso && p.branding == r.branding
      && (if p.features == map[] then r.featureSet in {ANull, AObj(map[])} else r.featureSet == AObj(p.features))
      && p.recordVersion == r.recordVersion && p.createdAt == r.createdAt && p.updatedAt == r.updatedAt
  {
  }

  // ── the algebra of patches ──

  // Everything but the version and the update time.
  function Content(r: Row): Row {
    r.(recordVersion := 0, updatedAt := 0)
  }

  function Over<T>(first: Option<T>, second: Option<T>): Option<T> {
    if second.Some? then second else first
  }

  // One patch for two in a row; the second's present fields win.
  function Then(p: PlanPatch, q: PlanPatch): PlanPatch {
    PlanPatch(Over(p.displayName, q.displayName), Over(p.workflowLimit, q.workflowLimit),
              Over(p.tenderLimit, q.tenderLimit), Over(p.trialDays, q.trialDays), Over(p.sso, q.sso),
              Over(p.branding, q.branding), Over(p.features, q.features),
              p.recordVersion)
  }

  lemma MergeTwice(r: Row, p: PlanPatch, q: PlanPatch, now: Time)
    requires KnownBranding(p) && KnownBranding(q)
    ensures Content(Merge(BeforeUpdate(r, Merge(r, p), now), q)) == Content(Merge(r, Then(p, q)))
  {
  }

  lemma ThenAccepted(p: PlanPatch, q: PlanPatch)
    requires Accepted(p) && Accepted(q)
    ensures Accepted(Then(p, q)) && Then(p, q).recordVersion == p.recordVersion
  {
  }

  // What the trigger adds to a merge: nothing to the content, one to the
  // version exactly when the content changed.
  lemma BumpIffChanged(r: Row, p: PlanPatch, now: Time)
    requires KnownBranding(p)
    ensures var a := BeforeUpdate(r, Merge(r, p), now);
      && Content(a) == Content(Merge(r, p))
      && a.recordVersion == if Content(a) == Content(r) then r.recordVersion else r.recordVersion + 1
  {
  }

  // An accepted patch with the current version stores the merge.
  lemma PatchStores(t: Table, code: TenantPlan, p: PlanPatch, now: Time)
    requires Valid(t) && Accepted(p) && code in t && t[code].recordVersion == p.recordVersion
    ensures var x := ExecPatch(t, code, p, now);
      x.Updated? && Valid(x.table) && x.table == t[code := x.row]
        && x.row == BeforeUpdate(t[code], Merge(t[code], p), now)
  {
    hide ExecPatch, CheckRow, Merge;
    PatchKeepsValid(t, code, p, now);
    PatchRefinesFlat(t, code, p, now);
  }

  // p, then q with the version p returned, stores the same content as the
  // combined patch in one request, and never a lower version.
  lemma PatchesCompose(t: Table, code: TenantPlan, p: PlanPatch, q: PlanPatch, now: Time, later: Time)
    requires Valid(t) && Accepted(p) && Accepted(q)
    requires code in t && t[code].recordVersion == p.recordVersion
    ensures var x := ExecPatch(t, code, p, now);
      x.Updated? &&
      var y := ExecPatch(x.table, code, q.(recordVersion := x.row.recordVersion), later);
      var z := ExecPatch(t, code, Then(p, q), later);
      y.Updated? && z.Updated?
      && Content(y.row) == Content(z.row)
      && y.table == t[code := y.row] && z.table == t[code := z.row]
      && z.row.recordVersion <= y.row.recordVersion
  {
    hide ExecPatch, Merge, Then, BeforeUpdate, Valid, Content;
    PatchStores(t, code, p, now);
    var x := ExecPatch(t, code, p, now);
    var q' := q.(recordVersion := x.row.recordVersion);
    PatchStores(x.table, code, q', later);
    ThenAccepted(p, q);
    PatchStores(t, code, Then(p, q), later);
    MergeTwice(t[code], p, q', now);
    assert Then(p, q') == Then(p, q) by { SameThen(p, q, x.row.recordVersion); }
    BumpIffChanged(t[code], p, now);
    BumpIffChanged(x.row, q', later);
    BumpIffChanged(t[code], Then(p, q), later);
  }

  lemma SameThen(p: PlanPatch, q: PlanPatch, v: int)
    ensures Then(p, q.(recordVersion := v)) == Then(p, q)
  {
  }
}

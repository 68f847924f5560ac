/** Both tables as one database, the writes the service issues, and what holds
    at any two moments of any sequence of commits. */
module Runs {
  import opened Wrappers
  import opened Domain
  import D = Departments
  import P = Plans

  datatype Db = Db(departments: D.Table, plans: P.Table)

  // The repositories' three writes, with the id uuid.New() picked.
  datatype Write =
    | InsertDept(id: Uuid, code: string, name: string, isSystem: bool)
    | PatchDept(id: Uuid, newName: Option<string>, active: Option<bool>, expected: int)
    | PatchPlan(plan: TenantPlan, patch: PlanPatch)

  datatype Outcome = Committed(db: Db) | Unmatched | Rejected(err: Error)

  // One statement, run and committed (or not) as one step.
  function Execute(db: Db, w: Write, now: Time): Outcome {
    match w
    case InsertDept(id, code, name, isSystem) =>
      (match D.ExecInsert(db.departments, id, code, name, isSystem, true, now)
       case Updated(t, _) => Committed(db.(departments := t))
       case NoMatch => Unmatched
       case Failed(e) => Rejected(e))
    case PatchDept(id, name, active, expected) =>
      (match D.ExecPatch(db.departments, id, name, active, expected, now)
       case Updated(t, _) => Committed(db.(departments := t))
       case NoMatch => Unmatched
       case Failed(e) => Rejected(e))
    case PatchPlan(code, patch) =>
      (match P.ExecPatch(db.plans, code, patch, now)
       case Updated(t, _) => Committed(db.(plans := t))
       case NoMatch => Unmatched
       case Failed(e) => Rejected(e))
  }

  // What the services let through, and the assumption that uuid.New() is fresh.
  predicate Issued(db: Db, w: Write) {
    match w
    case InsertDept(id, code, name, _) => !Blank(code) && !Blank(name) && id !in db.departments
    case PatchDept(_, name, active, _) => (name.Some? || active.Some?) && (name.Some? ==> !Blank(name.value))
    case PatchPlan(_, patch) => P.Accepted(patch)
  }

  ghost predicate Valid(db: Db) {
    D.Valid(db.departments) && P.Valid(db.plans)
  }

  // ── the seeded database ──

  const CODES := ["ENGINEERING", "DESIGN", "PROCUREMENT", "FINANCE", "LEGAL"]
  const NAMES := ["Engineering", "Design", "Procurement", "Finance", "Legal"]

  function SeedDept(id: Uuid, code: string, name: string, at: Time): Department {
    Department(id, code, name, true, true, 1, at, at)
  }

  function StarterRow(at: Time): P.Row {
    P.Row(Starter, "Starter", Some(5), Some(10), 30, false, Plain, AObj(map[]), 1, at, at)
  }

  function ProRow(at: Time): P.Row {
    P.Row(Pro, "Pro", Some(50), Some(100), 30, false, Logo, AObj(map[]), 1, at, at)
  }

  function EnterpriseRow(at: Time): P.Row {
    P.Row(Enterprise, "Enterprise", None, None, 30, true, Logo,
          AObj(map["require_mfa_all_users_allowed" := ABool(true)]), 1, at, at)
  }

  function Seed(ids: seq<Uuid>, at: Time): Db
    requires SeedIds(ids)
  {
    Db(map i | 0 <= i < 5 :: ids[i] := SeedDept(ids[i], CODES[i], NAMES[i], at),
       map[Starter := StarterRow(at), Pro := ProRow(at), Enterprise := EnterpriseRow(at)])
  }

  predicate SeedIds(ids: seq<Uuid>) {
    |ids| == 5 && forall i, j | 0 <= i < j < 5 :: ids[i] != ids[j]
  }

  ghost predicate Initial(db: Db) {
    exists ids, at :: SeedIds(ids) && db == Seed(ids, at)
  }

  lemma SeedDepartmentsValid(ids: seq<Uuid>, at: Time)
    requires SeedIds(ids)
    ensures D.Valid(Seed(ids, at).departments)
    ensures forall id | id in Seed(ids, at).departments :: Seed(ids, at).departments[id].recordVersion == 1
  {
    SeedTexts();
    hide Blank;
    var t := Seed(ids, at).departments;
    forall id | id in t
      ensures exists k :: 0 <= k < 5 && id == ids[k] && t[id] == SeedDept(ids[k], CODES[k], NAMES[k], at)
    {
    }
  }

  lemma SeedTexts()
    ensures forall k | 0 <= k < 5 :: !Blank(CODES[k]) && !Blank(NAMES[k])
    ensures forall k, l | 0 <= k < l < 5 :: CODES[k] != CODES[l]
  {
    assert CODES[0][0] == 'E' && CODES[1][0] == 'D' && CODES[2][0] == 'P' && CODES[3][0] == 'F' && CODES[4][0] == 'L';
    assert NAMES[0][0] == 'E' && NAMES[1][0] == 'D' && NAMES[2][0] == 'P' && NAMES[3][0] == 'F' && NAMES[4][0] == 'L';
  }

  lemma SeedRowsValid(at: Time)
    ensures P.ValidRow(StarterRow(at)) && P.ValidRow(ProRow(at)) && P.ValidRow(EnterpriseRow(at))
  {
    assert "Starter"[0] == 'S' && "Pro"[0] == 'P' && "Enterprise"[0] == 'E';
  }

  lemma SeedPlansValid(ids: seq<Uuid>, at: Time)
    requires SeedIds(ids)
    ensures P.Valid(Seed(ids, at).plans)
    ensures forall code | code in Seed(ids, at).plans :: Seed(ids, at).plans[code].recordVersion == 1
  {
    SeedRowsValid(at);
    hide P.ValidRow;
  }

  lemma SeedIsValid(ids: seq<Uuid>, at: Time)
    requires SeedIds(ids)
    ensures Valid(Seed(ids, at))
    ensures forall key :: RowAt(Seed(ids, at), key).Some? ==> Version(RowAt(Seed(ids, at), key).value) == 1
  {
    hide Seed, D.Valid, P.Valid;
    SeedDepartmentsValid(ids, at);
    SeedPlansValid(ids, at);
  }

  // The seeded rows, column by column; a run may start from them whatever ids and
  // whatever moment the migration got.
  lemma SeedShows(ids: seq<Uuid>, at: Time, k: nat)
    requires SeedIds(ids) && k < 5
    ensures Initial(Seed(ids, at))
    ensures forall id | id in Seed(ids, at).departments :: id in ids
    ensures ids[k] in Seed(ids, at).departments
    ensures
      var d := Seed(ids, at).departments[ids[k]];
      && d.id == ids[k] && d.isSystem && d.isActive && d.recordVersion == 1 && d.createdAt == d.updatedAt == at
      && (k == 0 ==> d.code == "ENGINEERING" && d.name == "Engineering")
      && (k == 1 ==> d.code == "DESIGN" && d.name == "Design")
      && (k == 2 ==> d.code == "PROCUREMENT" && d.name == "Procurement")
      && (k == 3 ==> d.code == "FINANCE" && d.name == "Finance")
      && (k == 4 ==> d.code == "LEGAL" && d.name == "Legal")
  {
    SeedRowAt(ids, at, k);
    hide Seed;
  }

  lemma SeedRowAt(ids: seq<Uuid>, at: Time, k: nat)
    requires SeedIds(ids) && k < 5
    ensures ids[k] in Seed(ids, at).departments
    ensures Seed(ids, at).departments[ids[k]] == SeedDept(ids[k], CODES[k], NAMES[k], at)
    ensures forall id | id in Seed(ids, at).departments :: id in ids
  {
    hide SeedDept;
  }

  lemma SeedPlansShow(ids: seq<Uuid>, at: Time)
    requires SeedIds(ids)
    ensures var t := Seed(ids, at).plans;
      && t.Keys == {Starter, Pro, Enterprise}
      && (forall c | c in t :: t[c].code == c && t[c].trialDays == 30 && t[c].recordVersion == 1)
      && (forall c | c in t :: t[c].createdAt == t[c].updatedAt == at && t[c].featureSet.AObj?)
      && t[Starter].displayName == "Starter" && t[Pro].displayName == "Pro" && t[Enterprise].displayName == "Enterprise"
      && t[Starter].workflowLimit == Some(5) && t[Pro].workflowLimit == Some(50)
      && t[Starter].tenderLimit == Some(10) && t[Pro].tenderLimit == Some(100)
      && t[Enterprise].workflowLimit == t[Enterprise].tenderLimit == None
      && !t[Starter].sso && !t[Pro].sso && t[Enterprise].sso
      && t[Starter].branding == Plain && t[Pro].branding == t[Enterprise].branding == Logo
      && t[Starter].featureSet == t[Pro].featureSet == AObj(map[])
      && t[Enterprise].featureSet == AObj(map["require_mfa_all_users_allowed" := ABool(true)])
  {
  }

  // ── one row of either table ──

  datatype Key = DeptKey(id: Uuid) | PlanKey(code: TenantPlan)
  datatype Row = DeptRow(d: Department) | PlanRow(p: P.Row)

  function RowAt(db: Db, key: Key): Option<Row> {
    match key
    case DeptKey(id) => if id in db.departments then Some(DeptRow(db.departments[id])) else None
    case PlanKey(code) => if code in db.plans then Some(PlanRow(db.plans[code])) else None
  }

  function Version(r: Row): int {
    match r
    case DeptRow(d) => d.recordVersion
    case PlanRow(p) => p.recordVersion
  }

  // What no number of updates changes.
  ghost predicate SameIdentity(o: Row, n: Row) {
    match (o, n)
    case (DeptRow(a), DeptRow(b)) =>
      a.id == b.id && a.code == b.code && a.isSystem == b.isSystem && a.createdAt == b.createdAt
      && (a.isSystem ==> a.name == b.name && a.isActive == b.isActive)
    case (PlanRow(a), PlanRow(b)) => a.code == b.code && a.createdAt == b.createdAt
    case _ => false
  }

  // How a row may stand to its own earlier self.
  ghost predicate Later(o: Row, n: Row) {
    SameIdentity(o, n) && Version(o) <= Version(n) && (Version(o) == Version(n) ==> o == n)
  }

  // What one commit does to the row it targets: nothing, or the next version.
  ghost predicate NextRow(o: Row, n: Row) {
    Later(o, n) && (n == o || Version(n) == Version(o) + 1)
  }

  lemma LaterIsTransitive(a: Row, b: Row, c: Row)
    requires Later(a, b) && Later(b, c)
    ensures Later(a, c)
  {
  }

  lemma LaterIsReflexive(a: Row)
    ensures Later(a, a)
  {
  }

  function Target(w: Write): Key {
    match w
    case InsertDept(id, _, _, _) => DeptKey(id)
    case PatchDept(id, _, _, _) => DeptKey(id)
    case PatchPlan(code, _) => PlanKey(code)
  }

  function Expected(w: Write): Option<int> {
    match w
    case InsertDept(_, _, _, _) => None
    case PatchDept(_, _, _, expected) => Some(expected)
    case PatchPlan(_, patch) => Some(patch.recordVersion)
  }

  // The guard of the UPDATE: no such row, or one with another version.
  predicate Misses(db: Db, key: Key, expected: int) {
    RowAt(db, key).None? || Version(RowAt(db, key).value) != expected
  }

  // Everything the run theorems need to know about one commit: the other rows
  // stay, an insert adds a row at version 1, a patch met its guard and took its
  // row one step further.
  ghost predicate Effect(db: Db, w: Write, db': Db) {
    && Valid(db')
    && (forall key | key != Target(w) :: RowAt(db', key) == RowAt(db, key))
    && RowAt(db', Target(w)).Some?
    && (Expected(w).None? ==> RowAt(db, Target(w)).None? && Version(RowAt(db', Target(w)).value) == 1)
    && (Expected(w).Some? ==>
          && !Misses(db, Target(w), Expected(w).value)
          && NextRow(RowAt(db, Target(w)).value, RowAt(db', Target(w)).value))
  }

  lemma InsertEffect(db: Db, w: Write, now: Time)
    requires Valid(db) && w.InsertDept? && Issued(db, w) && Execute(db, w, now).Committed?
    ensures Effect(db, w, Execute(db, w, now).db)
  {
    hide D.ExecInsert, D.Valid, P.Valid;
    D.InsertKeepsValid(db.departments, w.id, w.code, w.name, w.isSystem, now);
  }

  lemma PatchDeptEffect(db: Db, w: Write, now: Time)
    requires Valid(db) && w.PatchDept? && Issued(db, w) && Execute(db, w, now).Committed?
    ensures Effect(db, w, Execute(db, w, now).db)
  {
    hide D.ExecPatch, D.Valid, P.Valid;
    D.PatchKeepsValid(db.departments, w.id, w.newName, w.active, w.expected, now);
    if w.id in db.departments && db.departments[w.id].isSystem {
      SystemRowIsActive(db.departments, w.id);
    }
  }

  lemma PatchPlanEffect(db: Db, w: Write, now: Time)
    requires Valid(db) && w.PatchPlan? && Issued(db, w) && Execute(db, w, now).Committed?
    ensures Effect(db, w, Execute(db, w, now).db)
  {
    hide P.ExecPatch, P.Accepted, D.Valid, P.ValidRow;
    P.AllPlans(w.plan);
    P.PatchKeepsValid(db.plans, w.plan, w.patch, now);
  }

  lemma CommitFacts(db: Db, w: Write, now: Time)
    requires Valid(db) && Issued(db, w) && Execute(db, w, now).Committed?
    ensures Effect(db, w, Execute(db, w, now).db)
  {
    hide Execute, Effect, Issued, Valid;
    match w
    case InsertDept(_, _, _, _) => InsertEffect(db, w, now);
    case PatchDept(_, _, _, _) => PatchDeptEffect(db, w, now);
    case PatchPlan(_, _) => PatchPlanEffect(db, w, now);
  }

  lemma SystemRowIsActive(t: D.Table, id: Uuid)
    requires D.Valid(t) && id in t && t[id].isSystem
    ensures t[id].isActive
  {
    assert D.CheckRow(t[id]).None?;
  }

  lemma DeptUnmatchedIffMisses(db: Db, id: Uuid, name: Option<string>, active: Option<bool>, expected: int, now: Time)
    requires Valid(db) && (name.Some? || active.Some?)
    ensures Execute(db, PatchDept(id, name, active, expected), now).Unmatched? <==> Misses(db, DeptKey(id), expected)
  {
    hide D.ExecPatch, D.Valid, D.CheckRow, P.Valid;
    D.PatchRefinesFlat(db.departments, id, name, active, expected, now);
  }

  lemma PlanUnmatchedIffMisses(db: Db, code: TenantPlan, patch: PlanPatch, now: Time)
    requires Valid(db) && P.Accepted(patch)
    ensures Execute(db, PatchPlan(code, patch), now).Unmatched? <==> Misses(db, PlanKey(code), patch.recordVersion)
    ensures !Execute(db, PatchPlan(code, patch), now).Rejected?
  {
    hide P.ExecPatch, P.ValidRow, P.Accepted, P.FlatPatch, D.Valid;
    P.PatchKeepsValid(db.plans, code, patch, now);
    P.AllPlans(code);
  }

  // An UPDATE that matches no row does so exactly when its guard misses, and an
  // accepted plan patch is never rejected outright.
  lemma UnmatchedIffMisses(db: Db, w: Write, now: Time)
    requires Valid(db) && Issued(db, w) && Expected(w).Some?
    ensures Execute(db, w, now).Unmatched? <==> Misses(db, Target(w), Expected(w).value)
    ensures w.PatchPlan? ==> !Execute(db, w, now).Rejected?
  {
    hide Execute, Valid, Misses;
    match w
    case PatchDept(id, name, active, expected) => DeptUnmatchedIffMisses(db, id, name, active, expected, now);
    case PatchPlan(code, patch) => PlanUnmatchedIffMisses(db, code, patch, now);
  }

  lemma InsertNeverUnmatched(db: Db, w: Write, now: Time)
    requires w.InsertDept?
    ensures !Execute(db, w, now).Unmatched?
  {
  }

  // ── runs ──

  datatype Commit = Commit(write: Write, at: Time)

  // states[i] is the database after the first i commits.
  ghost predicate IsHistory(states: seq<Db>, commits: seq<Commit>) {
    && |states| == |commits| + 1
    && Initial(states[0])
    && forall i | 0 <= i < |commits| :: Follows(states[i], commits[i], states[i + 1])
  }

  ghost predicate Follows(db: Db, c: Commit, db': Db) {
    Issued(db, c.write) && Execute(db, c.write, c.at) == Committed(db')
  }

  // Every state of every run is valid: ids keyed, codes unique over active and
  // retired rows alike, names not blank, system rows active, three plans, ...
  lemma {:induction false} EveryStateValid(states: seq<Db>, commits: seq<Commit>, i: nat)
    requires IsHistory(states, commits) && i < |states|
    ensures Valid(states[i])
  {
    if i == 0 {
      var ids, at :| SeedIds(ids) && states[0] == Seed(ids, at);
      SeedIsValid(ids, at);
    } else {
      EveryStateValid(states, commits, i - 1);
      assert Follows(states[i - 1], commits[i - 1], states[i]);
      CommitFacts(states[i - 1], commits[i - 1].write, commits[i - 1].at);
    }
  }

  // From one moment to any later one a row stays, keeps its identity, never goes
  // down in version, and with an unchanged version is unchanged altogether.
  lemma {:induction false} RowOverTime(states: seq<Db>, commits: seq<Commit>, i: nat, j: nat, key: Key)
    requires IsHistory(states, commits) && i <= j < |states|
    requires RowAt(states[i], key).Some?
    ensures RowAt(states[j], key).Some?
    ensures Later(RowAt(states[i], key).value, RowAt(states[j], key).value)
  {
    hide Execute, Valid, Issued, Initial, RowAt, SameIdentity;
    LaterIsReflexive(RowAt(states[i], key).value);
    if i < j {
      RowOverTime(states, commits, i, j - 1, key);
      EveryStateValid(states, commits, j - 1);
      assert Follows(states[j - 1], commits[j - 1], states[j]);
      CommitFacts(states[j - 1], commits[j - 1].write, commits[j - 1].at);
      LaterIsReflexive(RowAt(states[j - 1], key).value);
      LaterIsTransitive(RowAt(states[i], key).value, RowAt(states[j - 1], key).value, RowAt(states[j], key).value);
    }
  }

  // Version determines content: at any two moments, same key and same version
  // mean the same value in every column.
  lemma VersionDeterminesContent(states: seq<Db>, commits: seq<Commit>, i: nat, j: nat, key: Key)
    requires IsHistory(states, commits) && i < |states| && j < |states|
    requires RowAt(states[i], key).Some? && RowAt(states[j], key).Some?
    requires Version(RowAt(states[i], key).value) == Version(RowAt(states[j], key).value)
    ensures RowAt(states[i], key) == RowAt(states[j], key)
  {
    if i <= j {
      RowOverTime(states, commits, i, j, key);
    } else {
      RowOverTime(states, commits, j, i, key);
    }
  }

  // A patch that commits was applied to exactly the row its caller had read,
  // whenever that was.
  lemma PatchAppliesToWhatWasRead(states: seq<Db>, commits: seq<Commit>, read: nat, c: nat)
    requires IsHistory(states, commits) && read < |states| && c < |commits|
    requires var w := commits[c].write;
      Expected(w).Some? && RowAt(states[read], Target(w)).Some?
      && Version(RowAt(states[read], Target(w)).value) == Expected(w).value
    ensures RowAt(states[c], Target(commits[c].write)) == RowAt(states[read], Target(commits[c].write))
  {
    hide Execute, Valid, Issued, RowAt, SameIdentity;
    EveryStateValid(states, commits, c);
    assert Follows(states[c], commits[c], states[c + 1]);
    CommitFacts(states[c], commits[c].write, commits[c].at);
    VersionDeterminesContent(states, commits, read, c, Target(commits[c].write));
  }

  // Of all committed patches with one key and one expected version only the last
  // can have changed the row: each earlier one was a no-op.
  lemma OnlyTheLastChanges(states: seq<Db>, commits: seq<Commit>, a: nat, b: nat)
    requires IsHistory(states, commits) && a < b < |commits|
    requires Target(commits[a].write) == Target(commits[b].write)
    requires Expected(commits[a].write).Some? && Expected(commits[a].write) == Expected(commits[b].write)
    ensures RowAt(states[a], Target(commits[a].write)) == RowAt(states[a + 1], Target(commits[a].write))
  {
    hide Execute, Valid, Issued, RowAt, SameIdentity;
    var key := Target(commits[a].write);
    EveryStateValid(states, commits, a);
    EveryStateValid(states, commits, b);
    assert Follows(states[a], commits[a], states[a + 1]) && Follows(states[b], commits[b], states[b + 1]);
    CommitFacts(states[a], commits[a].write, commits[a].at);
    CommitFacts(states[b], commits[b].write, commits[b].at);
    RowOverTime(states, commits, a + 1, b, key);
    VersionDeterminesContent(states, commits, a, a + 1, key);
  }

  // How many of the first j commits changed an existing row.
  ghost function Changes(states: seq<Db>, key: Key, j: nat): nat
    requires j < |states|
  {
    if j == 0 then 0
    else
      Changes(states, key, j - 1)
      + if RowAt(states[j - 1], key).Some? && RowAt(states[j], key) != RowAt(states[j - 1], key) then 1 else 0
  }

  lemma StartsAtOne(db: Db, key: Key)
    requires Initial(db)
    ensures RowAt(db, key).Some? ==> Version(RowAt(db, key).value) == 1
  {
    var ids, at :| SeedIds(ids) && db == Seed(ids, at);
    SeedIsValid(ids, at);
  }

  lemma CountsOneStep(db: Db, c: Commit, db': Db, key: Key)
    requires Valid(db) && Follows(db, c, db')
    ensures RowAt(db, key).Some? ==>
      && RowAt(db', key).Some?
      && var changed := if RowAt(db', key) != RowAt(db, key) then 1 else 0;
        Version(RowAt(db', key).value) == Version(RowAt(db, key).value) + changed
    ensures RowAt(db, key).None? && RowAt(db', key).Some? ==> Version(RowAt(db', key).value) == 1
  {
    hide Execute, Valid, Issued, RowAt, SameIdentity;
    CommitFacts(db, c.write, c.at);
  }


  // record_version is one plus the number of updates that changed the row.
  lemma {:induction false} VersionCountsChanges(states: seq<Db>, commits: seq<Commit>, j: nat, key: Key)
    requires IsHistory(states, commits) && j < |states|
    ensures RowAt(states[j], key).Some? ==> Version(RowAt(states[j], key).value) == 1 + Changes(states, key, j)
    ensures RowAt(states[j], key).None? ==> Changes(states, key, j) == 0
  {
    hide Valid, Initial, RowAt, Follows;
    if j == 0 {
      StartsAtOne(states[0], key);
    } else {
      VersionCountsChanges(states, commits, j - 1, key);
      EveryStateValid(states, commits, j - 1);
      assert Follows(states[j - 1], commits[j - 1], states[j]);
      CountsOneStep(states[j - 1], commits[j - 1], states[j], key);
    }
  }

  // ── a client that resends the version from each 409 ──

  // One conflicted attempt: the UPDATE saw the database after `missedAt`
  // commits, the probe, a separate statement, after `probedAt`.
  datatype Attempt = Attempt(missedAt: nat, probedAt: nat)

  // The attempts of one client from a version it obtained at `since`. A probe
  // that finds no row answers 404 and ends the chain.
  ghost predicate Retries(states: seq<Db>, key: Key, since: nat, expected: int, attempts: seq<Attempt>)
    decreases |attempts|
  {
    attempts == [] ||
    var a := attempts[0];
    && since <= a.missedAt <= a.probedAt < |states|
    && Misses(states[a.missedAt], key, expected)
    && (match RowAt(states[a.probedAt], key)
        case None => attempts[1..] == []
        case Some(r) => Retries(states, key, a.probedAt, Version(r), attempts[1..]))
  }

  // Every attempt is answered 409, never 404, with a version above the one sent,
  // and there are at most as many as versions passed since the first read, however
  // other writers slip in between UPDATE and probe.
  lemma {:induction false} RetryProgress(states: seq<Db>, commits: seq<Commit>, key: Key, since: nat, expected: int,
      attempts: seq<Attempt>)
    requires IsHistory(states, commits) && since < |states|
    requires RowAt(states[since], key).Some? && Version(RowAt(states[since], key).value) == expected
    requires Retries(states, key, since, expected, attempts)
    ensures RowAt(states[|states| - 1], key).Some?
    ensures |attempts| <= Version(RowAt(states[|states| - 1], key).value) - expected
    ensures forall i | 0 <= i < |attempts| ::
      && attempts[i].probedAt < |states|
      && RowAt(states[attempts[i].probedAt], key).Some?
      && Sent(states, key, expected, attempts, i) < Reply(states, key, attempts[i])
    decreases |attempts|
  {
    hide IsHistory, RowAt, SameIdentity;
    RowOverTime(states, commits, since, |states| - 1, key);
    if attempts != [] {
      var a := attempts[0];
      RowOverTime(states, commits, since, a.missedAt, key);
      RowOverTime(states, commits, a.missedAt, a.probedAt, key);
      var next := Version(RowAt(states[a.probedAt], key).value);
      RetryProgress(states, commits, key, a.probedAt, next, attempts[1..]);
      assert expected < next == Reply(states, key, attempts[0]);
      forall i | 0 <= i < |attempts|
        ensures attempts[i].probedAt < |states| && RowAt(states[attempts[i].probedAt], key).Some?
        ensures Sent(states, key, expected, attempts, i) < Reply(states, key, attempts[i])
      {
        if i > 0 {
          var rest := attempts[1..];
          assert attempts[i] == rest[i - 1] && (i > 1 ==> attempts[i - 1] == rest[i - 2]);
          assert Sent(states, key, next, rest, i - 1) < Reply(states, key, rest[i - 1]);
        }
      }
    }
  }

  // The version the client puts into attempt i: its own first read, then
  // whatever the last 409 carried.
  ghost function Sent(states: seq<Db>, key: Key, expected: int, attempts: seq<Attempt>, i: nat): int
    requires i < |attempts|
  {
    if i == 0 then expected else Reply(states, key, attempts[i - 1])
  }

  // The record_version a 409 carries.
  ghost function Reply(states: seq<Db>, key: Key, a: Attempt): int {
    if a.probedAt < |states| && RowAt(states[a.probedAt], key).Some? then
      Version(RowAt(states[a.probedAt], key).value) else 0
  }
}

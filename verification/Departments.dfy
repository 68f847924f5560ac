/** The departments table: columns, triggers, CHECKs and the statements that
    run against it (migrations/000001_init_schema.up.sql). */
module Departments {
  import opened Wrappers
  import opened Domain
  import opened Sql

  type Table = map<Uuid, Department>

  // The columns a statement may set; the key is not among them.
  datatype Column = CCode | CName | CIsSystem | CIsActive | CVersion

  // What a statement does: change one row, match none, or be rejected whole.
  datatype Exec = Updated(table: Table, row: Department) | NoMatch | Failed(err: Error)

  function Put(r: Department, c: Column, v: Value): Option<Department> {
    match (c, v)
    case (CCode, VText(s)) => Some(r.(code := s))
    case (CName, VText(s)) => Some(r.(name := s))
    case (CIsSystem, VBool(b)) => Some(r.(isSystem := b))
    case (CIsActive, VBool(b)) => Some(r.(isActive := b))
    case (CVersion, VInt(n)) => Some(r.(recordVersion := n))
    case _ => None
  }

  // BEFORE UPDATE row triggers fire in name order: trg_department_code_immutable,
  // trg_system_department_name_immutable, trg_touch_departments. The first two
  // look only at statements that name their column, the last at changed rows.
  function BeforeUpdate(before: Department, after: Department, sets: seq<Assign<Column>>, now: Time)
    : Result<Department, Error>
  {
    if Names(sets, CCode) && before.code != after.code then Err(PgError("P0001", ""))
    else if Names(sets, CName) && before.isSystem && before.name != after.name then
      Err(PgError(CHECK_VIOLATION, "chk_system_department_name_immutable"))
    else if after != before then Ok(after.(recordVersion := before.recordVersion + 1, updatedAt := now))
    else Ok(after)
  }

  // CHECK constraints, tested in name order.
  function CheckRow(r: Department): Option<Error> {
    if r.isSystem && !r.isActive then Some(PgError(CHECK_VIOLATION, "chk_system_department_active"))
    else if r.code == "" then Some(PgError(CHECK_VIOLATION, "departments_code_not_empty"))
    else if r.name == "" then Some(PgError(CHECK_VIOLATION, "departments_name_not_empty"))
    else if r.recordVersion <= 0 then Some(PgError(CHECK_VIOLATION, "departments_record_version_positive"))
    else None
  }

  // Parameters are converted to their columns' types before any row is looked
  // at; which row that is makes no difference to the conversion.
  predicate Binds(sets: seq<Assign<Column>>, args: seq<Value>) {
    EvalSets(Put, sets, args, Department(0, "", "", false, false, 0, 0, 0)).Some?
  }

  predicate CodeTaken(t: Table, except: Uuid, code: string) {
    exists i | i in t :: i != except && t[i].code == code
  }

  function UpdateRow(t: Table, before: Department, sets: seq<Assign<Column>>, args: seq<Value>, now: Time): Exec
  {
    match EvalSets(Put, sets, args, before)
    case None => Failed(PgError("42804", ""))
    case Some(raw) =>
      match BeforeUpdate(before, raw, sets, now)
      case Err(e) => Failed(e)
      case Ok(after) =>
        match CheckRow(after)
        case Some(e) => Failed(e)
        case None =>
          if CodeTaken(t, before.id, after.code) then Failed(PgError(UNIQUE_VIOLATION, "uq_departments_code"))
          else Updated(t[before.id := after], after)
  }

  // UPDATE departments SET ... WHERE id = $k AND record_version = $v RETURNING ...
  function ExecUpdate(t: Table, stmt: Statement<Column>, args: seq<Value>, now: Time): Exec {
    if !WellFormed(stmt.sets) then Failed(PgError("42601", ""))
    else if !Binds(stmt.sets, args) then Failed(PgError("42804", ""))
    else
      match (Arg(args, stmt.key), Arg(args, stmt.version))
      case (Some(VUuid(id)), Some(VInt(v))) =>
        if id in t && t[id].recordVersion == v then UpdateRow(t, t[id], stmt.sets, args, now) else NoMatch
      case _ => Failed(PgError("42804", ""))
  }

  // INSERT ... VALUES ... RETURNING: defaults, CHECKs, then the two unique indexes.
  function ExecInsert(t: Table, id: Uuid, code: string, name: string, isSystem: bool, isActive: bool, now: Time): Exec {
    var r := Department(id, code, name, isSystem, isActive, 1, now, now);
    match CheckRow(r)
    case Some(e) => Failed(e)
    case None =>
      if id in t then Failed(PgError(UNIQUE_VIOLATION, "departments_pkey"))
      else if CodeTaken(t, id, code) then Failed(PgError(UNIQUE_VIOLATION, "uq_departments_code"))
      else Updated(t[id := r], r)
  }

  // ── the statement DepartmentRepository.Update generates ──

  function OptText(o: Option<string>): Option<Value> { if o.Some? then Some(VText(o.value)) else None }
  function OptBool(o: Option<bool>): Option<Value> { if o.Some? then Some(VBool(o.value)) else None }

  function PatchBuilder(id: Uuid, name: Option<string>, active: Option<bool>, expected: int): Builder<Column> {
    Builder([], [VUuid(id), VInt(expected)]).AddIf(CName, OptText(name)).AddIf(CIsActive, OptBool(active))
  }

  function ExecPatch(t: Table, id: Uuid, name: Option<string>, active: Option<bool>, expected: int, now: Time): Exec {
    var b := PatchBuilder(id, name, active, expected);
    ExecUpdate(t, Statement(b.sets, 1, 2), b.args, now)
  }

  // ── what it is meant to do ──

  // The patched row: present fields replaced, nothing else touched.
  function Merge(before: Department, name: Option<string>, active: Option<bool>): Department {
    before.(name := name.GetOr(before.name), isActive := active.GetOr(before.isActive))
  }

  // The stored row: a new version and timestamp exactly when something changed.
  function Touched(before: Department, after: Department, now: Time): Department {
    if after == before then before else after.(recordVersion := before.recordVersion + 1, updatedAt := now)
  }

  // One flat description of a versioned patch, no SQL in it.
  function FlatPatch(t: Table, id: Uuid, name: Option<string>, active: Option<bool>, expected: int, now: Time): Exec {
    if id !in t || t[id].recordVersion != expected then NoMatch
    else
      var before := t[id];
      var after := Touched(before, Merge(before, name, active), now);
      if before.isSystem && after.name != before.name then
        Failed(PgError(CHECK_VIOLATION, "chk_system_department_name_immutable"))
      else if before.isSystem && !after.isActive then Failed(PgError(CHECK_VIOLATION, "chk_system_department_active"))
      else if after.name == "" then Failed(PgError(CHECK_VIOLATION, "departments_name_not_empty"))
      else Updated(t[id := after], after)
  }

  // Every row sits under its id, passes the CHECKs and has a code of its own;
  // codes and names hold more than white space.
  ghost predicate Valid(t: Table) {
    && (forall id | id in t :: t[id].id == id && CheckRow(t[id]).None? && !Blank(t[id].code) && !Blank(t[id].name))
    && (forall i, j | i in t && j in t && t[i].code == t[j].code :: i == j)
  }

  function Rank(c: Column): nat {
    match c
    case CName => 0 case CIsActive => 1 case _ => 2
  }

  lemma BuilderSteps(id: Uuid, name: Option<string>, active: Option<bool>, expected: int, row: Department)
    ensures var b := PatchBuilder(id, name, active, expected);
      && Progress(Put, Rank, b, 2, row, Some(Merge(row, name, active)))
      && b.args[..2] == [VUuid(id), VInt(expected)]
      && (b.sets == [] <==> name.None? && active.None?)
      && (Names(b.sets, CName) <==> name.Some?) && !Names(b.sets, CCode)
  {
    hide Progress, Put, PutIf, Names;
    var b0: Builder<Column> := Builder([], [VUuid(id), VInt(expected)]);
    Start(Put, Rank, b0.args, row);
    NamesNothing(CCode);
    var b1 := AddOne(Put, Rank, b0, CName, OptText(name), row, Some(row));
    PutEach(row, name, active);
    var r1 := row.(name := name.GetOr(row.name));
    PutEach(r1, name, active);
    var b2 := AddOne(Put, Rank, b1, CIsActive, OptBool(active), row, Some(r1));
  }

  // The generated SET list and arguments evaluate to the merge, on every row,
  // and $1, $2 are the key and the expected version.
  lemma BuilderMeaning(id: Uuid, name: Option<string>, active: Option<bool>, expected: int, row: Department)
    ensures var b := PatchBuilder(id, name, active, expected);
      && EvalSets(Put, b.sets, b.args, row) == Some(Merge(row, name, active))
      && Arg(b.args, 1) == Some(VUuid(id)) && Arg(b.args, 2) == Some(VInt(expected))
      && (WellFormed(b.sets) <==> name.Some? || active.Some?)
      && (Names(b.sets, CName) <==> name.Some?) && !Names(b.sets, CCode)
  {
    hide PatchBuilder, Put, Names;
    BuilderSteps(id, name, active, expected, row);
    var args := PatchBuilder(id, name, active, expected).args;
    assert args[0] == args[..2][0] && args[1] == args[..2][1];
  }

  lemma NamesNothing(c: Column)
    ensures !Names([], c)
  {
  }

  lemma PutEach(row: Department, name: Option<string>, active: Option<bool>)
    ensures PutIf(Put, Some(row), CName, OptText(name)) == Some(row.(name := name.GetOr(row.name)))
    ensures PutIf(Put, Some(row), CIsActive, OptBool(active)) == Some(row.(isActive := active.GetOr(row.isActive)))
  {
  }

  // Statement, triggers, CHECKs and unique index together are the flat patch.
  lemma PatchRefinesFlat(t: Table, id: Uuid, name: Option<string>, active: Option<bool>, expected: int, now: Time)
    requires Valid(t)
    requires name.Some? || active.Some?
    ensures ExecPatch(t, id, name, active, expected, now) == FlatPatch(t, id, name, active, expected, now)
  {
    var b := PatchBuilder(id, name, active, expected);
    hide PatchBuilder, EvalSets, Put, Names;
    BuilderMeaning(id, name, active, expected, Department(0, "", "", false, false, 0, 0, 0));
    if id in t && t[id].recordVersion == expected {
      var before := t[id];
      BuilderMeaning(id, name, active, expected, before);
      var after := Touched(before, Merge(before, name, active), now);
      assert !CodeTaken(t, id, before.code);
    }
  }

  // How one stored row may develop: not at all, or by one version with its
  // identity, code, system flag and creation time kept, and for a system row
  // its name.
  ghost predicate Evolves(o: Department, n: Department) {
    || n == o
    || (&& n.recordVersion == o.recordVersion + 1
        && n.id == o.id && n.code == o.code && n.isSystem == o.isSystem && n.createdAt == o.createdAt
        && (o.isSystem ==> n.name == o.name && n.isActive))
  }

  lemma FlatPatchKeepsValid(t: Table, id: Uuid, name: Option<string>, active: Option<bool>, expected: int, now: Time)
    requires Valid(t)
    requires name.Some? ==> !Blank(name.value)
    ensures var x := FlatPatch(t, id, name, active, expected, now);
      x.Updated? ==>
        && Valid(x.table) && id in t && t[id].recordVersion == expected
        && x.table == t[id := x.row] && Evolves(t[id], x.row)
        && (x.row.recordVersion == expected <==> x.row == t[id])
  {
    var x := FlatPatch(t, id, name, active, expected, now);
    if x.Updated? {
      assert CheckRow(t[id]).None?;
      assert x.row.id == id && CheckRow(x.row).None?;
    }
  }

  lemma PatchKeepsValid(t: Table, id: Uuid, name: Option<string>, active: Option<bool>, expected: int, now: Time)
    requires Valid(t)
    requires name.Some? || active.Some?
    requires name.Some? ==> !Blank(name.value)
    ensures var x := ExecPatch(t, id, name, active, expected, now);
      x.Updated? ==>
        && Valid(x.table) && id in t && t[id].recordVersion == expected
        && x.table == t[id := x.row] && Evolves(t[id], x.row)
        && (x.row.recordVersion == expected <==> x.row == t[id])
  {
    PatchRefinesFlat(t, id, name, active, expected, now);
    FlatPatchKeepsValid(t, id, name, active, expected, now);
  }

  lemma InsertKeepsValid(t: Table, id: Uuid, code: string, name: string, isSystem: bool, now: Time)
    requires Valid(t) && id !in t && !Blank(code) && !Blank(name)
    ensures var x := ExecInsert(t, id, code, name, isSystem, true, now);
      && (x.Updated? <==> forall i | i in t :: t[i].code != code)
      && (x.Updated? ==> Valid(x.table) && x.table == t[id := x.row] && x.row.recordVersion == 1)
      && (!x.Updated? ==> x == Failed(PgError(UNIQUE_VIOLATION, "uq_departments_code")))
  {
  }

  // Nothing below the repository protects is_system: a statement that names the
  // column turns a system row into an ordinary one, unnoticed by any trigger.
  lemma StoreAloneDoesNotFreezeIsSystem(t: Table, id: Uuid, now: Time)
    requires Valid(t) && id in t && t[id].isSystem
    ensures var x := ExecUpdate(t, Statement([Assign(CIsSystem, 3)], 1, 2),
                                [VUuid(id), VInt(t[id].recordVersion), VBool(false)], now);
      x.Updated? && id in x.table && !x.table[id].isSystem
  {
    var b : Builder<Column> := Builder([], [VUuid(id), VInt(t[id].recordVersion)]);
    AddMeaning(Put, b, CIsSystem, VBool(false), t[id]);
    AddMeaning(Put, b, CIsSystem, VBool(false), Department(0, "", "", false, false, 0, 0, 0));
    assert b.Add(CIsSystem, VBool(false)).sets == [Assign(CIsSystem, 3)];
    assert b.Add(CIsSystem, VBool(false)).args == [VUuid(id), VInt(t[id].recordVersion), VBool(false)];
    assert !CodeTaken(t, id, t[id].code);
  }

  // What the store does protect: a statement that names the code of a row and
  // would change it is refused, whatever kind of row it is.
  lemma CodeCannotChange(t: Table, id: Uuid, code: string, now: Time)
    requires Valid(t) && id in t && code != t[id].code
    ensures ExecUpdate(t, Statement([Assign(CCode, 3)], 1, 2), [VUuid(id), VInt(t[id].recordVersion), VText(code)], now)
      == Failed(PgError("P0001", ""))
  {
    var b : Builder<Column> := Builder([], [VUuid(id), VInt(t[id].recordVersion)]);
    AddMeaning(Put, b, CCode, VText(code), t[id]);
    AddMeaning(Put, b, CCode, VText(code), Department(0, "", "", false, false, 0, 0, 0));
    var c := b.Add(CCode, VText(code));
    assert c.sets == [Assign(CCode, 3)];
    assert c.args == [VUuid(id), VInt(t[id].recordVersion), VText(code)];
    assert c.sets[0].col == CCode;
  }

  // Nor can a statement choose a version: the touch trigger puts the next one.
  lemma VersionCannotBeChosen(t: Table, id: Uuid, version: int, now: Time)
    requires Valid(t) && id in t && version != t[id].recordVersion
    ensures var x := ExecUpdate(t, Statement([Assign(CVersion, 3)], 1, 2),
                                [VUuid(id), VInt(t[id].recordVersion), VInt(version)], now);
      x.Updated? && x.row == t[id].(recordVersion := t[id].recordVersion + 1, updatedAt := now)
  {
    var b : Builder<Column> := Builder([], [VUuid(id), VInt(t[id].recordVersion)]);
    AddMeaning(Put, b, CVersion, VInt(version), t[id]);
    AddMeaning(Put, b, CVersion, VInt(version), Department(0, "", "", false, false, 0, 0, 0));
    var c := b.Add(CVersion, VInt(version));
    assert c.sets == [Assign(CVersion, 3)];
    assert c.args == [VUuid(id), VInt(t[id].recordVersion), VInt(version)];
    assert !CodeTaken(t, id, t[id].code);
  }

  // PostgreSQL takes no UPDATE without a SET item or with a column twice.
  lemma IllFormedIsRefused(t: Table, sets: seq<Assign<Column>>, args: seq<Value>, i: nat, j: nat, now: Time)
    requires sets == [] || (i < j < |sets| && sets[i].col == sets[j].col)
    ensures ExecUpdate(t, Statement(sets, 1, 2), args, now) == Failed(PgError("42601", ""))
  {
  }

  // A value of the wrong type is refused before any row is looked at.
  lemma TypesAreChecked(t: Table, id: Uuid, version: int, c: Column, v: Value, now: Time)
    ensures
      var fits := if c in {CCode, CName} then v.VText? else if c in {CIsSystem, CIsActive} then v.VBool? else v.VInt?;
      var x := ExecUpdate(t, Statement([Assign(c, 3)], 1, 2), [VUuid(id), VInt(version), v], now);
      && (!fits ==> x == Failed(PgError("42804", "")))
      && (fits && (id !in t || t[id].recordVersion != version) ==> x == NoMatch)
  {
    var b : Builder<Column> := Builder([], [VUuid(id), VInt(version)]);
    AddMeaning(Put, b, c, v, Department(0, "", "", false, false, 0, 0, 0));
    assert b.Add(c, v).sets == [Assign(c, 3)] && b.Add(c, v).args == [VUuid(id), VInt(version), v];
  }

  // An INSERT succeeds exactly when key and code are unused and the row is one the
  // CHECKs allow; it then stands at version 1 with both times now.
  lemma InsertIff(t: Table, id: Uuid, code: string, name: string, isSystem: bool, isActive: bool, now: Time)
    ensures var x := ExecInsert(t, id, code, name, isSystem, isActive, now);
      && (x.Updated? <==>
            && id !in t && (forall i | i in t :: t[i].code != code)
            && code != "" && name != "" && (isSystem ==> isActive))
      && (x.Updated? ==>
            && x.table == t[id := x.row] && x.row.id == id && x.row.code == code && x.row.name == name
            && x.row.isSystem == isSystem && x.row.isActive == isActive && x.row.recordVersion == 1
            && x.row.createdAt == x.row.updatedAt == now)
      && !x.NoMatch?
  {
  }

  // The invariant, column by column.
  lemma ValidIff(t: Table)
    ensures Valid(t) <==>
      && (forall id | id in t ::
            && t[id].id == id && !Blank(t[id].code) && !Blank(t[id].name) && t[id].recordVersion >= 1
            && (t[id].isSystem ==> t[id].isActive))
      && (forall i, j | i in t && j in t && i != j :: t[i].code != t[j].code)
  {
    forall id | id in t && !Blank(t[id].code) && !Blank(t[id].name)
      ensures CheckRow(t[id]).None? <==> t[id].recordVersion >= 1 && (t[id].isSystem ==> t[id].isActive)
    {
    }
  }
}

/** Postgres and Valkey as the objects the adapters talk to, and the department
    repository (department_repository.go, cache.go). */
module Store {
  import opened Wrappers
  import opened Domain
  import opened Sql
  import opened Cache
  import opened Errors
  import opened Strings
  import opened Listing
  import opened Runs
  import D = Departments
  import P = Plans

  // What may go wrong in one transaction: the statement, the probe after it, or
  // the commit fails; a failed transaction leaves no trace.
  datatype DbIo = DbIo(statement: Option<Error>, probe: Option<Error>, commit: Option<Error>)

  predicate RealFaults(io: DbIo) {
    && (io.statement.Some? ==> DriverError(io.statement.value))
    && (io.probe.Some? ==> DriverError(io.probe.value))
    && (io.commit.Some? ==> DriverError(io.commit.value))
  }

  class Database {
    var db: Db

    constructor (db: Db)
      ensures this.db == db
    {
      this.db := db;
    }

    method UpdateDepartments(stmt: Statement<D.Column>, args: seq<Value>, now: Time) returns (x: D.Exec)
      modifies this
      ensures x == D.ExecUpdate(old(db).departments, stmt, args, now)
      ensures db == if x.Updated? then old(db).(departments := x.table) else old(db)
    {
      x := D.ExecUpdate(db.departments, stmt, args, now);
      if x.Updated? {
        db := db.(departments := x.table);
      }
    }

    method InsertDepartment(id: Uuid, code: string, name: string, isSystem: bool, isActive: bool, now: Time)
      returns (x: D.Exec)
      modifies this
      ensures x == D.ExecInsert(old(db).departments, id, code, name, isSystem, isActive, now)
      ensures db == if x.Updated? then old(db).(departments := x.table) else old(db)
    {
      x := D.ExecInsert(db.departments, id, code, name, isSystem, isActive, now);
      if x.Updated? {
        db := db.(departments := x.table);
      }
    }

    method UpdatePlans(stmt: Statement<P.Column>, args: seq<Value>, now: Time) returns (x: P.Exec)
      modifies this
      ensures x == P.ExecUpdate(old(db).plans, stmt, args, now)
      ensures db == if x.Updated? then old(db).(plans := x.table) else old(db)
    {
      x := P.ExecUpdate(db.plans, stmt, args, now);
      if x.Updated? {
        db := db.(plans := x.table);
      }
    }
  }

  // The shared cache. A call that does not reach it changes nothing.
  class ValkeyStore {
    var items: map<Cache.Key, Item>

    constructor ()
      ensures items == map[]
    {
      items := map[];
    }

    // None on a miss as well as on an outage: the services treat both alike.
    method Get(key: Cache.Key, now: Time, reached: bool) returns (raw: Option<Bytes>)
      ensures reached && key in items && (items[key].expiry.At? ==> now < items[key].expiry.t) ==>
        raw == Some(items[key].bytes)
      ensures !reached || key !in items || (items[key].expiry.At? && items[key].expiry.t <= now) ==> raw == None
    {
      raw := None;
      if reached && key in items && Live(items[key], now) {
        raw := Some(items[key].bytes);
      }
    }

    method Set(key: Cache.Key, bytes: Bytes, ttl: int, now: Time, reached: bool)
      modifies this
      ensures reached ==> items == old(items)[key := Item(bytes, if ttl > 0 then At(now + ttl) else Never)]
      ensures !reached ==> items == old(items)
    {
      if reached {
        items := items[key := Item(bytes, ExpiryFor(ttl, now))];
      }
    }

    method Delete(key: Cache.Key, reached: bool)
      modifies this
      ensures items == if reached then old(items) - {key} else old(items)
    {
      if reached {
        items := items - {key};
      }
    }
  }

  datatype Written<T, R> = Written(result: Result<R, Error>, table: T)

  function ConflictWith(version: int): Error {
    DomainError(OptimisticLockConflict, "record version conflict", map["record_version" := Number(version)])
  }

  function DepartmentMissing(): Error { NewError(DepartmentNotFound, "department not found") }

  function DuplicateCode(): Error {
    DomainError(Conflict, "department code already exists", map["code" := Text("duplicate_code")])
  }

  // Insert's reading of what its statement failed with.
  function InsertError(e: Error): Error {
    if e.PgError? && e.sqlstate == UNIQUE_VIOLATION then DuplicateCode() else e
  }

  // The repository's PATCH, flat: no SQL, no transaction, no wrapping of errors.
  function RepoPatch(t: D.Table, id: Uuid, name: Option<string>, active: Option<bool>, expected: int, now: Time,
      io: DbIo)
    : Written<D.Table, Department>
  {
    if io.statement.Some? then Written(Err(WrapConnErr(io.statement.value)), t)
    else
      match D.FlatPatch(t, id, name, active, expected, now)
      case Updated(t', row) =>
        if io.commit.Some? then Written(Err(WrapConnErr(io.commit.value)), t) else Written(Ok(row), t')
      case Failed(e) => Written(Err(e), t)
      case NoMatch =>
        if io.probe.Some? then Written(Err(WrapConnErr(io.probe.value)), t)
        else if id in t then Written(Err(ConflictWith(t[id].recordVersion)), t)
        else Written(Err(DepartmentMissing()), t)
  }

  // The repository's INSERT of an active department, flat: only a code in use,
  // by an active or a retired row, stands in the way.
  function RepoInsert(t: D.Table, id: Uuid, code: string, name: string, isSystem: bool, now: Time, io: DbIo)
    : Written<D.Table, Department>
  {
    if io.statement.Some? then Written(Err(WrapConnErr(InsertError(io.statement.value))), t)
    else if D.CodeTaken(t, id, code) then Written(Err(DuplicateCode()), t)
    else if io.commit.Some? then Written(Err(WrapConnErr(io.commit.value)), t)
    else
      var row := Department(id, code, name, isSystem, true, 1, now, now);
      Written(Ok(row), t[id := row])
  }

  // What the answers mean: a success stored its row over the version that was
  // sent, a negative answer left the table alone, a conflict carries the current
  // version, which is not the one sent, and a 404 is about a row that is not there.
  lemma RepoPatchAnswers(t: D.Table, id: Uuid, name: Option<string>, active: Option<bool>, expected: int, now: Time,
      io: DbIo)
    requires RealFaults(io)
    ensures var w := RepoPatch(t, id, name, active, expected, now, io);
      && (w.result.Ok? ==> id in t && t[id].recordVersion == expected && w.table == t[id := w.result.value])
      && (w.result.Err? ==> w.table == t)
      && (w.result.Err? && w.result.error.DomainError? && w.result.error.cause == OptimisticLockConflict ==>
            && id in t && t[id].recordVersion != expected
            && w.result.error == ConflictWith(t[id].recordVersion))
      && (w.result.Err? && w.result.error.DomainError? && w.result.error.cause == DepartmentNotFound ==> id !in t)
  {
  }

  lemma FlatFailuresPassThrough(t: D.Table, id: Uuid, name: Option<string>, active: Option<bool>, expected: int,
      now: Time)
    ensures var x := D.FlatPatch(t, id, name, active, expected, now);
      x.Failed? ==> x.err.PgError? && x.err.sqlstate == CHECK_VIOLATION && WrapConnErr(x.err) == x.err
  {
    assert CHECK_VIOLATION[1] == '3' && CHECK_VIOLATION[0] == '2';
  }

  class DepartmentRepository {
    const pool: Database

    constructor (pool: Database)
      ensures this.pool == pool
    {
      this.pool := pool;
    }

    // deptListFromTx. The server streams the rows the query selects, each once, in
    // the collation's order of codes; with unique codes that leaves one answer.
    method List(activeOnly: bool, le: Collation, stream: seq<Department>, fault: Option<Error>)
      returns (r: Result<seq<Department>, Error>)
      requires IsListing(le, Rows(pool.db.departments, activeOnly), stream)
      ensures fault.Some? ==> r == Err(WrapConnErr(fault.value))
      ensures fault.None? ==> r.Ok? && IsListing(le, Rows(pool.db.departments, activeOnly), r.value)
      ensures fault.None? && UniqueCodes(Rows(pool.db.departments, activeOnly)) ==>
        r == Ok(SelectDepartments(le, pool.db.departments, activeOnly))
    {
      if fault.Some? {
        return Err(WrapConnErr(fault.value));
      }
      var out := [];
      for i := 0 to |stream|
        invariant out == stream[..i]
      {
        out := out + [stream[i]];
      }
      assert stream[..|stream|] == stream;
      OneListing(le, pool.db.departments, activeOnly, stream);
      r := Ok(out);
    }

    method FindByID(id: Uuid, fault: Option<Error>) returns (r: Result<Department, Error>)
      ensures r == if fault.Some? then Err(WrapConnErr(fault.value))
                   else if id in pool.db.departments then Ok(pool.db.departments[id])
                   else Err(DepartmentMissing())
    {
      if fault.Some? {
        r := Err(WrapConnErr(fault.value));
      } else if id in pool.db.departments {
        r := Ok(pool.db.departments[id]);
      } else {
        r := Err(WrapConnErr(DepartmentMissing()));
      }
    }

    method Insert(id: Uuid, code: string, name: string, isSystem: bool, now: Time, io: DbIo)
      returns (r: Result<Department, Error>)
      requires Runs.Valid(pool.db) && id !in pool.db.departments && !Blank(code) && !Blank(name) && RealFaults(io)
      modifies pool
      ensures var w := RepoInsert(old(pool.db).departments, id, code, name, isSystem, now, io);
        r == w.result && pool.db == old(pool.db).(departments := w.table)
    {
      ghost var t := pool.db.departments;
      D.InsertKeepsValid(t, id, code, name, isSystem, now);
      var before := pool.db;
      if io.statement.Some? {
        r := Err(InsertError(io.statement.value));
      } else {
        var x := pool.InsertDepartment(id, code, name, isSystem, true, now);
        match x {
          case Updated(_, row) => r := if io.commit.Some? then Err(io.commit.value) else Ok(row);
          case Failed(e) => r := Err(InsertError(e));
          case NoMatch => r := Err(NoRows);
        }
      }
      if r.Err? {
        pool.db := before;
        r := Err(WrapConnErr(r.error));
      }
    }

    // Update: grow `args` and `set`, run the statement in a transaction, and on
    // no row probe for the current version.
    method Update(id: Uuid, name: Option<string>, active: Option<bool>, expected: int, now: Time, io: DbIo)
      returns (r: Result<Department, Error>)
      requires Runs.Valid(pool.db) && RealFaults(io)
      modifies pool
      ensures name.None? && active.None? ==>
        && pool.db == old(pool.db)
        && r == (if io.statement.Some? then Err(WrapConnErr(io.statement.value))
                 else if id in pool.db.departments then Ok(pool.db.departments[id])
                 else Err(DepartmentMissing()))
      ensures name.Some? || active.Some? ==>
        var w := RepoPatch(old(pool.db).departments, id, name, active, expected, now, io);
        r == w.result && pool.db == old(pool.db).(departments := w.table)
    {
      if name.None? && active.None? {
        r := FindByID(id, io.statement);
        return;
      }
      var args := [VUuid(id), VInt(expected)];
      var items: seq<Assign<D.Column>> := [];
      if name.Some? {
        args := args + [VText(name.value)];
        items := items + [Assign(D.CName, |args|)];
      }
      if active.Some? {
        args := args + [VBool(active.value)];
        items := items + [Assign(D.CIsActive, |args|)];
      }
      assert Builder(items, args) == D.PatchBuilder(id, name, active, expected);
      var before := pool.db;
      D.PatchRefinesFlat(before.departments, id, name, active, expected, now);
      FlatFailuresPassThrough(before.departments, id, name, active, expected, now);
      r := UpdateFromTx(id, Statement(items, 1, 2), args, now, io);
      if r.Ok? && io.commit.Some? {
        r := Err(io.commit.value);
      }
      if r.Err? {
        pool.db := before;
        r := Err(WrapConnErr(r.error));
      }
    }

    method UpdateFromTx(id: Uuid, stmt: Statement<D.Column>, args: seq<Value>, now: Time, io: DbIo)
      returns (r: Result<Department, Error>)
      modifies pool
      ensures var x := D.ExecUpdate(old(pool.db).departments, stmt, args, now);
        r == if io.statement.Some? then Err(io.statement.value)
             else match x
                  case Updated(_, row) => Ok(row)
                  case Failed(e) => Err(e)
                  case NoMatch =>
                    if io.probe.Some? then Err(io.probe.value)
                    else if id in old(pool.db).departments then
                      Err(ConflictWith(old(pool.db).departments[id].recordVersion))
                    else Err(DepartmentMissing())
      ensures pool.db == if io.statement.None? && D.ExecUpdate(old(pool.db).departments, stmt, args, now).Updated?
                         then old(pool.db).(departments :=
                           D.ExecUpdate(old(pool.db).departments, stmt, args, now).table)
                         else old(pool.db)
    {
      if io.statement.Some? {
        return Err(io.statement.value);
      }
      var x := pool.UpdateDepartments(stmt, args, now);
      match x {
        case Updated(_, row) => r := Ok(row);
        case Failed(e) => r := Err(e);
        case NoMatch =>
          if io.probe.Some? {
            r := Err(io.probe.value);
          } else if id in pool.db.departments {
            r := Err(ConflictWith(pool.db.departments[id].recordVersion));
          } else {
            r := Err(DepartmentMissing());
          }
      }
    }
  }
}

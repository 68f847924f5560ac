/** The department service (internal/core/service/department_service.go). */
module DepartmentServices {
  import opened Wrappers
  import opened Domain
  import opened Cache
  import opened Errors
  import opened Strings
  import opened Listing
  import opened Store
  import opened Runs
  import opened ReadThrough
  import D = Departments

  function NothingToChange(): Error {
    DomainError(NoMutableField, "at least one of name or is_active must be provided",
                map["code" := Text("no_mutable_field")])
  }

  function ServicePatch(t: D.Table, id: Uuid, name: Option<string>, active: Option<bool>, expected: int, now: Time,
      io: DbIo)
    : Written<D.Table, Department>
  {
    if name.None? && active.None? then Written(Err(NothingToChange()), t)
    else if name.Some? && Blank(name.value) then Written(Err(NewError(Validation, "name must not be empty")), t)
    else
      var w := RepoPatch(t, id, name, active, expected, now, io);
      match w.result
      case Ok(_) => w
      case Err(e) => Written(Err(MapCheckViolation(e)), w.table)
  }

  function ServiceCreate(t: D.Table, id: Uuid, code: string, name: string, isSystem: bool, now: Time, io: DbIo)
    : Written<D.Table, Department>
  {
    if Blank(code) || Blank(name) then Written(Err(NewError(Validation, "code and name are required")), t)
    else RepoInsert(t, id, code, name, isSystem, now, io)
  }

  class DepartmentService {
    const repo: DepartmentRepository
    const cache: ValkeyStore?
    var cacheTTL: int

    ghost predicate Valid()
      reads this
    {
      cacheTTL > 0
    }

    constructor (repo: DepartmentRepository, cache: ValkeyStore?)
      ensures Valid() && cacheTTL == 60_000 && this.repo == repo && this.cache == cache
    {
      this.repo := repo;
      this.cache := cache;
      this.cacheTTL := DEFAULT_TTL;
    }

    method WithCacheTTL(d: int)
      requires Valid()
      modifies this
      ensures Valid() && cacheTTL == TtlAfter(old(cacheTTL), d)
    {
      if d > 0 {
        cacheTTL := d;
      }
    }

    // What List answers and leaves in the cache, before filtering.
    twostate function Step(le: Collation, io: ListIo): Listed
      reads this, repo.pool, cache
    {
      var items := if cache != null then old(cache.items) else map[];
      ListStep(le, DepartmentsKey, old(repo.pool.db), cache != null, items, old(cacheTTL), io)
    }

    // The whole catalog: from the cache if it answers with something decodable,
    // otherwise from the database, refilling the cache.
    method ListAllCached(le: Collation, stream: seq<Department>, io: ListIo) returns (r: Result<seq<Department>, Error>)
      requires Valid() && UniqueCodes(Rows(repo.pool.db.departments, false))
      requires IsListing(le, Rows(repo.pool.db.departments, false), stream)
      modifies cache
      ensures r == match Step(le, io).result case Ok(c) => Ok(c.departments) case Err(e) => Err(e)
      ensures cache != null ==> cache.items == Step(le, io).items
    {
      if cache != null {
        var raw := cache.Get(DepartmentsKey, io.gotAt, io.getReached);
        if raw.Some? && raw.value.Encoded? && raw.value.catalog.DepartmentCatalog? {
          return Ok(raw.value.catalog.departments);
        }
      }
      r := repo.List(false, le, stream, io.fault);
      if r.Ok? && cache != null {
        cache.Set(DepartmentsKey, Encoded(DepartmentCatalog(r.value)), cacheTTL, io.setAt, io.setReached);
      }
    }

    // active_only is applied in memory after the cache read, so both callers
    // share one entry; an answer read from the table is the filtered query's.
    method List(activeOnly: bool, le: Collation, stream: seq<Department>, io: ListIo)
      returns (r: Result<seq<Department>, Error>)
      requires Valid() && D.Valid(repo.pool.db.departments)
      requires IsListing(le, Rows(repo.pool.db.departments, false), stream)
      modifies cache
      ensures r == match Step(le, io).result
                   case Ok(c) => Ok(if activeOnly then Active(c.departments) else c.departments)
                   case Err(e) => Err(e)
      ensures var t := repo.pool.db.departments;
        Step(le, io).result == Ok(DepartmentCatalog(SelectDepartments(le, t, false))) ==>
          r == Ok(SelectDepartments(le, t, activeOnly))
      ensures cache != null ==> cache.items == Step(le, io).items
    {
      ValidTablesHaveUniqueCodes(repo.pool.db.departments);
      FilterEqualsWhere(le, repo.pool.db.departments);
      r := ListAllCached(le, stream, io);
      if r.Ok? && activeOnly {
        var out := FilterActive(r.value);
        r := Ok(out);
      }
    }

    method Create(id: Uuid, code: string, name: string, isSystem: bool, now: Time, io: DbIo, deleteReached: bool)
      returns (r: Result<Department, Error>)
      requires Runs.Valid(repo.pool.db) && id !in repo.pool.db.departments && RealFaults(io)
      modifies repo.pool, cache
      ensures var w := ServiceCreate(old(repo.pool.db).departments, id, code, name, isSystem, now, io);
        && r == w.result && repo.pool.db == old(repo.pool.db).(departments := w.table)
        && (cache != null ==>
              cache.items == old(cache.items) - if r.Ok? && deleteReached then {DepartmentsKey} else {})
    {
      if Blank(code) || Blank(name) {
        return Err(NewError(Validation, "code and name are required"));
      }
      r := repo.Insert(id, code, name, isSystem, now, io);
      if r.Ok? {
        InvalidateCache(deleteReached);
      }
    }

    method Patch(id: Uuid, name: Option<string>, active: Option<bool>, expected: int, now: Time, io: DbIo,
        deleteReached: bool)
      returns (r: Result<Department, Error>)
      requires Runs.Valid(repo.pool.db) && RealFaults(io)
      modifies repo.pool, cache
      ensures var w := ServicePatch(old(repo.pool.db).departments, id, name, active, expected, now, io);
        && r == w.result && repo.pool.db == old(repo.pool.db).(departments := w.table)
        && (cache != null ==>
              cache.items == old(cache.items) - if r.Ok? && deleteReached then {DepartmentsKey} else {})
    {
      if name.None? && active.None? {
        return Err(NothingToChange());
      }
      if name.Some? && Blank(name.value) {
        return Err(NewError(Validation, "name must not be empty"));
      }
      r := repo.Update(id, name, active, expected, now, io);
      if r.Err? {
        r := Err(MapCheckViolation(r.error));
        return;
      }
      InvalidateCache(deleteReached);
    }

    method DeleteBlocked() returns (e: Error)
      ensures e == NewError(MethodNotAllowed, "departments cannot be deleted; retire via is_active=false")
    {
      e := NewError(MethodNotAllowed, "departments cannot be deleted; retire via is_active=false");
    }

    method InvalidateCache(reached: bool)
      modifies cache
      ensures cache != null ==> cache.items == if reached then old(cache.items) - {DepartmentsKey} else old(cache.items)
    {
      if cache != null {
        cache.Delete(DepartmentsKey, reached);
      }
    }
  }
}

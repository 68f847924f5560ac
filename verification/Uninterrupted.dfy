/** One request's steps in the protocol, taken without interruption, do what the
    service's own methods do. */
module Uninterrupted {
  import opened Wrappers
  import opened Domain
  import opened Cache
  import opened Runs
  import opened Protocol
  import opened ReadThrough
  import opened Store
  import D = Departments
  import P = Plans
  import PlanServices

  // What the cache holds, without the protocol's notes on where it came from.
  function ItemsOf(s: State): Items {
    map key | key in s.cache :: s.cache[key].item
  }

  ghost predicate Hits(s: State, key: Cache.Key, reached: bool) {
    reached && key in s.cache && Live(s.cache[key].item, s.clock.at) && s.cache[key].item.bytes.Encoded?
  }

  lemma RunOne(cfg: Config, s: State, e: Event)
    requires Enabled(cfg, s, e)
    ensures Run(cfg, s, [e], Apply(cfg, s, e))
  {
    hide Enabled, Apply;
    assert [e][1..] == [];
  }

  lemma RunThree(cfg: Config, s: State, a: Event, b: Event, c: Event)
    requires Enabled(cfg, s, a) && Enabled(cfg, Apply(cfg, s, a), b)
    requires Enabled(cfg, Apply(cfg, Apply(cfg, s, a), b), c)
    ensures Run(cfg, s, [a, b, c], Apply(cfg, Apply(cfg, Apply(cfg, s, a), b), c))
  {
    hide Enabled, Apply;
    RunOne(cfg, Apply(cfg, Apply(cfg, s, a), b), c);
    assert [b, c][1..] == [c] && [a, b, c][1..] == [b, c];
    assert Run(cfg, Apply(cfg, s, a), [b, c], Apply(cfg, Apply(cfg, Apply(cfg, s, a), b), c));
  }

  lemma HasState(cfg: Config, s: State)
    requires Inv(cfg, s)
    ensures s.states != [] && |s.states| == |s.commits| + 1
    ensures Runs.Valid(Current(s))
  {
    hide ProcOk, EntryOk, AnswerOk, ReplyOk;
    EveryStateValid(s.states, s.commits, |s.states| - 1);
  }

  // A cached catalog decodes for its own key.
  lemma EntriesDecode(cfg: Config, s: State, key: Cache.Key)
    requires Inv(cfg, s) && key in s.cache
    ensures Decodes(key, s.cache[key].item.bytes) <==> s.cache[key].item.bytes.Encoded?
  {
    hide LogOk, ProcOk, AnswerOk, ReplyOk;
    assert EntryOk(cfg, s, key, s.cache[key]);
  }

  lemma HitSteps(cfg: Config, s: State, pid: nat, key: Cache.Key) returns (s': State)
    requires pid !in s.procs && Hits(s, key, true)
    ensures Run(cfg, s, [Get(pid, key, true)], s')
    ensures |s'.answers| == |s.answers| + 1 && s'.answers[|s.answers|].catalog == s.cache[key].item.bytes.catalog
    ensures s'.cache == s.cache && s'.procs == s.procs && s'.states == s.states
  {
    RunOne(cfg, s, Get(pid, key, true));
    s' := Apply(cfg, s, Get(pid, key, true));
  }

  lemma MissSteps(cfg: Config, s: State, pid: nat, key: Cache.Key, got: bool, stored: bool, ttl: int)
    returns (s': State)
    requires pid !in s.procs && !Hits(s, key, got) && 0 < ttl <= cfg.maxTtl && s.states != []
    ensures Run(cfg, s, [Get(pid, key, got), Select(pid), Set(pid, stored, ttl)], s')
    ensures |s'.answers| == |s.answers| + 1 && s'.answers[|s.answers|].catalog == CatalogOf(cfg.le, key, Current(s))
    ensures s'.cache == if stored
      then s.cache[key := Entry(Item(Encoded(CatalogOf(cfg.le, key, Current(s))), ExpiryFor(ttl, s.clock.at)),
                                Snapshot(|s.commits|, Stamp(s.clock.step + 1, s.clock.at)),
                                Stamp(s.clock.step + 2, s.clock.at))]
      else s.cache
    ensures s'.procs == s.procs && s'.states == s.states
  {
    hide CatalogOf, ExpiryFor, Execute, Issued, Target, KeyOf, Live;
    var s1 := Apply(cfg, s, Get(pid, key, got));
    var s2 := Apply(cfg, s1, Select(pid));
    s' := Apply(cfg, s2, Set(pid, stored, ttl));
    RunThree(cfg, s, Get(pid, key, got), Select(pid), Set(pid, stored, ttl));
    assert s'.procs == s.procs;
  }

  // A List answers and leaves the cache as the service's List does.
  lemma ListRefinesService(cfg: Config, s: State, pid: nat, key: Cache.Key, got: bool, stored: bool, ttl: int)
    requires Inv(cfg, s) && s.states != [] && pid !in s.procs && 0 < ttl <= cfg.maxTtl
    ensures
      var es := [Get(pid, key, got)] + if Hits(s, key, got) then [] else [Select(pid), Set(pid, stored, ttl)];
      var step := ListStep(cfg.le, key, Current(s), true, ItemsOf(s), ttl,
                           ListIo(got, stored, s.clock.at, s.clock.at, None));
      exists s' ::
        && Run(cfg, s, es, s') && |s'.answers| == |s.answers| + 1
        && step.result == Ok(s'.answers[|s.answers|].catalog)
        && ItemsOf(s') == step.items
        && s'.procs == s.procs && s'.states == s.states
  {
    hide Inv, Run, CatalogOf, ExpiryFor, Live, Decodes;
    if key in s.cache {
      EntriesDecode(cfg, s, key);
    }
    if Hits(s, key, got) {
      var s' := HitSteps(cfg, s, pid, key);
      assert [Get(pid, key, got)] + [] == [Get(pid, key, got)];
    } else {
      var s' := MissSteps(cfg, s, pid, key, got, stored, ttl);
      assert [Get(pid, key, got)] + [Select(pid), Set(pid, stored, ttl)]
        == [Get(pid, key, got), Select(pid), Set(pid, stored, ttl)];
    }
  }

  // A Set starts the entry's time to live: as long as that entry is the one in the
  // cache, a Get answers it before, and misses from, the moment the time is over.
  lemma EntryAnswersForItsTtl(cfg: Config, s: State, pid: nat, ttl: int, es: seq<Event>, s': State, reader: nat)
    requires Enabled(cfg, s, Set(pid, true, ttl)) && Run(cfg, Apply(cfg, s, Set(pid, true, ttl)), es, s')
    requires var key := s.procs[pid].key;
      key in s'.cache && s'.cache[key] == Apply(cfg, s, Set(pid, true, ttl)).cache[key] && reader !in s'.procs
    ensures
      var key, rows := s.procs[pid].key, s.procs[pid].rows;
      var after := Apply(cfg, s', Get(reader, key, true));
      if s'.clock.at < s.clock.at + ttl then
        |after.answers| == |s'.answers| + 1 && after.answers[|s'.answers|].catalog == rows && after.procs == s'.procs
      else
        after.answers == s'.answers && reader in after.procs && after.procs[reader].Missed?
  {
    hide Execute, Issued, CatalogOf;
  }

  // ── nothing waits ──

  // Whatever the others do, each request's next step can be taken, with its cache
  // call failing or not; a request can stop and a new one start.
  lemma NothingWaits(cfg: Config, s: State, pid: nat, key: Cache.Key, w: Write, b: bool)
    requires Inv(cfg, s) && s.states != [] && cfg.maxTtl > 0
    ensures pid !in s.procs ==> Enabled(cfg, s, Get(pid, key, b)) && Enabled(cfg, s, Begin(pid, w))
    ensures pid in s.procs ==>
      && Enabled(cfg, s, Crash(pid)) && pid !in Apply(cfg, s, Crash(pid)).procs
      && match s.procs[pid]
         case Missed(_, _) => Enabled(cfg, s, Select(pid))
         case Loaded(_, _, x) =>
           && Enabled(cfg, s, Set(pid, false, cfg.maxTtl))
           && (s.clock.at <= x.taken.at + cfg.maxDelay ==> Enabled(cfg, s, Set(pid, true, cfg.maxTtl)))
         case Writing(v) => Issued(Current(s), v) ==> Enabled(cfg, s, Update(pid))
         case Unmatched(_, _) => Enabled(cfg, s, Probe(pid))
         case Invalidating(_) => Enabled(cfg, s, Delete(pid, b))
  {
    hide LogOk, EntryOk, AnswerOk, ReplyOk, Execute, Issued, CatalogOf;
    assert pid in s.procs ==> ProcOk(cfg, s, s.procs[pid]);
  }

  // Entries can go or be damaged at any time, and any time can pass.
  lemma CacheMayLose(cfg: Config, s: State, key: Cache.Key, d: nat)
    ensures key in s.cache ==>
      && Enabled(cfg, s, Evict(key)) && key !in Apply(cfg, s, Evict(key)).cache
      && Enabled(cfg, s, Corrupt(key)) && Apply(cfg, s, Corrupt(key)).cache[key].item.bytes.Garbage?
    ensures Enabled(cfg, s, Tick(d)) && Apply(cfg, s, Tick(d)).clock.at == s.clock.at + d
  {
  }

  // What the services issue, in plain terms: an INSERT or PATCH reaches the
  // database exactly with these fields.
  lemma IssuedIff(db: Db, w: Write)
    ensures w.InsertDept? ==>
      (Issued(db, w) <==>
        && w.id !in db.departments
        && (exists i | 0 <= i < |w.code| :: !IsSpace(w.code[i]))
        && (exists i | 0 <= i < |w.name| :: !IsSpace(w.name[i])))
    ensures w.PatchDept? ==>
      (Issued(db, w) <==>
        && (w.newName.Some? || w.active.Some?)
        && (w.newName.Some? ==> exists i | 0 <= i < |w.newName.value| :: !IsSpace(w.newName.value[i])))
    ensures w.PatchPlan? ==>
      (Issued(db, w) <==> forall code | ParsePlanCode(code).Some? ::
        PlanServices.Validate(code, w.patch).None? && !PlanServices.HasNested(w.patch))
  {
    if w.PatchPlan? {
      forall code | ParsePlanCode(code).Some?
        ensures Issued(db, w)
          <==> PlanServices.Validate(code, w.patch).None? && !PlanServices.HasNested(w.patch)
      {
        PlanServices.AcceptedIff(code, w.patch);
      }
      assert ParsePlanCode("starter").Some?;
    }
  }

  const HEALTHY := DbIo(None, None, None)

  lemma RunFrom(cfg: Config, s: State, a: Event, b: Event, rest: seq<Event>, s': State)
    requires Enabled(cfg, s, a) && Enabled(cfg, Apply(cfg, s, a), b)
    requires Run(cfg, Apply(cfg, Apply(cfg, s, a), b), rest, s')
    ensures Run(cfg, s, [a, b] + rest, s')
  {
    hide Enabled, Apply;
    assert ([b] + rest)[1..] == rest && ([a, b] + rest)[1..] == [b] + rest;
    assert Run(cfg, Apply(cfg, s, a), [b] + rest, s');
  }

  // The repository's answer on a healthy database, in terms of the statement.
  lemma RepoFromStatement(t: D.Table, w: Write, now: Time)
    requires D.Valid(t) && w.PatchDept? && (w.newName.Some? || w.active.Some?)
    ensures
      var out := RepoPatch(t, w.id, w.newName, w.active, w.expected, now, HEALTHY);
      match D.ExecPatch(t, w.id, w.newName, w.active, w.expected, now)
      case Updated(t', row) => out == Written(Ok(row), t')
      case Failed(e) => out == Written(Err(e), t) && !e.DomainError?
      case NoMatch =>
        && out.table == t
        && out.result == Err(if w.id in t then ConflictWith(t[w.id].recordVersion) else DepartmentMissing())
  {
    hide D.ExecPatch;
    D.PatchRefinesFlat(t, w.id, w.newName, w.active, w.expected, now);
  }

  // What follows the UPDATE: a Delete after a commit, a probe after a miss.
  ghost function Steps(s: State, w: Write, pid: nat, deleted: bool): seq<Event>
    requires s.states != []
  {
    [Begin(pid, w), Update(pid)] +
    match Execute(Current(s), w, s.clock.at)
    case Committed(_) => [Delete(pid, deleted)]
    case Unmatched => [Probe(pid)]
    case Rejected(_) => []
  }

  lemma CommitSteps(cfg: Config, s: State, pid: nat, w: Write, deleted: bool, db: Db) returns (s': State)
    requires s.states != [] && pid !in s.procs && Issued(Current(s), w) && |s.states| == |s.commits| + 1
    requires Execute(Current(s), w, s.clock.at) == Committed(db)
    ensures Run(cfg, s, Steps(s, w, pid, deleted), s')
    ensures s'.procs == s.procs && s'.states != [] && Current(s') == db && s'.replies == s.replies
    ensures s'.cache == if deleted then s.cache - {KeyOf(w)} else s.cache
  {
    hide Execute, Issued, Target;
    var s1 := Apply(cfg, s, Begin(pid, w));
    var s2 := Apply(cfg, s1, Update(pid));
    s' := Apply(cfg, s2, Delete(pid, deleted));
    RunOne(cfg, s2, Delete(pid, deleted));
    RunFrom(cfg, s, Begin(pid, w), Update(pid), [Delete(pid, deleted)], s');
    assert s'.procs == s.procs;
  }

  lemma UnmatchedSteps(cfg: Config, s: State, pid: nat, w: Write, deleted: bool) returns (s': State)
    requires s.states != [] && pid !in s.procs && Issued(Current(s), w)
    requires Execute(Current(s), w, s.clock.at).Unmatched?
    ensures Run(cfg, s, Steps(s, w, pid, deleted), s')
    ensures s'.procs == s.procs && s'.states == s.states && s'.cache == s.cache
    ensures s'.replies == s.replies + [match RowAt(Current(s), Target(w))
      case Some(r) => ConflictReply(w, |s.commits|, |s.commits|, Version(r))
      case None => NotFoundReply(w, |s.commits|, |s.commits|)]
  {
    hide Execute, Issued, Target, RowAt, Version;
    var s1 := Apply(cfg, s, Begin(pid, w));
    var s2 := Apply(cfg, s1, Update(pid));
    s' := Apply(cfg, s2, Probe(pid));
    RunOne(cfg, s2, Probe(pid));
    RunFrom(cfg, s, Begin(pid, w), Update(pid), [Probe(pid)], s');
    assert s'.procs == s.procs;
  }

  lemma RejectedSteps(cfg: Config, s: State, pid: nat, w: Write, deleted: bool) returns (s': State)
    requires s.states != [] && pid !in s.procs && Issued(Current(s), w)
    requires Execute(Current(s), w, s.clock.at).Rejected?
    ensures Run(cfg, s, Steps(s, w, pid, deleted), s')
    ensures s'.procs == s.procs && s'.states == s.states && s'.cache == s.cache && s'.replies == s.replies
  {
    hide Execute, Issued, Target;
    var s1 := Apply(cfg, s, Begin(pid, w));
    s' := Apply(cfg, s1, Update(pid));
    assert Run(cfg, s', [], s');
    RunFrom(cfg, s, Begin(pid, w), Update(pid), [], s');
    assert s'.procs == s.procs;
  }

  // The reply the protocol records when the repository returns this error.
  function ReplyFor(w: Write, n: nat, e: Error): Reply
    requires e.DomainError?
  {
    if e.cause == OptimisticLockConflict && "record_version" in e.details && e.details["record_version"].Number? then
      ConflictReply(w, n, n, e.details["record_version"].n)
    else NotFoundReply(w, n, n)
  }

  // A department PATCH commits, conflicts, finds nothing or is rejected as in the
  // repository, and a commit's Delete leaves the cache without the key.
  lemma PatchRefinesRepository(cfg: Config, s: State, pid: nat, w: Write, deleted: bool)
    requires Inv(cfg, s) && s.states != [] && pid !in s.procs && w.PatchDept? && Issued(Current(s), w)
    ensures
      var out := RepoPatch(Current(s).departments, w.id, w.newName, w.active, w.expected, s.clock.at, HEALTHY);
      var replies :=
        if out.result.Err? && out.result.error.DomainError? then [ReplyFor(w, |s.commits|, out.result.error)] else [];
      exists s' ::
        && Run(cfg, s, Steps(s, w, pid, deleted), s')
        && s'.procs == s.procs && s'.states != []
        && Current(s') == Current(s).(departments := out.table)
        && ItemsOf(s') == (if out.result.Ok? && deleted then ItemsOf(s) - {DepartmentsKey} else ItemsOf(s))
        && s'.replies == s.replies + replies
  {
    hide Inv, Run, Steps, D.ExecPatch, RepoPatch, D.Valid;
    HasState(cfg, s);
    var db := Current(s);
    RepoFromStatement(db.departments, w, s.clock.at);
    match D.ExecPatch(db.departments, w.id, w.newName, w.active, w.expected, s.clock.at)
    case Updated(t, _) =>
      var s' := CommitSteps(cfg, s, pid, w, deleted, db.(departments := t));
    case NoMatch =>
      var s' := UnmatchedSteps(cfg, s, pid, w, deleted);
    case Failed(e) =>
      var s' := RejectedSteps(cfg, s, pid, w, deleted);
  }

  lemma PlanRepoFromStatement(t: P.Table, w: Write, now: Time)
    requires P.Valid(t) && w.PatchPlan? && P.Accepted(w.patch)
    ensures
      var out := PlanServices.RepoPlanPatch(t, w.plan, w.patch, now, HEALTHY);
      match P.ExecPatch(t, w.plan, w.patch, now)
      case Updated(t', _) => out.result.Ok? && out.table == t'
      case Failed(_) => false
      case NoMatch =>
        && out.table == t
        && out.result == Err(if w.plan in t then ConflictWith(t[w.plan].recordVersion) else PlanServices.PlanMissing())
  {
    hide P.ExecPatch, P.FlatPatch;
    P.PatchKeepsValid(t, w.plan, w.patch, now);
    P.PatchRefinesFlat(t, w.plan, w.patch, now);
  }

  // The same for a plan PATCH the service accepts, which is never rejected.
  lemma PlanPatchRefinesRepository(cfg: Config, s: State, pid: nat, w: Write, deleted: bool)
    requires Inv(cfg, s) && s.states != [] && pid !in s.procs && w.PatchPlan? && Issued(Current(s), w)
    ensures
      var out := PlanServices.RepoPlanPatch(Current(s).plans, w.plan, w.patch, s.clock.at, HEALTHY);
      (out.result.Err? ==> out.result.error.DomainError?) &&
      var replies := if out.result.Err? then [ReplyFor(w, |s.commits|, out.result.error)] else [];
      exists s' ::
        && Run(cfg, s, Steps(s, w, pid, deleted), s')
        && s'.procs == s.procs && s'.states != []
        && Current(s') == Current(s).(plans := out.table)
        && ItemsOf(s') == (if out.result.Ok? && deleted then ItemsOf(s) - {PlansKey} else ItemsOf(s))
        && s'.replies == s.replies + replies
  {
    hide Inv, Run, Steps, P.ExecPatch, PlanServices.RepoPlanPatch, P.Valid, P.Accepted;
    HasState(cfg, s);
    var db := Current(s);
    PlanRepoFromStatement(db.plans, w, s.clock.at);
    match P.ExecPatch(db.plans, w.plan, w.patch, s.clock.at)
    case Updated(t, _) =>
      var s' := CommitSteps(cfg, s, pid, w, deleted, db.(plans := t));
    case NoMatch =>
      var s' := UnmatchedSteps(cfg, s, pid, w, deleted);
  }

  // And for a new department.
  lemma InsertRefinesRepository(cfg: Config, s: State, pid: nat, w: Write, deleted: bool)
    requires Inv(cfg, s) && s.states != [] && pid !in s.procs && w.InsertDept? && Issued(Current(s), w)
    ensures
      var out := RepoInsert(Current(s).departments, w.id, w.code, w.name, w.isSystem, s.clock.at, HEALTHY);
      exists s' ::
        && Run(cfg, s, Steps(s, w, pid, deleted), s')
        && s'.procs == s.procs && s'.states != [] && s'.replies == s.replies
        && Current(s') == Current(s).(departments := out.table)
        && ItemsOf(s') == if out.result.Ok? && deleted then ItemsOf(s) - {DepartmentsKey} else ItemsOf(s)
  {
    hide Inv, Run, Steps, D.ExecInsert, D.Valid;
    HasState(cfg, s);
    var db := Current(s);
    InsertFromStatement(db.departments, w, s.clock.at);
    match D.ExecInsert(db.departments, w.id, w.code, w.name, w.isSystem, true, s.clock.at)
    case Updated(t, _) =>
      var s' := CommitSteps(cfg, s, pid, w, deleted, db.(departments := t));
    case Failed(_) =>
      var s' := RejectedSteps(cfg, s, pid, w, deleted);
  }

  lemma InsertFromStatement(t: D.Table, w: Write, now: Time)
    requires D.Valid(t) && w.InsertDept? && w.id !in t && !Blank(w.code) && !Blank(w.name)
    ensures
      var out := RepoInsert(t, w.id, w.code, w.name, w.isSystem, now, HEALTHY);
      match D.ExecInsert(t, w.id, w.code, w.name, w.isSystem, true, now)
      case Updated(t', row) => out == Written(Ok(row), t')
      case Failed(_) => out == Written(Err(DuplicateCode()), t)
      case NoMatch => false
  {
    D.InsertKeepsValid(t, w.id, w.code, w.name, w.isSystem, now);
  }
}

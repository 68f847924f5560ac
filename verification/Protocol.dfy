/** Any number of pods and requests over one Postgres and one Valkey, one step
    per SQL statement or cache call. Readers run Get, SELECT, Set; writers run a
    guarded UPDATE or an INSERT, then Delete, or a probe when no row matched. */
module Protocol {
  import opened Wrappers
  import opened Domain
  import opened Cache
  import opened Runs
  import opened Strings
  import opened Listing

  // SELECT ... ORDER BY code, the whole table.
  ghost function CatalogOf(le: Collation, key: Cache.Key, db: Db): Catalog {
    match key
    case DepartmentsKey => DepartmentCatalog(SelectDepartments(le, db.departments, false))
    case PlansKey => PlanCatalog(SelectPlans(db.plans))
  }

  // The cache key a write invalidates.
  function KeyOf(w: Write): Cache.Key {
    if w.PatchPlan? then PlansKey else DepartmentsKey
  }

  // ── state ──

  // A moment: how many steps were taken before it, and the time of day.
  datatype Stamp = Stamp(step: nat, at: Time)

  // A SELECT that saw the database after `upTo` commits.
  datatype Snapshot = Snapshot(upTo: nat, taken: Stamp)

  // A stored item, with what filled it (kept for the proofs, read by no step).
  datatype Entry = Entry(item: Item, source: Snapshot, filled: Stamp)

  datatype Pc =
    | Missed(key: Cache.Key, got: Stamp)            // Get gave nothing; SELECT next
    | Loaded(key: Cache.Key, rows: Catalog, source: Snapshot)  // answered; Set outstanding
    | Writing(w: Write)                             // statement next
    | Unmatched(w: Write, missedAt: nat)            // UPDATE matched nothing; probe next
    | Invalidating(c: nat)                          // commit c is in; Delete outstanding

  // A List answer; `via` is the Set that put it into the cache, if it came from there.
  datatype Answer = Answer(key: Cache.Key, catalog: Catalog, got: Stamp, source: Snapshot, via: Option<Stamp>)

  // A 409 with its record_version, or a 404.
  datatype Reply =
    | ConflictReply(w: Write, missedAt: nat, probedAt: nat, version: int)
    | NotFoundReply(w: Write, missedAt: nat, probedAt: nat)

  datatype State = State(
    states: seq<Db>,             // states[i]: after i commits
    commits: seq<Commit>,
    commitSteps: seq<nat>,
    clock: Stamp,
    cache: map<Cache.Key, Entry>,
    procs: map<nat, Pc>,
    deletes: map<nat, nat>,      // commit -> step of its Delete, if that took effect
    answers: seq<Answer>,
    replies: seq<Reply>)

  // Upper bounds on any pod's TTL and on the time from a SELECT to its Set, and
  // the database's collation.
  datatype Config = Config(maxTtl: Time, maxDelay: Time, le: Collation)

  datatype Event =
    | Get(pid: nat, key: Cache.Key, reached: bool)
    | Select(pid: nat)
    | Set(pid: nat, reached: bool, ttl: int)
    | Begin(pid: nat, w: Write)
    | Update(pid: nat)
    | Probe(pid: nat)
    | Delete(pid: nat, reached: bool)
    | Crash(pid: nat)            // a request ends early: database error, timeout, lost pod
    | Tick(d: nat)
    | Evict(key: Cache.Key)
    | Corrupt(key: Cache.Key)

  function Current(s: State): Db
    requires s.states != []
  {
    s.states[|s.states| - 1]
  }

  // ── steps ──

  ghost predicate Enabled(cfg: Config, s: State, e: Event) {
    match e
    case Get(pid, _, _) => pid !in s.procs
    case Select(pid) => pid in s.procs && s.procs[pid].Missed? && s.states != []
    case Set(pid, reached, ttl) =>
      && pid in s.procs && s.procs[pid].Loaded?
      && 0 < ttl <= cfg.maxTtl
      && (reached ==> s.clock.at <= s.procs[pid].source.taken.at + cfg.maxDelay)
    case Begin(pid, _) => pid !in s.procs
    case Update(pid) => pid in s.procs && s.procs[pid].Writing? && s.states != [] && Issued(Current(s), s.procs[pid].w)
    case Probe(pid) => pid in s.procs && s.procs[pid].Unmatched? && s.states != []
    case Delete(pid, _) => pid in s.procs && s.procs[pid].Invalidating? && s.procs[pid].c < |s.commits|
    case Crash(pid) => pid in s.procs
    case Tick(_) => true
    case Evict(key) => key in s.cache
    case Corrupt(key) => key in s.cache
  }

  function Done(s: State, pid: nat): State {
    s.(procs := s.procs - {pid})
  }

  function AfterGet(s: State, pid: nat, key: Cache.Key, reached: bool): State {
    if reached && key in s.cache && Live(s.cache[key].item, s.clock.at) && s.cache[key].item.bytes.Encoded? then
      var e := s.cache[key];
      s.(answers := s.answers + [Answer(key, e.item.bytes.catalog, s.clock, e.source, Some(e.filled))])
    else s.(procs := s.procs[pid := Missed(key, s.clock)])
  }

  ghost function AfterSelect(cfg: Config, s: State, pid: nat): State
    requires pid in s.procs && s.procs[pid].Missed? && s.states != []
  {
    var pc := s.procs[pid];
    var snap := Snapshot(|s.commits|, s.clock);
    s.(procs := s.procs[pid := Loaded(pc.key, CatalogOf(cfg.le, pc.key, Current(s)), snap)],
       answers := s.answers + [Answer(pc.key, CatalogOf(cfg.le, pc.key, Current(s)), pc.got, snap, None)])
  }

  function AfterSet(s: State, pid: nat, reached: bool, ttl: int): State
    requires pid in s.procs && s.procs[pid].Loaded?
  {
    var pc := s.procs[pid];
    var entry := Entry(Item(Encoded(pc.rows), ExpiryFor(ttl, s.clock.at)), pc.source, s.clock);
    Done(if reached then s.(cache := s.cache[pc.key := entry]) else s, pid)
  }

  function AfterUpdate(s: State, pid: nat): State
    requires pid in s.procs && s.procs[pid].Writing? && s.states != []
  {
    var w := s.procs[pid].w;
    match Execute(Current(s), w, s.clock.at)
    case Committed(db) =>
      s.(states := s.states + [db], commits := s.commits + [Commit(w, s.clock.at)],
         commitSteps := s.commitSteps + [s.clock.step], procs := s.procs[pid := Invalidating(|s.commits|)])
    case Unmatched => s.(procs := s.procs[pid := Pc.Unmatched(w, |s.commits|)])
    case Rejected(_) => Done(s, pid)
  }

  function AfterProbe(s: State, pid: nat): State
    requires pid in s.procs && s.procs[pid].Unmatched? && s.states != []
  {
    var pc := s.procs[pid];
    var reply := match RowAt(Current(s), Target(pc.w))
      case Some(r) => ConflictReply(pc.w, pc.missedAt, |s.commits|, Version(r))
      case None => NotFoundReply(pc.w, pc.missedAt, |s.commits|);
    Done(s.(replies := s.replies + [reply]), pid)
  }

  function AfterDelete(s: State, pid: nat, reached: bool): State
    requires pid in s.procs && s.procs[pid].Invalidating? && s.procs[pid].c < |s.commits|
  {
    var c := s.procs[pid].c;
    var cleared := s.(cache := s.cache - {KeyOf(s.commits[c].write)}, deletes := s.deletes[c := s.clock.step]);
    Done(if reached then cleared else s, pid)
  }

  ghost function Effects(cfg: Config, s: State, e: Event): State
    requires Enabled(cfg, s, e)
  {
    match e
    case Get(pid, key, reached) => AfterGet(s, pid, key, reached)
    case Select(pid) => AfterSelect(cfg, s, pid)
    case Set(pid, reached, ttl) => AfterSet(s, pid, reached, ttl)
    case Begin(pid, w) => s.(procs := s.procs[pid := Writing(w)])
    case Update(pid) => AfterUpdate(s, pid)
    case Probe(pid) => AfterProbe(s, pid)
    case Delete(pid, reached) => AfterDelete(s, pid, reached)
    case Crash(pid) => Done(s, pid)
    case Tick(d) => s.(clock := Stamp(s.clock.step, s.clock.at + d))
    case Evict(key) => s.(cache := s.cache - {key})
    case Corrupt(key) => s.(cache := s.cache[key := s.cache[key].(item := s.cache[key].item.(bytes := Garbage))])
  }

  // Every step also advances the step count.
  ghost function Apply(cfg: Config, s: State, e: Event): State
    requires Enabled(cfg, s, e)
  {
    var s' := Effects(cfg, s, e);
    s'.(clock := Stamp(s'.clock.step + 1, s'.clock.at))
  }

  ghost predicate Start(s: State) {
    exists db :: Initial(db) && s == StartOn(db)
  }

  function StartOn(db: Db): State {
    State([db], [], [], Stamp(0, 0), map[], map[], map[], [], [])
  }

  ghost predicate Run(cfg: Config, s: State, es: seq<Event>, s': State)
    decreases |es|
  {
    if es == [] then s' == s
    else Enabled(cfg, s, es[0]) && Run(cfg, Apply(cfg, s, es[0]), es[1..], s')
  }

  ghost predicate Reachable(cfg: Config, s: State) {
    exists s0, es :: Start(s0) && Run(cfg, s0, es, s)
  }

  // ── the invariant ──

  ghost predicate LogOk(s: State) {
    && IsHistory(s.states, s.commits)
    && |s.commitSteps| == |s.commits|
    && (forall c | 0 <= c < |s.commits| :: s.commitSteps[c] < s.clock.step && s.commits[c].at <= s.clock.at)
    && (forall c | c in s.deletes :: c < |s.commits| && s.commitSteps[c] < s.deletes[c] < s.clock.step)
  }

  // The snapshot lies between the commits it saw and those it did not.
  ghost predicate SnapOk(s: State, x: Snapshot) {
    && x.upTo <= |s.commits| == |s.commitSteps|
    && x.taken.step < s.clock.step && x.taken.at <= s.clock.at
    && (forall c | 0 <= c < x.upTo :: s.commitSteps[c] < x.taken.step && s.commits[c].at <= x.taken.at)
    && (forall c | x.upTo <= c < |s.commits| :: x.taken.step < s.commitSteps[c] && x.taken.at <= s.commits[c].at)
  }

  // A commit the snapshot did not see, of a table the key caches.
  ghost predicate Unseen(s: State, key: Cache.Key, x: Snapshot, c: nat) {
    x.upTo <= c < |s.commits| && KeyOf(s.commits[c].write) == key
  }

  ghost predicate ProcOk(cfg: Config, s: State, pc: Pc) {
    match pc
    case Missed(_, got) => got.step < s.clock.step && got.at <= s.clock.at
    case Loaded(key, rows, x) => SnapOk(s, x) && |s.commits| < |s.states|
      && rows == CatalogOf(cfg.le, key, s.states[x.upTo])
    case Writing(_) => true
    case Unmatched(w, m) => m <= |s.commits| < |s.states| && Expected(w).Some?
      && Runs.Misses(s.states[m], Target(w), Expected(w).value)
    case Invalidating(c) => c < |s.commits|
  }

  ghost predicate EntryOk(cfg: Config, s: State, key: Cache.Key, e: Entry) {
    e.item.bytes.Encoded? ==>
      && SnapOk(s, e.source) && |s.commits| < |s.states|
      && e.item.bytes.catalog == CatalogOf(cfg.le, key, s.states[e.source.upTo])
      && e.source.taken.step < e.filled.step < s.clock.step
      && e.source.taken.at <= e.filled.at <= e.source.taken.at + cfg.maxDelay
      && e.filled.at <= s.clock.at
      && e.item.expiry.At? && e.item.expiry.t <= e.filled.at + cfg.maxTtl
      && forall c | c in s.deletes && Unseen(s, key, e.source, c) :: s.deletes[c] < e.filled.step
  }

  ghost predicate AnswerOk(cfg: Config, s: State, a: Answer) {
    && SnapOk(s, a.source) && |s.commits| < |s.states|
    && a.catalog == CatalogOf(cfg.le, a.key, s.states[a.source.upTo])
    && a.got.step < s.clock.step && a.got.at <= s.clock.at
    && a.got.at < a.source.taken.at + cfg.maxTtl + cfg.maxDelay
    && (a.via.None? ==> a.got.step < a.source.taken.step && a.got.at <= a.source.taken.at)
    && (a.via.Some? ==>
          && a.source.taken.step < a.via.value.step < a.got.step
          && a.source.taken.at <= a.got.at
          && forall c | c in s.deletes && Unseen(s, a.key, a.source, c) && s.deletes[c] < a.got.step ::
            s.deletes[c] < a.via.value.step)
  }

  ghost predicate ReplyOk(s: State, r: Reply) {
    && r.missedAt <= r.probedAt <= |s.commits| < |s.states|
    && Expected(r.w).Some? && Runs.Misses(s.states[r.missedAt], Target(r.w), Expected(r.w).value)
    && var row := RowAt(s.states[r.probedAt], Target(r.w));
      match r
      case ConflictReply(_, _, _, version) => row.Some? && Version(row.value) == version
      case NotFoundReply(_, _, _) => row.None?
  }

  ghost predicate Inv(cfg: Config, s: State) {
    && LogOk(s)
    && (forall pid | pid in s.procs :: ProcOk(cfg, s, s.procs[pid]))
    && (forall key | key in s.cache :: EntryOk(cfg, s, key, s.cache[key]))
    && (forall i | 0 <= i < |s.answers| :: AnswerOk(cfg, s, s.answers[i]))
    && (forall i | 0 <= i < |s.replies| :: ReplyOk(s, s.replies[i]))
  }

  // The log only grows, and only with later moments.
  ghost predicate Grows(s: State, s': State) {
    && |s.states| == |s.commits| + 1 == |s.commitSteps| + 1
    && |s'.states| == |s'.commits| + 1 == |s'.commitSteps| + 1
    && s.states <= s'.states && s.commits <= s'.commits && s.commitSteps <= s'.commitSteps
    && s.clock.step < s'.clock.step && s.clock.at <= s'.clock.at
    && (forall c | |s.commits| <= c < |s'.commits| ::
      s.clock.step <= s'.commitSteps[c] && s.clock.at <= s'.commits[c].at)
    && (forall c | c in s.deletes :: c < |s.commits|)
    && (forall c | c in s'.deletes && !(c in s.deletes && s.deletes[c] == s'.deletes[c]) ::
      s.clock.step <= s'.deletes[c])
  }

  lemma SnapStable(s: State, s': State, x: Snapshot)
    requires Grows(s, s') && SnapOk(s, x)
    ensures SnapOk(s', x)
    ensures x.upTo < |s.states| && s'.states[x.upTo] == s.states[x.upTo]
  {
  }

  lemma ProcStable(cfg: Config, s: State, s': State, pc: Pc)
    requires Grows(s, s') && ProcOk(cfg, s, pc)
    ensures ProcOk(cfg, s', pc)
  {
    if pc.Loaded? {
      SnapStable(s, s', pc.source);
    }
  }

  lemma AnswerStable(cfg: Config, s: State, s': State, a: Answer)
    requires Grows(s, s') && AnswerOk(cfg, s, a)
    ensures AnswerOk(cfg, s', a)
  {
    SnapStable(s, s', a.source);
  }

  lemma ReplyStable(s: State, s': State, r: Reply)
    requires Grows(s, s') && ReplyOk(s, r)
    ensures ReplyOk(s', r)
  {
  }

  // An entry stays good unless a Delete of its own key goes by.
  lemma EntryStable(cfg: Config, s: State, s': State, key: Cache.Key, e: Entry)
    requires Grows(s, s') && EntryOk(cfg, s, key, e)
    requires forall c | c in s'.deletes && c < |s'.commits| && KeyOf(s'.commits[c].write) == key ::
      c in s.deletes && s.deletes[c] == s'.deletes[c]
    ensures EntryOk(cfg, s', key, e)
  {
    if e.item.bytes.Encoded? {
      SnapStable(s, s', e.source);
      forall c | c in s'.deletes && Unseen(s', key, e.source, c) ensures s'.deletes[c] < e.filled.step {
        assert c < |s.commits| && s.commits[c] == s'.commits[c];
        assert Unseen(s, key, e.source, c);
      }
    }
  }

  // What is new is good, what was there stays good.
  lemma InvFrom(cfg: Config, s: State, s': State)
    requires Inv(cfg, s) && Grows(s, s') && LogOk(s')
    requires forall pid | pid in s'.procs ::
      (pid in s.procs && s.procs[pid] == s'.procs[pid]) || ProcOk(cfg, s', s'.procs[pid])
    requires forall key | key in s'.cache :: EntryOk(cfg, s', key, s'.cache[key])
    requires s.answers <= s'.answers && forall i | |s.answers| <= i < |s'.answers| :: AnswerOk(cfg, s', s'.answers[i])
    requires s.replies <= s'.replies && forall i | |s.replies| <= i < |s'.replies| :: ReplyOk(s', s'.replies[i])
    ensures Inv(cfg, s')
  {
    hide LogOk, ProcOk, EntryOk, AnswerOk, ReplyOk, Grows;
    forall pid | pid in s'.procs ensures ProcOk(cfg, s', s'.procs[pid]) {
      if pid in s.procs && s.procs[pid] == s'.procs[pid] {
        ProcStable(cfg, s, s', s.procs[pid]);
      }
    }
    forall i | 0 <= i < |s'.answers| ensures AnswerOk(cfg, s', s'.answers[i]) {
      if i < |s.answers| {
        AnswerStable(cfg, s, s', s.answers[i]);
      }
    }
    forall i | 0 <= i < |s'.replies| ensures ReplyOk(s', s'.replies[i]) {
      if i < |s.replies| {
        ReplyStable(s, s', s.replies[i]);
      }
    }
  }

  // The cache part for steps that neither fill nor delete.
  lemma EntriesStable(cfg: Config, s: State, s': State)
    requires Inv(cfg, s) && Grows(s, s') && s'.deletes == s.deletes
    requires forall key | key in s'.cache ::
      key in s.cache && (s'.cache[key] == s.cache[key] || s'.cache[key].item.bytes.Garbage?)
    ensures forall key | key in s'.cache :: EntryOk(cfg, s', key, s'.cache[key])
  {
    forall key | key in s'.cache ensures EntryOk(cfg, s', key, s'.cache[key]) {
      if s'.cache[key] == s.cache[key] {
        EntryStable(cfg, s, s', key, s.cache[key]);
      }
    }
  }

  lemma StepQuiet(cfg: Config, s: State, e: Event)
    requires Inv(cfg, s) && Enabled(cfg, s, e)
    requires e.Begin? || e.Crash? || e.Tick? || e.Evict? || e.Corrupt?
    ensures Inv(cfg, Apply(cfg, s, e))
  {
    hide Initial, Follows, Execute, ProcOk, EntryOk, AnswerOk, ReplyOk;
    var s' := Apply(cfg, s, e);
    assert Grows(s, s');
    EntriesStable(cfg, s, s');
    if e.Begin? {
      assert ProcOk(cfg, s', s'.procs[e.pid]) by { WritingOk(cfg, s', e.w); }
    }
    InvFrom(cfg, s, s');
  }

  lemma WritingOk(cfg: Config, s: State, w: Write)
    ensures ProcOk(cfg, s, Writing(w))
  {
  }

  lemma StepGet(cfg: Config, s: State, e: Event)
    requires Inv(cfg, s) && Enabled(cfg, s, e) && e.Get?
    ensures Inv(cfg, Apply(cfg, s, e))
  {
    hide Initial, Follows, Execute;
    var s' := Apply(cfg, s, e);
    assert Grows(s, s');
    EntriesStable(cfg, s, s');
    if |s'.answers| > |s.answers| {
      assert EntryOk(cfg, s, e.key, s.cache[e.key]);
      SnapStable(s, s', s.cache[e.key].source);
    }
    InvFrom(cfg, s, s');
  }

  lemma StepSelect(cfg: Config, s: State, e: Event)
    requires cfg.maxTtl > 0
    requires Inv(cfg, s) && Enabled(cfg, s, e) && e.Select?
    ensures Inv(cfg, Apply(cfg, s, e))
  {
    hide Initial, Follows, Execute, EntryOk, ReplyOk;
    var s' := Apply(cfg, s, e);
    assert Grows(s, s');
    EntriesStable(cfg, s, s');
    assert ProcOk(cfg, s, s.procs[e.pid]);
    assert SnapOk(s', Snapshot(|s.commits|, s.clock));
    InvFrom(cfg, s, s');
  }

  lemma StepSet(cfg: Config, s: State, e: Event)
    requires Inv(cfg, s) && Enabled(cfg, s, e) && e.Set?
    ensures Inv(cfg, Apply(cfg, s, e))
  {
    hide Initial, Follows, Execute, AnswerOk, ReplyOk;
    var s' := Apply(cfg, s, e);
    assert Grows(s, s');
    assert ProcOk(cfg, s, s.procs[e.pid]);
    SnapStable(s, s', s.procs[e.pid].source);
    forall key | key in s'.cache ensures EntryOk(cfg, s', key, s'.cache[key]) {
      if key in s.cache && s'.cache[key] == s.cache[key] {
        EntryStable(cfg, s, s', key, s.cache[key]);
      }
    }
    InvFrom(cfg, s, s');
  }

  // The committed write extends the history by a step of the tables.
  lemma LogExtends(s: State, w: Write, db: Db, s': State)
    requires LogOk(s) && s.states != [] && Issued(Current(s), w) && Execute(Current(s), w, s.clock.at) == Committed(db)
    requires s'.states == s.states + [db] && s'.commits == s.commits + [Commit(w, s.clock.at)]
    requires s'.commitSteps == s.commitSteps + [s.clock.step] && s'.deletes == s.deletes
    requires s'.clock == Stamp(s.clock.step + 1, s.clock.at)
    ensures LogOk(s') && Grows(s, s')
  {
    hide Initial, Execute, Issued;
    forall i | 0 <= i < |s'.commits| ensures Follows(s'.states[i], s'.commits[i], s'.states[i + 1]) {
      if i < |s.commits| {
        assert Follows(s.states[i], s.commits[i], s.states[i + 1]);
      }
    }
  }

  lemma StepUpdate(cfg: Config, s: State, e: Event)
    requires Inv(cfg, s) && Enabled(cfg, s, e) && e.Update?
    ensures Inv(cfg, Apply(cfg, s, e))
  {
    hide Initial, Follows, Execute, EntryOk, AnswerOk, ReplyOk, Issued;
    var s' := Apply(cfg, s, e);
    var w := s.procs[e.pid].w;
    var outcome := Execute(Current(s), w, s.clock.at);
    if outcome.Committed? {
      LogExtends(s, w, outcome.db, s');
    } else {
      assert Grows(s, s');
      if outcome.Unmatched? {
        UnmatchedMisses(s, w);
      }
    }
    EntriesStable(cfg, s, s');
    InvFrom(cfg, s, s');
  }

  lemma UnmatchedMisses(s: State, w: Write)
    requires LogOk(s) && s.states != [] && Issued(Current(s), w) && Execute(Current(s), w, s.clock.at).Unmatched?
    ensures Expected(w).Some? && Runs.Misses(Current(s), Target(w), Expected(w).value)
  {
    EveryStateValid(s.states, s.commits, |s.states| - 1);
    if Expected(w).Some? {
      UnmatchedIffMisses(Current(s), w, s.clock.at);
    } else {
      InsertNeverUnmatched(Current(s), w, s.clock.at);
    }
  }

  lemma StepProbe(cfg: Config, s: State, e: Event)
    requires Inv(cfg, s) && Enabled(cfg, s, e) && e.Probe?
    ensures Inv(cfg, Apply(cfg, s, e))
  {
    hide Initial, Follows, Execute, EntryOk, AnswerOk;
    var s' := Apply(cfg, s, e);
    assert Grows(s, s');
    EntriesStable(cfg, s, s');
    assert ProcOk(cfg, s, s.procs[e.pid]);
    InvFrom(cfg, s, s');
  }

  lemma StepDelete(cfg: Config, s: State, e: Event)
    requires Inv(cfg, s) && Enabled(cfg, s, e) && e.Delete?
    ensures Inv(cfg, Apply(cfg, s, e))
  {
    hide Initial, Follows, Execute, EntryOk, AnswerOk, ReplyOk;
    var s' := Apply(cfg, s, e);
    assert Grows(s, s');
    forall key | key in s'.cache ensures EntryOk(cfg, s', key, s'.cache[key]) {
      EntryStable(cfg, s, s', key, s.cache[key]);
    }
    InvFrom(cfg, s, s');
  }

  lemma StepKeepsInv(cfg: Config, s: State, e: Event)
    requires cfg.maxTtl > 0
    requires Inv(cfg, s) && Enabled(cfg, s, e)
    ensures Inv(cfg, Apply(cfg, s, e))
  {
    hide Inv, Apply, Enabled;
    match e
    case Get(_, _, _) => StepGet(cfg, s, e);
    case Select(_) => StepSelect(cfg, s, e);
    case Set(_, _, _) => StepSet(cfg, s, e);
    case Update(_) => StepUpdate(cfg, s, e);
    case Probe(_) => StepProbe(cfg, s, e);
    case Delete(_, _) => StepDelete(cfg, s, e);
    case _ => StepQuiet(cfg, s, e);
  }

  lemma {:induction false} RunKeepsInv(cfg: Config, s: State, es: seq<Event>, s': State)
    requires cfg.maxTtl > 0
    requires Inv(cfg, s) && Run(cfg, s, es, s')
    ensures Inv(cfg, s')
    decreases |es|
  {
    if es != [] {
      StepKeepsInv(cfg, s, es[0]);
      RunKeepsInv(cfg, Apply(cfg, s, es[0]), es[1..], s');
    }
  }

  lemma ReachableInv(cfg: Config, s: State)
    requires cfg.maxTtl > 0 && Reachable(cfg, s)
    ensures Inv(cfg, s)
  {
    var s0, es :| Start(s0) && Run(cfg, s0, es, s);
    RunKeepsInv(cfg, s0, es, s);
  }
}

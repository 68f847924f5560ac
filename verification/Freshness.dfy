/** What the protocol promises its readers and its writers, over every run. */
module Freshness {
  import opened Wrappers
  import opened Domain
  import opened Cache
  import opened Runs
  import opened Listing
  import opened Protocol
  import P = Plans

  // The cache holds, unexpired, a catalog read before commit c.
  ghost predicate Stale(s: State, key: Cache.Key, c: nat) {
    && key in s.cache && Live(s.cache[key].item, s.clock.at)
    && s.cache[key].item.bytes.Encoded? && s.cache[key].source.upTo <= c
  }

  // Table state number i was the current one at time t.
  ghost predicate StoodAt(s: State, i: nat, t: Time) {
    && i <= |s.commits|
    && (forall c | 0 <= c < i :: s.commits[c].at <= t)
    && (forall c | i <= c < |s.commits| :: t <= s.commits[c].at)
  }

  // Whatever the interleaving and whichever cache calls fail, a decodable cached
  // catalog is a committed table. Every commit it includes precedes the SELECT it
  // came from; a commit it misses has had no effective Delete, or the commit and
  // its Delete both fell between that SELECT and the Set that stored it.
  lemma CachedCatalogIsCommitted(cfg: Config, s: State, key: Cache.Key)
    requires cfg.maxTtl > 0 && Reachable(cfg, s)
    requires key in s.cache && s.cache[key].item.bytes.Encoded?
    ensures var e := s.cache[key];
      && e.source.upTo < |s.states|
      && e.item.bytes.catalog == CatalogOf(cfg.le, key, s.states[e.source.upTo])
      && |s.commits| == |s.commitSteps|
      && (forall c | 0 <= c < |s.commits| :: c < e.source.upTo <==> s.commitSteps[c] < e.source.taken.step)
      && forall c | 0 <= c < |s.commits| && KeyOf(s.commits[c].write) == key && c >= e.source.upTo ::
           || c !in s.deletes
           || e.source.taken.step < s.commitSteps[c] < s.deletes[c] < e.filled.step
  {
    ReachableInv(cfg, s);
    assert EntryOk(cfg, s, key, s.cache[key]);
    forall c | 0 <= c < |s.commits| && KeyOf(s.commits[c].write) == key && c >= s.cache[key].source.upTo
      && c in s.deletes
      ensures s.cache[key].source.taken.step < s.commitSteps[c] < s.deletes[c] < s.cache[key].filled.step
    {
      assert Unseen(s, key, s.cache[key].source, c);
    }
  }

  // The same for answers: one that misses a commit whose Delete was over before
  // its Get came out of the cache, put there across that commit and its Delete.
  lemma AnswerMissesOnlyAcrossDelete(cfg: Config, s: State, i: nat, c: nat)
    requires cfg.maxTtl > 0 && Reachable(cfg, s) && i < |s.answers|
    requires var a := s.answers[i];
      c in s.deletes && s.deletes[c] < a.got.step && Unseen(s, a.key, a.source, c)
    ensures var a := s.answers[i];
      && c < |s.commitSteps| && a.via.Some?
      && a.source.taken.step < s.commitSteps[c] < s.deletes[c] < a.via.value.step < a.got.step
  {
    ReachableInv(cfg, s);
    assert AnswerOk(cfg, s, s.answers[i]);
  }

  // When it was given: by its Get if that hit, by its SELECT otherwise.
  function AnsweredAt(a: Answer): Time {
    if a.via.Some? then a.got.at else a.source.taken.at
  }

  // Bounded staleness: whatever Deletes fail, every answer is the full table as it
  // stood at some moment no later than the answer, and later than its Get minus
  // (TTL + longest SELECT-to-Set).
  lemma BoundedStaleness(cfg: Config, s: State, i: nat)
    requires cfg.maxTtl > 0 && Reachable(cfg, s) && i < |s.answers|
    ensures var a := s.answers[i];
      exists k: nat, t: Time ::
        && k < |s.states| && a.catalog == CatalogOf(cfg.le, a.key, s.states[k])
        && StoodAt(s, k, t)
        && t <= AnsweredAt(a) <= s.clock.at
        && a.got.at < t + cfg.maxTtl + cfg.maxDelay
  {
    ReachableInv(cfg, s);
    var a := s.answers[i];
    assert AnswerOk(cfg, s, a);
    assert StoodAt(s, a.source.upTo, a.source.taken.at);
  }

  // ── when a write stays visible ──

  // A reader that selected before commit c and may still store what it read.
  ghost predicate InFlight(cfg: Config, s: State, key: Cache.Key, c: nat) {
    exists pid | pid in s.procs :: Carries(cfg, s, s.procs[pid], key, c)
  }

  ghost predicate Carries(cfg: Config, s: State, pc: Pc, key: Cache.Key, c: nat) {
    pc.Loaded? && pc.key == key && pc.source.upTo <= c && s.clock.at <= pc.source.taken.at + cfg.maxDelay
  }

  // Answers from number `from` on that miss none of the first c + 1 commits.
  ghost predicate FreshFrom(s: State, from: nat, key: Cache.Key, c: nat) {
    forall i | from <= i < |s.answers| && s.answers[i].key == key :: c < s.answers[i].source.upTo
  }

  lemma StepCarriesNothing(cfg: Config, s: State, e: Event, key: Cache.Key, c: nat)
    requires Inv(cfg, s) && Enabled(cfg, s, e) && c < |s.commits| && !InFlight(cfg, s, key, c)
    ensures var s' := Apply(cfg, s, e); c < |s'.commits| && !InFlight(cfg, s', key, c)
  {
    hide Execute, Issued, EntryOk, AnswerOk, ReplyOk, ProcOk, LogOk, RowAt, CatalogOf, Target, KeyOf, Live;
    var s' := Apply(cfg, s, e);
    forall pid | pid in s'.procs ensures !Carries(cfg, s', s'.procs[pid], key, c) {
      if pid in s.procs && s'.procs[pid] == s.procs[pid] {
        assert !Carries(cfg, s, s.procs[pid], key, c);
      }
    }
  }

  lemma StepNotStale(cfg: Config, s: State, e: Event, key: Cache.Key, c: nat)
    requires Inv(cfg, s) && Enabled(cfg, s, e) && c < |s.commits|
    requires !Stale(s, key, c) && !InFlight(cfg, s, key, c)
    ensures !Stale(Apply(cfg, s, e), key, c)
  {
    hide Execute, Issued, EntryOk, AnswerOk, ReplyOk, ProcOk, LogOk, RowAt, CatalogOf, Target, KeyOf;
    if e.Set? {
      assert !Carries(cfg, s, s.procs[e.pid], key, c);
    }
  }

  lemma StepAnswersFresh(cfg: Config, s: State, e: Event, key: Cache.Key, c: nat)
    requires Inv(cfg, s) && Enabled(cfg, s, e) && c < |s.commits| && !Stale(s, key, c)
    ensures s.answers <= Apply(cfg, s, e).answers && FreshFrom(Apply(cfg, s, e), |s.answers|, key, c)
  {
    hide Execute, Issued, EntryOk, AnswerOk, ReplyOk, ProcOk, LogOk, RowAt, CatalogOf, Target, KeyOf;
  }

  lemma {:induction false} RunStaysFresh(cfg: Config, s: State, es: seq<Event>, s': State, key: Cache.Key, c: nat)
    requires cfg.maxTtl > 0
    requires Inv(cfg, s) && Run(cfg, s, es, s') && c < |s.commits|
    requires !Stale(s, key, c) && !InFlight(cfg, s, key, c)
    ensures !Stale(s', key, c)
    ensures s.answers <= s'.answers && FreshFrom(s', |s.answers|, key, c)
    decreases |es|
  {
    hide Inv, Enabled, Apply, Stale, InFlight;
    if es != [] {
      var s1 := Apply(cfg, s, es[0]);
      StepCarriesNothing(cfg, s, es[0], key, c);
      StepNotStale(cfg, s, es[0], key, c);
      StepAnswersFresh(cfg, s, es[0], key, c);
      StepKeepsInv(cfg, s, es[0]);
      RunStaysFresh(cfg, s1, es[1..], s', key, c);
      assert forall i | 0 <= i < |s1.answers| :: s'.answers[i] == s1.answers[i];
    }
  }

  lemma {:induction false} FreePid(pids: set<nat>) returns (pid: nat)
    ensures forall p | p in pids :: p < pid
    decreases pids
  {
    pid := 0;
    if pids != {} {
      var p :| p in pids;
      var rest := FreePid(pids - {p});
      pid := if p < rest then rest else p + 1;
      assert forall x | x in pids :: x == p || x in pids - {p};
    }
  }

  // A stale cached catalog answers the next reader.
  lemma StaleCanAnswer(cfg: Config, s: State, key: Cache.Key, c: nat)
    requires Stale(s, key, c)
    ensures exists es, s' :: Run(cfg, s, es, s') && Stale(s', key, c)
    ensures exists es, s' :: Run(cfg, s, es, s') && !FreshFrom(s', |s.answers|, key, c)
  {
    hide Execute, Issued, CatalogOf;
    assert Run(cfg, s, [], s);
    var pid := FreePid(s.procs.Keys);
    assert pid !in s.procs;
    var g := Get(pid, key, true);
    var s' := Apply(cfg, s, g);
    assert [g][1..] == [] && Run(cfg, s', [], s');
    assert Run(cfg, s, [g], s');
    assert s'.answers[|s.answers|].key == key && s'.answers[|s.answers|].source.upTo <= c;
  }

  // A reader in flight can store what it read, and the next reader get it.
  lemma InFlightCanStore(cfg: Config, s: State, key: Cache.Key, c: nat)
    requires cfg.maxTtl > 0 && InFlight(cfg, s, key, c)
    ensures exists es, s' :: Run(cfg, s, es, s') && Stale(s', key, c)
    ensures exists es, s' :: Run(cfg, s, es, s') && !FreshFrom(s', |s.answers|, key, c)
  {
    hide Execute, Issued, CatalogOf;
    var pid :| pid in s.procs && Carries(cfg, s, s.procs[pid], key, c);
    var e, g := Set(pid, true, 1), Get(pid, key, true);
    var s1 := Apply(cfg, s, e);
    var s2 := Apply(cfg, s1, g);
    assert Run(cfg, s1, [], s1) && Run(cfg, s2, [], s2);
    assert [e][1..] == [] && [g][1..] == [] && [e, g][1..] == [g];
    assert Run(cfg, s, [e], s1) && Stale(s1, key, c);
    assert Run(cfg, s1, [g], s2);
    assert Run(cfg, s, [e, g], s2);
    assert s2.answers[|s.answers|].key == key && s2.answers[|s.answers|].source.upTo <= c;
  }

  // From any moment on, no later answer misses commit c, in any continuation,
  // exactly when the cache holds nothing older than c and no reader that selected
  // before c is still on its way to its Set; and exactly then the cache never
  // holds anything older.
  lemma VisibleForeverIff(cfg: Config, s: State, c: nat)
    requires cfg.maxTtl > 0 && Reachable(cfg, s) && c < |s.commits|
    ensures var key := KeyOf(s.commits[c].write);
      (forall es, s' | Run(cfg, s, es, s') :: FreshFrom(s', |s.answers|, key, c))
      <==> !Stale(s, key, c) && !InFlight(cfg, s, key, c)
    ensures var key := KeyOf(s.commits[c].write);
      (forall es, s' | Run(cfg, s, es, s') :: !Stale(s', key, c)) <==> !Stale(s, key, c) && !InFlight(cfg, s, key, c)
  {
    hide Stale, InFlight, FreshFrom, Reachable, Inv;
    ReachableInv(cfg, s);
    var key := KeyOf(s.commits[c].write);
    if Stale(s, key, c) {
      StaleCanAnswer(cfg, s, key, c);
    } else if InFlight(cfg, s, key, c) {
      InFlightCanStore(cfg, s, key, c);
    } else {
      forall es, s' | Run(cfg, s, es, s') ensures !Stale(s', key, c) && FreshFrom(s', |s.answers|, key, c) {
        RunStaysFresh(cfg, s, es, s', key, c);
      }
    }
  }

  // A Delete that takes effect leaves nothing older than its commit behind.
  lemma DeleteClears(cfg: Config, s: State, e: Event)
    requires Enabled(cfg, s, e) && e.Delete? && e.reached
    ensures var c := s.procs[e.pid].c;
      !Stale(Apply(cfg, s, e), KeyOf(s.commits[c].write), c)
  {
  }

  // ── CACHE_DESIGN.md:31-36 says more than holds ──

  const SSO_ON := PlanPatch(None, None, None, None, Some(true), None, None, 1)

  // Reader 1 selects; writer 2 commits and deletes; reader 1 stores; reader 3 asks.
  function LateSet(): seq<Event> {
    var w := PatchPlan(Starter, SSO_ON);
    [Get(1, PlansKey, true), Select(1), Begin(2, w), Update(2), Delete(2, true), Set(1, true, 1),
     Get(3, PlansKey, true)]
  }

  lemma SsoPatchStores(t: P.Table)
    requires P.Valid(t) && Starter in t && t[Starter].recordVersion == 1 && !t[Starter].sso
    ensures P.Accepted(SSO_ON)
    ensures var x := P.ExecPatch(t, Starter, SSO_ON, 0);
      x.Updated? && P.Valid(x.table) && x.table != t
  {
    hide P.ExecPatch, P.ValidRow, P.CheckRow;
    P.PatchStores(t, Starter, SSO_ON, 0);
    var x := P.ExecPatch(t, Starter, SSO_ON, 0);
    assert x.table[Starter].sso;
  }

  lemma SeededStarter(db: Db)
    requires Initial(db)
    ensures P.Valid(db.plans) && Starter in db.plans
    ensures db.plans[Starter].recordVersion == 1 && !db.plans[Starter].sso
  {
    var ids, at :| SeedIds(ids) && db == Seed(ids, at);
    SeedPlansValid(ids, at);
  }

  lemma SeededPatch(db: Db)
    requires Initial(db)
    ensures var w := PatchPlan(Starter, SSO_ON);
      && Issued(db, w) && Execute(db, w, 0).Committed?
      && SelectPlans(Execute(db, w, 0).db.plans) != SelectPlans(db.plans)
  {
    SeededStarter(db);
    hide Initial, P.ExecPatch, P.Valid, P.Accepted, SelectPlans;
    SsoPatchStores(db.plans);
    var after := P.ExecPatch(db.plans, Starter, SSO_ON, 0).table;
    if SelectPlans(after) == SelectPlans(db.plans) {
      PlanListingDeterminesTable(after, db.plans);
    }
  }

  // Half way: commit 0 is in, its Delete and the reader's Set are outstanding.
  ghost function MidState(cfg: Config, db: Db, db2: Db): State {
    var w := PatchPlan(Starter, SSO_ON);
    var rows := CatalogOf(cfg.le, PlansKey, db);
    var snap := Snapshot(0, Stamp(1, 0));
    State([db, db2], [Commit(w, 0)], [3], Stamp(4, 0), map[],
          map[1 := Loaded(PlansKey, rows, snap), 2 := Invalidating(0)],
          map[], [Answer(PlansKey, rows, Stamp(0, 0), snap, None)], [])
  }

  // A third of the way: the reader has its answer and its Set outstanding.
  ghost function EarlyState(cfg: Config, db: Db): State {
    var rows := CatalogOf(cfg.le, PlansKey, db);
    var snap := Snapshot(0, Stamp(1, 0));
    State([db], [], [], Stamp(2, 0), map[], map[1 := Loaded(PlansKey, rows, snap)],
          map[], [Answer(PlansKey, rows, Stamp(0, 0), snap, None)], [])
  }

  lemma LateSetHead(cfg: Config, db: Db) returns (s1: State, s2: State)
    ensures var es := LateSet();
      && Enabled(cfg, StartOn(db), es[0]) && s1 == Apply(cfg, StartOn(db), es[0])
      && Enabled(cfg, s1, es[1]) && s2 == Apply(cfg, s1, es[1])
      && s2 == EarlyState(cfg, db)
  {
    hide CatalogOf;
    s1 := Apply(cfg, StartOn(db), LateSet()[0]);
    s2 := Apply(cfg, s1, LateSet()[1]);
  }

  lemma LateSetMiddle(cfg: Config, db: Db) returns (s3: State, s4: State)
    requires var w := PatchPlan(Starter, SSO_ON); Issued(db, w) && Execute(db, w, 0).Committed?
    ensures var es, w := LateSet(), PatchPlan(Starter, SSO_ON);
      && Enabled(cfg, EarlyState(cfg, db), es[2]) && s3 == Apply(cfg, EarlyState(cfg, db), es[2])
      && Enabled(cfg, s3, es[3]) && s4 == Apply(cfg, s3, es[3])
      && s4 == MidState(cfg, db, Execute(db, w, 0).db)
  {
    hide CatalogOf, Execute, Issued;
    s3 := Apply(cfg, EarlyState(cfg, db), LateSet()[2]);
    s4 := Apply(cfg, s3, LateSet()[3]);
  }

  lemma LateSetTail(cfg: Config, db: Db, db2: Db) returns (s5: State, s6: State, s7: State)
    requires cfg.maxTtl > 0 && SelectPlans(db2.plans) != SelectPlans(db.plans)
    ensures var es := LateSet();
      && Enabled(cfg, MidState(cfg, db, db2), es[4]) && s5 == Apply(cfg, MidState(cfg, db, db2), es[4])
      && Enabled(cfg, s5, es[5]) && s6 == Apply(cfg, s5, es[5])
      && Enabled(cfg, s6, es[6]) && s7 == Apply(cfg, s6, es[6])
    ensures s7.procs == map[] && 0 in s7.deletes && |s7.answers| == 2
    ensures s7.deletes[0] < s7.answers[1].got.step
    ensures s7.states != [] && s7.answers[1].catalog != CatalogOf(cfg.le, PlansKey, Current(s7))
  {
    var es := LateSet();
    hide Execute, Issued, SelectPlans;
    s5 := Apply(cfg, MidState(cfg, db, db2), es[4]);
    s6 := Apply(cfg, s5, es[5]);
    s7 := Apply(cfg, s6, es[6]);
  }

  // No failure and no expiry involved: every call succeeds, the Delete is over
  // before the last Get, and the answer is still not the current table.
  lemma DocumentedVisibilityFails(cfg: Config, db: Db)
    requires cfg.maxTtl > 0 && Initial(db)
    ensures exists s ::
      && Run(cfg, StartOn(db), LateSet(), s)
      && s.procs == map[] && 0 in s.deletes && |s.answers| == 2
      && s.deletes[0] < s.answers[1].got.step
      && s.states != [] && s.answers[1].catalog != CatalogOf(cfg.le, PlansKey, Current(s))
  {
    hide Apply, Enabled, Execute, Issued, MidState, EarlyState, SelectPlans;
    SeededPatch(db);
    var s1, s2 := LateSetHead(cfg, db);
    var s3, s4 := LateSetMiddle(cfg, db);
    var w := PatchPlan(Starter, SSO_ON);
    var s5, s6, s7 := LateSetTail(cfg, db, Execute(db, w, 0).db);
    RunSeven(cfg, StartOn(db), LateSet(), s1, s2, s3, s4, s5, s6, s7);
  }

  lemma RunSeven(cfg: Config, s0: State, es: seq<Event>, s1: State, s2: State, s3: State, s4: State, s5: State,
      s6: State, s7: State)
    requires |es| == 7
    requires Enabled(cfg, s0, es[0]) && s1 == Apply(cfg, s0, es[0])
    requires Enabled(cfg, s1, es[1]) && s2 == Apply(cfg, s1, es[1])
    requires Enabled(cfg, s2, es[2]) && s3 == Apply(cfg, s2, es[2])
    requires Enabled(cfg, s3, es[3]) && s4 == Apply(cfg, s3, es[3])
    requires Enabled(cfg, s4, es[4]) && s5 == Apply(cfg, s4, es[4])
    requires Enabled(cfg, s5, es[5]) && s6 == Apply(cfg, s5, es[5])
    requires Enabled(cfg, s6, es[6]) && s7 == Apply(cfg, s6, es[6])
    ensures Run(cfg, s0, es, s7)
  {
    hide Enabled, Apply;
    assert Run(cfg, s7, es[7..], s7);
    assert es[6..][1..] == es[7..] && Run(cfg, s6, es[6..], s7);
    assert es[5..][1..] == es[6..] && Run(cfg, s5, es[5..], s7);
    assert es[4..][1..] == es[5..] && Run(cfg, s4, es[4..], s7);
    assert es[3..][1..] == es[4..] && Run(cfg, s3, es[3..], s7);
    assert es[2..][1..] == es[3..] && Run(cfg, s2, es[2..], s7);
    assert es[1..][1..] == es[2..] && Run(cfg, s1, es[1..], s7);
  }

  // ── retries, in the concurrent machine ──

  // One client's chain of negative replies: same row, each attempt sends the
  // version of the reply before and starts after it.
  ghost predicate Chain(s: State, key: Runs.Key, since: nat, expected: int, replies: seq<Reply>)
    decreases |replies|
  {
    replies == [] ||
    var r := replies[0];
    && r in s.replies && Target(r.w) == key && Expected(r.w) == Some(expected) && since <= r.missedAt
    && (match r
        case NotFoundReply(_, _, _) => replies[1..] == []
        case ConflictReply(_, _, probedAt, version) => Chain(s, key, probedAt, version, replies[1..]))
  }

  function Attempts(replies: seq<Reply>): seq<Attempt> {
    seq(|replies|, i requires 0 <= i < |replies| => Attempt(replies[i].missedAt, replies[i].probedAt))
  }

  lemma {:induction false} ChainIsRetries(cfg: Config, s: State, key: Runs.Key, since: nat, expected: int,
      replies: seq<Reply>)
    requires Inv(cfg, s) && Chain(s, key, since, expected, replies)
    ensures Retries(s.states, key, since, expected, Attempts(replies))
    decreases |replies|
  {
    hide LogOk, ProcOk, EntryOk, AnswerOk;
    if replies != [] {
      var r := replies[0];
      assert ReplyOk(s, r);
      assert Attempts(replies)[1..] == Attempts(replies[1..]);
      if r.ConflictReply? {
        ChainIsRetries(cfg, s, key, r.probedAt, r.version, replies[1..]);
      }
    }
  }

  // A client that starts from a version it read and resends what each 409 gave it
  // gets a larger version every time, never a 404, and no more conflicts than the
  // row gained versions since that read.
  lemma ClientProgress(cfg: Config, s: State, key: Runs.Key, since: nat, expected: int, replies: seq<Reply>)
    requires cfg.maxTtl > 0 && Reachable(cfg, s)
    requires since < |s.states| && RowAt(s.states[since], key).Some?
      && Version(RowAt(s.states[since], key).value) == expected
    requires Chain(s, key, since, expected, replies)
    ensures forall i | 0 <= i < |replies| ::
      replies[i].ConflictReply? && Sent(s.states, key, expected, Attempts(replies), i) < replies[i].version
    ensures s.states != [] && RowAt(Current(s), key).Some?
    ensures |replies| <= Version(RowAt(Current(s), key).value) - expected
  {
    hide Reachable, ProcOk, EntryOk, AnswerOk, RowAt, IsHistory, Chain, Retries;
    ReachableInv(cfg, s);
    ChainIsRetries(cfg, s, key, since, expected, replies);
    RetryProgress(s.states, s.commits, key, since, expected, Attempts(replies));
    forall i | 0 <= i < |replies|
      ensures replies[i].ConflictReply? && Sent(s.states, key, expected, Attempts(replies), i) < replies[i].version
    {
      ChainMember(s, key, since, expected, replies, i);
      assert ReplyOk(s, replies[i]);
      assert Attempts(replies)[i].probedAt == replies[i].probedAt;
    }
  }

  lemma {:induction false} ChainMember(s: State, key: Runs.Key, since: nat, expected: int, replies: seq<Reply>, i: nat)
    requires Chain(s, key, since, expected, replies) && i < |replies|
    ensures replies[i] in s.replies && Target(replies[i].w) == key
    decreases |replies|
  {
    if i > 0 && replies[0].ConflictReply? {
      ChainMember(s, key, replies[0].probedAt, replies[0].version, replies[1..], i - 1);
    }
  }
}

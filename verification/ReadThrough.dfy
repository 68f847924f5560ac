/** The read path both services share: one List, given how its cache calls and its
    query go (department_service.go:66-85, plan_service.go:44-63). */
module ReadThrough {
  import opened Wrappers
  import opened Domain
  import opened Cache
  import opened Errors
  import opened Strings
  import opened Runs
  import opened Listing
  import Protocol
  import D = Departments
  import P = Plans

  // How one List's cache calls and query go, and when they happen.
  datatype ListIo = ListIo(getReached: bool, setReached: bool, gotAt: Time, setAt: Time, fault: Option<Error>)

  type Items = map<Cache.Key, Item>

  // What json.Unmarshal into the key's own slice type accepts.
  predicate Decodes(key: Cache.Key, b: Bytes) {
    b.Encoded? && (key.DepartmentsKey? <==> b.catalog.DepartmentCatalog?)
  }

  datatype Listed = Listed(result: Result<Catalog, Error>, items: Items)

  // Get; on anything but a decodable value SELECT, and on success Set. Without a
  // cache only the SELECT is left.
  ghost function ListStep(le: Collation, key: Cache.Key, db: Db, cached: bool, items: Items, ttl: int, io: ListIo)
    : Listed
  {
    if cached && io.getReached && key in items && Live(items[key], io.gotAt) && Decodes(key, items[key].bytes) then
      Listed(Ok(items[key].bytes.catalog), items)
    else if io.fault.Some? then Listed(Err(WrapConnErr(io.fault.value)), items)
    else
      var rows := Protocol.CatalogOf(le, key, db);
      var filled := items[key := Item(Encoded(rows), ExpiryFor(ttl, io.setAt))];
      Listed(Ok(rows), if cached && io.setReached then filled else items)
  }

  // ── how long a filled entry answers ──

  // A List that had to select and whose Set got through. While its time to live
  // lasts, a later List that reaches the cache answers the same catalog, whatever
  // has become of the database, even when it is down; from then on it selects.
  lemma FilledEntryServesItsTtl(le: Collation, key: Cache.Key, db: Db, items: Items, ttl: int, fill: ListIo,
      later: Db, laterTtl: int, io: ListIo)
    requires !fill.getReached || key !in items || (items[key].expiry.At? && items[key].expiry.t <= fill.gotAt)
    requires ttl > 0 && fill.fault.None? && fill.setReached && io.getReached
    ensures
      var first := ListStep(le, key, db, true, items, ttl, fill);
      var second := ListStep(le, key, later, true, first.items, laterTtl, io);
      && first.result == Ok(Protocol.CatalogOf(le, key, db))
      && (io.gotAt < fill.setAt + ttl ==> second.result == first.result && second.items == first.items)
      && (io.gotAt >= fill.setAt + ttl && io.fault.Some? ==> second.result == Err(WrapConnErr(io.fault.value)))
      && (io.gotAt >= fill.setAt + ttl && io.fault.None? ==> second.result == Ok(Protocol.CatalogOf(le, key, later)))
  {
    hide Protocol.CatalogOf;
    CatalogFitsKey(le, key, db);
  }

  lemma CatalogFitsKey(le: Collation, key: Cache.Key, db: Db)
    ensures Decodes(key, Encoded(Protocol.CatalogOf(le, key, db)))
  {
  }

  // With the database down a List still answers exactly when it reaches an entry
  // that has not expired and decodes for its key.
  lemma AnswersFromCacheIff(le: Collation, key: Cache.Key, db: Db, items: Items, ttl: int, io: ListIo)
    requires io.fault.Some?
    ensures
      var a := ListStep(le, key, db, true, items, ttl, io);
      && a.items == items
      && (a.result.Ok? <==>
            && io.getReached && key in items && items[key].bytes.Encoded?
            && (items[key].expiry.At? ==> io.gotAt < items[key].expiry.t)
            && items[key].bytes.catalog.DepartmentCatalog? == (key == DepartmentsKey))
      && (a.result.Ok? ==> a.result == Ok(items[key].bytes.catalog))
  {
  }

  // ── whole runs without overlap ──

  datatype Op =
    | ListOp(key: Cache.Key, io: ListIo)
    | WriteOp(w: Write, at: Time)
    | EvictOp(key: Cache.Key)
    | CorruptOp(key: Cache.Key)

  // A write whose Delete takes effect; losses and damage between requests.
  ghost function Next(le: Collation, cached: bool, ttl: int, db: Db, items: Items, op: Op): (Db, Items) {
    match op
    case ListOp(key, io) => (db, ListStep(le, key, db, cached, items, ttl, io).items)
    case WriteOp(w, at) =>
      (match Execute(db, w, at)
       case Committed(db') => (db', items - {Protocol.KeyOf(w)})
       case _ => (db, items))
    case EvictOp(key) => (db, items - {key})
    case CorruptOp(key) => (db, if key in items then items[key := items[key].(bytes := Garbage)] else items)
  }

  // What the operations of a run do to the cache: a loss or damage leaves nothing
  // to answer from, a committed write clears its own key only.
  lemma LossesAreReal(le: Collation, ttl: int, db: Db, items: Items, key: Cache.Key, w: Write, at: Time)
    ensures key !in Next(le, true, ttl, db, items, EvictOp(key)).1
    ensures var damaged := Next(le, true, ttl, db, items, CorruptOp(key)).1;
      damaged.Keys == items.Keys && (key in items ==> !Decodes(key, damaged[key].bytes))
    ensures Execute(db, w, at).Committed? ==>
      Next(le, true, ttl, db, items, WriteOp(w, at)) == (Execute(db, w, at).db, items - {Protocol.KeyOf(w)})
    ensures !Execute(db, w, at).Committed? ==> Next(le, true, ttl, db, items, WriteOp(w, at)) == (db, items)
  {
  }

  // What one operation answers.
  ghost function Head(le: Collation, cached: bool, ttl: int, db: Db, items: Items, op: Op)
    : seq<Result<Catalog, Error>>
  {
    if op.ListOp? then [ListStep(le, op.key, db, cached, items, ttl, op.io).result] else []
  }

  // The answers of a run's Lists, in order.
  ghost function Answers(le: Collation, cached: bool, ttl: int, db: Db, items: Items, ops: seq<Op>)
    : seq<Result<Catalog, Error>>
    decreases |ops|
  {
    if ops == [] then []
    else
      var (db', items') := Next(le, cached, ttl, db, items, ops[0]);
      Head(le, cached, ttl, db, items, ops[0]) + Answers(le, cached, ttl, db', items', ops[1..])
  }

  // Whatever is decodable in the cache is the current table.
  ghost predicate Coherent(le: Collation, db: Db, items: Items) {
    forall key | key in items && Decodes(key, items[key].bytes) ::
      items[key].bytes.catalog == Protocol.CatalogOf(le, key, db)
  }

  lemma NextIsCoherent(le: Collation, ttl: int, db: Db, items: Items, op: Op)
    requires Coherent(le, db, items)
    ensures var (db', items') := Next(le, true, ttl, db, items, op);
      Coherent(le, db', items') && db' == Next(le, false, ttl, db, map[], op).0
  {
    var (db', items') := Next(le, true, ttl, db, items, op);
    if op.WriteOp? {
      forall key | key in items' && Decodes(key, items'[key].bytes)
        ensures items'[key].bytes.catalog == Protocol.CatalogOf(le, key, db')
      {
        OtherTableUntouched(le, key, db, op.w, op.at);
      }
    }
  }

  lemma OtherTableUntouched(le: Collation, key: Cache.Key, db: Db, w: Write, at: Time)
    ensures var x := Execute(db, w, at);
      x.Committed? && key != Protocol.KeyOf(w) ==> Protocol.CatalogOf(le, key, x.db) == Protocol.CatalogOf(le, key, db)
  {
    hide D.ExecInsert, D.ExecPatch, P.ExecPatch, SelectDepartments, SelectPlans;
  }

  // A healthy database: the same operation with its query answered.
  function Healthy(op: Op): Op {
    if op.ListOp? then ListOp(op.key, op.io.(fault := None)) else op
  }

  function AllHealthy(ops: seq<Op>): seq<Op> {
    seq(|ops|, i requires 0 <= i < |ops| => Healthy(ops[i]))
  }

  // Answers with a cache, without one, and without one but with the database up.
  ghost predicate Agree(with: seq<Result<Catalog, Error>>, without: seq<Result<Catalog, Error>>,
      healthy: seq<Result<Catalog, Error>>)
  {
    && |with| == |without| == |healthy|
    && forall i | 0 <= i < |with| ::
         && (without[i].Ok? ==> with[i] == without[i])
         && (with[i].Ok? ==> with[i] == healthy[i])
         && (with[i].Err? ==> with[i] == without[i])
  }

  lemma AgreeConcat(a: seq<Result<Catalog, Error>>, b: seq<Result<Catalog, Error>>, c: seq<Result<Catalog, Error>>,
      x: seq<Result<Catalog, Error>>, y: seq<Result<Catalog, Error>>, z: seq<Result<Catalog, Error>>)
    requires Agree(a, b, c) && Agree(x, y, z)
    ensures Agree(a + x, b + y, c + z)
  {
  }

  lemma HeadsAgree(le: Collation, ttl: int, db: Db, items: Items, op: Op)
    requires Coherent(le, db, items)
    ensures Agree(Head(le, true, ttl, db, items, op), Head(le, false, ttl, db, map[], op),
                  Head(le, false, ttl, db, map[], Healthy(op)))
  {
    hide Protocol.CatalogOf, WrapConnErr;
  }

  lemma AnswersStep(le: Collation, cached: bool, ttl: int, db: Db, items: Items, ops: seq<Op>)
    requires ops != []
    ensures
      var next := Next(le, cached, ttl, db, items, ops[0]);
      Answers(le, cached, ttl, db, items, ops)
        == Head(le, cached, ttl, db, items, ops[0]) + Answers(le, cached, ttl, next.0, next.1, ops[1..])
  {
    hide Next, ListStep;
  }

  // Sequential transparency: wherever the service without a cache answers, the
  // service with one answers the same; wherever only the cached one answers, it
  // says what the other would have said with its database up.
  lemma {:induction false} CacheIsTransparent(le: Collation, ttl: int, db: Db, items: Items, ops: seq<Op>)
    requires Coherent(le, db, items)
    ensures Agree(Answers(le, true, ttl, db, items, ops), Answers(le, false, ttl, db, map[], ops),
                  Answers(le, false, ttl, db, map[], AllHealthy(ops)))
    decreases |ops|
  {
    if ops != [] {
      hide Agree, Answers, Head, Next, Coherent, Healthy;
      var next := Next(le, true, ttl, db, items, ops[0]);
      NextIsCoherent(le, ttl, db, items, ops[0]);
      PlainItemsStayEmpty(le, ttl, db, ops[0]);
      PlainItemsStayEmpty(le, ttl, db, Healthy(ops[0]));
      HealthyTwice(ops[0]);
      assert AllHealthy(ops)[0] == Healthy(ops[0]) && AllHealthy(ops)[1..] == AllHealthy(ops[1..]);
      CacheIsTransparent(le, ttl, next.0, next.1, ops[1..]);
      HeadsAgree(le, ttl, db, items, ops[0]);
      AnswersStep(le, true, ttl, db, items, ops);
      AnswersStep(le, false, ttl, db, map[], ops);
      AnswersStep(le, false, ttl, db, map[], AllHealthy(ops));
      AgreeConcat(
        Head(le, true, ttl, db, items, ops[0]), Head(le, false, ttl, db, map[], ops[0]),
        Head(le, false, ttl, db, map[], Healthy(ops[0])),
        Answers(le, true, ttl, next.0, next.1, ops[1..]), Answers(le, false, ttl, next.0, map[], ops[1..]),
        Answers(le, false, ttl, next.0, map[], AllHealthy(ops[1..])));
    }
  }

  lemma HealthyTwice(op: Op)
    ensures Healthy(Healthy(op)) == Healthy(op)
  {
  }

  lemma PlainItemsStayEmpty(le: Collation, ttl: int, db: Db, op: Op)
    ensures Next(le, false, ttl, db, map[], op) == (Next(le, false, ttl, db, map[], Healthy(op)).0, map[])
  {
  }

  // The database after the writes of a run.
  ghost function AfterWrites(db: Db, ops: seq<Op>): Db
    decreases |ops|
  {
    if ops == [] then db
    else
      match ops[0]
      case WriteOp(w, at) =>
        (match Execute(db, w, at)
         case Committed(db') => AfterWrites(db', ops[1..])
         case _ => AfterWrites(db, ops[1..]))
      case _ => AfterWrites(db, ops[1..])
  }

  // A List after any such run answers the catalog of the database those writes
  // left, however often others listed before it and whatever the cache lost.
  lemma {:induction false} LastAnswerIsCurrent(le: Collation, ttl: int, db: Db, items: Items, ops: seq<Op>,
      key: Cache.Key, io: ListIo)
    requires Coherent(le, db, items) && io.fault.None?
    ensures
      var a := Answers(le, true, ttl, db, items, ops + [ListOp(key, io)]);
      && |a| == Lists(ops) + 1
      && a[Lists(ops)] == Ok(Protocol.CatalogOf(le, key, AfterWrites(db, ops)))
    decreases |ops|
  {
    hide Coherent, Protocol.CatalogOf, Decodes, Live;
    var all := ops + [ListOp(key, io)];
    if ops == [] {
      assert all[0] == ListOp(key, io) && all[1..] == [];
      ListIsCurrent(le, key, db, items, ttl, io);
    } else {
      var (db', items') := Next(le, true, ttl, db, items, ops[0]);
      NextIsCoherent(le, ttl, db, items, ops[0]);
      assert all[0] == ops[0] && all[1..] == ops[1..] + [ListOp(key, io)];
      LastAnswerIsCurrent(le, ttl, db', items', ops[1..], key, io);
      assert AfterWrites(db, ops) == AfterWrites(db', ops[1..]);
    }
  }

  lemma ListIsCurrent(le: Collation, key: Cache.Key, db: Db, items: Items, ttl: int, io: ListIo)
    requires Coherent(le, db, items) && io.fault.None?
    ensures ListStep(le, key, db, true, items, ttl, io).result == Ok(Protocol.CatalogOf(le, key, db))
  {
  }

  function Lists(ops: seq<Op>): nat {
    if ops == [] then 0 else (if ops[0].ListOp? then 1 else 0) + Lists(ops[1..])
  }
}

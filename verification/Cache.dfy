/** The shared Valkey store as the services use it: two keys, whole-catalog
    values, a time to live, and calls that may fail
    (internal/adapter/outbound/valkey/cache.go). */
module Cache {
  import opened Domain

  datatype Key = DepartmentsKey | PlansKey

  // A whole catalog, in listing order.
  datatype Catalog = DepartmentCatalog(departments: seq<Department>) | PlanCatalog(plans: seq<Plan>)

  // What json.Unmarshal can make of the stored bytes.
  datatype Bytes = Encoded(catalog: Catalog) | Garbage

  // SET with a non-positive duration stores the key without expiry.
  datatype Expiry = Never | At(t: Time)

  datatype Item = Item(bytes: Bytes, expiry: Expiry)

  function ExpiryFor(ttl: int, now: Time): Expiry {
    if ttl <= 0 then Never else At(now + ttl)
  }

  predicate Live(i: Item, now: Time) {
    i.expiry.Never? || now < i.expiry.t
  }

  // Milliseconds; both services default to sixty seconds.
  const DEFAULT_TTL := 60_000

  // A service's TTL after WithCacheTTL(d): non-positive values are ignored.
  function TtlAfter(current: int, d: int): int {
    if d > 0 then d else current
  }

  // However often WithCacheTTL is called and with what, the TTL stays positive.
  lemma {:induction false} TtlStaysPositive(current: int, ds: seq<int>)
    requires current > 0
    ensures TtlAfterAll(current, ds) > 0
    decreases |ds|
  {
    if ds != [] {
      TtlStaysPositive(TtlAfter(current, ds[0]), ds[1..]);
    }
  }

  function TtlAfterAll(current: int, ds: seq<int>): int
    decreases |ds|
  {
    if ds == [] then current else TtlAfterAll(TtlAfter(current, ds[0]), ds[1..])
  }
}

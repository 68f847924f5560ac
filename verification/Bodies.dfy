/** The members of a request body, in the plainest terms: what the statements about
    whole requests are made in. */
module Bodies {
  import opened Wrappers
  import opened Domain
  import opened Requests

  // The members of a body that is one JSON object (null reads as an empty one).
  function Top(b: RequestBody): Option<map<string, Json>> {
    match b
    case JsonBody(JNull) => Some(map[])
    case JsonBody(JObj(m)) => Some(m)
    case _ => None
  }

  predicate Absent(m: map<string, Json>, k: string) { k in m ==> m[k] == JNull }

  // Some character that is no white space.
  predicate Solid(s: string) { exists i | 0 <= i < |s| :: !IsSpace(s[i]) }

  predicate TextOrAbsent(m: map<string, Json>, k: string) { Absent(m, k) || m[k].JStr? }
  predicate BoolOrAbsent(m: map<string, Json>, k: string) { Absent(m, k) || m[k].JBool? }

  predicate Int64OrAbsent(m: map<string, Json>, k: string) {
    Absent(m, k)
    || (&& m[k].JNum? && m[k].n.whole.Some?
        && -9_223_372_036_854_775_808 <= m[k].n.whole.value <= 9_223_372_036_854_775_807)
  }

  // An absent record_version reads as 0, which no row has.
  function SentVersion(m: map<string, Json>): int
    requires Int64OrAbsent(m, "record_version")
  {
    if Absent(m, "record_version") then 0 else m["record_version"].n.whole.value
  }

  // The same where only the first JSON value of the body is read.
  function First(b: RequestBody): Option<map<string, Json>> {
    match b
    case JsonBody(JNull) => Some(map[])
    case JsonBody(JObj(m)) => Some(m)
    case TrailingBody(JNull) => Some(map[])
    case TrailingBody(JObj(m)) => Some(m)
    case _ => None
  }

  predicate NonEmptyText(m: map<string, Json>, k: string) { k in m && m[k].JStr? && |m[k].s| > 0 }

  // ── decoding into `any` ──

  // The two say the same, number for float64.
  ghost predicate Same(j: Json, a: Any) {
    match (j, a)
    case (JNull, ANull) => true
    case (JBool(x), ABool(y)) => x == y
    case (JNum(n), ANum(f)) => n.float == Some(f)
    case (JStr(x), AStr(y)) => x == y
    case (JArr(xs), AArr(ys)) => |xs| == |ys| && forall i | 0 <= i < |xs| :: Same(xs[i], ys[i])
    case (JObj(m), AObj(n)) => m.Keys == n.Keys && forall k | k in m :: k in n && Same(m[k], n[k])
    case _ => false
  }

  lemma {:induction false} AnyIsSame(j: Json)
    requires InRange(j)
    ensures Same(j, ToAny(j))
  {
    match j
    case JArr(xs) => forall i | 0 <= i < |xs| ensures Same(xs[i], ToAny(xs[i])) { AnyIsSame(xs[i]); }
    case JObj(m) => forall k | k in m ensures Same(m[k], ToAny(m[k])) { AnyIsSame(m[k]); }
    case _ =>
  }

  lemma {:induction false} SameIsAny(j: Json, a: Any)
    requires Same(j, a)
    ensures InRange(j) && a == ToAny(j)
  {
    match (j, a)
    case (JArr(xs), AArr(ys)) =>
      forall i | 0 <= i < |xs| ensures InRange(xs[i]) && ys[i] == ToAny(xs[i]) { SameIsAny(xs[i], ys[i]); }
    case (JObj(m), AObj(n)) =>
      forall k | k in m ensures InRange(m[k]) && n[k] == ToAny(m[k]) { SameIsAny(m[k], n[k]); }
    case _ =>
  }

  // A JSON value decodes into `any` iff some value says the same, and to that one.
  lemma DecodesToSame(j: Json)
    ensures InRange(j) <==> exists a :: Same(j, a)
    ensures forall a :: Same(j, a) <==> InRange(j) && a == ToAny(j)
  {
    if InRange(j) {
      AnyIsSame(j);
      assert Same(j, ToAny(j));
    } else if exists a :: Same(j, a) {
      var a :| Same(j, a);
      SameIsAny(j, a);
    }
    forall a ensures Same(j, a) <==> InRange(j) && a == ToAny(j) {
      if Same(j, a) {
        SameIsAny(j, a);
      }
    }
  }
}

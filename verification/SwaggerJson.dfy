/** patch_json of scripts/patch-swagger-extensions.py, on the decoded object: its
    entries in order, as Python's dict keeps them. The values are left abstract. */
module SwaggerJson {

  datatype Entry<V> = Entry(key: string, value: V)

  ghost predicate Distinct<V>(d: seq<Entry<V>>) {
    forall i, j | 0 <= i < j < |d| :: d[i].key != d[j].key
  }

  // The place of a key, or the end.
  function IndexOf<V>(d: seq<Entry<V>>, key: string): (k: nat)
    ensures k <= |d|
    ensures forall i | 0 <= i < k :: d[i].key != key
    ensures k < |d| ==> d[k].key == key
  {
    if d == [] || d[0].key == key then 0 else 1 + IndexOf(d[1..], key)
  }

  predicate Has<V>(d: seq<Entry<V>>, key: string) { IndexOf(d, key) < |d| }

  // d[key] = value: in place when the key is there, else at the end.
  function Put<V>(d: seq<Entry<V>>, key: string, value: V): seq<Entry<V>> {
    var i := IndexOf(d, key);
    if i < |d| then d[i := Entry(key, value)] else d + [Entry(key, value)]
  }

  // d.pop(key, None).
  function Pop<V>(d: seq<Entry<V>>, key: string): seq<Entry<V>> {
    var i := IndexOf(d, key);
    if i < |d| then d[..i] + d[i + 1..] else d
  }

  const ANCHOR := "securityDefinitions"

  function Patched<V>(spec: seq<Entry<V>>, tags: V): seq<Entry<V>> {
    var rest := Pop(spec, "tags");
    var k := IndexOf(rest, ANCHOR);
    rest[..k] + [Entry("tags", tags)] + rest[k..]
  }

  // ── the code ──

  lemma PopKeepsDistinct<V>(d: seq<Entry<V>>, key: string)
    requires Distinct(d)
    ensures Distinct(Pop(d, key)) && !Has(Pop(d, key), key)
  {
    hide IndexOf;
    var i := IndexOf(d, key);
    var p := Pop(d, key);
    assert forall j | 0 <= j < |p| :: p[j] == d[if j < i then j else j + 1];
    assert forall j | 0 <= j < |p| :: p[j].key != key;
  }

  // The dict after n rounds of the loop.
  function Ordered<V>(rest: seq<Entry<V>>, tags: V, n: nat): seq<Entry<V>>
    requires n <= |rest|
  {
    var k := IndexOf(rest, ANCHOR);
    if n <= k then rest[..n] else rest[..k] + [Entry("tags", tags)] + rest[k..n]
  }

  ghost predicate Lacks<V>(d: seq<Entry<V>>, key: string) {
    forall i | 0 <= i < |d| :: d[i].key != key
  }

  lemma PutAbsent<V>(d: seq<Entry<V>>, key: string, value: V)
    requires Lacks(d, key)
    ensures Put(d, key, value) == d + [Entry(key, value)]
  {
    hide IndexOf;
    assert IndexOf(d, key) == |d|;
  }

  lemma LacksConcat<V>(a: seq<Entry<V>>, b: seq<Entry<V>>, key: string)
    requires Lacks(a, key) && Lacks(b, key)
    ensures Lacks(a + b, key)
  {}

  lemma Round<V>(rest: seq<Entry<V>>, tags: V, n: nat)
    requires n < |rest| && Distinct(rest) && !Has(rest, "tags")
    ensures
      var o := Ordered(rest, tags, n);
      var p := if rest[n].key == ANCHOR then Put(o, "tags", tags) else o;
      Put(p, rest[n].key, rest[n].value) == Ordered(rest, tags, n + 1)
  {
    hide IndexOf, Put, Lacks;
    var k := IndexOf(rest, ANCHOR);
    var e, t := rest[n], Entry("tags", tags);
    SliceLacks(rest, n);
    if n < k {
      PutAbsent(rest[..n], e.key, e.value);
      assert rest[..n] + [e] == rest[..n + 1];
    } else {
      assert n == k <==> e.key == ANCHOR;
      PutAbsent(rest[..k], "tags", tags);
      LacksConcat(rest[..k], [t], e.key);
      LacksConcat(rest[..k] + [t], rest[k..n], e.key);
      PutAbsent(rest[..k] + [t] + rest[k..n], e.key, e.value);
      assert rest[..k] + [t] + rest[k..k] == rest[..k] + [t];
      assert rest[..k] + [t] + rest[k..n] + [e] == rest[..k] + [t] + rest[k..n + 1];
    }
  }

  lemma SliceLacks<V>(rest: seq<Entry<V>>, n: nat)
    requires n < |rest| && Distinct(rest) && !Has(rest, "tags")
    ensures forall k | 0 <= k <= n ::
      Lacks(rest[..k], rest[n].key) && Lacks(rest[k..n], rest[n].key) && Lacks(rest[..k], "tags")
    ensures forall v: V :: Lacks([Entry("tags", v)], rest[n].key)
  {
    hide IndexOf;
  }

  lemma Fallback<V>(rest: seq<Entry<V>>, tags: V)
    requires !Has(rest, "tags")
    ensures
      var o := Ordered(rest, tags, |rest|);
      var k := IndexOf(rest, ANCHOR);
      (if Has(o, "tags") then o else Put(o, "tags", tags)) == rest[..k] + [Entry("tags", tags)] + rest[k..]
  {
    hide IndexOf, Put, Has, Lacks;
    var k := IndexOf(rest, ANCHOR);
    var t := Entry("tags", tags);
    assert rest[k..|rest|] == rest[k..] && rest[..|rest|] == rest;
    if k < |rest| {
      HasAt(rest[..k] + [t] + rest[k..], k);
    } else {
      HasOrLacks(rest, "tags");
      PutAbsent(rest, "tags", tags);
      assert rest + [t] == rest[..k] + [t] + rest[k..];
    }
  }

  lemma HasOrLacks<V>(d: seq<Entry<V>>, key: string)
    ensures Has(d, key) <==> !Lacks(d, key)
  {
    hide IndexOf;
    assert forall i | 0 <= i < IndexOf(d, key) :: d[i].key != key;
  }

  lemma HasAt<V>(d: seq<Entry<V>>, k: nat)
    requires k < |d|
    ensures Has(d, d[k].key)
  {
    HasOrLacks(d, d[k].key);
  }

  method PatchJson<V>(spec: seq<Entry<V>>, tags: V) returns (ordered: seq<Entry<V>>)
    requires Distinct(spec)
    ensures ordered == Patched(spec, tags)
  {
    hide IndexOf, Put, Has;
    var rest := Pop(spec, "tags");
    PopKeepsDistinct(spec, "tags");
    ordered := [];
    for n := 0 to |rest|
      invariant ordered == Ordered(rest, tags, n)
    {
      Round(rest, tags, n);
      if rest[n].key == "securityDefinitions" {
        ordered := Put(ordered, "tags", tags);
      }
      ordered := Put(ordered, rest[n].key, rest[n].value);
    }
    Fallback(rest, tags);
    if !Has(ordered, "tags") {
      ordered := Put(ordered, "tags", tags);
    }
  }

  // ── what it promises ──

  // One tags entry, just before securityDefinitions or last; every other entry
  // keeps its value and its place among the others.
  lemma PatchShape<V>(spec: seq<Entry<V>>, tags: V)
    requires Distinct(spec)
    ensures
      var r := Patched(spec, tags);
      var k := IndexOf(Pop(spec, "tags"), ANCHOR);
      && Distinct(r)
      && k < |r| && r[k] == Entry("tags", tags)
      && (k + 1 == |r| || r[k + 1].key == ANCHOR)
      && Pop(r, "tags") == Pop(spec, "tags")
  {
    hide Pop, IndexOf;
    var rest := Pop(spec, "tags");
    var k := IndexOf(rest, ANCHOR);
    PopKeepsDistinct(spec, "tags");
    Inserted(rest, k, tags);
  }

  lemma Inserted<V>(rest: seq<Entry<V>>, k: nat, tags: V)
    requires k <= |rest| && Distinct(rest) && !Has(rest, "tags")
    ensures
      var r := rest[..k] + [Entry("tags", tags)] + rest[k..];
      Distinct(r) && Pop(r, "tags") == rest
  {
    hide IndexOf;
    var r := rest[..k] + [Entry("tags", tags)] + rest[k..];
    assert forall i | 0 <= i < |r| ::
      r[i] == if i < k then rest[i] else if i == k then Entry("tags", tags) else rest[i - 1];
    assert IndexOf(rest, "tags") == |rest|;
    assert r[k].key == "tags";
    assert forall i | 0 <= i < |r| && i != k :: r[i].key != "tags";
    assert IndexOf(r, "tags") == k;
    assert r[..k] + r[k + 1..] == rest;
  }

  // The last run decides; with earlier == tags this is idempotence.
  lemma LastRunWins<V>(spec: seq<Entry<V>>, earlier: V, tags: V)
    requires Distinct(spec)
    ensures Patched(Patched(spec, earlier), tags) == Patched(spec, tags)
  {
    PatchShape(spec, earlier);
  }

  // ── replaced in place? ──

  lemma PopAt<V>(a: seq<Entry<V>>, e: Entry<V>, b: seq<Entry<V>>)
    requires Distinct(a + [e] + b)
    ensures Pop(a + [e] + b, e.key) == a + b
    ensures Lacks(a + b, e.key)
  {
    hide IndexOf;
    var d := a + [e] + b;
    assert d[|a|] == e;
    assert forall i | 0 <= i < |a| :: a[i] == d[i];
    assert forall i | 0 <= i < |b| :: b[i] == d[|a| + 1 + i];
    assert IndexOf(d, e.key) == |a|;
  }

  lemma SamePlace<V>(a: seq<Entry<V>>, b: seq<Entry<V>>, k: nat, t: Entry<V>)
    requires k <= |a + b| && Lacks(a + b, t.key)
    ensures (a + b)[..k] + [t] + (a + b)[k..] == a + [t] + b <==> k == |a|
  {
    var c := a + b;
    var r, s := c[..k] + [t] + c[k..], a + [t] + b;
    assert r[k] == t;
    assert k < |a| ==> s[k] == c[k];
    assert k > |a| ==> s[k] == c[k - 1];
    assert k == |a| ==> c[..k] == a && c[k..] == b;
  }

  // The tags entry keeps its place exactly when it stood right before
  // securityDefinitions, or last in an object without.
  lemma InPlaceIff<V>(a: seq<Entry<V>>, was: V, b: seq<Entry<V>>, tags: V)
    requires Distinct(a + [Entry("tags", was)] + b)
    ensures Patched(a + [Entry("tags", was)] + b, tags) == a + [Entry("tags", tags)] + b
      <==> Lacks(a, ANCHOR) && (b == [] || b[0].key == ANCHOR)
  {
    hide IndexOf, Pop, Distinct;
    PopAt(a, Entry("tags", was), b);
    var c := a + b;
    var k := IndexOf(c, ANCHOR);
    SamePlace(a, b, k, Entry("tags", tags));
    assert forall i | 0 <= i < |a| :: c[i] == a[i];
    assert b != [] ==> c[|a|] == b[0];
  }

  // A tags entry in front moves behind what precedes securityDefinitions.
  lemma EntryInFrontMoves<V>(was: V, info: V, definitions: V, tags: V)
    ensures
      var i, d := Entry("info", info), Entry("securityDefinitions", definitions);
      var r := Patched([Entry("tags", was), i, d], tags);
      r == [i, Entry("tags", tags), d] && r != [Entry("tags", tags), i, d]
  {
    hide IndexOf, Pop;
    var b := [Entry("info", info), Entry(ANCHOR, definitions)];
    assert "info"[0] == 'i' && "tags"[0] == 't' && ANCHOR[0] == 's';
    var d := [] + [Entry("tags", was)] + b;
    assert d == [Entry("tags", was), b[0], b[1]];
    PopAt([], Entry("tags", was), b);
    assert b[0].key != ANCHOR && b[1].key == ANCHOR;
    assert [] + b == b && IndexOf(b, ANCHOR) == 1;
    assert b[..1] + [Entry("tags", tags)] + b[1..] == [b[0], Entry("tags", tags), b[1]];
  }
}

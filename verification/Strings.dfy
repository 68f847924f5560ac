/** Total orders on strings. */
module Strings {

  ghost predicate TotalOrder(le: (string, string) -> bool) {
    && (forall a, b :: le(a, b) || le(b, a))
    && (forall a, b | le(a, b) && le(b, a) :: a == b)
    && (forall a, b, c | le(a, b) && le(b, c) :: le(a, c))
  }

  // Code point order: Python's `<=` on str.
  predicate Leq(a: string, b: string)
    decreases |a|
  {
    a == [] || (b != [] && (a[0] < b[0] || (a[0] == b[0] && Leq(a[1..], b[1..]))))
  }

  // A prefix comes first; otherwise the smaller code point at the first difference does.
  lemma {:induction false} LeqIff(a: string, b: string)
    ensures Leq(a, b) <==> a <= b || exists i :: DifferAt(a, b, i) && (a[i] as int) < b[i] as int
    decreases |a|
  {
    if a != [] && b != [] && a[0] == b[0] {
      var x, y := a[1..], b[1..];
      LeqIff(x, y);
      assert a == [a[0]] + x && b == [b[0]] + y;
      forall i: int ensures DifferAt(x, y, i) <==> i >= 0 && DifferAt(a, b, i + 1) {
        ConsDiffers(a[0], x, y, i);
      }
      assert !DifferAt(a, b, 0);
      if i :| DifferAt(a, b, i) && (a[i] as int) < b[i] as int {
        assert DifferAt(x, y, i - 1);
      }
      if i :| DifferAt(x, y, i) && (x[i] as int) < y[i] as int {
        assert DifferAt(a, b, i + 1);
      }
    } else if a != [] && b != [] {
      assert DifferAt(a, b, 0);
    }
  }

  ghost predicate DifferAt(a: string, b: string, i: int) {
    0 <= i < |a| && i < |b| && a[..i] == b[..i] && a[i] != b[i]
  }

  lemma ConsDiffers(c: char, x: string, y: string, i: int)
    ensures DifferAt(x, y, i) <==> i >= 0 && DifferAt([c] + x, [c] + y, i + 1)
  {
    var a, b := [c] + x, [c] + y;
    if 0 <= i < |x| && i < |y| {
      assert a[..i + 1] == [c] + x[..i] && b[..i + 1] == [c] + y[..i];
      assert a[..i + 1][1..] == x[..i] && b[..i + 1][1..] == y[..i];
    }
  }

  lemma {:induction false} LeqTotal(a: string, b: string)
    ensures Leq(a, b) || Leq(b, a)
    decreases |a|
  {
    if a != [] && b != [] {
      LeqTotal(a[1..], b[1..]);
    }
  }

  lemma {:induction false} LeqAntisymmetric(a: string, b: string)
    requires Leq(a, b) && Leq(b, a)
    ensures a == b
    decreases |a|
  {
    if a != [] && b != [] {
      LeqAntisymmetric(a[1..], b[1..]);
      assert a == [a[0]] + a[1..] && b == [b[0]] + b[1..];
    }
  }

  lemma {:induction false} LeqTransitive(a: string, b: string, c: string)
    requires Leq(a, b) && Leq(b, c)
    ensures Leq(a, c)
    decreases |a|
  {
    if a != [] && a[0] == b[0] && b[0] == c[0] {
      LeqTransitive(a[1..], b[1..], c[1..]);
    }
  }

  lemma LeqIsTotalOrder()
    ensures TotalOrder(Leq)
  {
    forall a, b ensures Leq(a, b) || Leq(b, a) { LeqTotal(a, b); }
    forall a, b | Leq(a, b) && Leq(b, a) ensures a == b { LeqAntisymmetric(a, b); }
    forall a, b, c | Leq(a, b) && Leq(b, c) ensures Leq(a, c) { LeqTransitive(a, b, c); }
  }

  ghost function CodePoints(): (le: (string, string) -> bool)
    ensures TotalOrder(le)
  {
    LeqIsTotalOrder();
    Leq
  }

  // A database collation: some total order on strings, not known further.
  type Collation = le: (string, string) -> bool | TotalOrder(le) ghost witness CodePoints()
}

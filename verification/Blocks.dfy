/** Dropping marked blocks of lines: the skip/in_tags loops of
    scripts/patch-swagger-extensions.py as one small machine. */
module Blocks {

  // A line that opens a block is dropped; inside, a closing line is dropped and
  // ends the block, an inner line is dropped, any other ends it and is kept.
  datatype Grammar = Grammar(opens: string -> bool, closes: string -> bool, inner: string -> bool)

  predicate Drops(g: Grammar, line: string, open: bool) {
    g.opens(line) || (open && (g.closes(line) || g.inner(line)))
  }

  predicate Next(g: Grammar, line: string, open: bool) {
    g.opens(line) || (open && !g.closes(line) && g.inner(line))
  }

  predicate After(g: Grammar, lines: seq<string>, open: bool) {
    if lines == [] then open else Next(g, lines[|lines| - 1], After(g, lines[..|lines| - 1], open))
  }

  function Strip(g: Grammar, lines: seq<string>, open: bool): seq<string> {
    if lines == [] then []
    else
      var n := |lines| - 1;
      Strip(g, lines[..n], open) + if Drops(g, lines[n], After(g, lines[..n], open)) then [] else [lines[n]]
  }

  lemma {:induction false} StripConcat(g: Grammar, a: seq<string>, b: seq<string>, open: bool)
    ensures Strip(g, a + b, open) == Strip(g, a, open) + Strip(g, b, After(g, a, open))
    ensures After(g, a + b, open) == After(g, b, After(g, a, open))
    decreases |b|
  {
    if b == [] {
      assert a + b == a;
    } else {
      var n := |b| - 1;
      StripConcat(g, a, b[..n], open);
      assert (a + b)[..|a + b| - 1] == a + b[..n];
    }
  }

  ghost predicate NoOpener(g: Grammar, lines: seq<string>) {
    forall i | 0 <= i < |lines| :: !g.opens(lines[i])
  }

  lemma {:induction false} StripKeepsClean(g: Grammar, lines: seq<string>)
    requires NoOpener(g, lines)
    ensures Strip(g, lines, false) == lines && !After(g, lines, false)
    decreases |lines|
  {
    if lines != [] {
      StripKeepsClean(g, lines[..|lines| - 1]);
    }
  }

  lemma {:induction false} StripIsClean(g: Grammar, lines: seq<string>, open: bool)
    ensures NoOpener(g, Strip(g, lines, open))
    decreases |lines|
  {
    if lines != [] {
      StripIsClean(g, lines[..|lines| - 1], open);
    }
  }

  lemma {:induction false} StripSelects(g: Grammar, lines: seq<string>, open: bool)
    ensures forall line | line in Strip(g, lines, open) :: line in lines
    decreases |lines|
  {
    if lines != [] {
      StripSelects(g, lines[..|lines| - 1], open);
    }
  }

  // A block: an opener, then inner lines only.
  ghost predicate IsBlock(g: Grammar, b: seq<string>) {
    && b != [] && g.opens(b[0])
    && forall i | 0 < i < |b| :: !g.opens(b[i]) && !g.closes(b[i]) && g.inner(b[i])
  }

  lemma Pieces<T>(a: seq<T>, b: seq<T>, c: seq<T>)
    ensures (a + b + c)[..|a|] == a
    ensures (a + b + c)[|a|..|a + b|] == b
    ensures (a + b + c)[|a + b|..] == c
  {}

  lemma OneOpener(g: Grammar, a: seq<string>, b: seq<string>, c: seq<string>)
    requires NoOpener(g, a) && IsBlock(g, b) && NoOpener(g, c)
    ensures forall i | 0 <= i < |a + b + c| :: g.opens((a + b + c)[i]) <==> i == |a|
  {
    var r := a + b + c;
    assert forall i | 0 <= i < |a| :: r[i] == a[i];
    assert forall i | |a| <= i < |a| + |b| :: r[i] == b[i - |a|];
    assert forall i | |a| + |b| <= i < |r| :: r[i] == c[i - |a| - |b|];
  }

  lemma {:induction false} StripBlock(g: Grammar, b: seq<string>, open: bool)
    requires IsBlock(g, b)
    ensures Strip(g, b, open) == [] && After(g, b, open)
    decreases |b|
  {
    if |b| == 1 {
      assert b[..0] == [];
    } else {
      var front := b[..|b| - 1];
      assert front[0] == b[0];
      StripBlock(g, front, open);
    }
  }

  // A line that neither closes nor continues a block ends it and is kept.
  lemma TailIsKept(g: Grammar, c: seq<string>)
    requires NoOpener(g, c) && (c != [] ==> !g.closes(c[0]) && !g.inner(c[0]))
    ensures Strip(g, c, true) == c
  {
    if c != [] {
      assert [c[0]][..0] == [];
      assert c == [c[0]] + c[1..];
      StripConcat(g, [c[0]], c[1..], true);
      StripKeepsClean(g, c[1..]);
    }
  }

  // All of a block: up to and with its closing line, or up to a line that ends it.
  ghost predicate WholeBlock(g: Grammar, was: seq<string>, rest: seq<string>) {
    || (IsBlock(g, was) && (rest != [] ==> !g.closes(rest[0]) && !g.inner(rest[0])))
    || (&& |was| > 1 && IsBlock(g, was[..|was| - 1])
        && !g.opens(was[|was| - 1]) && g.closes(was[|was| - 1]))
  }

  // What is left of a block and what follows it.
  lemma StripBlockAndRest(g: Grammar, b: seq<string>, c: seq<string>)
    requires WholeBlock(g, b, c) && NoOpener(g, c)
    ensures Strip(g, b + c, false) == c
  {
    StripConcat(g, b, c, false);
    if IsBlock(g, b) && (c != [] ==> !g.closes(c[0]) && !g.inner(c[0])) {
      StripBlock(g, b, false);
      TailIsKept(g, c);
    } else {
      StripBlock(g, b[..|b| - 1], false);
      StripKeepsClean(g, c);
    }
  }

  // Stripping a file with one block removes that block.
  lemma StripWhole(g: Grammar, a: seq<string>, b: seq<string>, c: seq<string>)
    requires NoOpener(g, a) && WholeBlock(g, b, c) && NoOpener(g, c)
    ensures Strip(g, a + b + c, false) == a + c
  {
    hide Strip, After, WholeBlock;
    StripConcat(g, a, b + c, false);
    StripKeepsClean(g, a);
    StripBlockAndRest(g, b, c);
    assert a + b + c == a + (b + c);
  }

  // ── the same, said of positions ──

  predicate Continues(g: Grammar, line: string) { !g.opens(line) && !g.closes(line) && g.inner(line) }

  ghost predicate OpenSince(g: Grammar, lines: seq<string>, j: int, i: int) {
    0 <= j < i <= |lines| && g.opens(lines[j]) && forall m | j < m < i :: Continues(g, lines[m])
  }

  // Position i lies in a block: some opener is followed by inner lines only.
  ghost predicate InBlock(g: Grammar, lines: seq<string>, i: int) {
    exists j :: OpenSince(g, lines, j, i)
  }

  lemma InBlockNext(g: Grammar, lines: seq<string>, i: nat)
    requires 0 < i <= |lines|
    ensures InBlock(g, lines, i) <==> g.opens(lines[i - 1]) || (InBlock(g, lines, i - 1) && Continues(g, lines[i - 1]))
  {
    hide Continues;
    if InBlock(g, lines, i) {
      var j :| OpenSince(g, lines, j, i);
      assert j == i - 1 || OpenSince(g, lines, j, i - 1);
    }
    if g.opens(lines[i - 1]) {
      assert OpenSince(g, lines, i - 1, i);
    } else if InBlock(g, lines, i - 1) && Continues(g, lines[i - 1]) {
      var j :| OpenSince(g, lines, j, i - 1);
      assert OpenSince(g, lines, j, i);
    }
  }

  lemma {:induction false} AfterMeansInBlock(g: Grammar, lines: seq<string>, i: nat)
    requires i <= |lines|
    ensures After(g, lines[..i], false) <==> InBlock(g, lines, i)
  {
    hide InBlock;
    if i > 0 {
      AfterMeansInBlock(g, lines, i - 1);
      assert lines[..i][..i - 1] == lines[..i - 1];
      InBlockNext(g, lines, i);
    } else {
      NotInBlockAtStart(g, lines);
    }
  }

  lemma NotInBlockAtStart(g: Grammar, lines: seq<string>)
    ensures !InBlock(g, lines, 0)
  {}

  // The lines before position n that belong to no block, in order.
  ghost function Outside(g: Grammar, lines: seq<string>, n: nat): seq<string>
    requires n <= |lines|
  {
    if n == 0 then []
    else Outside(g, lines, n - 1) + if Drops(g, lines[n - 1], InBlock(g, lines, n - 1)) then [] else [lines[n - 1]]
  }

  // Stripping keeps exactly the lines outside blocks, in order.
  lemma {:induction false} StripIsOutside(g: Grammar, lines: seq<string>, n: nat)
    requires n <= |lines|
    ensures Strip(g, lines[..n], false) == Outside(g, lines, n)
  {
    if n > 0 {
      StripIsOutside(g, lines, n - 1);
      AfterMeansInBlock(g, lines, n - 1);
      assert lines[..n][..n - 1] == lines[..n - 1];
    }
  }
}

/** Running patch_docs_go again: exactly when the second run changes nothing, and
    what the patched file holds. */
module DocsReruns {
  import opened Blocks
  import opened Lines
  import opened SwaggerTags
  import opened SwaggerDocs
  import PyText

  // ── the text around the version line ──

  function Before(c: string): string
    requires Contains(c, VERSION_LINE)
  {
    c[..Find(c, VERSION_LINE) + |VERSION_LINE|]
  }

  function Rest(c: string): string
    requires Contains(c, VERSION_LINE)
  {
    c[Find(c, VERSION_LINE) + |VERSION_LINE|..]
  }

  // The first version line ends there.
  predicate Ends(c: string)
    requires Contains(c, VERSION_LINE)
  {
    Rest(c) == "" || Rest(c)[0] == '\n'
  }

  function Below(c: string): string
    requires Contains(c, VERSION_LINE)
  {
    if Rest(c) == "" then "" else Rest(c)[1..]
  }

  // When a second run leaves the file alone: a version line that something
  // follows on the same line, or a blank line at the end, breaks it.
  predicate Stable(text: string) {
    Contains(text, ANCHOR) ==>
      var c := Cleaned(text);
      if Contains(c, VERSION_LINE) then Ends(c) && !EndsBlank(c)
      else Contains(c, ANCHOR) ==> !EndsBlank(c)
  }

  ghost predicate Clean(c: string) { Plain(c) && NoOpener(GRAMMAR, SplitLines(c)) }

  lemma CleanedIsClean(text: string)
    ensures Clean(Cleaned(text))
    ensures
      var k := CleanedLines(text);
      SplitLines(Cleaned(text)) == if k != [] && k[|k| - 1] == [] then k[..|k| - 1] else k
  {
    hide SplitLines, Strip, Join, NoBreak;
    var k := CleanedLines(text);
    StripSelects(GRAMMAR, SplitLines(text), false);
    assert forall i | 0 <= i < |k| :: k[i] in SplitLines(text);
    StripIsClean(GRAMMAR, SplitLines(text), false);
    SplitJoin(k);
    JoinIsPlain(k);
  }

  lemma CleanedFinal(c: string)
    requires Clean(c)
    ensures Cleaned(Final(c)) == Chomp(c)
  {
    hide SplitLines, Strip, After;
    if c == "" {
      SplitOne([]);
      SplitFirst([], []);
      assert [] + "\n" + [] == Final(c);
      assert SplitLines(Final(c)) == [""];
      StripKeepsClean(GRAMMAR, [""]);
    } else {
      SplitFinal(c);
      StripKeepsClean(GRAMMAR, SplitLines(c));
      JoinSplit(c);
    }
  }

  // ── the patched text, line by line ──

  lemma Replaced(c: string, tags: seq<Tag>)
    requires Contains(c, VERSION_LINE)
    ensures Insert(c, tags) == Final(Before(c) + "\n" + Fragment(tags) + Rest(c))
    ensures c == Before(c) + Rest(c)
    ensures Before(c) != "" && !EndsLine(Before(c))
  {
    hide Find, Fragment;
    var n := Find(c, VERSION_LINE);
    assert Before(c) == c[..n] + VERSION_LINE;
    assert c[..n] + (VERSION_LINE + "\n" + Fragment(tags)) + Rest(c)
        == Before(c) + "\n" + Fragment(tags) + Rest(c);
  }

  lemma PlainParts(a: string, b: string)
    requires Plain(a + b)
    ensures Plain(a) && Plain(b)
  {
    assert forall i | 0 <= i < |a| :: a[i] == (a + b)[i];
    assert forall i | 0 <= i < |b| :: b[i] == (a + b)[|a| + i];
  }

  // A prefix has no opening line when the text has none.
  lemma PrefixHasNoOpener(p: string, q: string)
    requires Plain(p) && NoOpener(GRAMMAR, SplitLines(p + q))
    ensures NoOpener(GRAMMAR, SplitLines(p))
  {
    hide SplitLines;
    PrefixLines(p, q);
    var h, k := SplitLines(p), SplitLines(p + q);
    forall i | 0 <= i < |h| && OPENER <= h[i] ensures OPENER <= k[i] {
      assert h[i] <= k[i];
    }
  }

  lemma BeforeLines(c: string)
    requires Plain(c) && Contains(c, VERSION_LINE)
    ensures var h := SplitLines(Before(c)); h != [] && NoBreaks(h) && Join(h) == Before(c)
    ensures Plain(Before(c)) && Plain(Rest(c))
    ensures NoOpener(GRAMMAR, SplitLines(c)) ==> NoOpener(GRAMMAR, SplitLines(Before(c)))
  {
    hide SplitLines, Join, Find, Plain, NoOpener, Before, Rest;
    Replaced(c, []);
    PlainParts(Before(c), Rest(c));
    JoinSplit(Before(c));
    if NoOpener(GRAMMAR, SplitLines(c)) {
      PrefixHasNoOpener(Before(c), Rest(c));
    }
  }

  lemma FinalEnds(a: string, c: string)
    requires Contains(c, VERSION_LINE) && Ends(c) && a != "" && !EndsLine(a)
    ensures Final(a + Rest(c)) == a + "\n" + if Below(c) == "" then "" else Final(Below(c))
  {
    hide Find;
    var s := Below(c);
    if Rest(c) != "" {
      assert Rest(c) == "\n" + s;
      assert a + Rest(c) == a + "\n" + s;
    } else {
      assert a + Rest(c) == a;
    }
  }

  lemma FragmentEnds(tags: seq<Tag>)
    ensures Fragment(tags) != "" && !EndsLine(Fragment(tags))
  {
    hide Join, SplitLines, Indent, Json;
  }

  lemma FinalLines(s: string)
    requires Plain(s)
    ensures SplitLines(if s == "" then "" else Final(s)) == SplitLines(s)
  {
    hide SplitLines;
    if s != "" {
      SplitFinal(s);
    }
  }

  lemma LinesBelow(c: string)
    requires Plain(c) && Contains(c, VERSION_LINE) && Ends(c)
    ensures SplitLines(c) == SplitLines(Before(c)) + SplitLines(Below(c))
    ensures Plain(Below(c))
  {
    hide SplitLines, Join, Find, Plain, NoBreaks, NoOpener, Before, Rest;
    var h, s := SplitLines(Before(c)), Below(c);
    Replaced(c, []);
    BeforeLines(c);
    SplitOne([]);
    SplitAfter(h, s);
    if Rest(c) == "" {
      assert c == Before(c);
    } else {
      assert Rest(c) == "\n" + s;
      assert c == Before(c) + "\n" + s;
      PlainParts("\n", s);
    }
  }

  // The inserted lines stand between the lines up to the version line and the rest.
  lemma InsertedLines(c: string, tags: seq<Tag>)
    requires Plain(c) && Contains(c, VERSION_LINE) && Ends(c)
    requires tags != [] && OneLine(tags)
    ensures
      var h, r := SplitLines(Before(c)), SplitLines(Below(c));
      SplitLines(Insert(c, tags)) == h + FragmentLines(tags) + r && SplitLines(c) == h + r
  {
    hide SplitLines, Join, Find, Fragment, Plain, NoBreaks, Insert, Final, EndsLine, Before, Below, Ends, Rest;
    var p, s := Before(c), Below(c);
    var h, f := SplitLines(p), FragmentLines(tags);
    var x := if s == "" then "" else Final(s);
    BeforeLines(c);
    LinesBelow(c);
    FragmentIs(tags);
    FragmentEnds(tags);
    Replaced(c, tags);
    EndsAt(p + "\n", Fragment(tags));
    FinalEnds(p + "\n" + Fragment(tags), c);
    assert p + "\n" + Fragment(tags) + "\n" + x == Join(h) + "\n" + (Join(f) + "\n" + x);
    SplitAfter(f, x);
    SplitAfter(h, Join(f) + "\n" + x);
    FinalLines(s);
    assert h + (f + SplitLines(x)) == h + f + SplitLines(s);
  }

  // ── running again ──

  // What a run inserts, the next one strips.
  lemma CleanedAgain(c: string, tags: seq<Tag>)
    requires Clean(c) && tags != [] && OneLine(tags)
    requires Contains(c, VERSION_LINE) ==> Ends(c)
    ensures Cleaned(Insert(c, tags)) == Chomp(c)
  {
    hide SplitLines, Join, Find, Fragment, FragmentLines, Final, Before, Below, Ends, Strip, After;
    if Contains(c, VERSION_LINE) {
      var h, f, r := SplitLines(Before(c)), FragmentLines(tags), SplitLines(Below(c));
      InsertedLines(c, tags);
      assert forall i | 0 <= i < |h| :: h[i] == (h + r)[i];
      assert forall i | 0 <= i < |r| :: r[i] == (h + r)[|h| + i];
      StripKeepsClean(GRAMMAR, h);
      StripKeepsClean(GRAMMAR, r);
      FragmentIsStripped(tags);
      StripConcat(GRAMMAR, h, f, false);
      StripConcat(GRAMMAR, h + f, r, false);
      assert h + [] + r == h + r;
      JoinSplit(c);
    } else {
      CleanedFinal(c);
    }
  }

  lemma InsertTwice(c: string, tags: seq<Tag>)
    ensures Insert(Chomp(c), tags) == Insert(c, tags) <==> !EndsBlank(c)
  {
    hide Fragment, Final, Chomp, EndsBlank, ReplaceOnce;
    var with := VERSION_LINE + "\n" + Fragment(tags);
    FragmentEnds(tags);
    EndsAt(VERSION_LINE + "\n", Fragment(tags));
    ReplaceChomp(c, VERSION_LINE, with);
    FinalChomp(ReplaceOnce(c, VERSION_LINE, with));
  }

  // A line feed follows the inserted text iff one followed the version line.
  lemma AfterFragment(c: string, tags: seq<Tag>)
    requires Contains(c, VERSION_LINE)
    ensures
      var q := |Before(c)| + 1 + |Fragment(tags)|;
      q < |Insert(c, tags)| && (Insert(c, tags)[q] == '\n' <==> Ends(c))
  {
    hide Fragment, Find, Insert, Before;
    var a := Before(c) + "\n" + Fragment(tags);
    Replaced(c, tags);
    FragmentEnds(tags);
    EndsAt(Before(c) + "\n", Fragment(tags));
    if Rest(c) == "" {
      assert a + Rest(c) == a;
    } else {
      assert (a + Rest(c))[|a|] == Rest(c)[0];
    }
  }

  lemma SameBefore(c: string, d: string)
    requires Contains(c, VERSION_LINE) && Before(c) <= d
    ensures Contains(d, VERSION_LINE) && Before(d) == Before(c)
  {
    hide Find;
    FindSame(c, d, VERSION_LINE, Find(c, VERSION_LINE));
  }

  lemma JoinStarts(h: seq<string>, m: seq<string>)
    requires h != []
    ensures Join(h) <= Join(h + m)
    ensures var k := |Join(h)|; Join(h + m)[k..] != [] ==> Join(h + m)[k] == '\n'
  {
    hide Join;
    if m == [] {
      assert h + m == h;
    } else {
      JoinConcat(h, m);
    }
  }

  lemma Reinserted(c: string, tags: seq<Tag>)
    requires Clean(c) && Contains(c, VERSION_LINE)
    ensures
      var d := Cleaned(Insert(c, tags));
      Contains(d, VERSION_LINE) && Before(d) == Before(c) && Ends(d)
  {
    hide SplitLines, Join, Find, Fragment, Strip, After, Insert, Plain, Before, NoBreaks;
    var p, u := Before(c), Insert(c, tags);
    var h := SplitLines(p);
    var y := Fragment(tags) + Rest(c);
    Replaced(c, tags);
    BeforeLines(c);
    assert p + "\n" + Fragment(tags) + Rest(c) == p + "\n" + y;
    var z := if EndsLine(p + "\n" + y) then y else y + "\n";
    assert u == p + "\n" + z;
    SplitAfter(h, z);
    StripConcat(GRAMMAR, h, SplitLines(z), false);
    StripKeepsClean(GRAMMAR, h);
    var m := Strip(GRAMMAR, SplitLines(z), false);
    JoinStarts(h, m);
    var d := Join(h + m);
    SameBefore(c, d);
    Replaced(d, tags);
    assert d[|p|..] == Rest(d);
  }

  // A second run breaks the line after the version line.
  lemma Torn(c: string, earlier: seq<Tag>, tags: seq<Tag>)
    requires Clean(c) && Contains(c, VERSION_LINE) && !Ends(c)
    ensures Insert(Cleaned(Insert(c, earlier)), tags) != Insert(c, tags)
  {
    hide Clean, Cleaned, Insert, Fragment, Before, Ends, Find;
    Reinserted(c, earlier);
    AfterFragment(c, tags);
    AfterFragment(Cleaned(Insert(c, earlier)), tags);
  }

  lemma AnchorStays(c: string, tags: seq<Tag>)
    ensures Contains(c, VERSION_LINE) ==> Contains(c, ANCHOR) && Contains(Insert(c, tags), ANCHOR)
    ensures !Contains(c, VERSION_LINE) ==> (Contains(Insert(c, tags), ANCHOR) <==> Contains(c, ANCHOR))
  {
    hide Find, Fragment;
    if Contains(c, VERSION_LINE) {
      var n := Find(c, VERSION_LINE);
      Replaced(c, tags);
      AnchorIn(c, n);
      var u := Insert(c, tags);
      assert u[n..n + |VERSION_LINE|] == Before(c)[n..];
      AnchorIn(u, n);
    } else {
      ChompKeepsFind(c, ANCHOR);
      ChompKeepsFind(Final(c), ANCHOR);
      assert Chomp(Final(c)) == c || Final(c) == c;
    }
  }

  lemma AnchorIn(s: string, n: nat)
    requires At(s, VERSION_LINE, n)
    ensures Contains(s, ANCHOR)
  {
    hide Find;
    assert s[n + 4..n + 4 + |ANCHOR|] == s[n..n + |VERSION_LINE|][4..];
    ContainsIf(s, ANCHOR, n + 4);
  }

  // The second run replaces the block and changes nothing else, exactly on the
  // stable files; with earlier == tags: the script is idempotent exactly there.
  lemma LastRunWinsIff(text: string, earlier: seq<Tag>, tags: seq<Tag>)
    requires earlier != [] && OneLine(earlier)
    ensures Patch(Patch(text, earlier), tags) == Patch(text, tags) <==> Stable(text)
  {
    hide Find, Cleaned, Clean, Insert, Ends, EndsBlank;
    if Contains(text, ANCHOR) {
      var c := Cleaned(text);
      CleanedIsClean(text);
      AnchorStays(c, earlier);
      if Contains(c, VERSION_LINE) && !Ends(c) {
        Torn(c, earlier, tags);
      } else {
        CleanedAgain(c, earlier);
        InsertTwice(c, tags);
        if !Contains(c, VERSION_LINE) {
          NothingInserted(c, earlier, tags);
        }
      }
    }
  }

  lemma NothingInserted(c: string, earlier: seq<Tag>, tags: seq<Tag>)
    requires !Contains(c, VERSION_LINE)
    ensures Insert(c, earlier) == Insert(c, tags)
  {}

  // ── two files the second run damages ──

  lemma CleanedFresh(text: string)
    requires Clean(text)
    ensures Cleaned(text) == Chomp(text)
  {
    hide SplitLines, Strip, After;
    StripKeepsClean(GRAMMAR, SplitLines(text));
    JoinSplit(text);
  }

  lemma StartsWithVersion(text: string)
    requires VERSION_LINE <= text
    ensures Contains(text, VERSION_LINE) && Rest(text) == text[|VERSION_LINE|..] && Contains(text, ANCHOR)
  {
    hide Find;
    AtStart(text, VERSION_LINE);
    AnchorIn(text, 0);
  }

  lemma VersionLineThen(y: string)
    requires Plain(y) && NoOpener(GRAMMAR, SplitLines(y))
    ensures Clean(VERSION_LINE + "\n" + y)
  {
    hide SplitLines;
    assert NoBreak(VERSION_LINE);
    SplitFirst(VERSION_LINE, y);
    assert VERSION_LINE[5] != OPENER[5];
  }

  lemma BlankLinesAtEndBreakIdempotence(tags: seq<Tag>)
    requires tags != [] && OneLine(tags)
    ensures var text := VERSION_LINE + "\n" + "\n\n"; Patch(Patch(text, tags), tags) != Patch(text, tags)
  {
    hide Patch, Find, SplitLines;
    var text := VERSION_LINE + "\n" + "\n\n";
    SplitFirst([], "\n");
    SplitFirst([], []);
    SplitOne([]);
    assert [] + "\n" + "\n" == "\n\n" && [] + "\n" + [] == "\n";
    assert SplitLines("\n\n") == ["", ""];
    VersionLineThen("\n\n");
    CleanedFresh(text);
    StartsWithVersion(text);
    StartsWithVersion(Chomp(text));
    assert EndsBlank(Chomp(text));
    LastRunWinsIff(text, tags, tags);
  }

  lemma TextAfterVersionBreaksIdempotence(tags: seq<Tag>)
    requires tags != [] && OneLine(tags)
    ensures var text := VERSION_LINE + " \"info\": {}"; Patch(Patch(text, tags), tags) != Patch(text, tags)
  {
    hide Patch, Find, SplitLines;
    var text := VERSION_LINE + " \"info\": {}";
    assert NoBreak(text);
    SplitOne(text);
    assert text[5] != OPENER[5];
    CleanedFresh(text);
    StartsWithVersion(text);
    LastRunWinsIff(text, tags, tags);
  }

  // ── the patched file ──

  // One block, right below the version line; the lines outside earlier blocks are
  // all still there, in order, less one empty line at the end.
  ghost predicate Shape(lines: seq<string>, r: seq<string>, f: seq<string>, k: nat) {
    && 0 < k && k + |f| <= |r| && r[k..k + |f|] == f
    && OneOpenerAt(r, k)
    && EndsWith(r[k - 1], VERSION_LINE)
    && var rest := r[..k] + r[k + |f|..];
      var o := Outside(GRAMMAR, lines, |lines|);
      o == rest || o == rest + [""]
  }

  // What cleaning keeps are the lines outside blocks, less one empty line at the end.
  lemma CleanedIsOutside(text: string)
    ensures var lines, l := SplitLines(text), SplitLines(Cleaned(text));
      Outside(GRAMMAR, lines, |lines|) == l || Outside(GRAMMAR, lines, |lines|) == l + [""]
  {
    hide SplitLines, Join, Strip, Outside, Plain, NoOpener;
    var lines, o := SplitLines(text), CleanedLines(text);
    CleanedIsClean(text);
    StripIsOutside(GRAMMAR, lines, |lines|);
    assert lines[..|lines|] == lines;
    assert o != [] && o[|o| - 1] == [] ==> o == o[..|o| - 1] + [[]];
  }

  lemma PatchShape(text: string, tags: seq<Tag>)
    requires tags != [] && OneLine(tags) && Contains(text, ANCHOR)
    requires Contains(Cleaned(text), VERSION_LINE) && Ends(Cleaned(text))
    ensures
      var k := |SplitLines(Before(Cleaned(text)))|;
      Shape(SplitLines(text), SplitLines(Patch(text, tags)), FragmentLines(tags), k)
  {
    hide SplitLines, Cleaned, Find, FragmentLines, Insert, Plain, Outside, Before, Below, Ends, NoBreaks, EndsWith;
    var c := Cleaned(text);
    var h, f, r := SplitLines(Before(c)), FragmentLines(tags), SplitLines(Below(c));
    CleanedIsClean(text);
    CleanedIsOutside(text);
    InsertedLines(c, tags);
    Pieces(h, f, r);
    LastLine(c);
    OneOpenerBetween(h, f, r, tags);
  }

  lemma LastLine(c: string)
    requires Plain(c) && Contains(c, VERSION_LINE)
    ensures var h := SplitLines(Before(c)); h != [] && EndsWith(h[|h| - 1], VERSION_LINE)
  {
    hide SplitLines, Find;
    BeforeLines(c);
    assert EndsWith(Before(c), VERSION_LINE);
    LastLineEnds(Before(c), VERSION_LINE);
  }

  lemma OneOpenerBetween(h: seq<string>, f: seq<string>, r: seq<string>, tags: seq<Tag>)
    requires NoOpener(GRAMMAR, h + r) && f == FragmentLines(tags)
    ensures OneOpenerAt(h + f + r, |h|)
  {
    hide Indent, Objects;
    FragmentIsStripped(tags);
    assert f != [];
    var x := h + f + r;
    forall i | 0 <= i < |x| ensures OPENER <= x[i] <==> i == |h| {
      assert i < |h| ==> x[i] == (h + r)[i];
      assert |h| <= i < |h| + |f| ==> x[i] == f[i - |h|];
      assert |h| + |f| <= i ==> x[i] == (h + r)[i - |f|];
    }
  }

  // ── replaced in place? ──

  // What stands above the block ends with the version line, its first.
  predicate EndsAtVersion(a: seq<string>) {
    Contains(Join(a), VERSION_LINE) && Before(Join(a)) == Join(a)
  }

  // The file's lines around its one block; a text whose lines these are.
  ghost predicate OneBlock(text: string, a: seq<string>, was: seq<string>, b: seq<string>) {
    && SplitLines(text) == a + was + b
    && NoOpener(GRAMMAR, a) && WholeBlock(GRAMMAR, was, b) && NoOpener(GRAMMAR, b)
  }

  lemma OneBlockCleaned(text: string, a: seq<string>, was: seq<string>, b: seq<string>)
    requires OneBlock(text, a, was, b)
    ensures CleanedLines(text) == a + b && NoBreaks(a) && NoBreaks(b)
  {
    hide Strip, SplitLines, WholeBlock, NoBreak;
    StripWhole(GRAMMAR, a, was, b);
    var l := SplitLines(text);
    assert forall i | 0 <= i < |a| :: l[i] == a[i];
    assert forall i | 0 <= i < |b| :: l[|a| + |was| + i] == b[i];
  }

  lemma FragmentOpens(tags: seq<Tag>, rest: string)
    requires tags != [] && OneLine(tags)
    ensures var l := SplitLines(Fragment(tags) + rest); l != [] && OPENER <= l[0]
  {
    hide SplitLines, Join, Fragment, Indent, Objects;
    var f := FragmentLines(tags);
    FragmentIs(tags);
    var w := Join(f[1..]);
    assert [f[0]] + f[1..] == f;
    JoinCons(f[0], f[1..]);
    Associate(f[0] + "\n", w, rest);
    SplitFirst(f[0], w + rest);
  }

  // The patched file's block starts right below the version line, however that
  // line goes on.
  lemma FirstOpener(c: string, tags: seq<Tag>)
    requires Clean(c) && Contains(c, VERSION_LINE) && tags != [] && OneLine(tags)
    ensures var h, r := SplitLines(Before(c)), SplitLines(Insert(c, tags));
      |h| < |r| && r[..|h|] == h && OPENER <= r[|h|]
  {
    hide SplitLines, Join, Find, Fragment, Insert, Plain, Before, NoBreaks;
    var p := Before(c);
    var h := SplitLines(p);
    var y := Fragment(tags) + Rest(c);
    Replaced(c, tags);
    BeforeLines(c);
    assert p + "\n" + Fragment(tags) + Rest(c) == p + "\n" + y;
    var tail := if EndsLine(p + "\n" + y) then "" else "\n";
    assert Insert(c, tags) == p + "\n" + (y + tail);
    SplitAfter(h, y + tail);
    assert y + tail == Fragment(tags) + (Rest(c) + tail);
    FragmentOpens(tags, Rest(c) + tail);
  }

  // Up to two equal splits of a text: where the openers are tells the parts.
  lemma OpenersTell(h: seq<string>, a: seq<string>, f: seq<string>, b: seq<string>, r: seq<string>)
    requires r == a + f + b && f != [] && OneOpenerAt(r, |a|)
    requires |h| < |r| && r[..|h|] == h && OPENER <= r[|h|]
    ensures h == a
  {
  }

  lemma JoinPrefix(a: seq<string>, b: seq<string>)
    requires a != []
    ensures Join(a) <= Join(a + b)
    ensures Join(a + b) == if b == [] then Join(a) else Join(a) + "\n" + Join(b)
  {
    hide Join;
    if b == [] {
      assert a + b == a;
    } else {
      JoinConcat(a, b);
    }
  }

  lemma LastNotEmpty(a: seq<string>)
    requires Join(a) != "" && !EndsLine(Join(a))
    ensures a != [] && a[|a| - 1] != []
  {
    hide Join;
    JoinNothing();
    var n := |a| - 1;
    if n > 0 {
      JoinConcat(a[..n], [a[n]]);
      assert a[..n] + [a[n]] == a;
    } else {
      assert a == [a[0]] + [];
    }
    JoinCons(a[n], []);
    assert [a[n]] + [] == [a[n]];
  }

  lemma RestIs(c: string, x: string)
    requires Contains(c, VERSION_LINE) && c == Before(c) + x
    ensures Rest(c) == x
  {
    hide Find;
  }

  lemma LineBelow(c: string, x: string)
    requires Contains(c, VERSION_LINE) && Rest(c) == "\n" + x
    ensures Ends(c) && Below(c) == x
  {
    hide Find, Rest;
    assert ("\n" + x)[1..] == x;
  }

  lemma Associate(a: string, b: string, c: string)
    ensures a + b + c == a + (b + c)
  {}

  lemma AroundVersion(a: seq<string>, b: seq<string>)
    requires a != [] && EndsAtVersion(a)
    ensures var c := Join(a + b);
      Contains(c, VERSION_LINE) && Before(c) == Join(a) && Ends(c) && Below(c) == Join(b)
  {
    hide Join, Contains, Before, Rest;
    var p, c := Join(a), Join(a + b);
    JoinPrefix(a, b);
    SameBefore(p, c);
    if b == [] {
      JoinNothing();
      assert p + "" == p;
      RestIs(c, "");
    } else {
      Associate(p, "\n", Join(b));
      RestIs(c, "\n" + Join(b));
      LineBelow(c, Join(b));
    }
  }

  // If the lines above end with the version line, the block goes right below them.
  lemma StaysThere(a: seq<string>, b: seq<string>, tags: seq<Tag>)
    requires NoBreaks(a) && NoBreaks(b) && EndsAtVersion(a) && tags != [] && OneLine(tags)
    ensures SplitLines(Insert(Join(a + b), tags))
      == a + FragmentLines(tags) + if b != [] && b[|b| - 1] == [] then b[..|b| - 1] else b
  {
    hide SplitLines, Join, Find, Insert, Before, Below, Ends, NoBreak, FragmentLines, Fragment, Plain;
    Replaced(Join(a), []);
    LastNotEmpty(a);
    AroundVersion(a, b);
    JoinIsPlain(a + b);
    InsertedLines(Join(a + b), tags);
    SplitJoin(a);
    SplitJoin(b);
  }

  lemma FinalIsClean(c: string)
    requires Clean(c)
    ensures NoOpener(GRAMMAR, SplitLines(Final(c)))
  {
    hide SplitLines;
    if c == "" {
      SplitOne([]);
      SplitFirst([], []);
      assert [] + "\n" + [] == Final(c);
    } else {
      SplitFinal(c);
    }
  }

  // If the new block is where the old one was, the version line is right above.
  lemma InPlaceThenVersion(c: string, a: seq<string>, b: seq<string>, tags: seq<Tag>)
    requires Clean(c) && tags != [] && OneLine(tags) && NoOpener(GRAMMAR, a) && NoOpener(GRAMMAR, b)
    requires SplitLines(Insert(c, tags)) == a + FragmentLines(tags) + b
    ensures EndsAtVersion(a)
  {
    hide SplitLines, Join, Find, Insert, Fragment, FragmentLines, Before, Final, Plain;
    var f := FragmentLines(tags);
    OneOpenerBetween(a, f, b, tags);
    FragmentNotEmpty(tags);
    assert (a + f + b)[|a|] == f[0];
    if Contains(c, VERSION_LINE) {
      FirstOpener(c, tags);
      var h := SplitLines(Before(c));
      OpenersTell(h, a, f, b, SplitLines(Insert(c, tags)));
      BeforeLines(c);
      SameBefore(c, Join(a));
    } else {
      FinalIsClean(c);
      assert Insert(c, tags) == Final(c) by { NothingToReplace(c, tags); }
    }
  }

  lemma FragmentNotEmpty(tags: seq<Tag>)
    ensures FragmentLines(tags) != []
  {}

  lemma NothingToReplace(c: string, tags: seq<Tag>)
    requires !Contains(c, VERSION_LINE)
    ensures Insert(c, tags) == Final(c)
  {}

  // The new block stands where the file's one block stood exactly when the first
  // version line ends right above it (and no empty line ends the file).
  lemma InPlaceIff(text: string, a: seq<string>, was: seq<string>, b: seq<string>, tags: seq<Tag>)
    requires OneBlock(text, a, was, b) && Contains(text, ANCHOR)
    requires tags != [] && OneLine(tags)
    ensures SplitLines(Patch(text, tags)) == a + FragmentLines(tags) + b
      <==> EndsAtVersion(a) && (b == [] || b[|b| - 1] != "")
  {
    hide SplitLines, Join, Find, Insert, Fragment, FragmentLines, EndsAtVersion, WholeBlock, Strip, NoBreak;
    var c := Cleaned(text);
    CleanedIsClean(text);
    OneBlockCleaned(text, a, was, b);
    var f := FragmentLines(tags);
    if SplitLines(Patch(text, tags)) == a + f + b {
      InPlaceThenVersion(c, a, b, tags);
    }
    if EndsAtVersion(a) {
      StaysThere(a, b, tags);
      if b != [] && b[|b| - 1] == "" {
        assert |a + f + b| == |SplitLines(Patch(text, tags))| + 1;
      }
    }
  }

  const EMPTY_BLOCK := [OPENER + " [", "    ],"]

  lemma EmptyBlockAbove()
    ensures var text := Join(EMPTY_BLOCK + [VERSION_LINE]) + "\n";
      OneBlock(text, [], EMPTY_BLOCK, [VERSION_LINE]) && Contains(text, ANCHOR)
  {
    hide SplitLines, Join, Find, PyText.Strip;
    var lines := EMPTY_BLOCK + [VERSION_LINE];
    var text := Join(lines) + "\n";
    assert NoBreak(lines[0]) && NoBreak(lines[1]) && NoBreak(VERSION_LINE);
    SplitOne([]);
    SplitAfter(lines, []);
    assert text + [] == text && lines + [] == lines && [] + EMPTY_BLOCK + [VERSION_LINE] == lines;
    CloserCloses();
    assert EMPTY_BLOCK[..1] == [EMPTY_BLOCK[0]];
    JoinConcat(EMPTY_BLOCK, [VERSION_LINE]);
    JoinCons(VERSION_LINE, []);
    assert [VERSION_LINE] + [] == [VERSION_LINE];
    AtWithin(Join(EMPTY_BLOCK) + "\n", VERSION_LINE, "\n");
    assert VERSION_LINE[5] != OPENER[5];
    AnchorIn(text, |Join(EMPTY_BLOCK)| + 1);
  }

  lemma EmptyBlockCleaned()
    ensures Cleaned(Join(EMPTY_BLOCK + [VERSION_LINE]) + "\n") == Join([VERSION_LINE])
  {
    hide SplitLines, Join, Find, OneBlock, CleanedLines;
    EmptyBlockAbove();
    OneBlockCleaned(Join(EMPTY_BLOCK + [VERSION_LINE]) + "\n", [], EMPTY_BLOCK, [VERSION_LINE]);
    assert [] + [VERSION_LINE] == [VERSION_LINE];
  }

  lemma VersionLineStands()
    ensures NoBreaks([VERSION_LINE]) && EndsAtVersion([VERSION_LINE])
  {
    hide Join, Find;
    assert NoBreak(VERSION_LINE);
    JoinCons(VERSION_LINE, []);
    assert [VERSION_LINE] + [] == [VERSION_LINE];
    StartsWithVersion(VERSION_LINE);
    WholeBefore();
  }

  lemma WholeBefore()
    requires Contains(VERSION_LINE, VERSION_LINE) && Rest(VERSION_LINE) == ""
    ensures Before(VERSION_LINE) == VERSION_LINE
  {
    hide Find;
  }

  lemma BelowVersion(tags: seq<Tag>)
    requires tags != [] && OneLine(tags)
    ensures SplitLines(Insert(Join([VERSION_LINE]), tags)) == [VERSION_LINE] + FragmentLines(tags)
  {
    hide SplitLines, Join, Insert, EndsAtVersion, FragmentLines, NoBreak;
    VersionLineStands();
    StaysThere([VERSION_LINE], [], tags);
    assert [VERSION_LINE] + [] == [VERSION_LINE];
    assert [VERSION_LINE] + FragmentLines(tags) + [] == [VERSION_LINE] + FragmentLines(tags);
  }

  lemma OpenerIsNoVersionLine(tags: seq<Tag>)
    ensures [VERSION_LINE] + FragmentLines(tags) != FragmentLines(tags) + [VERSION_LINE]
  {
    hide Indent, Objects;
    assert (FragmentLines(tags) + [VERSION_LINE])[0] == OPENER + " [";
    assert (OPENER + " [")[5] == 't' && VERSION_LINE[5] == 's';
  }

  // A block above the version line moves below it.
  lemma BlockAboveMoves(tags: seq<Tag>)
    requires tags != [] && OneLine(tags)
    ensures
      var text := Join(EMPTY_BLOCK + [VERSION_LINE]) + "\n";
      var r := SplitLines(Patch(text, tags));
      && SplitLines(text) == EMPTY_BLOCK + [VERSION_LINE]
      && r == [VERSION_LINE] + FragmentLines(tags) && r != FragmentLines(tags) + [VERSION_LINE]
  {
    hide SplitLines, Join, Find, Insert, FragmentLines, Cleaned, WholeBlock, NoOpener;
    EmptyBlockAbove();
    EmptyBlockCleaned();
    BelowVersion(tags);
    OpenerIsNoVersionLine(tags);
    assert [] + EMPTY_BLOCK + [VERSION_LINE] == EMPTY_BLOCK + [VERSION_LINE];
  }

  lemma AtWithin(a: string, b: string, c: string)
    ensures At(a + b + c, b, |a|)
  {}

  lemma CloserCloses()
    ensures GRAMMAR.closes("    ],") && !GRAMMAR.opens("    ],")
  {
    PyText.LStripTo("    ],", 4);
    assert "    ],"[4..] == "],";
    assert OPENER[4] == '"';
  }
}

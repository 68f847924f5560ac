/** str.splitlines, "\n".join, find and replace-once, and how they fit together. */
module Lines {

  // The characters splitlines() breaks at.
  predicate IsBreak(c: char) {
    '\n' <= c <= '\r' || '\U{1C}' <= c <= '\U{1E}' || c == '\U{85}' || c == '\U{2028}' || c == '\U{2029}'
  }

  // The ten characters, code point by code point.
  lemma BreakCharacters(c: char)
    ensures IsBreak(c) <==> c as int in {0xA, 0xB, 0xC, 0xD, 0x1C, 0x1D, 0x1E, 0x85, 0x2028, 0x2029}
  {
  }

  ghost predicate NoBreak(s: string) { forall i | 0 <= i < |s| :: !IsBreak(s[i]) }

  ghost predicate NoBreaks(lines: seq<string>) { forall i | 0 <= i < |lines| :: NoBreak(lines[i]) }

  lemma NoBreakConcat(a: string, b: string)
    requires NoBreak(a) && NoBreak(b)
    ensures NoBreak(a + b)
  {}

  // Line feeds are the only breaks.
  ghost predicate Plain(s: string) { forall i | 0 <= i < |s| :: IsBreak(s[i]) ==> s[i] == '\n' }

  function FirstBreak(s: string): (k: nat)
    ensures k <= |s| && (k < |s| ==> IsBreak(s[k]))
    ensures NoBreak(s[..k])
  {
    if s == [] || IsBreak(s[0]) then 0
    else
      var k := 1 + FirstBreak(s[1..]);
      assert forall i | 0 < i < k :: s[i] == s[1..][..k - 1][i - 1];
      k
  }

  // "\r\n" is one break.
  function BreakWidth(s: string, k: nat): nat
    requires k < |s|
  {
    if s[k] == '\r' && k + 1 < |s| && s[k + 1] == '\n' then 2 else 1
  }

  function SplitLines(s: string): (r: seq<string>)
    ensures NoBreaks(r)
    decreases |s|
  {
    if s == [] then []
    else
      var k := FirstBreak(s);
      if k == |s| then [s[..k]] else [s[..k]] + SplitLines(s[k + BreakWidth(s, k)..])
  }

  function Join(lines: seq<string>): string {
    if lines == [] then []
    else if |lines| == 1 then lines[0]
    else lines[0] + "\n" + Join(lines[1..])
  }

  lemma FirstBreakIs(s: string, k: nat)
    requires k <= |s| && NoBreak(s[..k]) && (k < |s| ==> IsBreak(s[k]))
    ensures FirstBreak(s) == k
  {
    var f := FirstBreak(s);
    assert forall i | 0 <= i < k :: s[..k][i] == s[i];
    assert forall i | 0 <= i < f :: s[..f][i] == s[i];
  }

  // Any break ends a line; a carriage return takes the line feed after it along.
  lemma SplitAtBreak(x: string, c: char, y: string)
    requires NoBreak(x) && IsBreak(c)
    ensures !(c == '\r' && y != [] && y[0] == '\n') ==> SplitLines(x + [c] + y) == [x] + SplitLines(y)
    ensures SplitLines(x + "\r\n" + y) == [x] + SplitLines(y)
  {
    var s, t := x + [c] + y, x + "\r\n" + y;
    assert s[..|x|] == x && s[|x|] == c && s[|x| + 1..] == y;
    assert y != [] ==> s[|x| + 1] == y[0];
    FirstBreakIs(s, |x|);
    assert t[..|x|] == x && t[|x|] == '\r' && t[|x| + 1] == '\n' && t[|x| + 2..] == y;
    FirstBreakIs(t, |x|);
  }

  // A line and what follows its line feed.
  lemma SplitFirst(x: string, y: string)
    requires NoBreak(x)
    ensures SplitLines(x + "\n" + y) == [x] + SplitLines(y)
  {
    var s := x + "\n" + y;
    assert s[..|x|] == x && s[|x|] == '\n';
    FirstBreakIs(s, |x|);
    assert s[|x| + 1..] == y;
  }

  lemma SplitOne(x: string)
    requires NoBreak(x)
    ensures SplitLines(x) == if x == [] then [] else [x]
  {
    assert x[..|x|] == x;
    FirstBreakIs(x, |x|);
  }

  // Lines, a line feed, and more text.
  lemma {:induction false} SplitAfter(h: seq<string>, y: string)
    requires h != [] && NoBreaks(h)
    ensures SplitLines(Join(h) + "\n" + y) == h + SplitLines(y)
    decreases |h|
  {
    hide SplitLines;
    if |h| == 1 {
      SplitFirst(h[0], y);
    } else {
      var rest := h[1..];
      SplitAfter(rest, y);
      var t := Join(rest) + "\n" + y;
      assert Join(h) + "\n" + y == h[0] + "\n" + t;
      SplitFirst(h[0], t);
      assert [h[0]] + (rest + SplitLines(y)) == h + SplitLines(y);
    }
  }

  // splitlines forgets one final empty line, nothing else.
  lemma {:induction false} SplitJoin(h: seq<string>)
    requires NoBreaks(h)
    ensures SplitLines(Join(h)) == if h != [] && h[|h| - 1] == [] then h[..|h| - 1] else h
    decreases |h|
  {
    hide SplitLines;
    if h == [] {
      SplitOne([]);
    } else if |h| == 1 {
      SplitOne(h[0]);
    } else {
      var rest := h[1..];
      SplitJoin(rest);
      SplitFirst(h[0], Join(rest));
      assert [h[0]] + rest == h && [h[0]] + rest[..|rest| - 1] == h[..|h| - 1];
      assert rest[|rest| - 1] == h[|h| - 1];
    }
  }

  lemma {:induction false} JoinIsPlain(h: seq<string>)
    requires NoBreaks(h)
    ensures Plain(Join(h))
    decreases |h|
  {
    if |h| > 1 {
      JoinIsPlain(h[1..]);
      var s, rest := Join(h), Join(h[1..]);
      assert NoBreak(h[0]);
      assert forall i | 0 <= i < |h[0]| :: s[i] == h[0][i];
      assert forall i | |h[0]| < i < |s| :: s[i] == rest[i - |h[0]| - 1];
    }
  }

  lemma {:induction false} JoinConcat(a: seq<string>, b: seq<string>)
    requires a != [] && b != []
    ensures Join(a + b) == Join(a) + "\n" + Join(b)
    decreases |a|
  {
    if |a| == 1 {
      assert (a + b)[1..] == b;
    } else {
      assert (a + b)[1..] == a[1..] + b;
      JoinConcat(a[1..], b);
    }
  }

  predicate EndsLine(s: string) { s != [] && s[|s| - 1] == '\n' }

  // `if not s.endswith("\n"): s += "\n"`.
  function Final(s: string): string { if EndsLine(s) then s else s + "\n" }

  // Less one final line feed.
  function Chomp(s: string): string { if EndsLine(s) then s[..|s| - 1] else s }

  lemma ChompLine(x: string, rest: string)
    ensures Chomp(x + "\n" + rest) == if rest == "" then x else x + "\n" + Chomp(rest)
  {}

  lemma NoBreakChomp(x: string)
    requires NoBreak(x)
    ensures Chomp(x) == x
  {}

  // Joining the lines of a plain text gives it back, less one final line feed.
  lemma {:induction false} JoinSplit(s: string)
    requires Plain(s)
    ensures Join(SplitLines(s)) == Chomp(s)
    ensures s != [] ==> SplitLines(s) != []
    decreases |s|
  {
    hide SplitLines, FirstBreak, Join, Chomp;
    var k := FirstBreak(s);
    var x := s[..k];
    assert forall i | 0 <= i < k :: s[i] == x[i];
    SplitOne([]);
    if k == |s| {
      assert x == s;
      SplitOne(s);
      NoBreakChomp(s);
      JoinCons(s, []);
      assert [s] + [] == [s];
      JoinNothing();
    } else {
      var rest := s[k + 1..];
      assert s == x + "\n" + rest;
      SplitFirst(x, rest);
      JoinSplit(rest);
      JoinCons(x, SplitLines(rest));
      ChompLine(x, rest);
    }
  }

  lemma JoinNothing()
    ensures Join([]) == ""
  {}

  lemma JoinCons(x: string, r: seq<string>)
    ensures Join([x] + r) == if r == [] then x else x + "\n" + Join(r)
  {
    assert ([x] + r)[1..] == r;
  }

  // Ending the last line does not change the lines.
  lemma SplitFinal(s: string)
    requires Plain(s) && s != []
    ensures SplitLines(Final(s)) == SplitLines(s)
  {
    JoinSplit(s);
    if !EndsLine(s) {
      SplitAfter(SplitLines(s), []);
      assert Join(SplitLines(s)) + "\n" + [] == Final(s);
    }
  }

  predicate EndsBlank(s: string) { EndsLine(s) && EndsLine(Chomp(s)) }

  lemma FinalChomp(s: string)
    ensures Final(Chomp(s)) == Final(s) <==> !EndsBlank(s)
  {
    if EndsLine(s) {
      assert s[..|s| - 1] + "\n" == s;
    }
  }

  // The lines of a prefix are prefixes of the lines.
  lemma {:induction false} PrefixLines(p: string, q: string)
    requires Plain(p)
    ensures |SplitLines(p)| <= |SplitLines(p + q)|
    ensures forall i | 0 <= i < |SplitLines(p)| :: SplitLines(p)[i] <= SplitLines(p + q)[i]
    decreases |p|
  {
    hide SplitLines;
    var k := FirstBreak(p);
    var x := p[..k];
    assert forall i | 0 <= i < k :: p[i] == x[i];
    if p == [] {
      SplitOne([]);
    } else if k == |p| {
      assert x == p;
      SplitOne(p);
      FirstLineGrows(p, q);
    } else {
      var rest := p[k + 1..];
      assert p == x + "\n" + rest;
      assert p + q == x + "\n" + (rest + q);
      SplitFirst(x, rest);
      SplitFirst(x, rest + q);
      PrefixLines(rest, q);
    }
  }

  lemma FirstLineGrows(x: string, q: string)
    requires x != [] && NoBreak(x)
    ensures SplitLines(x + q) != [] && x <= SplitLines(x + q)[0]
  {
    hide FirstBreak;
    var s := x + q;
    var k := FirstBreak(s);
    assert forall i | 0 <= i < |x| :: s[i] == x[i];
    assert SplitLines(s)[0] == s[..k];
    assert s[..|x|] == x;
  }

  predicate EndsWith(s: string, t: string) { |t| <= |s| && s[|s| - |t|..] == t }

  lemma {:induction false} LastLineEnds(p: string, t: string)
    requires EndsWith(p, t) && NoBreak(t) && t != "" && Plain(p)
    ensures var h := SplitLines(p); h != [] && EndsWith(h[|h| - 1], t)
    decreases |p|
  {
    hide SplitLines, FirstBreak;
    var k := FirstBreak(p);
    var x := p[..k];
    if k == |p| {
      assert x == p;
      SplitOne(p);
    } else {
      var rest := p[k + 1..];
      BreakIsBefore(p, t, k);
      assert p == x + "\n" + rest;
      SplitFirst(x, rest);
      LastLineEnds(rest, t);
    }
  }

  lemma BreakIsBefore(p: string, t: string, k: nat)
    requires EndsWith(p, t) && NoBreak(t) && k < |p| && IsBreak(p[k])
    ensures k < |p| - |t| && EndsWith(p[k + 1..], t)
  {
    var j := |p| - |t|;
    assert forall i | j <= i < |p| :: p[i] == t[i - j];
    assert k < j;
    assert p[k + 1..][j - k - 1..] == p[j..];
  }

  // ── find and replace once ──

  ghost predicate At(s: string, pat: string, i: int) {
    0 <= i && i + |pat| <= |s| && s[i..i + |pat|] == pat
  }

  lemma AtStart(s: string, pat: string)
    ensures At(s, pat, 0) <==> pat <= s
  {
    assert |pat| <= |s| ==> s[0..0 + |pat|] == s[..|pat|];
  }

  lemma AtTail(s: string, pat: string)
    requires s != []
    ensures forall j | j > 0 :: At(s, pat, j) <==> At(s[1..], pat, j - 1)
  {
    forall j | j > 0 ensures At(s, pat, j) <==> At(s[1..], pat, j - 1) {
      assert j + |pat| <= |s| ==> s[1..][j - 1..j - 1 + |pat|] == s[j..j + |pat|];
    }
  }

  // str.find.
  function Find(s: string, pat: string): (i: int)
    ensures i == -1 || At(s, pat, i)
    ensures forall j | At(s, pat, j) :: 0 <= i <= j
    decreases |s|
  {
    AtStart(s, pat);
    if pat <= s then 0
    else if s == [] then -1
    else
      AtTail(s, pat);
      var i := Find(s[1..], pat);
      assert forall j | At(s, pat, j) :: j > 0 && At(s[1..], pat, j - 1);
      if i < 0 then -1 else i + 1
  }

  predicate Contains(s: string, pat: string) { Find(s, pat) >= 0 }

  // s.replace(pat, with, 1).
  function ReplaceOnce(s: string, pat: string, with: string): string {
    var i := Find(s, pat);
    if i < 0 then s else s[..i] + with + s[i + |pat|..]
  }

  // One occurrence is replaced, and it is the first; a text without one stays.
  lemma ReplaceOnceIs(a: string, pat: string, b: string, with: string)
    ensures (forall j | 0 <= j < |a| :: !At(a + pat + b, pat, j)) ==>
        ReplaceOnce(a + pat + b, pat, with) == a + with + b
    ensures (forall j :: !At(a, pat, j)) ==> ReplaceOnce(a, pat, with) == a
  {
    hide Find;
    Spliced(a, pat, b);
    assert (a + pat + b)[|a|..|a| + |pat|] == pat;
    assert At(a + pat + b, pat, |a|);
  }

  // The first occurrence depends only on the text up to its end.
  lemma FindSame(s: string, t: string, pat: string, n: nat)
    requires Find(s, pat) == n && n + |pat| <= |t| && s[..n + |pat|] == t[..n + |pat|]
    ensures Find(t, pat) == n
  {
    hide Find;
    var m := n + |pat|;
    assert forall i | 0 <= i < m :: s[i] == s[..m][i] == t[..m][i] == t[i];
    forall i | 0 <= i <= n ensures At(s, pat, i) <==> At(t, pat, i) {
      assert s[i..i + |pat|] == t[i..i + |pat|];
    }
  }

  lemma ContainsIf(s: string, pat: string, i: int)
    requires At(s, pat, i)
    ensures Contains(s, pat)
  {
    hide Find;
  }

  // A pattern that does not end a line never straddles the last line feed.
  lemma ChompKeepsFind(s: string, pat: string)
    requires pat != [] && !EndsLine(pat)
    ensures Find(Chomp(s), pat) == Find(s, pat)
  {
    hide Find;
    var c := Chomp(s);
    forall i: int ensures At(c, pat, i) <==> At(s, pat, i) {
      if At(s, pat, i) {
        assert s[i..i + |pat|][|pat| - 1] == s[i + |pat| - 1];
        assert i + |pat| <= |c|;
        assert c[i..i + |pat|] == s[i..i + |pat|];
      }
      if At(c, pat, i) {
        assert c[i..i + |pat|] == s[i..i + |pat|];
      }
    }
  }

  lemma ReplaceChomp(s: string, pat: string, with: string)
    requires pat != [] && !EndsLine(pat) && with != [] && !EndsLine(with)
    ensures ReplaceOnce(Chomp(s), pat, with) == Chomp(ReplaceOnce(s, pat, with))
    ensures EndsBlank(ReplaceOnce(s, pat, with)) <==> EndsBlank(s)
  {
    hide Find, EndsLine, Chomp, EndsBlank;
    ChompKeepsFind(s, pat);
    var i := Find(s, pat);
    if i >= 0 {
      var suf := s[i + |pat|..];
      EndsAt(s[..i], pat);
      EndsAt(s[..i], with);
      ChompConcat(s[..i] + pat, suf);
      ChompConcat(s[..i] + with, suf);
      assert s == s[..i] + pat + suf;
      Spliced(s[..i], pat, Chomp(suf));
    }
  }

  lemma EndsAt(a: string, b: string)
    requires b != []
    ensures EndsLine(a + b) <==> EndsLine(b)
  {}

  lemma Spliced(a: string, b: string, c: string)
    ensures (a + b + c)[..|a|] == a && (a + b + c)[|a| + |b|..] == c
  {}

  lemma ChompConcat(a: string, b: string)
    requires a != [] && !EndsLine(a)
    ensures Chomp(a + b) == a + Chomp(b)
    ensures EndsBlank(a + b) <==> EndsBlank(b)
  {}
}

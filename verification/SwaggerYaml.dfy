/** patch_yaml of scripts/patch-swagger-extensions.py: strip the top-level tags
    blocks of a YAML file, then insert one before securityDefinitions. */
module SwaggerYaml {
  import opened Blocks
  import opened Lines
  import opened SwaggerTags
  import opened Wrappers

  // A top-level block ends at the next line that is neither blank nor indented
  // nor a list item; that line is kept.
  const GRAMMAR := Grammar(
    line => "tags:" <= line,
    line => false,
    line => line == "" || " " <= line || "-" <= line)

  const ANCHOR := "securityDefinitions:"

  const SPECIAL := ":#[]{}&*!|>'\"%@`\n"

  function EscapeQuotes(s: string): string {
    if s == [] then [] else EscapeQuotes(s[..|s| - 1]) + if s[|s| - 1] == '"' then "\\\"" else [s[|s| - 1]]
  }

  // _yaml_scalar.
  function YamlScalar(s: string): string {
    if exists c | c in SPECIAL :: c in s then "\"" + EscapeQuotes(s) + "\"" else s
  }

  function Entries(tags: seq<Tag>): seq<string> {
    if tags == [] then []
    else
      var t := tags[|tags| - 1];
      Entries(tags[..|tags| - 1]) + ["- description: " + YamlScalar(t.description), "  name: " + t.name]
  }

  function TagLines(tags: seq<Tag>): seq<string> { ["tags:"] + Entries(tags) }

  // The first securityDefinitions line, or the end.
  function InsertAt(lines: seq<string>): (k: nat)
    ensures k <= |lines|
    ensures forall i | 0 <= i < k :: !(ANCHOR <= lines[i])
    ensures k < |lines| ==> ANCHOR <= lines[k]
  {
    if lines == [] || ANCHOR <= lines[0] then 0 else 1 + InsertAt(lines[1..])
  }

  function Cleaned(lines: seq<string>): seq<string> { Strip(GRAMMAR, lines, false) }

  function Patch(lines: seq<string>, tags: seq<Tag>): seq<string> {
    var c := Cleaned(lines);
    var k := InsertAt(c);
    c[..k] + TagLines(tags) + c[k..]
  }

  function PatchText(text: string, tags: seq<Tag>): string {
    Join(Patch(SplitLines(text), tags)) + "\n"
  }

  // ── the code ──

  method Clean(lines: seq<string>) returns (cleaned: seq<string>)
    ensures cleaned == Cleaned(lines)
  {
    cleaned := [];
    var skip := false;
    for n := 0 to |lines|
      invariant cleaned == Strip(GRAMMAR, lines[..n], false)
      invariant skip == After(GRAMMAR, lines[..n], false)
    {
      var line := lines[n];
      assert lines[..n + 1][..n] == lines[..n];
      if "tags:" <= line {
        skip := true;
        continue;
      }
      if skip {
        if line != "" && !(" " <= line) && !("-" <= line) {
          skip := false;
        } else {
          continue;
        }
      }
      cleaned := cleaned + [line];
    }
    assert lines[..|lines|] == lines;
  }

  method PatchYaml(text: string, tags: seq<Tag>) returns (patched: string)
    ensures patched == PatchText(text, tags)
  {
    var lines := SplitLines(text);
    var cleaned := Clean(lines);

    var tagLines := ["tags:"];
    for n := 0 to |tags|
      invariant tagLines == TagLines(tags[..n])
    {
      var t := tags[n];
      assert tags[..n + 1][..n] == tags[..n];
      tagLines := tagLines + ["- description: " + YamlScalar(t.description)];
      tagLines := tagLines + ["  name: " + t.name];
    }
    assert tags[..|tags|] == tags;

    var insertAt := 0;
    while insertAt < |cleaned| && !("securityDefinitions:" <= cleaned[insertAt])
      invariant insertAt <= |cleaned|
      invariant forall i | 0 <= i < insertAt :: !(ANCHOR <= cleaned[i])
    {
      insertAt := insertAt + 1;
    }
    assert insertAt == InsertAt(cleaned);
    var result := cleaned[..insertAt] + tagLines + cleaned[insertAt..];
    patched := Join(result) + "\n";
  }

  // ── the inserted block is a block ──

  lemma {:induction false} EntriesAreInner(tags: seq<Tag>)
    ensures forall i | 0 <= i < |Entries(tags)| :: "-" <= Entries(tags)[i] || " " <= Entries(tags)[i]
    decreases |tags|
  {
    if tags != [] {
      EntriesAreInner(tags[..|tags| - 1]);
    }
  }

  lemma TagLinesAreBlock(tags: seq<Tag>)
    ensures IsBlock(GRAMMAR, TagLines(tags))
  {
    EntriesAreInner(tags);
    var e := Entries(tags);
    forall i | 0 < i < |TagLines(tags)|
      ensures var l := TagLines(tags)[i]; !GRAMMAR.opens(l) && !GRAMMAR.closes(l) && GRAMMAR.inner(l)
    {
      var l := e[i - 1];
      assert l[0] == '-' || l[0] == ' ';
    }
  }

  // Patching adds nothing that the next run does not strip.
  lemma CleanedAgain(lines: seq<string>, tags: seq<Tag>)
    ensures Cleaned(Patch(lines, tags)) == Cleaned(lines)
  {
    hide Strip, After;
    var c := Cleaned(lines);
    var k := InsertAt(c);
    var t := TagLines(tags);
    StripIsClean(GRAMMAR, lines, false);
    TagLinesAreBlock(tags);
    StripConcat(GRAMMAR, c[..k] + t, c[k..], false);
    StripConcat(GRAMMAR, c[..k], t, false);
    StripKeepsClean(GRAMMAR, c[..k]);
    StripBlock(GRAMMAR, t, false);
    assert k < |c| ==> c[k][0] == 's';
    TailIsKept(GRAMMAR, c[k..]);
    assert c[..k] + c[k..] == c;
  }

  // The last run decides: whatever block an earlier run left is replaced.
  // With tags == earlier this is idempotence, for every file.
  lemma LastRunWins(lines: seq<string>, earlier: seq<Tag>, tags: seq<Tag>)
    ensures Patch(Patch(lines, earlier), tags) == Patch(lines, tags)
  {
    CleanedAgain(lines, earlier);
  }

  // One block, standing just before the first securityDefinitions line or at
  // the end; the lines outside earlier blocks are all still there, in order.
  ghost predicate Shape(lines: seq<string>, r: seq<string>, t: seq<string>, k: nat) {
    && k + |t| <= |r| && r[k..k + |t|] == t
    && (forall i | 0 <= i < |r| :: "tags:" <= r[i] <==> i == k)
    && (k + |t| == |r| || ANCHOR <= r[k + |t|])
    && (forall i | 0 <= i < k :: !(ANCHOR <= r[i]))
    && r[..k] + r[k + |t|..] == Outside(GRAMMAR, lines, |lines|)
  }

  lemma PatchShape(lines: seq<string>, tags: seq<Tag>)
    ensures Shape(lines, Patch(lines, tags), TagLines(tags), InsertAt(Cleaned(lines)))
  {
    hide Strip, After, Outside, IsBlock, TagLines, InsertAt;
    var c := Cleaned(lines);
    var k := InsertAt(c);
    var t := TagLines(tags);
    StripIsClean(GRAMMAR, lines, false);
    TagLinesAreBlock(tags);
    OneOpener(GRAMMAR, c[..k], t, c[k..]);
    Pieces(c[..k], t, c[k..]);
    StripIsOutside(GRAMMAR, lines, |lines|);
    assert lines[..|lines|] == lines;
    assert c[..k] + c[k..] == c;
    assert forall i | 0 <= i < k :: Patch(lines, tags)[i] == c[..k][i];
  }

  // ── replaced in place? ──

  // The new block stands where the file's one block stood exactly when that one
  // stood right before the first securityDefinitions line, or ended a file without.
  lemma InPlaceIff(a: seq<string>, was: seq<string>, b: seq<string>, tags: seq<Tag>)
    requires NoOpener(GRAMMAR, a) && WholeBlock(GRAMMAR, was, b) && NoOpener(GRAMMAR, b)
    ensures Patch(a + was + b, tags) == a + TagLines(tags) + b
      <==> (forall i | 0 <= i < |a| :: !(ANCHOR <= a[i])) && (b == [] || ANCHOR <= b[0])
  {
    hide Strip, After, WholeBlock, IsBlock, TagLines;
    StripWhole(GRAMMAR, a, was, b);
    TagLinesAreBlock(tags);
    var c := a + b;
    var k := InsertAt(c);
    OneOpener(GRAMMAR, c[..k], TagLines(tags), c[k..]);
    OneOpener(GRAMMAR, a, TagLines(tags), b);
    assert k == |a| ==> c[..k] == a && c[k..] == b;
    assert (c[..k] + TagLines(tags) + c[k..])[k] == TagLines(tags)[0];
    assert forall i | 0 <= i < |a| :: c[i] == a[i];
    assert b != [] ==> c[|a|] == b[0];
  }

  // A block at the top of a file moves down to the securityDefinitions line.
  lemma BlockAtTopMoves(tags: seq<Tag>)
    ensures
      var info, definitions := "info: {}", "securityDefinitions: {}";
      var r := Patch(["tags:", info, definitions], tags);
      r == [info] + TagLines(tags) + [definitions] && r != TagLines(tags) + [info, definitions]
  {
    hide Strip, After, TagLines;
    var b := ["info: {}", "securityDefinitions: {}"];
    assert b[0][0] == 'i' && b[1][0] == 's';
    assert ANCHOR == b[1][..|ANCHOR|];
    assert [] + ["tags:"] + b == ["tags:", "info: {}", "securityDefinitions: {}"];
    InPlaceIff([], ["tags:"], b, tags);
    StripWhole(GRAMMAR, [], ["tags:"], b);
    assert InsertAt([] + b) == 1;
    assert [] + TagLines(tags) + b == TagLines(tags) + b;
  }

  // ── nothing of the table is lost in the block ──

  function Unescape(s: string): string {
    if s == [] then []
    else
      var n := |s| - 1;
      if n > 0 && s[n - 1] == '\\' && s[n] == '"' then Unescape(s[..n - 1]) + "\"" else Unescape(s[..n]) + [s[n]]
  }

  // A character that must not stand in an unquoted scalar.
  predicate NeedsQuotes(c: char) {
    || c == ':' || c == '#' || c == '[' || c == ']' || c == '{' || c == '}' || c == '&' || c == '*' || c == '!'
    || c == '|' || c == '>' || c == '\'' || c == '"' || c == '%' || c == '@' || c == '`' || c == '\n'
  }

  function ReadScalar(t: string): Option<string> {
    if t != [] && t[0] == '"' then
      if |t| >= 2 && t[|t| - 1] == '"' then Some(Unescape(t[1..|t| - 1])) else None
    else if exists i | 0 <= i < |t| :: NeedsQuotes(t[i]) then None
    else Some(t)
  }

  // An entry is the two keys, in this order, each with its value behind it.
  function ReadEntries(lines: seq<string>): Option<seq<Tag>> {
    var n := |lines|;
    if n == 0 then Some([])
    else if n == 1 || !("- description: " <= lines[n - 2]) || !("  name: " <= lines[n - 1]) then None
    else
      var tags, description := ReadEntries(lines[..n - 2]), ReadScalar(lines[n - 2][15..]);
      if tags.Some? && description.Some? then Some(tags.value + [Tag(lines[n - 1][8..], description.value)]) else None
  }

  lemma UnescapeQuote(x: string)
    ensures Unescape(x + "\\\"") == Unescape(x) + "\""
  {
    assert (x + "\\\"")[..|x|] == x;
  }

  lemma UnescapeOther(x: string, c: char)
    requires c != '"'
    ensures Unescape(x + [c]) == Unescape(x) + [c]
  {
    assert (x + [c])[..|x|] == x;
  }

  lemma {:induction false} UnescapeUndoes(s: string)
    ensures Unescape(EscapeQuotes(s)) == s
    decreases |s|
  {
    hide Unescape;
    if s == [] {
      UnescapeNothing();
    } else {
      var n := |s| - 1;
      UnescapeUndoes(s[..n]);
      if s[n] == '"' {
        UnescapeQuote(EscapeQuotes(s[..n]));
      } else {
        UnescapeOther(EscapeQuotes(s[..n]), s[n]);
      }
    }
  }

  lemma UnescapeNothing()
    ensures Unescape([]) == []
  {}

  lemma SpecialIff(c: char)
    ensures c in SPECIAL <==> NeedsQuotes(c)
  {
    var t := SPECIAL;
    assert t[0] == ':' && t[1] == '#' && t[2] == '[' && t[3] == ']' && t[4] == '{' && t[5] == '}' && t[6] == '&';
    assert t[7] == '*' && t[8] == '!' && t[9] == '|' && t[10] == '>' && t[11] == '\'' && t[12] == '"';
    assert t[13] == '%' && t[14] == '@' && t[15] == '`' && t[16] == '\n';
  }

  // Quoted exactly when one of the characters occurs.
  lemma QuotedIff(s: string)
    ensures YamlScalar(s) == s <==> !exists i | 0 <= i < |s| :: NeedsQuotes(s[i])
    ensures YamlScalar(s) != s ==> YamlScalar(s) == "\"" + EscapeQuotes(s) + "\""
  {
    hide NeedsQuotes;
    forall c ensures c in SPECIAL <==> NeedsQuotes(c) {
      SpecialIff(c);
    }
    EscapeGrows(s);
  }

  lemma {:induction false} EscapeGrows(s: string)
    ensures |EscapeQuotes(s)| >= |s|
    decreases |s|
  {
    if s != [] {
      EscapeGrows(s[..|s| - 1]);
    }
  }

  lemma ScalarReadsBack(s: string)
    ensures ReadScalar(YamlScalar(s)) == Some(s)
  {
    QuotedIff(s);
    UnescapeUndoes(s);
    var q := "\"" + EscapeQuotes(s) + "\"";
    assert q[1..|q| - 1] == EscapeQuotes(s);
  }

  // The block determines the table it was written from.
  lemma {:induction false} BlockReadsBack(tags: seq<Tag>)
    ensures TagLines(tags)[0] == "tags:" && ReadEntries(TagLines(tags)[1..]) == Some(tags)
    decreases |tags|
  {
    hide YamlScalar, ReadScalar;
    var e := Entries(tags);
    assert TagLines(tags)[1..] == e;
    if tags != [] {
      var n := |tags| - 1;
      var t := tags[n];
      BlockReadsBack(tags[..n]);
      assert TagLines(tags[..n])[1..] == Entries(tags[..n]);
      ScalarReadsBack(t.description);
      var d := "- description: " + YamlScalar(t.description);
      var name := "  name: " + t.name;
      assert d[..15] == "- description: " && name[..8] == "  name: ";
      assert d[15..] == YamlScalar(t.description) && name[8..] == t.name;
      assert e[..|e| - 2] == Entries(tags[..n]) && e[|e| - 1] == name && e[|e| - 2] == d;
      assert tags[..n] + [t] == tags;
    }
  }

  // ── on text ──

  lemma {:induction false} EscapeKeepsLine(s: string)
    requires NoBreak(s)
    ensures NoBreak(EscapeQuotes(s))
    decreases |s|
  {
    if s != [] {
      assert IsBreak(s[|s| - 1]) == false;
      EscapeKeepsLine(s[..|s| - 1]);
    }
  }

  lemma ScalarKeepsLine(s: string)
    requires NoBreak(s)
    ensures NoBreak(YamlScalar(s))
  {
    EscapeKeepsLine(s);
  }

  lemma PrefixesKeepLine(scalar: string, name: string)
    requires NoBreak(scalar) && NoBreak(name)
    ensures NoBreak("- description: " + scalar) && NoBreak("  name: " + name)
  {}

  lemma {:induction false} EntriesKeepLine(tags: seq<Tag>)
    requires OneLine(tags)
    ensures NoBreaks(Entries(tags))
    decreases |tags|
  {
    hide YamlScalar, NoBreak;
    if tags != [] {
      var t := tags[|tags| - 1];
      assert t in tags;
      EntriesKeepLine(tags[..|tags| - 1]);
      ScalarKeepsLine(t.description);
      PrefixesKeepLine(YamlScalar(t.description), t.name);
    }
  }

  lemma PatchKeepsLines(lines: seq<string>, tags: seq<Tag>)
    requires NoBreaks(lines) && OneLine(tags)
    ensures NoBreaks(Patch(lines, tags)) && Patch(lines, tags) != []
  {
    var c := Cleaned(lines);
    StripSelects(GRAMMAR, lines, false);
    assert forall i | 0 <= i < |c| :: c[i] in lines;
    EntriesKeepLine(tags);
    assert NoBreak("tags:");
  }

  lemma LastRunWinsOnText(text: string, earlier: seq<Tag>, tags: seq<Tag>)
    requires OneLine(earlier)
    ensures PatchText(PatchText(text, earlier), tags) == PatchText(text, tags)
  {
    hide SplitLines, Patch;
    var r := Patch(SplitLines(text), earlier);
    PatchKeepsLines(SplitLines(text), earlier);
    SplitOne([]);
    SplitAfter(r, []);
    assert Join(r) + "\n" + [] == Join(r) + "\n" && r + [] == r;
    LastRunWins(SplitLines(text), earlier, tags);
  }
}

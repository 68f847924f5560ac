/** patch_docs_go of scripts/patch-swagger-extensions.py: strip the tags blocks of
    the JSON template embedded in docs.go, then insert one after the version line. */
module SwaggerDocs {
  import opened Blocks
  import opened Lines
  import opened SwaggerTags
  import opened Wrappers
  import PyText

  const ANCHOR := "\"swagger\": \"2.0\","
  const VERSION_LINE := "    " + ANCHOR
  const OPENER := "    \"tags\":"
  const EIGHT := "        "

  // The block ends with its closing bracket, or before the first line that is
  // neither blank nor indented by eight.
  const GRAMMAR := Grammar(
    line => OPENER <= line,
    line => PyText.Strip(line) == "],",
    line => PyText.Strip(line) == "" || EIGHT <= line)

  // ── json.dumps(TAGS, indent=4, ensure_ascii=False) ──

  function Hex(n: nat): string
    requires n < 16
  {
    ["0123456789abcdef"[n]]
  }

  function EscapeChar(c: char): string {
    if c == '"' then "\\\""
    else if c == '\\' then "\\\\"
    else if c == '\n' then "\\n"
    else if c == '\r' then "\\r"
    else if c == '\t' then "\\t"
    else if c == '\U{8}' then "\\b"
    else if c == '\U{C}' then "\\f"
    else if c < ' ' then "\\u00" + Hex(c as int / 16) + Hex(c as int % 16)
    else [c]
  }

  function Escape(s: string): string {
    if s == [] then [] else EscapeChar(s[0]) + Escape(s[1..])
  }

  function Quote(s: string): string { "\"" + Escape(s) + "\"" }

  function Object(tag: Tag, last: bool): seq<string> {
    [
      "    {",
      EIGHT + "\"name\": " + Quote(tag.name) + ",",
      EIGHT + "\"description\": " + Quote(tag.description),
      if last then "    }" else "    },"
    ]
  }

  function Objects(tags: seq<Tag>): seq<string> {
    if tags == [] then [] else Object(tags[0], |tags| == 1) + Objects(tags[1..])
  }

  function Json(tags: seq<Tag>): string {
    if tags == [] then "[]" else Join(["["] + Objects(tags) + ["]"])
  }

  function Indent(lines: seq<string>): seq<string> {
    seq(|lines|, i requires 0 <= i < |lines| => "    " + lines[i])
  }

  function Fragment(tags: seq<Tag>): string {
    OPENER + " " + PyText.LStrip(Join(Indent(SplitLines(Json(tags))))) + ","
  }

  // ── the patch ──

  function CleanedLines(text: string): seq<string> { Strip(GRAMMAR, SplitLines(text), false) }

  function Cleaned(text: string): string { Join(CleanedLines(text)) }

  function Insert(cleaned: string, tags: seq<Tag>): string {
    Final(ReplaceOnce(cleaned, VERSION_LINE, VERSION_LINE + "\n" + Fragment(tags)))
  }

  function Patch(text: string, tags: seq<Tag>): string {
    if Contains(text, ANCHOR) then Insert(Cleaned(text), tags) else text
  }

  // ── the code ──

  // A line that starts with a key at depth one ends the block without closing it.
  lemma KeyEndsBlock(line: string)
    requires "    \"" <= line
    ensures !GRAMMAR.closes(line) && !GRAMMAR.inner(line)
  {
    hide PyText.Strip;
    assert line[4] == "    \""[4] && forall i | 0 <= i < 4 :: line[i] == "    \""[i];
    PyText.StripFirst(line, 4);
    assert EIGHT[4] == ' ';
  }

  method Clean(lines: seq<string>) returns (cleaned: seq<string>)
    ensures cleaned == Strip(GRAMMAR, lines, false)
  {
    hide PyText.Strip, PyText.LStrip;
    cleaned := [];
    var inTags := false;
    for n := 0 to |lines|
      invariant cleaned == Strip(GRAMMAR, lines[..n], false)
      invariant inTags == After(GRAMMAR, lines[..n], false)
    {
      var line := lines[n];
      assert lines[..n + 1][..n] == lines[..n];
      if "    \"tags\":" <= line {
        inTags := true;
        continue;
      }
      if inTags {
        var stripped := PyText.LStrip(line);
        if "\"" <= stripped && "    \"" <= line && !("\"name\":" <= stripped || "\"description\":" <= stripped) {
          KeyEndsBlock(line);
          inTags := false;
        } else if PyText.Strip(line) == "" || PyText.Strip(line) == "]," || "        " <= line {
          if PyText.Strip(line) == "]," {
            inTags := false;
            continue;
          }
          continue;
        } else {
          inTags := false;
        }
      }
      if !inTags {
        cleaned := cleaned + [line];
      }
    }
    assert lines[..|lines|] == lines;
  }

  method PatchDocs(text: string, tags: seq<Tag>) returns (patched: string)
    ensures patched == Patch(text, tags)
  {
    hide PyText.LStrip, SplitLines, Join, Json, Find, Indent;
    var anchor := "\"swagger\": \"2.0\",";
    if !Contains(text, anchor) {
      return text;
    }
    var cleanedLines := Clean(SplitLines(text));
    var cleaned := Join(cleanedLines);

    var indented := Join(Indent(SplitLines(Json(tags))));
    var fragment := "    \"tags\": " + PyText.LStrip(indented) + ",";
    assert OPENER + " " == "    \"tags\": ";
    assert VERSION_LINE == "    " + anchor;

    patched := ReplaceOnce(cleaned, "    " + anchor, "    " + anchor + "\n" + fragment);
    if !EndsLine(patched) {
      patched := patched + "\n";
    }
  }

  // ── the inserted lines ──

  function FragmentLines(tags: seq<Tag>): seq<string> {
    [OPENER + " ["] + Indent(Objects(tags)) + ["    ],"]
  }

  lemma EscapeCharKeepsLine(c: char)
    requires !IsBreak(c)
    ensures NoBreak(EscapeChar(c))
  {
    assert forall n: nat | n < 16 :: NoBreak(Hex(n));
  }

  lemma {:induction false} EscapeKeepsLine(s: string)
    requires NoBreak(s)
    ensures NoBreak(Escape(s))
    decreases |s|
  {
    hide EscapeChar;
    if s != [] {
      EscapeCharKeepsLine(s[0]);
      EscapeKeepsLine(s[1..]);
    }
  }

  lemma ObjectKeepsLine(tag: Tag, last: bool)
    requires NoBreak(tag.name) && NoBreak(tag.description)
    ensures NoBreaks(Object(tag, last))
  {
    hide Escape;
    EscapeKeepsLine(tag.name);
    EscapeKeepsLine(tag.description);
  }

  lemma {:induction false} ObjectsKeepLine(tags: seq<Tag>)
    requires OneLine(tags)
    ensures NoBreaks(Objects(tags))
    decreases |tags|
  {
    hide Object, NoBreak;
    if tags != [] {
      assert tags[0] in tags;
      ObjectKeepsLine(tags[0], |tags| == 1);
      ObjectsKeepLine(tags[1..]);
    }
  }

  lemma IndentKeepsLine(lines: seq<string>)
    requires NoBreaks(lines)
    ensures NoBreaks(Indent(lines))
  {
    hide NoBreak;
    NoBreakIndent();
    forall i | 0 <= i < |lines| ensures NoBreak(Indent(lines)[i]) {
      NoBreakConcat("    ", lines[i]);
    }
  }

  lemma NoBreakIndent()
    ensures NoBreak("    ")
  {}

  lemma {:induction false} JoinAppend(h: seq<string>, x: string, y: string)
    ensures Join(h + [x]) + y == Join(h + [x + y])
    decreases |h|
  {
    if h == [] {
      assert h + [x] == [x] && h + [x + y] == [x + y];
    } else {
      JoinAppend(h[1..], x, y);
      assert (h + [x])[1..] == h[1..] + [x] && (h + [x + y])[1..] == h[1..] + [x + y];
    }
  }

  lemma FragmentKeepsLines(tags: seq<Tag>)
    requires OneLine(tags)
    ensures NoBreaks(FragmentLines(tags)) && NoBreaks(["["] + Objects(tags) + ["]"])
  {
    hide Objects, Indent;
    assert NoBreak("[") && NoBreak("]") && NoBreak(OPENER + " [") && NoBreak("    ],");
    hide NoBreak;
    ObjectsKeepLine(tags);
    IndentKeepsLine(Objects(tags));
  }

  // The block's text behind its opening bracket.
  function Body(tags: seq<Tag>): string { Join(Indent(Objects(tags)) + ["    ]"]) }

  lemma FragmentText(tags: seq<Tag>)
    requires tags != [] && OneLine(tags)
    ensures Fragment(tags) == OPENER + " " + ("[" + ("\n" + Body(tags))) + ","
  {
    hide Objects, Indent, SplitLines, Join, PyText.LStrip, NoBreaks, OneLine, FragmentLines;
    var o := Objects(tags);
    FragmentKeepsLines(tags);
    SplitJoin(["["] + o + ["]"]);
    IndentBrackets(o);
    IndentedText(Indent(o));
  }

  lemma FragmentLinesText(tags: seq<Tag>)
    ensures Join(FragmentLines(tags)) == OPENER + " [" + "\n" + (Body(tags) + ",")
  {
    hide Objects, Indent, Join;
    var m := Indent(Objects(tags));
    JoinAppend(m, "    ]", ",");
    assert "    ]" + "," == "    ],";
    JoinCons(OPENER + " [", m + ["    ],"]);
    assert FragmentLines(tags) == [OPENER + " ["] + (m + ["    ],"]);
  }

  lemma FragmentIs(tags: seq<Tag>)
    requires tags != [] && OneLine(tags)
    ensures NoBreaks(FragmentLines(tags))
    ensures Fragment(tags) == Join(FragmentLines(tags))
  {
    hide Fragment, FragmentLines, Body, Join, NoBreaks, OneLine;
    FragmentKeepsLines(tags);
    FragmentText(tags);
    FragmentLinesText(tags);
    Reassociate(OPENER, Body(tags));
  }

  lemma Reassociate(a: string, b: string)
    ensures a + " " + ("[" + ("\n" + b)) + "," == a + " [" + "\n" + (b + ",")
  {}

  lemma IndentedText(m: seq<string>)
    ensures PyText.LStrip(Join(["    ["] + m + ["    ]"])) == "[" + ("\n" + Join(m + ["    ]"]))
  {
    hide Join;
    JoinCons("    [", m + ["    ]"]);
    assert ["    ["] + m + ["    ]"] == ["    ["] + (m + ["    ]"]);
    var rest := "\n" + Join(m + ["    ]"]);
    assert "    [" + "\n" + Join(m + ["    ]"]) == "    [" + rest;
    PyText.LStripTo("    [" + rest, 4);
    assert ("    [" + rest)[4..] == "[" + rest;
  }

  lemma IndentBrackets(o: seq<string>)
    ensures Indent(["["] + o + ["]"]) == ["    ["] + Indent(o) + ["    ]"]
  {
    assert "    " + "[" == "    [" && "    " + "]" == "    ]";
  }

  // An empty table is written on one line.
  lemma EmptyFragment()
    ensures Fragment([]) == "    \"tags\": [],"
  {
    hide PyText.LStrip, SplitLines;
    assert NoBreak("[]");
    SplitOne("[]");
    var lines := Indent(["[]"]);
    assert "    " + "[]" == "    []" && lines == ["    []"];
    PyText.LStripTo("    []", 4);
    assert "    []"[4..] == "[]";
    assert OPENER + " " + "[]" + "," == "    \"tags\": [],";
  }

  // ── they are one block ──

  lemma BodyLine(line: string, n: nat)
    requires EIGHT <= line && n < |line| && line[n] in "{}\"" && forall i | 0 <= i < n :: line[i] == ' '
    ensures Continues(GRAMMAR, line)
  {
    hide PyText.Strip;
    PyText.StripFirst(line, n);
    assert OPENER[4] == '"' && EIGHT[4] == ' ';
  }

  lemma BodyOfObject(tag: Tag, last: bool)
    ensures forall line | line in Indent(Object(tag, last)) :: Continues(GRAMMAR, line)
  {
    hide Quote, Continues;
    var o := Object(tag, last);
    var r := Indent(o);
    assert r == ["    " + o[0], "    " + o[1], "    " + o[2], "    " + o[3]];
    BodyLine(r[0], 8);
    BodyLine(r[1], 12);
    BodyLine(r[2], 12);
    BodyLine(r[3], 8);
  }

  lemma {:induction false} BodyOfObjects(tags: seq<Tag>)
    ensures forall line | line in Indent(Objects(tags)) :: Continues(GRAMMAR, line)
    decreases |tags|
  {
    hide Object, Continues, Indent;
    if tags != [] {
      BodyOfObject(tags[0], |tags| == 1);
      BodyOfObjects(tags[1..]);
      IndentConcat(Object(tags[0], |tags| == 1), Objects(tags[1..]));
    } else {
      NothingToIndent();
    }
  }

  lemma NothingToIndent()
    ensures Indent([]) == []
  {}

  lemma IndentConcat(a: seq<string>, b: seq<string>)
    ensures Indent(a + b) == Indent(a) + Indent(b)
  {}

  // Stripping removes exactly the inserted lines.
  lemma FragmentIsStripped(tags: seq<Tag>)
    ensures Strip(GRAMMAR, FragmentLines(tags), false) == []
    ensures !After(GRAMMAR, FragmentLines(tags), false)
    ensures OneOpenerAt(FragmentLines(tags), 0)
  {
    hide Indent, Objects, PyText.Strip, PyText.LStrip;
    var b := [OPENER + " ["] + Indent(Objects(tags));
    BodyOfObjects(tags);
    assert forall i | 0 < i < |b| :: b[i] in Indent(Objects(tags)) && Continues(GRAMMAR, b[i]);
    StripBlock(GRAMMAR, b, false);
    CloserIsStripped();
    StripConcat(GRAMMAR, b, ["    ],"], false);
  }

  lemma CloserIsStripped()
    ensures Strip(GRAMMAR, ["    ],"], true) == [] && !After(GRAMMAR, ["    ],"], true)
    ensures !(OPENER <= "    ],")
  {
    PyText.LStripTo("    ],", 4);
    assert "    ],"[4..] == "],";
    assert OPENER[4] == '"';
    assert ["    ],"][..0] == [];
  }

  ghost predicate OneOpenerAt(lines: seq<string>, k: nat) {
    forall i | 0 <= i < |lines| :: OPENER <= lines[i] <==> i == k
  }

  // ── reading a JSON string back ──

  function HexValue(c: char): (v: Option<nat>)
    ensures v.Some? ==> v.value < 16
  {
    if '0' <= c <= '9' then Some(c as int - '0' as int)
    else if 'a' <= c <= 'f' then Some(c as int - 'a' as int + 10)
    else None
  }

  function EscapeValue(c: char): Option<char> {
    if c == 'n' then Some('\n')
    else if c == 'r' then Some('\r')
    else if c == 't' then Some('\t')
    else if c == 'b' then Some('\U{8}')
    else if c == 'f' then Some('\U{C}')
    else if c in "\"\\/" then Some(c)
    else None
  }

  function Prepend(c: char, rest: Option<string>): Option<string> {
    match rest
    case Some(s) => Some([c] + s)
    case None => None
  }

  // Section 7 of RFC 8259, with \u for the first 256 code points: a bare quote or
  // control character, a lone backslash or an unknown escape is no string.
  function Unescape(s: string): Option<string> {
    if s == [] then Some([])
    else if s[0] == '"' || s[0] < ' ' then None
    else if s[0] != '\\' then Prepend(s[0], Unescape(s[1..]))
    else if |s| >= 6 && "\\u00" <= s && HexValue(s[4]).Some? && HexValue(s[5]).Some? then
      Prepend((HexValue(s[4]).value * 16 + HexValue(s[5]).value) as char, Unescape(s[6..]))
    else if |s| >= 2 && EscapeValue(s[1]).Some? then Prepend(EscapeValue(s[1]).value, Unescape(s[2..]))
    else None
  }

  lemma HexReadsBack(n: nat)
    requires n < 16
    ensures HexValue(Hex(n)[0]) == Some(n)
  {
    var d := "0123456789abcdef";
    assert d[0] == '0' && d[1] == '1' && d[2] == '2' && d[3] == '3' && d[4] == '4' && d[5] == '5' && d[6] == '6'
      && d[7] == '7';
    assert d[8] == '8' && d[9] == '9' && d[10] == 'a' && d[11] == 'b' && d[12] == 'c' && d[13] == 'd' && d[14] == 'e'
      && d[15] == 'f';
  }

  lemma ControlReadsBack(c: char, rest: string)
    requires c < ' '
    ensures Unescape("\\u00" + Hex(c as int / 16) + Hex(c as int % 16) + rest) == Prepend(c, Unescape(rest))
  {
    hide HexValue, Prepend, EscapeValue;
    HexReadsBack(c as int / 16);
    HexReadsBack(c as int % 16);
    var s := "\\u00" + Hex(c as int / 16) + Hex(c as int % 16) + rest;
    assert s[6..] == rest && s[4] == Hex(c as int / 16)[0] && s[5] == Hex(c as int % 16)[0];
    assert s[..4] == "\\u00";
  }

  lemma PairReadsBack(x: char, rest: string)
    requires EscapeValue(x).Some?
    ensures Unescape(['\\', x] + rest) == Prepend(EscapeValue(x).value, Unescape(rest))
  {
    hide HexValue, Prepend;
    var s := ['\\', x] + rest;
    assert s[2..] == rest && s[1] == x != 'u' && "\\u00"[1] == 'u';
  }

  lemma PlainReadsBack(c: char, rest: string)
    requires c != '\\' && c != '"' && c >= ' '
    ensures Unescape([c] + rest) == Prepend(c, Unescape(rest))
  {
    assert ([c] + rest)[1..] == rest;
  }

  lemma CharReadsBack(c: char, rest: string)
    ensures Unescape(EscapeChar(c) + rest) == Prepend(c, Unescape(rest))
  {
    hide Unescape, Prepend;
    var e := EscapeChar(c);
    if |e| == 1 {
      PlainReadsBack(c, rest);
    } else if |e| == 2 {
      assert e == ['\\', e[1]];
      PairReadsBack(e[1], rest);
    } else {
      ControlReadsBack(c, rest);
    }
  }

  // Whatever a name or description holds, its escaped form is one JSON string and
  // that string is the name or description.
  lemma {:induction false} EscapeReadsBack(s: string)
    ensures Unescape(Escape(s)) == Some(s)
    decreases |s|
  {
    hide EscapeChar, Unescape;
    if s == [] {
      NothingReadsBack();
    } else {
      EscapeReadsBack(s[1..]);
      CharReadsBack(s[0], Escape(s[1..]));
      assert [s[0]] + s[1..] == s;
    }
  }

  lemma NothingReadsBack()
    ensures Unescape([]) == Some([])
  {}

  // ensure_ascii=False: only quotes, backslashes and control characters are escaped.
  lemma {:induction false} EscapeIsPlainIff(s: string)
    ensures |Escape(s)| >= |s|
    ensures Escape(s) == s <==> forall i | 0 <= i < |s| :: s[i] >= ' ' && s[i] != '"' && s[i] != '\\'
    decreases |s|
  {
    if s != [] {
      EscapeIsPlainIff(s[1..]);
      var e := EscapeChar(s[0]);
      assert |e| > 1 ==> |Escape(s)| > |s|;
      assert |e| == 1 ==> Escape(s)[1..] == Escape(s[1..]) && Escape(s)[0] == s[0];
      assert forall i | 0 < i < |s| :: s[i] == s[1..][i - 1];
    }
  }

  // ── reading the block back ──

  // What a line holds between the text it must start with and the text it must end with.
  function Between(line: string, start: string, end: string): Option<string> {
    if |start| + |end| <= |line| && start <= line && line[|line| - |end|..] == end then
      Some(line[|start|..|line| - |end|])
    else
      None
  }

  function ReadString(line: string, start: string, end: string): Option<string> {
    match Between(line, start, end)
    case Some(s) => Unescape(s)
    case None => None
  }

  // One object: its braces, its two members in order, and a comma unless it is the last.
  function ReadObject(lines: seq<string>, last: bool): Option<Tag>
    requires |lines| == 4
  {
    var name := ReadString(lines[1], "            \"name\": \"", "\",");
    var description := ReadString(lines[2], "            \"description\": \"", "\"");
    if lines[0] == "        {" && lines[3] == (if last then "        }" else "        },")
      && name.Some? && description.Some? then
      Some(Tag(name.value, description.value))
    else
      None
  }

  function ReadObjects(lines: seq<string>): Option<seq<Tag>> {
    if lines == [] then Some([])
    else if |lines| < 4 then None
    else
      var tag, rest := ReadObject(lines[..4], |lines| == 4), ReadObjects(lines[4..]);
      if tag.Some? && rest.Some? then Some([tag.value] + rest.value) else None
  }

  function ReadBlock(lines: seq<string>): Option<seq<Tag>> {
    if |lines| < 2 || lines[0] != "    \"tags\": [" || lines[|lines| - 1] != "    ]," then None
    else ReadObjects(lines[1..|lines| - 1])
  }

  lemma BetweenIs(start: string, s: string, end: string)
    ensures Between(start + s + end, start, end) == Some(s)
  {
    var line := start + s + end;
    assert line[..|start|] == start && line[|line| - |end|..] == end;
    assert line[|start|..|line| - |end|] == s;
  }

  lemma NameReadsBack(s: string)
    ensures ReadString("    " + (EIGHT + "\"name\": " + Quote(s) + ","), "            \"name\": \"", "\",") == Some(s)
  {
    hide Escape, Unescape, Between;
    var start := "            \"name\": \"";
    BetweenIs(start, Escape(s), "\",");
    EscapeReadsBack(s);
    assert "    " + (EIGHT + "\"name\": " + Quote(s) + ",") == start + Escape(s) + "\",";
  }

  lemma DescriptionReadsBack(s: string)
    ensures
      ReadString("    " + (EIGHT + "\"description\": " + Quote(s)), "            \"description\": \"", "\"") == Some(s)
  {
    hide Escape, Unescape, Between;
    var start := "            \"description\": \"";
    BetweenIs(start, Escape(s), "\"");
    EscapeReadsBack(s);
    assert "    " + (EIGHT + "\"description\": " + Quote(s)) == start + Escape(s) + "\"";
  }

  lemma ObjectReadsBack(tag: Tag, last: bool)
    ensures ReadObject(Indent(Object(tag, last)), last) == Some(tag)
  {
    hide ReadString, Quote;
    NameReadsBack(tag.name);
    DescriptionReadsBack(tag.description);
  }

  lemma {:induction false} ObjectsReadBack(tags: seq<Tag>)
    ensures ReadObjects(Indent(Objects(tags))) == Some(tags)
    ensures |Indent(Objects(tags))| == 4 * |tags|
    decreases |tags|
  {
    hide Object, Indent, ReadObject;
    if tags == [] {
      NothingToIndent();
    } else {
      var o, rest := Indent(Object(tags[0], |tags| == 1)), Indent(Objects(tags[1..]));
      ObjectsReadBack(tags[1..]);
      IndentConcat(Object(tags[0], |tags| == 1), Objects(tags[1..]));
      ObjectReadsBack(tags[0], |tags| == 1);
      ObjectIsFour(tags[0], |tags| == 1);
      assert (o + rest)[..4] == o && (o + rest)[4..] == rest;
      assert [tags[0]] + tags[1..] == tags;
    }
  }

  lemma ObjectIsFour(tag: Tag, last: bool)
    ensures |Indent(Object(tag, last))| == 4
  {}

  // The inserted block determines the table it was written from.
  lemma FragmentReadsBack(tags: seq<Tag>)
    ensures ReadBlock(FragmentLines(tags)) == Some(tags)
  {
    hide Indent, Objects, ReadObjects;
    var f := FragmentLines(tags);
    ObjectsReadBack(tags);
    assert f[1..|f| - 1] == Indent(Objects(tags));
  }

  // So does the inserted text.
  lemma TextReadsBack(tags: seq<Tag>)
    requires tags != [] && OneLine(tags)
    ensures ReadBlock(SplitLines(Fragment(tags))) == Some(tags)
  {
    hide Fragment, SplitLines, Join, NoBreaks, OneLine, ReadBlock, Indent, Objects;
    FragmentIs(tags);
    SplitJoin(FragmentLines(tags));
    FragmentReadsBack(tags);
  }
}

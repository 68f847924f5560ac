/** scripts/merge_coverage.py: parse coverage profiles, keep the largest count per
    block, print them in order. */
module Coverage {
  import opened Wrappers
  import opened PyText
  import opened Strings

  // One block and a count for it.
  datatype Record = Record(key: string, n: int)

  // A profile that cannot be opened is skipped.
  type Profile = Option<seq<string>>

  type Counts = map<string, int>

  // One line of a profile; None for the lines the loop skips.
  function Parse(raw: string): Option<Record> {
    var line := Strip(raw);
    if "mode:" <= line || line == [] then None
    else
      match RSplit(line)
      case None => None
      case Some((a, b, c)) =>
        match ParseInt(c)
        case None => None
        case Some(n) => Some(Record(a + " " + b, n))
  }

  function Max(a: int, b: int): int { if a >= b then a else b }

  function Get(m: Counts, k: string): int { if k in m then m[k] else 0 }

  function Add(m: Counts, r: Option<Record>): Counts {
    if r.Some? then m[r.value.key := Max(Get(m, r.value.key), r.value.n)] else m
  }

  function AddLines(m: Counts, lines: seq<string>): Counts {
    if lines == [] then m else Add(AddLines(m, lines[..|lines| - 1]), Parse(lines[|lines| - 1]))
  }

  function Lines(p: Profile): seq<string> { p.GetOr([]) }

  function AddProfiles(m: Counts, ps: seq<Profile>): Counts {
    if ps == [] then m else AddLines(AddProfiles(m, ps[..|ps| - 1]), Lines(ps[|ps| - 1]))
  }

  // ── printing ──

  predicate IsLeast(keys: set<string>, k: string) {
    k in keys && forall x | x in keys :: Leq(k, x)
  }

  lemma {:induction false} LeastExists(keys: set<string>)
    requires keys != {}
    ensures exists k :: IsLeast(keys, k)
  {
    var x :| x in keys;
    LeqTotal(x, x);
    if keys == {x} {
      assert IsLeast(keys, x);
    } else {
      LeastExists(keys - {x});
      var k :| IsLeast(keys - {x}, k);
      LeqTotal(x, k);
      if Leq(x, k) {
        forall y | y in keys ensures Leq(x, y) {
          if y != x { LeqTransitive(x, k, y); }
        }
        assert IsLeast(keys, x);
      } else {
        assert IsLeast(keys, k);
      }
    }
  }

  lemma LeastIsUnique(keys: set<string>)
    ensures forall a, b | IsLeast(keys, a) && IsLeast(keys, b) :: a == b
  {
    forall a, b | IsLeast(keys, a) && IsLeast(keys, b) ensures a == b { LeqAntisymmetric(a, b); }
  }

  function SortedKeys(keys: set<string>): (s: seq<string>)
    ensures forall k :: k in s <==> k in keys
    ensures forall i, j | 0 <= i < j < |s| :: Leq(s[i], s[j]) && s[i] != s[j]
  {
    if keys == {} then []
    else
      LeastExists(keys);
      LeastIsUnique(keys);
      var k :| k in keys && IsLeast(keys, k);
      var rest := SortedKeys(keys - {k});
      assert forall i | 0 <= i < |rest| :: rest[i] in rest && rest[i] in keys - {k};
      [k] + rest
  }

  function Line(k: string, n: int): string
    requires n >= 0
  {
    k + " " + Show(n)
  }

  predicate NonNegative(m: Counts) { forall k | k in m :: m[k] >= 0 }

  function PrintLines(m: Counts, keys: seq<string>): seq<string>
    requires NonNegative(m) && forall k | k in keys :: k in m
  {
    if keys == [] then []
    else PrintLines(m, keys[..|keys| - 1]) + [Line(keys[|keys| - 1], m[keys[|keys| - 1]])]
  }

  function Print(m: Counts): seq<string>
    requires NonNegative(m)
  {
    ["mode: atomic"] + PrintLines(m, SortedKeys(m.Keys))
  }

  // ── what the counts are, without any order ──

  // Some line of some profile is this record.
  ghost predicate Recorded(ps: seq<Profile>, r: Record) {
    exists i | 0 <= i < |ps| :: HasRecord(Lines(ps[i]), r)
  }

  ghost predicate HasRecord(lines: seq<string>, r: Record) {
    exists j | 0 <= j < |lines| :: Parse(lines[j]) == Some(r)
  }

  // m holds, for exactly the recorded blocks, the largest count (at least 0).
  ghost predicate IsMax(m: Counts, recorded: Record -> bool) {
    && (forall r | recorded(r) :: r.key in m && r.n <= m[r.key])
    && (forall k | k in m ::
      m[k] >= 0 && (m[k] == 0 || recorded(Record(k, m[k]))) && exists n :: recorded(Record(k, n)))
  }

  // That determines m.
  lemma MaxIsUnique(m: Counts, m': Counts, recorded: Record -> bool)
    requires IsMax(m, recorded) && IsMax(m', recorded)
    ensures m == m'
  {
    forall k ensures k in m <==> k in m' {
      if k in m {
        var n :| recorded(Record(k, n));
        assert Record(k, n).key in m';
      }
      if k in m' {
        var n :| recorded(Record(k, n));
        assert Record(k, n).key in m;
      }
    }
    forall k | k in m ensures m[k] == m'[k] {
      assert recorded(Record(k, m[k])) ==> m[k] <= m'[k];
      assert recorded(Record(k, m'[k])) ==> m'[k] <= m[k];
    }
  }

  // One more record keeps the maximum a maximum.
  lemma AddKeepsMax(m: Counts, r: Option<Record>, before: Record -> bool, after: Record -> bool)
    requires IsMax(m, before)
    requires forall x :: after(x) <==> before(x) || Some(x) == r
    ensures IsMax(Add(m, r), after)
  {
    var m' := Add(m, r);
    forall k | k in m'
      ensures m'[k] >= 0 && (m'[k] == 0 || after(Record(k, m'[k]))) && exists n :: after(Record(k, n))
    {
      if r.Some? && k == r.value.key {
        assert after(r.value) && r.value == Record(k, r.value.n);
        if k in m {
          assert m'[k] == m[k] || m'[k] == r.value.n;
        }
      } else {
        var n :| before(Record(k, n));
        assert after(Record(k, n));
      }
    }
  }

  lemma {:induction false} AddLinesIsMax(m: Counts, lines: seq<string>, before: Record -> bool, after: Record -> bool)
    requires IsMax(m, before)
    requires forall x :: after(x) <==> before(x) || HasRecord(lines, x)
    ensures IsMax(AddLines(m, lines), after)
    decreases |lines|
  {
    if lines == [] {
      forall x ensures after(x) <==> before(x) { assert !HasRecord(lines, x); }
      SameMax(m, before, after);
    } else {
      var front, last := lines[..|lines| - 1], Parse(lines[|lines| - 1]);
      var middle := (x: Record) => before(x) || HasRecord(front, x);
      AddLinesIsMax(m, front, before, middle);
      forall x ensures after(x) <==> middle(x) || Some(x) == last { HasRecordLast(lines, x); }
      AddKeepsMax(AddLines(m, front), last, middle, after);
    }
  }

  lemma HasRecordLast(lines: seq<string>, x: Record)
    requires lines != []
    ensures HasRecord(lines, x) <==> HasRecord(lines[..|lines| - 1], x) || Parse(lines[|lines| - 1]) == Some(x)
  {
    hide Parse;
    var front := lines[..|lines| - 1];
    if HasRecord(front, x) {
      var j :| 0 <= j < |front| && Parse(front[j]) == Some(x);
      assert lines[j] == front[j];
    }
    if HasRecord(lines, x) && Parse(lines[|lines| - 1]) != Some(x) {
      var j :| 0 <= j < |lines| && Parse(lines[j]) == Some(x);
      assert front[j] == lines[j];
    }
  }

  lemma SameMax(m: Counts, a: Record -> bool, b: Record -> bool)
    requires IsMax(m, a) && forall x :: a(x) <==> b(x)
    ensures IsMax(m, b)
  {
    forall k | k in m ensures exists n :: b(Record(k, n)) {
      var n :| a(Record(k, n));
      assert b(Record(k, n));
    }
  }

  lemma RecordedLast(ps: seq<Profile>, x: Record)
    requires ps != []
    ensures Recorded(ps, x) <==> Recorded(ps[..|ps| - 1], x) || HasRecord(Lines(ps[|ps| - 1]), x)
  {
    hide HasRecord, Lines;
    var front := ps[..|ps| - 1];
    if Recorded(front, x) {
      var j :| 0 <= j < |front| && HasRecord(Lines(front[j]), x);
      assert ps[j] == front[j];
    }
    if Recorded(ps, x) && !HasRecord(Lines(ps[|ps| - 1]), x) {
      var j :| 0 <= j < |ps| && HasRecord(Lines(ps[j]), x);
      assert front[j] == ps[j];
    }
  }

  // The counts of any list of profiles are the maxima of what they record.
  lemma {:induction false} CountsAreMax(ps: seq<Profile>)
    ensures IsMax(AddProfiles(map[], ps), x => Recorded(ps, x))
    decreases |ps|
  {
    var after := (x: Record) => Recorded(ps, x);
    if ps != [] {
      var front := ps[..|ps| - 1];
      var before := (x: Record) => Recorded(front, x);
      CountsAreMax(front);
      SameMax(AddProfiles(map[], front), x => Recorded(front, x), before);
      forall x ensures after(x) <==> before(x) || HasRecord(Lines(ps[|ps| - 1]), x) { RecordedLast(ps, x); }
      AddLinesIsMax(AddProfiles(map[], front), Lines(ps[|ps| - 1]), before, after);
      SameMax(AddProfiles(map[], ps), after, x => Recorded(ps, x));
    }
  }

  // The output depends on nothing but which records occur: not on the order or
  // number of the profiles that hold them, nor on the order of their lines.
  lemma OrderIrrelevant(ps: seq<Profile>, qs: seq<Profile>)
    requires forall x :: Recorded(ps, x) <==> Recorded(qs, x)
    ensures AddProfiles(map[], ps) == AddProfiles(map[], qs)
  {
    CountsAreMax(ps);
    CountsAreMax(qs);
    SameMax(AddProfiles(map[], ps), x => Recorded(ps, x), x => Recorded(qs, x));
    MaxIsUnique(AddProfiles(map[], ps), AddProfiles(map[], qs), x => Recorded(qs, x));
  }

  // ── parse undoes print ──

  // The keys parsing can produce: they start a stripped line that is no mode
  // line, and hold a space.
  ghost predicate WellFormedKey(k: string) {
    k != [] && !IsSpace(k[0]) && !("mode:" <= k) && LastSpace(k) >= 0
  }

  lemma SpaceIsSpace()
    ensures IsSpace(' ')
  {
  }

  lemma ParsedKeyIsWellFormed(raw: string)
    requires Parse(raw).Some?
    ensures WellFormedKey(Parse(raw).value.key)
  {
    var line := Strip(raw);
    StripShape(raw);
    SpaceIsSpace();
    var j := LastSpace(line);
    var i := LastSpace(line[..j]);
    var k := Parse(raw).value.key;
    hide Strip, ParseInt, IsSpace;
    assert k == line[..j];
  }

  // The last space of `a + " " + b` when b has none.
  lemma {:induction false} LastSpaceOfJoin(a: string, b: string)
    requires ' ' !in b
    ensures LastSpace(a + " " + b) == |a|
    decreases |b|
  {
    var s := a + " " + b;
    if b != [] {
      var n := |b| - 1;
      assert b[n] in b && s[|s| - 1] == b[n];
      assert s[..|s| - 1] == a + " " + b[..n];
      LastSpaceOfJoin(a, b[..n]);
    }
  }

  lemma PrintedLineIsNoModeLine(k: string, n: nat)
    requires WellFormedKey(k)
    ensures Strip(Line(k, n)) == Line(k, n) && !("mode:" <= Line(k, n))
  {
    hide LastSpace;
    var line := Line(k, n);
    var digits := Show(n);
    assert line[0] == k[0] && line[|line| - 1] == digits[|digits| - 1];
    StripNothing(line);
    assert line[|k|] == ' ';
    if |k| >= 5 {
      assert line[..5] == k[..5];
    }
  }

  lemma PrintedLineParses(k: string, n: nat)
    requires WellFormedKey(k)
    ensures Parse(Line(k, n)) == Some(Record(k, n))
  {
    PrintedLineIsNoModeLine(k, n);
    hide Strip, LastSpace, ParseInt, IsSpace;
    var line := Line(k, n);
    var digits := Show(n);
    LastSpaceOfJoin(k, digits);
    var i := LastSpace(k);
    assert line[..|k|] == k && line[|k| + 1..] == digits;
    assert line[..i] == k[..i] && line[i + 1..|k|] == k[i + 1..];
    assert RSplit(line) == Some((k[..i], k[i + 1..], digits));
    assert k == k[..i] + " " + k[i + 1..];
    ParseIntOfShow(n);
  }

  // White space around a printed line, such as the line feed files end lines with,
  // is no part of it.
  lemma PaddedLineParses(a: string, k: string, n: nat, b: string)
    requires WellFormedKey(k) && AllSpace(a) && AllSpace(b)
    ensures Parse(a + Line(k, n) + b) == Some(Record(k, n))
  {
    hide LastSpace, ParseInt, IsSpace, RSplit, LStrip, RStrip, Line;
    PrintedLineParses(k, n);
    PrintedLineEnds(k, n);
    StripSurrounded(a, Line(k, n), b);
    StripNothing(Line(k, n));
  }

  lemma PrintedLineEnds(k: string, n: nat)
    requires WellFormedKey(k)
    ensures var l := Line(k, n); l != [] && !IsSpace(l[0]) && !IsSpace(l[|l| - 1])
  {
    var l, d := Line(k, n), Show(n);
    assert l[0] == k[0] && l[|l| - 1] == d[|d| - 1];
  }

  lemma LineEndIgnored(k: string, n: nat)
    requires WellFormedKey(k)
    ensures Parse(Line(k, n) + "\n") == Some(Record(k, n))
  {
    hide Parse, Line, WellFormedKey;
    PaddedLineParses("", k, n, "\n");
    assert "" + Line(k, n) + "\n" == Line(k, n) + "\n";
  }

  // Every line: its text without white space at the ends counts iff it is no mode
  // line, has two spaces, and an integer behind the last of them.
  lemma ParseIff(a: string, s: string, b: string, r: Record)
    requires AllSpace(a) && AllSpace(b)
    requires s != [] ==> !IsSpace(s[0]) && !IsSpace(s[|s| - 1])
    ensures Parse(a + s + b) == Some(r) <==>
      && !("mode:" <= s)
      && exists x, y, z :: Cut(s, x, y, z) && r.key == x + " " + y && ParseInt(z) == Some(r.n)
  {
    hide LastSpace, ParseInt, IsSpace, RSplit, LStrip, RStrip;
    StripSurrounded(a, s, b);
    forall x, y, z ensures Cut(s, x, y, z) <==> RSplit(s) == Some((x, y, z)) {
      RSplitIff(s, x, y, z);
    }
    if RSplit(s).Some? {
      var (x, y, z) := RSplit(s).value;
      assert Cut(s, x, y, z);
    }
  }

  // The last two spaces of s cut it into x, y and z.
  ghost predicate Cut(s: string, x: string, y: string, z: string) {
    s == x + " " + y + " " + z && ' ' !in y && ' ' !in z
  }

  lemma {:induction false} PrintedRecords(m: Counts, keys: seq<string>, x: Record)
    requires NonNegative(m) && (forall k | k in keys :: k in m && WellFormedKey(k))
    ensures HasRecord(PrintLines(m, keys), x) <==> x.key in keys && x.n == m[x.key]
    decreases |keys|
  {
    hide Parse, Line, WellFormedKey, HasRecord;
    if keys == [] {
      NoRecords(x);
    } else {
      var n := |keys| - 1;
      var front, last := keys[..n], keys[n];
      assert keys == front + [last];
      PrintedRecords(m, front, x);
      PrintedLineParses(last, m[last]);
      var out := PrintLines(m, keys);
      assert out[..|out| - 1] == PrintLines(m, front) && out[|out| - 1] == Line(last, m[last]);
      HasRecordLast(out, x);
    }
  }

  lemma NoRecords(x: Record)
    ensures !HasRecord([], x)
  {
  }

  lemma ModeLineSkipped()
    ensures Parse("mode: atomic").None?
  {
    var s := "mode: atomic";
    assert s[0] == 'm' && s[11] == 'c';
    StripNothing(s);
    assert s[..5] == "mode:";
  }

  lemma {:induction false} PrintedAt(m: Counts, keys: seq<string>, i: nat)
    requires NonNegative(m) && i < |keys| && forall k | k in keys :: k in m
    ensures |PrintLines(m, keys)| == |keys| && PrintLines(m, keys)[i] == Line(keys[i], m[keys[i]])
    decreases |keys|
  {
    hide Line;
    var n := |keys| - 1;
    if i < n {
      PrintedAt(m, keys[..n], i);
    } else if n > 0 {
      PrintedAt(m, keys[..n], 0);
    }
  }

  // A printed profile is the mode line and one line for each block, in order.
  lemma OneLineEach(m: Counts)
    requires NonNegative(m) && forall k | k in m :: WellFormedKey(k)
    ensures var out, keys := Print(m), SortedKeys(m.Keys);
      && |out| == 1 + |keys| && Parse(out[0]).None?
      && forall i | 0 <= i < |keys| :: Parse(out[i + 1]) == Some(Record(keys[i], m[keys[i]]))
  {
    hide Parse, WellFormedKey, SortedKeys, PrintLines;
    ModeLineSkipped();
    var keys := SortedKeys(m.Keys);
    if keys == [] {
      PrintNothing(m);
    }
    forall i | 0 <= i < |keys|
      ensures |Print(m)| == 1 + |keys| && Parse(Print(m)[i + 1]) == Some(Record(keys[i], m[keys[i]]))
    {
      PrintedAt(m, keys, i);
      assert keys[i] in m;
      PrintedLineParses(keys[i], m[keys[i]]);
    }
    assert keys != [] ==> |Print(m)| == 1 + |keys| by {
      if keys != [] {
        PrintedAt(m, keys, 0);
      }
    }
  }

  // A printed profile records its counts and nothing else.
  lemma PrintRecords(m: Counts, x: Record)
    requires NonNegative(m) && forall k | k in m :: WellFormedKey(k)
    ensures HasRecord(Print(m), x) <==> x.key in m && x.n == m[x.key]
  {
    hide Parse, WellFormedKey;
    var body := PrintLines(m, SortedKeys(m.Keys));
    PrintedRecords(m, SortedKeys(m.Keys), x);
    ModeLineSkipped();
    var out := Print(m);
    if HasRecord(out, x) {
      var j :| 0 <= j < |out| && Parse(out[j]) == Some(x);
      assert out[0] == "mode: atomic" && j > 0;
      assert body[j - 1] == out[j];
    }
    if HasRecord(body, x) {
      var j :| 0 <= j < |body| && Parse(body[j]) == Some(x);
      assert out[j + 1] == body[j];
    }
  }

  lemma CountsPrintable(ps: seq<Profile>)
    ensures NonNegative(AddProfiles(map[], ps))
    ensures forall k | k in AddProfiles(map[], ps) :: WellFormedKey(k)
  {
    hide Parse, WellFormedKey;
    CountsAreMax(ps);
    var m := AddProfiles(map[], ps);
    forall k | k in m ensures WellFormedKey(k) {
      var n :| Recorded(ps, Record(k, n));
      var i :| 0 <= i < |ps| && HasRecord(Lines(ps[i]), Record(k, n));
      var j :| 0 <= j < |Lines(ps[i])| && Parse(Lines(ps[i])[j]) == Some(Record(k, n));
      ParsedKeyIsWellFormed(Lines(ps[i])[j]);
    }
  }

  // The script's output.
  function Merged(ps: seq<Profile>): seq<string> {
    CountsPrintable(ps);
    Print(AddProfiles(map[], ps))
  }

  lemma MergedRecords(ps: seq<Profile>, qs: seq<Profile>, x: Record)
    ensures var m := AddProfiles(map[], ps);
      Recorded([Some(Merged(ps))] + qs, x) <==> (x.key in m && x.n == m[x.key]) || Recorded(qs, x)
  {
    hide Parse, WellFormedKey, Print, AddProfiles, HasRecord;
    CountsPrintable(ps);
    RecordedConcat([Some(Merged(ps))], qs, x);
    RecordedSingle(Merged(ps), x);
    PrintRecords(AddProfiles(map[], ps), x);
  }

  // The maxima of P or Q are the maxima of P's maxima or Q.
  lemma MaxOfMax(m: Counts, all: Counts, p: Record -> bool, q: Record -> bool, either: Record -> bool,
      merged: Record -> bool)
    requires IsMax(m, p) && IsMax(all, either)
    requires forall x :: either(x) <==> p(x) || q(x)
    requires forall x :: merged(x) <==> (x.key in m && x.n == m[x.key]) || q(x)
    ensures IsMax(all, merged)
  {
    forall k | k in all ensures all[k] == 0 || merged(Record(k, all[k])) {
      if all[k] != 0 && p(Record(k, all[k])) && m[k] != 0 {
        assert either(Record(k, m[k]));
      }
    }
    forall k | k in all ensures exists n :: merged(Record(k, n)) {
      var n :| either(Record(k, n));
      if p(Record(k, n)) {
        assert merged(Record(k, m[k]));
      } else {
        assert merged(Record(k, n));
      }
    }
    forall r | merged(r) ensures r.key in all && r.n <= all[r.key] {
      if !q(r) {
        var n :| p(Record(r.key, n));
        assert either(Record(r.key, n));
        assert r.n == 0 || either(r);
      } else {
        assert either(r);
      }
    }
  }

  // Merging a merged profile with further ones is merging all the originals.
  lemma MergingIsAssociative(ps: seq<Profile>, qs: seq<Profile>)
    ensures Merged([Some(Merged(ps))] + qs) == Merged(ps + qs)
  {
    hide Recorded, Merged, IsMax, AddProfiles;
    var m, all := AddProfiles(map[], ps), AddProfiles(map[], ps + qs);
    var rs := [Some(Merged(ps))] + qs;
    CountsAreMax(ps);
    CountsAreMax(ps + qs);
    CountsAreMax(rs);
    forall x ensures Recorded(ps + qs, x) <==> Recorded(ps, x) || Recorded(qs, x) { RecordedConcat(ps, qs, x); }
    forall x ensures Recorded(rs, x) <==> (x.key in m && x.n == m[x.key]) || Recorded(qs, x) {
      MergedRecords(ps, qs, x);
    }
    MaxOfMax(m, all, x => Recorded(ps, x), x => Recorded(qs, x), x => Recorded(ps + qs, x), x => Recorded(rs, x));
    MaxIsUnique(all, AddProfiles(map[], rs), x => Recorded(rs, x));
    SameCountsSameOutput(rs, ps + qs);
  }

  lemma SameCountsSameOutput(ps: seq<Profile>, qs: seq<Profile>)
    requires AddProfiles(map[], ps) == AddProfiles(map[], qs)
    ensures Merged(ps) == Merged(qs)
  {
  }

  lemma RecordedConcat(ps: seq<Profile>, qs: seq<Profile>, x: Record)
    ensures Recorded(ps + qs, x) <==> Recorded(ps, x) || Recorded(qs, x)
  {
    hide HasRecord, Lines;
    var all := ps + qs;
    if Recorded(ps, x) {
      var i :| 0 <= i < |ps| && HasRecord(Lines(ps[i]), x);
      assert all[i] == ps[i];
    }
    if Recorded(qs, x) {
      var i :| 0 <= i < |qs| && HasRecord(Lines(qs[i]), x);
      assert all[|ps| + i] == qs[i];
    }
    if Recorded(all, x) {
      var i :| 0 <= i < |all| && HasRecord(Lines(all[i]), x);
      assert if i < |ps| then ps[i] == all[i] else qs[i - |ps|] == all[i];
    }
  }

  lemma RecordedSingle(lines: seq<string>, x: Record)
    ensures Recorded([Some(lines)], x) <==> HasRecord(lines, x)
  {
    hide HasRecord;
    var ps: seq<Profile> := [Some(lines)];
    if HasRecord(lines, x) {
      assert HasRecord(Lines(ps[0]), x);
    }
  }

  // Merging an output again reproduces it.
  lemma RemergeReproduces(ps: seq<Profile>)
    ensures Merged([Some(Merged(ps))]) == Merged(ps)
  {
    MergingIsAssociative(ps, []);
    assert ps + [] == ps;
    assert [Some(Merged(ps))] + [] == [Some(Merged(ps))];
  }

  // ── the script ──

  method MergeProfiles(ps: seq<Profile>) returns (out: seq<string>)
    ensures out == Merged(ps)
  {
    var counts: Counts := map[];
    for p := 0 to |ps|
      invariant counts == AddProfiles(map[], ps[..p])
    {
      assert ps[..p + 1][..p] == ps[..p];
      if ps[p].Some? {
        counts := ReadProfile(counts, ps[p].value);
      }
    }
    assert ps[..|ps|] == ps;
    CountsPrintable(ps);
    out := PrintCounts(counts);
  }

  lemma PrintNothing(m: Counts)
    requires NonNegative(m)
    ensures PrintLines(m, []) == []
  {}

  lemma PrintNext(m: Counts, keys: seq<string>, i: nat)
    requires NonNegative(m) && i < |keys| && forall k | k in keys :: k in m
    ensures PrintLines(m, keys[..i + 1]) == PrintLines(m, keys[..i]) + [Line(keys[i], m[keys[i]])]
  {
    hide Line;
    assert keys[..i + 1][..i] == keys[..i];
  }

  method PrintCounts(counts: Counts) returns (out: seq<string>)
    requires NonNegative(counts)
    ensures out == Print(counts)
  {
    hide Line, SortedKeys, PrintLines;
    var keys := SortedKeys(counts.Keys);
    out := ["mode: atomic"];
    PrintNothing(counts);
    for i := 0 to |keys|
      invariant out == ["mode: atomic"] + PrintLines(counts, keys[..i])
    {
      PrintNext(counts, keys, i);
      out := out + [Line(keys[i], counts[keys[i]])];
    }
    assert keys[..|keys|] == keys;
  }

  method ReadProfile(before: Counts, lines: seq<string>) returns (counts: Counts)
    ensures counts == AddLines(before, lines)
  {
    hide Strip, RSplit, ParseInt, LastSpace;
    counts := before;
    for i := 0 to |lines|
      invariant counts == AddLines(before, lines[..i])
    {
      assert lines[..i + 1][..i] == lines[..i];
      var line := Strip(lines[i]);
      if "mode:" <= line || line == [] {
        continue;
      }
      var parts := RSplit(line);
      if parts.None? {
        continue;
      }
      var key := parts.value.0 + " " + parts.value.1;
      var n := ParseInt(parts.value.2);
      if n.None? {
        continue;
      }
      counts := counts[key := Max(Get(counts, key), n.value)];
    }
    assert lines[..|lines|] == lines;
  }
}

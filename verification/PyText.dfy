/** The Python string operations the two scripts use. */
module PyText {
  import opened Wrappers

  // str.isspace, the characters strip() removes.
  predicate IsSpace(c: char) {
    '\t' <= c <= '\r' || '\U{1C}' <= c <= ' ' || c == '\U{85}' || c == '\U{A0}' || c == '\U{1680}'
    || '\U{2000}' <= c <= '\U{200A}' || c == '\U{2028}' || c == '\U{2029}' || c == '\U{202F}'
    || c == '\U{205F}' || c == '\U{3000}'
  }

  function LStrip(s: string): string {
    if s != [] && IsSpace(s[0]) then LStrip(s[1..]) else s
  }

  function RStrip(s: string): string {
    if s != [] && IsSpace(s[|s| - 1]) then RStrip(s[..|s| - 1]) else s
  }

  function Strip(s: string): string {
    RStrip(LStrip(s))
  }

  lemma {:induction false} LStripShape(s: string)
    ensures LStrip(s) != [] ==> !IsSpace(LStrip(s)[0])
    ensures exists k :: 0 <= k <= |s| && LStrip(s) == s[k..]
    decreases |s|
  {
    if s != [] && IsSpace(s[0]) {
      LStripShape(s[1..]);
      var k :| 0 <= k <= |s| - 1 && LStrip(s[1..]) == s[1..][k..];
      assert LStrip(s) == s[k + 1..];
    } else {
      assert LStrip(s) == s[0..];
    }
  }

  lemma {:induction false} RStripShape(s: string)
    ensures RStrip(s) <= s
    ensures RStrip(s) != [] ==> !IsSpace(RStrip(s)[|RStrip(s)| - 1])
    decreases |s|
  {
    if s != [] && IsSpace(s[|s| - 1]) {
      RStripShape(s[..|s| - 1]);
    }
  }

  // What is left has no white space at either end.
  lemma StripShape(s: string)
    ensures Strip(s) != [] ==> !IsSpace(Strip(s)[0]) && !IsSpace(Strip(s)[|Strip(s)| - 1])
  {
    LStripShape(s);
    RStripShape(LStrip(s));
  }

  lemma {:induction false} LStripTo(s: string, n: nat)
    requires n < |s| && !IsSpace(s[n])
    requires forall i | 0 <= i < n :: IsSpace(s[i])
    ensures LStrip(s) == s[n..]
    decreases n
  {
    if n > 0 {
      LStripTo(s[1..], n - 1);
    }
  }

  lemma {:induction false} RStripKeeps(s: string)
    requires s != [] && !IsSpace(s[0])
    ensures RStrip(s) != [] && RStrip(s)[0] == s[0]
    decreases |s|
  {
    if |s| > 1 {
      RStripKeeps(s[..|s| - 1]);
    }
  }

  // The first character that is not white space comes first.
  lemma StripFirst(s: string, n: nat)
    requires n < |s| && !IsSpace(s[n])
    requires forall i | 0 <= i < n :: IsSpace(s[i])
    ensures Strip(s) != [] && Strip(s)[0] == s[n]
  {
    LStripTo(s, n);
    RStripKeeps(s[n..]);
  }

  lemma StripNothing(s: string)
    requires s != [] ==> !IsSpace(s[0]) && !IsSpace(s[|s| - 1])
    ensures Strip(s) == s
  {
  }

  ghost predicate AllSpace(s: string) { forall i | 0 <= i < |s| :: IsSpace(s[i]) }

  // str.isspace, code point by code point.
  lemma SpaceCharacters(c: char)
    ensures IsSpace(c) <==> c as int in {
      0x9, 0xA, 0xB, 0xC, 0xD, 0x1C, 0x1D, 0x1E, 0x1F, 0x20, 0x85, 0xA0, 0x1680, 0x2000, 0x2001, 0x2002, 0x2003, 0x2004,
      0x2005, 0x2006, 0x2007, 0x2008, 0x2009, 0x200A, 0x2028, 0x2029, 0x202F, 0x205F, 0x3000}
  {
  }

  lemma {:induction false} LStripAll(s: string)
    requires AllSpace(s)
    ensures LStrip(s) == []
    decreases |s|
  {
    if s != [] {
      LStripAll(s[1..]);
    }
  }

  lemma {:induction false} RStripTo(s: string, b: string)
    requires s != [] && !IsSpace(s[|s| - 1]) && AllSpace(b)
    ensures RStrip(s + b) == s
    decreases |b|
  {
    if b == [] {
      assert s + b == s;
    } else {
      var n := |b| - 1;
      assert (s + b)[|s + b| - 1] == b[n] && (s + b)[..|s + b| - 1] == s + b[..n];
      RStripTo(s, b[..n]);
    }
  }

  // strip() takes the white space at both ends and nothing else.
  lemma StripSurrounded(a: string, s: string, b: string)
    requires AllSpace(a) && AllSpace(b)
    requires s != [] ==> !IsSpace(s[0]) && !IsSpace(s[|s| - 1])
    ensures Strip(a + s + b) == s
  {
    hide IsSpace, LStrip, RStrip;
    if s == [] {
      assert AllSpace(a + s + b);
      LStripAll(a + s + b);
      RStripNothing();
    } else {
      assert (a + s + b)[|a|] == s[0] && (a + s + b)[|a|..] == s + b;
      assert forall i | 0 <= i < |a| :: (a + s + b)[i] == a[i];
      LStripTo(a + s + b, |a|);
      RStripTo(s, b);
    }
  }

  lemma RStripNothing()
    ensures RStrip([]) == []
  {}

  // rfind(' '), or -1.
  function LastSpace(s: string): (j: int)
    ensures -1 <= j < |s|
    ensures j >= 0 ==> s[j] == ' '
    ensures forall k | j < k < |s| :: s[k] != ' '
  {
    if s == [] then -1
    else if s[|s| - 1] == ' ' then |s| - 1
    else LastSpace(s[..|s| - 1])
  }

  // rsplit(' ', 2), if that gives three parts.
  function RSplit(s: string): Option<(string, string, string)> {
    var j := LastSpace(s);
    if j < 0 then None
    else
      var i := LastSpace(s[..j]);
      if i < 0 then None else Some((s[..i], s[i + 1..j], s[j + 1..]))
  }

  lemma LastSpaceIs(s: string, j: nat)
    requires j < |s| && s[j] == ' ' && ' ' !in s[j + 1..]
    ensures LastSpace(s) == j
  {
    hide LastSpace;
    assert forall k | j < k < |s| :: s[k] == s[j + 1..][k - j - 1];
  }

  lemma SplitAtLastSpace(s: string)
    requires LastSpace(s) >= 0
    ensures var j := LastSpace(s); s == s[..j] + " " + s[j + 1..] && ' ' !in s[j + 1..]
  {
    hide LastSpace;
    var j := LastSpace(s);
    var tail := s[j + 1..];
    assert forall k | 0 <= k < |tail| :: tail[k] == s[j + 1 + k];
  }

  // Three parts exactly when there are two spaces, cut at the last two.
  lemma RSplitIff(s: string, a: string, b: string, c: string)
    ensures RSplit(s) == Some((a, b, c)) <==> s == a + " " + b + " " + c && ' ' !in b && ' ' !in c
  {
    hide LastSpace;
    if s == a + " " + b + " " + c && ' ' !in b && ' ' !in c {
      var ab := a + " " + b;
      assert s[|ab|] == ' ' && s[..|ab|] == ab && s[|ab| + 1..] == c;
      LastSpaceIs(s, |ab|);
      assert ab[|a|] == ' ' && ab[|a| + 1..] == b && ab[..|a|] == a;
      LastSpaceIs(ab, |a|);
    }
    var j := LastSpace(s);
    if j >= 0 {
      SplitAtLastSpace(s);
      var i := LastSpace(s[..j]);
      if i >= 0 {
        SplitAtLastSpace(s[..j]);
        assert s[..j][i + 1..] == s[i + 1..j] && s[..j][..i] == s[..i];
      }
    }
  }

  lemma RSplitNone(s: string)
    ensures RSplit(s).Some? <==> exists i, j :: 0 <= i < j < |s| && s[i] == ' ' == s[j]
  {
    hide LastSpace;
    var j := LastSpace(s);
    if j >= 0 {
      var i := LastSpace(s[..j]);
      assert forall k | 0 <= k < j :: s[..j][k] == s[k];
      assert i >= 0 ==> s[i] == ' ';
    }
  }

  predicate IsDigit(c: char) { '0' <= c <= '9' }

  // Digits with single underscores between them.
  ghost predicate IsNumeral(s: string) {
    && s != [] && IsDigit(s[0]) && IsDigit(s[|s| - 1])
    && forall i | 0 <= i < |s| :: IsDigit(s[i]) || (s[i] == '_' && 0 < i && IsDigit(s[i - 1]))
  }

  // The number a numeral writes, from its left end; `high` is what came before.
  function ValueFrom(high: int, s: string): int
    decreases |s|
  {
    if s == [] then high
    else if s[0] == '_' then ValueFrom(high, s[1..])
    else ValueFrom(10 * high + (s[0] as int - 0x30), s[1..])
  }

  lemma {:induction false} ValueOfLast(high: int, s: string, c: char)
    ensures ValueFrom(high, s + [c])
      == if c == '_' then ValueFrom(high, s) else 10 * ValueFrom(high, s) + (c as int - 0x30)
    decreases |s|
  {
    if s == [] {
      assert s + [c] == [c];
    } else {
      assert (s + [c])[1..] == s[1..] + [c];
      ValueOfLast(if s[0] == '_' then high else 10 * high + (s[0] as int - 0x30), s[1..], c);
    }
  }

  // Decimal digits, single underscores between them.
  function Digits(s: string): Option<nat>
    decreases |s|
  {
    var n := |s| - 1;
    if s == [] || !IsDigit(s[n]) then None
    else
      var d := s[n] as int - '0' as int;
      if n == 0 then Some(d)
      else
        match Digits(if s[n - 1] == '_' then s[..n - 1] else s[..n])
        case None => None
        case Some(v) => Some(10 * v + d)
  }

  // Exactly the numerals are read, each as the number it writes.
  lemma {:induction false} DigitsIff(s: string)
    ensures Digits(s).Some? <==> IsNumeral(s)
    ensures IsNumeral(s) ==> Digits(s) == Some(ValueFrom(0, s))
    decreases |s|
  {
    var n := |s| - 1;
    if n > 0 {
      var front := s[..n];
      assert s == front + [s[n]];
      ValueOfLast(0, front, s[n]);
      if s[n - 1] == '_' {
        var front' := s[..n - 1];
        assert front == front' + ['_'];
        ValueOfLast(0, front', '_');
        DigitsIff(front');
        NumeralSteps(s, front');
      } else {
        DigitsIff(front);
        NumeralSteps(s, front);
      }
    } else if n == 0 {
      assert s[1..] == [];
    }
  }

  // A numeral is a digit after a numeral, or after a numeral and an underscore.
  lemma NumeralSteps(s: string, t: string)
    requires |s| > 1 && t == if s[|s| - 2] == '_' then s[..|s| - 2] else s[..|s| - 1]
    ensures IsNumeral(s) <==> IsDigit(s[|s| - 1]) && IsNumeral(t)
  {
    assert forall i | 0 <= i < |t| :: t[i] == s[i];
  }

  // int(s), None for ValueError.
  function ParseInt(s: string): Option<int> {
    var u := Strip(s);
    if u == [] then None
    else
      var digits := Digits(if u[0] == '-' || u[0] == '+' then u[1..] else u);
      if digits.None? then None else Some(if u[0] == '-' then 0 - digits.value else digits.value)
  }

  // str(n).
  function Show(n: nat): (s: string)
    ensures s != [] && forall i | 0 <= i < |s| :: IsDigit(s[i])
  {
    var digit := ['0' + (n % 10) as char];
    if n < 10 then digit else Show(n / 10) + digit
  }

  lemma {:induction false} DigitsOfShow(n: nat)
    ensures Digits(Show(n)) == Some(n)
  {
    if n >= 10 {
      DigitsOfShow(n / 10);
      var s := Show(n);
      assert s[..|s| - 1] == Show(n / 10);
      assert s[|s| - 2] == Show(n / 10)[|s| - 2];
    }
  }

  // White space around, a sign in front, a numeral, and nothing else.
  lemma ParseIntIff(a: string, sign: string, s: string, b: string)
    requires AllSpace(a) && AllSpace(b) && sign in ["", "+", "-"]
    requires s != [] && !IsSpace(s[|s| - 1])
    requires sign == "" ==> s[0] != '-' && s[0] != '+' && !IsSpace(s[0])
    ensures ParseInt(a + (sign + s) + b)
      == if !IsNumeral(s) then None else Some(if sign == "-" then 0 - ValueFrom(0, s) else ValueFrom(0, s))
  {
    SignsAreNoSpace();
    hide Strip, IsSpace, Digits;
    var u := sign + s;
    assert u[|u| - 1] == s[|s| - 1] && u[0] == if sign == "" then s[0] else sign[0];
    StripSurrounded(a, u, b);
    DigitsIff(s);
    assert sign == "" ==> u == s;
    assert sign != "" ==> u[1..] == s;
  }

  lemma SignsAreNoSpace()
    ensures !IsSpace('+') && !IsSpace('-')
  {}

  // str(n) starts with no zero but its own.
  lemma {:induction false} ShowIsCanonical(n: nat)
    ensures Show(n)[0] == '0' <==> n == 0
    ensures n == 0 ==> |Show(n)| == 1
  {
    if n >= 10 {
      ShowIsCanonical(n / 10);
    }
  }

  lemma ParseIntOfShow(n: nat)
    ensures ParseInt(Show(n)) == Some(n)
  {
    StripNothing(Show(n));
    DigitsOfShow(n);
  }
}

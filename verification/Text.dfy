/** Text helpers shared by the models: trimming, ordering, joining and decimal numerals. */
module Text {

  // ----- Trimming -----------------------------------------------------------------------

  /** White space, as far as Latin-1 goes: space, tab to carriage return, U+0085 and U+00A0. */
  predicate IsSpace(c: char) {
    c == ' ' || '\t' <= c <= '\r' || c == '\U{85}' || c == '\U{A0}'
  }

  function TrimLeft(s: string): string {
    if s != [] && IsSpace(s[0]) then TrimLeft(s[1..]) else s
  }

  function TrimRight(s: string): string {
    if s != [] && IsSpace(s[|s| - 1]) then TrimRight(s[..|s| - 1]) else s
  }

  lemma {:induction false} TrimLeftDrops(s: string)
    ensures var r := TrimLeft(s);
      && |r| <= |s| && r == s[|s| - |r|..]
      && (forall i :: 0 <= i < |s| - |r| ==> IsSpace(s[i]))
      && (r != [] ==> !IsSpace(r[0]))
  {
    if s != [] && IsSpace(s[0]) {
      TrimLeftDrops(s[1..]);
      var r := TrimLeft(s);
      forall i | 0 <= i < |s| - |r|
        ensures IsSpace(s[i])
      {
        assert i > 0 ==> s[i] == s[1..][i - 1];
      }
    }
  }

  lemma {:induction false} TrimRightDrops(s: string)
    ensures var r := TrimRight(s);
      && |r| <= |s| && r == s[..|r|]
      && (forall i :: |r| <= i < |s| ==> IsSpace(s[i]))
      && (r != [] ==> !IsSpace(r[|r| - 1]))
  {
    if s != [] && IsSpace(s[|s| - 1]) {
      TrimRightDrops(s[..|s| - 1]);
    }
  }

  function Trim(s: string): string {
    TrimRight(TrimLeft(s))
  }

  /** A text that `Trim` leaves alone. */
  predicate Trimmed(s: string) {
    s != [] ==> !IsSpace(s[0]) && !IsSpace(s[|s| - 1])
  }

  lemma TrimIsTrimmed(s: string)
    ensures Trimmed(Trim(s))
    ensures |Trim(s)| <= |s|
  {
    var l := TrimLeft(s);
    var r := TrimRight(l);
    TrimLeftDrops(s);
    TrimRightDrops(l);
    if r != [] {
      assert r[0] == l[0];
    }
  }

  lemma TrimKeepsTrimmed(s: string)
    requires Trimmed(s)
    ensures Trim(s) == s
  {
    assert TrimLeft(s) == s;
    assert TrimRight(s) == s;
  }

  /** The characters of `s` that are not white space, in order. */
  function Ink(s: string): string {
    if s == [] then [] else (if IsSpace(s[0]) then [] else [s[0]]) + Ink(s[1..])
  }

  lemma InkConcat(a: string, b: string)
    ensures Ink(a + b) == Ink(a) + Ink(b)
  {
    if a == [] {
      assert a + b == b;
    } else {
      assert (a + b)[0] == a[0] && (a + b)[1..] == a[1..] + b;
      InkConcat(a[1..], b);
    }
  }

  lemma InkOfSpaces(s: string)
    requires forall i :: 0 <= i < |s| ==> IsSpace(s[i])
    ensures Ink(s) == []
  {
  }

  lemma InkTrimLeft(s: string)
    ensures Ink(TrimLeft(s)) == Ink(s)
  {
  }

  lemma InkTrimRight(s: string)
    ensures Ink(TrimRight(s)) == Ink(s)
  {
    var r := TrimRight(s);
    TrimRightDrops(s);
    assert s == r + s[|r|..];
    InkConcat(r, s[|r|..]);
    InkOfSpaces(s[|r|..]);
  }

  lemma InkTrim(s: string)
    ensures Ink(Trim(s)) == Ink(s)
  {
    InkTrimLeft(s);
    InkTrimRight(TrimLeft(s));
  }

  lemma InkAt(s: string, i: nat)
    requires i < |s| && !IsSpace(s[i])
    ensures Ink(s) != ""
  {
    if i > 0 {
      InkAt(s[1..], i - 1);
    }
  }

  /** A text with anything printed in it is not trimmed away. */
  lemma TrimKeepsInk(s: string, i: nat)
    requires i < |s| && !IsSpace(s[i])
    ensures Trim(s) != ""
  {
    InkAt(s, i);
    InkTrim(s);
  }

  // ----- Case ---------------------------------------------------------------------------

  function LowerChar(c: char): char {
    if 'A' <= c <= 'Z' then ((c as int) + 32) as char else c
  }

  /** Lower-casing, of the ASCII letters. */
  function Lower(s: string): string {
    seq(|s|, i requires 0 <= i < |s| => LowerChar(s[i]))
  }

  lemma LowerFolds(s: string, i: nat)
    requires i < |s|
    ensures |Lower(s)| == |s|
    ensures s[i] == 'A' ==> Lower(s)[i] == 'a'
    ensures s[i] == 'Z' ==> Lower(s)[i] == 'z'
    ensures 'A' <= s[i] <= 'Z' ==> Lower(s)[i] - 'a' == s[i] - 'A'
    ensures !('A' <= s[i] <= 'Z') ==> Lower(s)[i] == s[i]
  {
  }

  // ----- Lines --------------------------------------------------------------------------

  function JoinLines(lines: seq<string>): string {
    if lines == [] then ""
    else if |lines| == 1 then lines[0]
    else lines[0] + "\n" + JoinLines(lines[1..])
  }

  /** A printable line: not empty and without a line break. */
  predicate IsLine(line: string) {
    line != [] && '\n' !in line
  }

  lemma {:induction false} JoinLinesInjective(a: seq<string>, b: seq<string>)
    requires forall l :: l in a ==> IsLine(l)
    requires forall l :: l in b ==> IsLine(l)
    requires JoinLines(a) == JoinLines(b)
    ensures a == b
  {
    if a == [] || b == [] {
      JoinLinesNonEmpty(a);
      JoinLinesNonEmpty(b);
    } else {
      FirstLine(a);
      FirstLine(b);
      var j := JoinLines(a);
      FirstBreakUnique(j, |a[0]|, |b[0]|);
      assert a[0] == j[..|a[0]|] == b[0];
      if |a| > 1 && |b| > 1 {
        assert JoinLines(a[1..]) == j[|a[0]| + 1..] == JoinLines(b[1..]);
        JoinLinesInjective(a[1..], b[1..]);
        assert a == [a[0]] + a[1..];
        assert b == [b[0]] + b[1..];
      }
    }
  }

  lemma JoinLinesNonEmpty(a: seq<string>)
    requires forall l :: l in a ==> IsLine(l)
    ensures a != [] ==> JoinLines(a) != []
  {
    if a != [] {
      assert a[0] in a;
    }
  }

  /** The first line of a joined text ends at the first line break, or at the end. */
  lemma FirstLine(a: seq<string>)
    requires a != [] && forall l :: l in a ==> IsLine(l)
    ensures var j := JoinLines(a); var n := |a[0]|;
      && n <= |j| && j[..n] == a[0] && NoBreakBefore(j, n)
      && (if |a| == 1 then n == |j| else n < |j| && j[n] == '\n' && j[n + 1..] == JoinLines(a[1..]))
  {
    assert a[0] in a;
    if |a| > 1 {
      var j := JoinLines(a);
      var n := |a[0]|;
      assert j == (a[0] + "\n") + JoinLines(a[1..]);
      assert j[..n] == a[0];
      assert j[n] == '\n';
      assert j[n + 1..] == JoinLines(a[1..]);
    }
  }

  predicate NoBreakBefore(j: string, n: nat)
    requires n <= |j|
  {
    forall i :: 0 <= i < n ==> j[i] != '\n'
  }

  lemma FirstBreakUnique(j: string, m: nat, n: nat)
    requires m <= |j| && NoBreakBefore(j, m) && (m == |j| || j[m] == '\n')
    requires n <= |j| && NoBreakBefore(j, n) && (n == |j| || j[n] == '\n')
    ensures m == n
  {
  }

  // ----- Decimal numerals ---------------------------------------------------------------

  predicate IsDigit(c: char) {
    '0' <= c <= '9'
  }

  function DigitValue(c: char): (d: nat)
    requires IsDigit(c)
    ensures d <= 9
  {
    (c - '0') as nat
  }

  function DigitChar(d: nat): (c: char)
    requires d <= 9
    ensures IsDigit(c) && DigitValue(c) == d
  {
    '0' + d as char
  }

  predicate AllDigits(s: string) {
    forall c :: c in s ==> IsDigit(c)
  }

  /** The value of a digit string, most significant digit first. */
  function Numeral(s: string): nat
    requires AllDigits(s)
  {
    if s == [] then 0
    else
      assert forall c :: c in s[..|s| - 1] ==> c in s;
      Numeral(s[..|s| - 1]) * 10 + DigitValue(s[|s| - 1])
  }

  /** Decimal rendering without leading zeros. */
  function Decimal(n: nat): (s: string)
    ensures s != [] && AllDigits(s) && Numeral(s) == n
  {
    if n < 10 then
      var s := [DigitChar(n)];
      assert s[..0] == [];
      s
    else
      var high := Decimal(n / 10);
      var s := high + [DigitChar(n % 10)];
      assert s[..|s| - 1] == high;
      s
  }
}

/** Splitting a long text into messages no longer than a limit. */
module LongMessage {
  import opened Text

  /** The last line break of `s` before position `limit`, as `str.rfind` finds it. */
  function LastBreak(s: string, limit: nat): (b: int)
    requires limit <= |s|
    ensures -1 <= b < limit
    ensures b >= 0 ==> s[b] == '\n'
    ensures forall i :: b < i < limit ==> s[i] != '\n'
  {
    if limit == 0 then -1 else if s[limit - 1] == '\n' then limit - 1 else LastBreak(s, limit - 1)
  }

  /** Where a text that is too long is cut: at the last line break that fits, and in the middle of a line
      only when none does. */
  function CutPoint(s: string, limit: nat): (cut: nat)
    requires limit <= |s|
    ensures cut <= limit && (limit > 0 ==> cut > 0)
    ensures cut < limit ==> s[cut] == '\n'
    ensures forall i :: 0 < i < limit && s[i] == '\n' ==> i <= cut < limit
  {
    var b := LastBreak(s, limit);
    if b <= 0 then limit else b
  }

  function Concat(chunks: seq<string>): string {
    if chunks == [] then "" else Concat(chunks[..|chunks| - 1]) + chunks[|chunks| - 1]
  }

  lemma ConcatSnoc(chunks: seq<string>, c: string)
    ensures Concat(chunks + [c]) == Concat(chunks) + c
  {
    assert (chunks + [c])[..|chunks|] == chunks;
  }

  /** A message that can be sent: not empty, within the limit, no white space around it. */
  predicate Sendable(chunk: string, limit: nat) {
    chunk != "" && |chunk| <= limit && Trimmed(chunk)
  }

  lemma {:induction false} HeadOf(s: string, cut: nat)
    requires Trimmed(s) && 0 < cut < |s|
    ensures Trim(s[..cut]) != "" && Trim(s[cut..]) != ""
    ensures |Trim(s[..cut])| <= cut && |Trim(s[cut..])| < |s|
    ensures Trimmed(Trim(s[..cut])) && Trimmed(Trim(s[cut..]))
    ensures Ink(Trim(s[..cut])) + Ink(Trim(s[cut..])) == Ink(s)
  {
    hide Trim, Ink;
    TrimIsTrimmed(s[..cut]);
    TrimIsTrimmed(s[cut..]);
    InkTrim(s[..cut]);
    InkTrim(s[cut..]);
    InkConcat(s[..cut], s[cut..]);
    assert s[..cut] + s[cut..] == s;
    InkAt(s[..cut], 0);
    InkAt(s[cut..], |s| - cut - 1);
    InkOfNothing();
  }

  lemma InkOfNothing()
    ensures Ink("") == ""
  {
  }

  // ----- Whole lines --------------------------------------------------------------------

  function Flush(line: string): seq<string> {
    if line == "" then [] else [line]
  }

  /** The printed lines of `s`, blank ones left out; `line` is what was printed on the current one. */
  function PrintedFrom(s: string, line: string): seq<string> {
    if s == [] then Flush(line)
    else if s[0] == '\n' then Flush(line) + PrintedFrom(s[1..], "")
    else PrintedFrom(s[1..], if IsSpace(s[0]) then line else line + [s[0]])
  }

  function Printed(s: string): seq<string> {
    PrintedFrom(s, "")
  }

  /** The printed lines of the messages, one message after the other. */
  function PrintedAll(chunks: seq<string>): seq<string> {
    if chunks == [] then [] else PrintedAll(chunks[..|chunks| - 1]) + Printed(chunks[|chunks| - 1])
  }

  lemma PrintedAllSnoc(chunks: seq<string>, c: string)
    ensures PrintedAll(chunks + [c]) == PrintedAll(chunks) + Printed(c)
  {
    assert (chunks + [c])[..|chunks|] == chunks;
  }

  lemma {:induction false} PrintedAtBreak(a: string, b: string, line: string)
    ensures PrintedFrom(a + "\n" + b, line) == PrintedFrom(a, line) + Printed(b)
  {
    var s := a + "\n" + b;
    if a == [] {
      assert s[1..] == b;
    } else {
      assert s[0] == a[0] && s[1..] == a[1..] + "\n" + b;
      PrintedAtBreak(a[1..], b, if a[0] == '\n' then "" else if IsSpace(a[0]) then line else line + [a[0]]);
    }
  }

  lemma {:induction false} PrintedTrailingSpace(a: string, c: char, line: string)
    requires IsSpace(c)
    ensures PrintedFrom(a + [c], line) == PrintedFrom(a, line)
  {
    var s := a + [c];
    if a == [] {
      assert s[1..] == [];
    } else {
      assert s[0] == a[0] && s[1..] == a[1..] + [c];
      PrintedTrailingSpace(a[1..], c, if a[0] == '\n' then "" else if IsSpace(a[0]) then line else line + [a[0]]);
    }
  }

  lemma PrintedTrimLeft(s: string)
    ensures Printed(TrimLeft(s)) == Printed(s)
  {
    if s != [] && IsSpace(s[0]) {
      PrintedTrimLeft(s[1..]);
    }
  }

  lemma PrintedTrimRight(s: string)
    ensures Printed(TrimRight(s)) == Printed(s)
  {
    if s != [] && IsSpace(s[|s| - 1]) {
      PrintedTrimRight(s[..|s| - 1]);
      PrintedTrailingSpace(s[..|s| - 1], s[|s| - 1], "");
      assert s == s[..|s| - 1] + [s[|s| - 1]];
    }
  }

  lemma PrintedTrim(s: string)
    ensures Printed(Trim(s)) == Printed(s)
  {
    PrintedTrimLeft(s);
    PrintedTrimRight(TrimLeft(s));
  }

  lemma PrintedAfterBreak(s: string)
    requires s != "" && s[0] == '\n'
    ensures Printed(s) == Printed(s[1..])
  {
  }

  lemma PrintedParts(a: string, b: string)
    ensures Printed(Trim(a)) + Printed(Trim("\n" + b)) == Printed(a + "\n" + b)
  {
    PrintedAtBreak(a, b, "");
    hide Trim, PrintedFrom;
    PrintedTrim(a);
    PrintedTrim("\n" + b);
    PrintedAfterBreak("\n" + b);
    assert ("\n" + b)[1..] == b;
  }

  /** Cutting at a line break keeps every printed line whole. */
  lemma PrintedCut(s: string, cut: nat)
    requires cut < |s| && s[cut] == '\n'
    ensures Printed(Trim(s[..cut])) + Printed(Trim(s[cut..])) == Printed(s)
  {
    hide Trim, Printed;
    PrintedParts(s[..cut], s[cut + 1..]);
    assert "\n" + s[cut + 1..] == s[cut..];
    assert s[..cut] + "\n" + s[cut + 1..] == s;
  }

  predicate BreakIn(s: string, from: nat, limit: nat)
    requires from + limit <= |s|
  {
    exists i :: from <= i < from + limit && s[i] == '\n'
  }

  /** Any `limit` characters in a row have a line break among them. */
  predicate ShortLines(s: string, limit: nat) {
    forall from: nat :: from + limit <= |s| ==> BreakIn(s, from, limit)
  }

  lemma ShortLinesOfPart(s: string, limit: nat, from: nat, to: nat)
    requires from <= to <= |s| && ShortLines(s, limit)
    ensures ShortLines(s[from..to], limit)
  {
    var p := s[from..to];
    forall k: nat | k + limit <= |p|
      ensures BreakIn(p, k, limit)
    {
      assert BreakIn(s, from + k, limit);
      var i :| from + k <= i < from + k + limit && s[i] == '\n';
      assert p[i - from] == '\n';
    }
  }

  lemma ShortLinesOfTrimmed(s: string, limit: nat)
    requires ShortLines(s, limit)
    ensures ShortLines(Trim(s), limit)
  {
    var l := TrimLeft(s);
    TrimLeftDrops(s);
    TrimRightDrops(l);
    ShortLinesOfPart(s, limit, |s| - |l|, |s|);
    assert s[|s| - |l|..|s|] == l;
    ShortLinesOfPart(l, limit, 0, |Trim(s)|);
    assert l[0..|Trim(s)|] == Trim(s);
  }

  lemma ShortLinesAreCutAtBreak(s: string, limit: nat)
    requires Trimmed(s) && 0 < limit < |s| && ShortLines(s, limit)
    ensures s[CutPoint(s, limit)] == '\n'
    ensures ShortLines(Trim(s[CutPoint(s, limit)..]), limit)
  {
    hide Trim, CutPoint;
    assert BreakIn(s, 0, limit);
    var i :| 0 <= i < limit && s[i] == '\n';
    var cut := CutPoint(s, limit);
    ShortLinesOfPart(s, limit, cut, |s|);
    assert s[cut..|s|] == s[cut..];
    ShortLinesOfTrimmed(s[cut..], limit);
  }

  /** The chunks of a trimmed text, one cut after the other. */
  function Chunks(s: string, limit: nat): seq<string>
    requires limit > 0
    decreases |s|
  {
    if s == "" then []
    else if |s| <= limit then [s]
    else
      TrimIsTrimmed(s[..CutPoint(s, limit)]);
      TrimIsTrimmed(s[CutPoint(s, limit)..]);
      [Trim(s[..CutPoint(s, limit)])] + Chunks(Trim(s[CutPoint(s, limit)..]), limit)
  }

  /** Each chunk takes as many whole lines as fit: it ends before the last line break within the limit, or at the
      limit when there is none. */
  lemma ChunksAreFilled(s: string, limit: nat) returns (cut: nat)
    requires limit > 0 && Trimmed(s) && |s| > limit
    ensures 0 < cut <= limit
    ensures Chunks(s, limit) == [Trim(s[..cut])] + Chunks(Trim(s[cut..]), limit)
    ensures if cut < limit then s[cut] == '\n' else forall i :: 0 < i < limit ==> s[i] != '\n'
    ensures forall i :: cut < i < limit ==> s[i] != '\n'
  {
    hide Trim;
    cut := CutPoint(s, limit);
  }

  /** A text that fits is sent as it is. */
  lemma ShortIsOneChunk(s: string, limit: nat)
    requires limit > 0 && |s| <= limit
    ensures Chunks(s, limit) == if s == "" then [] else [s]
  {
  }

  // ----- The program --------------------------------------------------------------------

  /** The chunks that are sent for a text. Together they show all of its printed characters, in order; and
      when no line is too long for a message, no line is torn. */
  method Split(text: string, limit: nat) returns (chunks: seq<string>)
    requires limit > 0
    ensures chunks == Chunks(Trim(text), limit)
    ensures chunks == [] <==> Ink(text) == ""
    ensures forall c :: c in chunks ==> Sendable(c, limit)
    ensures Ink(Concat(chunks)) == Ink(text)
    ensures ShortLines(text, limit) ==> PrintedAll(chunks) == Printed(text)
  {
    hide Trim, Ink, Concat, Printed, PrintedAll, ShortLines, CutPoint;
    chunks := [];
    var remaining := Trim(text);
    InkTrim(text);
    TrimIsTrimmed(text);
    EmptyConcat();
    PrintedTrim(text);
    if ShortLines(text, limit) {
      ShortLinesOfTrimmed(text, limit);
    }
    while |remaining| > limit
      invariant Trimmed(remaining)
      invariant Chunks(Trim(text), limit) == chunks + Chunks(remaining, limit)
      invariant forall c :: c in chunks ==> Sendable(c, limit)
      invariant Ink(Concat(chunks)) + Ink(remaining) == Ink(text)
      invariant ShortLines(text, limit) ==> ShortLines(remaining, limit)
      invariant ShortLines(text, limit) ==> PrintedAll(chunks) + Printed(remaining) == Printed(text)
      invariant chunks != [] ==> remaining != ""
      invariant chunks != [] ==> Ink(text) != ""
      decreases |remaining|
    {
      var cut := CutPoint(remaining, limit);
      HeadOf(remaining, cut);
      ConcatSnoc(chunks, Trim(remaining[..cut]));
      InkConcat(Concat(chunks), Trim(remaining[..cut]));
      InkAt(remaining, 0);
      PrintedAllSnoc(chunks, Trim(remaining[..cut]));
      if ShortLines(text, limit) {
        ShortLinesAreCutAtBreak(remaining, limit);
        PrintedCut(remaining, cut);
      }
      assert chunks + ([Trim(remaining[..cut])] + Chunks(Trim(remaining[cut..]), limit))
        == (chunks + [Trim(remaining[..cut])]) + Chunks(Trim(remaining[cut..]), limit);
      chunks := chunks + [Trim(remaining[..cut])];
      remaining := Trim(remaining[cut..]);
    }
    if remaining != "" {
      ConcatSnoc(chunks, remaining);
      PrintedAllSnoc(chunks, remaining);
      InkConcat(Concat(chunks), remaining);
      InkAt(remaining, 0);
      chunks := chunks + [remaining];
    }
    InkOfNothing();
  }

  lemma EmptyConcat()
    ensures Ink(Concat([])) == ""
    ensures PrintedAll([]) == Printed("") == []
  {
  }

  /** A message and whether the reply keyboard goes with it. */
  datatype Sent = Sent(text: string, keyboard: bool)

  /** The keyboard goes with the first message only; a blank text is announced by a dash. */
  method SendLongMessage(text: string, limit: nat) returns (sent: seq<Sent>)
    requires limit > 0
    ensures |sent| > 0 && forall i :: 0 <= i < |sent| ==> Sendable(sent[i].text, limit) && (sent[i].keyboard <==> i == 0)
    ensures Ink(text) == "" ==> sent == [Sent("-", true)]
    ensures Ink(text) != "" ==> Texts(sent) == Chunks(Trim(text), limit)
    ensures Ink(text) != "" ==> Ink(Concat(Texts(sent))) == Ink(text)
    ensures Ink(text) != "" && ShortLines(text, limit) ==> PrintedAll(Texts(sent)) == Printed(text)
  {
    hide Trim, Ink, Concat, Printed, PrintedAll, ShortLines, Chunks;
    var chunks := Split(text, limit);
    if chunks == [] {
      return [Sent("-", true)];
    }
    sent := [];
    for i := 0 to |chunks|
      invariant |sent| == i
      invariant forall j :: 0 <= j < i ==> sent[j] == Sent(chunks[j], j == 0)
    {
      sent := sent + [Sent(chunks[i], i == 0)];
    }
    assert Texts(sent) == chunks;
  }

  function Texts(sent: seq<Sent>): seq<string> {
    seq(|sent|, i requires 0 <= i < |sent| => sent[i].text)
  }

  /** With a limit of zero a text is cut into nothing and itself: the loop would never end. */
  lemma ZeroLimitNeverEnds(s: string)
    requires s != "" && Trimmed(s)
    ensures CutPoint(s, 0) == 0 && Trim(s[CutPoint(s, 0)..]) == s
  {
    TrimKeepsTrimmed(s);
    assert s[0..] == s;
  }
}

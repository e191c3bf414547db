/** claudetool/patch.go: hunks do apply, and to the lines one would say. */
module PatchApplies {
  import opened Text
  import opened PatchMatch
  import opened PatchEdit

  /** Nothing, or text that ends in a newline. */
  predicate Complete(c: string) { c == "" || c[|c| - 1] == '\n' }

  lemma CompleteSuffix(c: string)
    ensures HasSuffix(c, "\n") <==> c != "" && Complete(c)
  {
  }

  /** An added text starts a line of its own and ends with a newline. */
  lemma AdditionMeans(content: string, newText: string)
    ensures var start := if Complete(content) then newText else "\n" + newText;
      Addition(content, newText) == start + if Complete(start) then "" else "\n"
  {
    CompleteSuffix(content);
    var a := if Complete(content) then newText else "\n" + newText;
    CompleteSuffix(a);
    assert a + "" == a;
  }

  lemma CutLength(content: string, pat: seq<Line>, m: Match)
    requires |pat| >= 1 && IsCut(content, pat, m)
    ensures var ls, last := Lines(content), m.line - 1 + |pat| - 1; m.offset + m.length == Offset(ls, last) + |ls[last]|
  {
    var ls, i, next := Lines(content), m.line - 1, m.line - 1 + |pat|;
    CutLines(content, i, next);
    assert |content[m.offset..m.offset + m.length]| == m.length;
  }

  lemma NewlineAfter(content: string, k: nat)
    requires 0 < k < |Lines(content)|
    ensures var end := Offset(Lines(content), k) - 1; end < |content| && content[end] == '\n'
  {
    var ls := Lines(content);
    CutLines(content, k, k + 1);
    CutLines(content, k - 1, k + 1);
    assert ls[k - 1..k + 1] == [ls[k - 1], ls[k]];
    var two := Join(ls[k - 1..k + 1]);
    assert [ls[k - 1], ls[k]][1..] == [ls[k]];
    assert two == ls[k - 1] + "\n" + ls[k];
    assert two[|ls[k - 1]|] == '\n';
  }

  lemma ContentEnds(content: string, n: nat)
    requires n == |Lines(content)| >= 1
    ensures var end := Offset(Lines(content), n) - 1;
      |content| == end || (|content| == end + 1 && content[end] == '\n')
  {
    var ls := Lines(content);
    LinesExact(content);
    if content != "" && content[|content| - 1] == '\n' {
      TerminatedLength(ls, n);
      assert ls[..n] == ls;
    } else {
      JoinLength(ls, 0, n);
      assert ls[0..n] == ls;
    }
  }

  /** Where the line after the first k lines starts, seen from where they end. */
  lemma NextLine(content: string, k: nat, end: nat)
    requires 0 < k <= |Lines(content)| && end + 1 == Offset(Lines(content), k)
    ensures var next := if end < |content| && content[end] == '\n' then end + 1 else end;
      next == if k < |Lines(content)| then Offset(Lines(content), k) else |content|
  {
    if k < |Lines(content)| { NewlineAfter(content, k); } else { ContentEnds(content, k); }
  }

  /** After an anchor, the search goes on at the next line. */
  lemma PastIsNextLine(content: string, pat: seq<Line>, m: Match)
    requires |pat| >= 1 && IsCut(content, pat, m)
    ensures var ls, next := Lines(content), m.line - 1 + |pat|;
      Past(content, m) == if next < |ls| then Offset(ls, next) else |content|
  {
    CutLength(content, pat, m);
    NextLine(content, m.line - 1 + |pat|, m.offset + m.length);
  }

  /** Where the line of that number starts, or the end. */
  ghost function LineStart(content: string, k: nat): nat
  {
    if k < |Lines(content)| then Offset(Lines(content), k) else |content|
  }

  lemma LineAfter(content: string, pat: seq<Line>, m: Match, i: nat)
    requires |pat| >= 1 && IsCut(content, pat, m) && m.line == i + 1
    ensures Past(content, m) == LineStart(content, i + |pat|)
  {
    PastIsNextLine(content, pat, m);
  }

  // One turn

  ghost function FirstAt(ls: seq<Line>, cursor: nat, i: nat): (start: nat)
    requires i <= |ls| && forall k: nat :: k < i ==> Offset(ls, k) < cursor
    ensures IsStart(ls, cursor, start)
    decreases |ls| - i
  {
    if i == |ls| || Offset(ls, i) >= cursor then i else FirstAt(ls, cursor, i + 1)
  }

  /** Where a search starts. */
  ghost function StartAt(ls: seq<Line>, pat: seq<Line>, cursor: nat, eof: bool): nat
    requires |pat| <= |ls|
  {
    if eof then |ls| - |pat| else FirstAt(ls, cursor, 0)
  }

  /** The match at window i, in the mode, of a search that starts at lo. */
  ghost function MatchAt(ls: seq<Line>, pat: seq<Line>, lo: nat, mode: Mode, i: nat): Match
    requires |pat| >= 1 && i + |pat| <= |ls|
  {
    var last := i + |pat| - 1;
    OffsetMono(ls, i, last);
    Match(Offset(ls, i), Offset(ls, last) + |ls[last]| - Offset(ls, i), i + 1, lo + 1,
          Count(Windows(mode, ls, pat), if lo <= |ls| - |pat| + 1 then lo else |ls| - |pat| + 1, |ls| - |pat| + 1), mode)
  }

  ghost predicate FirstCandidate(ls: seq<Line>, pat: seq<Line>, cursor: nat, eof: bool, mode: Mode, i: nat)
  {
    && Candidate(ls, pat, cursor, eof, mode, i)
    && (forall k: nat :: k < i ==> !Candidate(ls, pat, cursor, eof, mode, k))
    && (forall stricter, k: nat :: Rank(stricter) < Rank(mode) ==> !Candidate(ls, pat, cursor, eof, stricter, k))
  }

  lemma CandidateRange(ls: seq<Line>, pat: seq<Line>, cursor: nat, eof: bool, mode: Mode, i: nat, lo: nat, hi: nat)
    requires |pat| >= 1 && Candidate(ls, pat, cursor, eof, mode, i)
    requires lo == StartAt(ls, pat, cursor, eof) && hi == |ls| - |pat| + 1
    ensures lo <= i < hi <= |ls| && IsRange(ls, pat, cursor, eof, lo, hi)
  {
  }

  lemma CandidateHits(ls: seq<Line>, pat: seq<Line>, cursor: nat, eof: bool, mode: Mode, i: nat, lo: nat, hi: nat)
    requires |pat| >= 1 && FirstCandidate(ls, pat, cursor, eof, mode, i)
    requires lo == StartAt(ls, pat, cursor, eof) && hi == |ls| - |pat| + 1
    ensures lo <= i < hi <= |ls| && IsRange(ls, pat, cursor, eof, lo, hi) && IsHit(ls, pat, lo, hi, MatchAt(ls, pat, lo, mode, i))
  {
    CandidateRange(ls, pat, cursor, eof, mode, i, lo, hi);
    InRange(ls, pat, cursor, eof, lo, hi, mode, i);
    forall k | lo <= k < i ensures !Windows(mode, ls, pat)[k] { InRange(ls, pat, cursor, eof, lo, hi, mode, k); }
    forall stricter | Rank(stricter) < Rank(mode) ensures None(Windows(stricter, ls, pat), lo, hi) {
      forall k | lo <= k < hi ensures !Windows(stricter, ls, pat)[k] { InRange(ls, pat, cursor, eof, lo, hi, stricter, k); }
    }
  }

  lemma MatchExtent(ls: seq<Line>, pat: seq<Line>, lo: nat, mode: Mode, i: nat)
    requires |pat| >= 1 && i + |pat| <= |ls| && lo <= i
    ensures HasExtent(ls, pat, lo, MatchAt(ls, pat, lo, mode, i))
  {
  }

  lemma ExtentPlaced(content: string, pat: seq<Line>, lo: nat, m: Match, i: nat)
    requires |pat| >= 1 && HasExtent(Lines(content), pat, lo, m) && m.line == i + 1
    ensures IsCut(content, pat, m) && Past(content, m) == LineStart(content, i + |pat|)
  {
    HitCuts(content, pat, lo, m);
    LineAfter(content, pat, m, i);
  }

  lemma CandidateHit(ls: seq<Line>, pat: seq<Line>, cursor: nat, eof: bool, mode: Mode, i: nat)
    returns (m: Match, lo: nat, hi: nat)
    requires |pat| >= 1 && FirstCandidate(ls, pat, cursor, eof, mode, i)
    ensures lo <= hi <= |ls| + 1 && IsRange(ls, pat, cursor, eof, lo, hi) && IsHit(ls, pat, lo, hi, m)
    ensures HasExtent(ls, pat, lo, m) && m.line == i + 1
  {
    lo, hi := StartAt(ls, pat, cursor, eof), |ls| - |pat| + 1;
    m := MatchAt(ls, pat, lo, mode, i);
    CandidateHits(ls, pat, cursor, eof, mode, i, lo, hi);
    MatchExtent(ls, pat, lo, mode, i);
  }

  lemma CandidateFound(content: string, pattern: string, cursor: nat, eof: bool, mode: Mode, i: nat) returns (m: Match)
    requires FirstCandidate(Lines(content), Split(pattern), cursor, eof, mode, i)
    ensures Finds(content, pattern, cursor, eof, m) && m.line == i + 1
    ensures Past(content, m) == LineStart(content, i + |Split(pattern)|)
  {
    var ls, pat := Lines(content), Split(pattern);
    var lo, hi;
    m, lo, hi := CandidateHit(ls, pat, cursor, eof, mode, i);
    ExtentPlaced(content, pat, lo, m, i);
    FoundBy(content, pattern, cursor, eof, m, lo, hi);
  }

  lemma FoundBy(content: string, pattern: string, cursor: nat, eof: bool, m: Match, lo: nat, hi: nat)
    requires IsCut(content, Split(pattern), m) && lo <= hi <= |Lines(content)| + 1
    requires IsRange(Lines(content), Split(pattern), cursor, eof, lo, hi) && IsHit(Lines(content), Split(pattern), lo, hi, m)
    ensures Finds(content, pattern, cursor, eof, m)
  {
    assert IsResult(content, Split(pattern), cursor, eof, Hit(m), lo, hi);
  }

  lemma PlaceFound(content: string, h: Hunk, at: nat, m: Match)
    requires h.line == 0 && h.anchors == [] && Finds(content, h.oldText, at, h.endOfFile, m)
    ensures IsPlace(content, h, at, [], At(m))
  {
    assert h.anchors[..0] == [];
  }

  lemma PlaceMissed(content: string, h: Hunk, at: nat)
    requires h.line == 0 && h.anchors == [] && Misses(content, h.oldText, at, h.endOfFile)
    ensures IsPlace(content, h, at, [], Nowhere(NotFound(h.oldText)))
  {
    assert h.anchors[..0] == [];
  }

  lemma MatchLength(content: string, pat: seq<Line>, m: Match)
    requires IsCut(content, pat, m)
    ensures m.length == |Join(Lines(content)[m.line - 1..m.line - 1 + |pat|])|
  {
    assert |content[m.offset..m.offset + m.length]| == m.length;
  }

  lemma FoundIsCut(content: string, pattern: string, cursor: nat, eof: bool, m: Match)
    requires Finds(content, pattern, cursor, eof, m)
    ensures IsCut(content, Split(pattern), m)
  {
  }

  /** The turn that replaces lines i and on, as many as the hunk's old text has. */
  ghost predicate ReplacesLines(c: Cursor, h: Hunk, i: nat) { ReplacesLinesBy(IsTurn, c, h, i) }

  ghost predicate ReplacesLinesBy(turns: TurnRelation, c: Cursor, h: Hunk, i: nat)
  {
    var ls, pat := Lines(c.content), Split(h.oldText);
    && i + |pat| <= |ls|
    && var start, length := Offset(ls, i), |Join(ls[i..i + |pat|])|;
      TurnsAt(turns, c, h, start, length)
  }

  ghost predicate TurnsAt(turns: TurnRelation, c: Cursor, h: Hunk, offset: nat, length: nat)
  {
    && offset + length <= |c.content|
    && turns(c, h, Turned(Cursor(c.content[..offset] + h.newText + c.content[offset + length..], offset + |h.newText|)))
  }

  lemma FoundTurns(c: Cursor, h: Hunk, m: Match)
    requires h.line == 0 && h.anchors == [] && h.oldText != "" && m.offset + m.length <= |c.content|
    requires Finds(c.content, h.oldText, c.at, h.endOfFile, m)
    ensures TurnsAt(IsTurn, c, h, m.offset, m.length)
  {
    PlaceFound(c.content, h, c.at, m);
    PlacedTurn(c, h, [], At(m),
      Turned(Cursor(c.content[..m.offset] + h.newText + c.content[m.offset + m.length..], m.offset + |h.newText|)));
  }

  lemma CutReplaces(turns: TurnRelation, c: Cursor, h: Hunk, m: Match, i: nat)
    requires IsCut(c.content, Split(h.oldText), m) && m.line == i + 1 && TurnsAt(turns, c, h, m.offset, m.length)
    ensures ReplacesLinesBy(turns, c, h, i)
  {
    MatchLength(c.content, Split(h.oldText), m);
  }

  lemma CandidateTurns(c: Cursor, h: Hunk, mode: Mode, i: nat) returns (m: Match)
    requires h.line == 0 && h.anchors == [] && h.oldText != ""
    requires FirstCandidate(Lines(c.content), Split(h.oldText), c.at, h.endOfFile, mode, i)
    ensures IsCut(c.content, Split(h.oldText), m) && m.line == i + 1 && TurnsAt(IsTurn, c, h, m.offset, m.length)
  {
    m := CandidateFound(c.content, h.oldText, c.at, h.endOfFile, mode, i);
    FoundIsCut(c.content, h.oldText, c.at, h.endOfFile, m);
    FoundTurns(c, h, m);
  }

  /** A hunk without hint and anchors replaces the first window that matches in the strictest mode that has one. */
  lemma HunkApplies(c: Cursor, h: Hunk, mode: Mode, i: nat)
    requires h.line == 0 && h.anchors == [] && h.oldText != ""
    requires FirstCandidate(Lines(c.content), Split(h.oldText), c.at, h.endOfFile, mode, i)
    ensures ReplacesLines(c, h, i)
  {
    var m := CandidateTurns(c, h, mode, i);
    CutReplaces(IsTurn, c, h, m, i);
  }

  /** Without any window that matches, such a hunk stops the update. */
  lemma HunkStops(c: Cursor, h: Hunk)
    requires h.line == 0 && h.anchors == [] && h.oldText != ""
    requires forall mode, i: nat :: !Candidate(Lines(c.content), Split(h.oldText), c.at, h.endOfFile, mode, i)
    ensures IsTurn(c, h, Stuck(NotFound(h.oldText)))
  {
    NothingMissed(c.content, h.oldText, c.at, h.endOfFile);
    PlaceMissed(c.content, h, c.at);
    PlacedTurn(c, h, [], Nowhere(NotFound(h.oldText)), Stuck(NotFound(h.oldText)));
  }

  lemma NothingMissed(content: string, pattern: string, cursor: nat, eof: bool)
    requires forall mode, i: nat :: !Candidate(Lines(content), Split(pattern), cursor, eof, mode, i)
    ensures Misses(content, pattern, cursor, eof)
  {
    var ls, pat := Lines(content), Split(pattern);
    var lo := if |pat| <= |ls| then StartAt(ls, pat, cursor, eof) else 0;
    var hi := if lo + |pat| <= |ls| then |ls| - |pat| + 1 else lo;
    if |pat| <= |ls| {
      forall mode ensures None(Windows(mode, ls, pat), lo, hi) {
        forall k | lo <= k < hi ensures !Windows(mode, ls, pat)[k] { InRange(ls, pat, cursor, eof, lo, hi, mode, k); }
      }
    }
    assert IsResult(content, pat, cursor, eof, Miss, lo, hi);
  }
}

/** claudetool/patch.go: the line index and the four-mode matcher of apply_patch. */
module PatchMatch {
  import opened Text

  // The line index

  /** applyPatchLines: the lines, without the empty one after a final newline. */
  function Lines(content: string): (ls: seq<Line>)
    ensures AllPlain(ls)
  {
    var ls := Split(content);
    if HasSuffix(content, "\n") then ls[..|ls| - 1] else ls
  }

  function Offset(ls: seq<Line>, i: nat): nat
    requires i <= |ls|
  {
    if i == 0 then 0 else Offset(ls, i - 1) + |ls[i - 1]| + 1
  }

  method LineIndex(content: string) returns (ls: seq<Line>, offsets: seq<nat>)
    ensures ls == Lines(content) && |offsets| == |ls|
    ensures forall i :: 0 <= i < |ls| ==> offsets[i] == Offset(ls, i)
  {
    ls := Lines(content);
    offsets := [];
    var offset := 0;
    for i := 0 to |ls|
      invariant |offsets| == i && offset == Offset(ls, i)
      invariant forall k :: 0 <= k < i ==> offsets[k] == Offset(ls, k)
    {
      offsets := offsets + [offset];
      offset := offset + |ls[i]| + 1;
    }
  }

  lemma {:induction false} OffsetMono(ls: seq<Line>, i: nat, j: nat)
    requires i <= j <= |ls|
    ensures Offset(ls, i) <= Offset(ls, j)
    decreases j
  {
    if i < j { OffsetMono(ls, i, j - 1); }
  }

  /** The lines, each with its newline. */
  ghost function Terminated(ls: seq<Line>): string
  {
    if ls == [] then "" else ls[0] + "\n" + Terminated(ls[1..])
  }

  lemma {:induction false} TerminatedLength(ls: seq<Line>, i: nat)
    requires i <= |ls|
    ensures |Terminated(ls[..i])| == Offset(ls, i)
  {
    if i > 0 {
      TerminatedLength(ls, i - 1);
      TerminatedSnoc(ls[..i - 1], ls[i - 1]);
      assert ls[..i] == ls[..i - 1] + [ls[i - 1]];
    }
  }

  lemma {:induction false} TerminatedSnoc(ls: seq<Line>, l: Line)
    ensures Terminated(ls + [l]) == Terminated(ls) + l + "\n"
  {
    if ls == [] {
      assert ls + [l] == [l] && [l][1..] == [];
    } else {
      TerminatedSnoc(ls[1..], l);
      assert (ls + [l])[1..] == ls[1..] + [l];
    }
  }

  lemma {:induction false} JoinFrom(ls: seq<Line>, i: nat)
    requires i < |ls|
    ensures Join(ls) == Terminated(ls[..i]) + Join(ls[i..])
  {
    if i == 0 {
      assert ls[..0] == [] && ls[0..] == ls;
    } else {
      JoinFrom(ls[1..], i - 1);
      assert ls[1..][..i - 1] == ls[..i][1..] && ls[1..][i - 1..] == ls[i..];
    }
  }

  lemma {:induction false} JoinUpTo(ls: seq<Line>, n: nat)
    requires 0 < n <= |ls|
    ensures Join(ls[..n]) <= Join(ls)
  {
    if n == |ls| {
      assert ls[..n] == ls;
    } else if n == 1 {
      assert ls[..1] == [ls[0]];
    } else {
      JoinUpTo(ls[1..], n - 1);
      assert ls[..n][1..] == ls[1..][..n - 1];
    }
  }

  lemma LinesJoin(content: string)
    ensures Lines(content) == [] ==> content == ""
    ensures Lines(content) != [] ==> Join(Lines(content)) <= content
  {
    JoinSplit(content);
    var ls := Split(content);
    assert |ls| == 1 ==> ls[0] == content;
    assert HasSuffix(content, "\n") ==> content[|content| - 1] == '\n';
    if HasSuffix(content, "\n") && |ls| > 1 {
      JoinUpTo(ls, |ls| - 1);
    }
  }

  /** The text of lines i up to j, cut out of the content by the index. */
  lemma CutLines(content: string, i: nat, j: nat)
    requires i < j <= |Lines(content)|
    ensures var ls := Lines(content);
      && Offset(ls, i) <= Offset(ls, j - 1) + |ls[j - 1]| <= |content|
      && content[Offset(ls, i)..Offset(ls, j - 1) + |ls[j - 1]|] == Join(ls[i..j])
  {
    var ls := Lines(content);
    LinesJoin(content);
    var tail := ls[i..];
    JoinFrom(ls, i);
    TerminatedLength(ls, i);
    JoinUpTo(tail, j - i);
    assert tail[..j - i] == ls[i..j];
    JoinLength(ls, i, j);
    var head := Terminated(ls[..i]);
    assert head + Join(ls[i..j]) <= Join(ls) <= content;
    assert content[|head|..|head| + |Join(ls[i..j])|] == Join(ls[i..j]);
  }

  lemma {:induction false} JoinLength(ls: seq<Line>, i: nat, j: nat)
    requires i < j <= |ls|
    ensures Offset(ls, i) + |Join(ls[i..j])| == Offset(ls, j - 1) + |ls[j - 1]|
    decreases j - i
  {
    if j == i + 1 {
      assert ls[i..j] == [ls[i]];
    } else {
      JoinLength(ls, i + 1, j);
      assert ls[i..j][1..] == ls[i + 1..j];
    }
  }

  // The modes

  datatype Mode = Exact | TrailingSpace | SurroundingSpace | UnicodeNormalized

  /** The order in which the modes are tried. */
  function Rank(mode: Mode): nat
  {
    match mode case Exact => 0 case TrailingSpace => 1 case SurroundingSpace => 2 case UnicodeNormalized => 3
  }

  function ModeAt(k: nat): (mode: Mode)
    requires k < 4
    ensures Rank(mode) == k
  {
    if k == 0 then Exact else if k == 1 then TrailingSpace else if k == 2 then SurroundingSpace else UnicodeNormalized
  }

  function NormalizeChar(c: char): char
  {
    if '\U{2010}' <= c <= '\U{2015}' || c == '\U{2212}' then '-'
    else if '\U{2018}' <= c <= '\U{201B}' then '\''
    else if '\U{201C}' <= c <= '\U{201F}' then '"'
    else if '\U{2002}' <= c <= '\U{200A}' then ' '
    else if c == '\U{A0}' || c == '\U{202F}' || c == '\U{205F}' || c == '\U{3000}' then ' '
    else c
  }

  /** strings.Map */
  function MapChars(s: string): string
  {
    if s == [] then [] else [NormalizeChar(s[0])] + MapChars(s[1..])
  }

  function Normalize(l: Line): Line { MapChars(TrimSpace(l)) }

  predicate LineEqual(mode: Mode, a: Line, b: Line)
  {
    match mode
    case Exact => a == b
    case TrailingSpace => TrimRight(a) == TrimRight(b)
    case SurroundingSpace => TrimSpace(a) == TrimSpace(b)
    case UnicodeNormalized => Normalize(a) == Normalize(b)
  }

  ghost predicate LinesEqual(mode: Mode, a: seq<Line>, b: seq<Line>)
  {
    |a| == |b| && forall k :: 0 <= k < |a| ==> LineEqual(mode, a[k], b[k])
  }

  ghost predicate MatchesFrom(mode: Mode, ls: seq<Line>, pat: seq<Line>, i: nat, j: nat)
    requires i + |pat| <= |ls| && j <= |pat|
    decreases |pat| - j
  {
    j == |pat| || (LineEqual(mode, ls[i + j], pat[j]) && MatchesFrom(mode, ls, pat, i, j + 1))
  }

  ghost predicate WindowMatches(mode: Mode, ls: seq<Line>, pat: seq<Line>, i: nat)
  {
    i + |pat| <= |ls| && MatchesFrom(mode, ls, pat, i, 0)
  }

  lemma {:induction false} MatchesFromLines(mode: Mode, ls: seq<Line>, pat: seq<Line>, i: nat, j: nat)
    requires i + |pat| <= |ls| && j <= |pat|
    ensures MatchesFrom(mode, ls, pat, i, j) <==> forall k :: j <= k < |pat| ==> LineEqual(mode, ls[i + k], pat[k])
    decreases |pat| - j
  {
    if j < |pat| { MatchesFromLines(mode, ls, pat, i, j + 1); }
  }

  lemma WindowIsLines(mode: Mode, ls: seq<Line>, pat: seq<Line>, i: nat)
    requires i + |pat| <= |ls|
    ensures WindowMatches(mode, ls, pat, i) <==> LinesEqual(mode, ls[i..i + |pat|], pat)
  {
    MatchesFromLines(mode, ls, pat, i, 0);
    var w := ls[i..i + |pat|];
    assert forall k {:trigger pat[k]} :: 0 <= k < |pat| ==> w[k] == ls[i + k];
  }

  lemma LineNests(m: Mode, n: Mode, a: Line, b: Line)
    requires Rank(m) <= Rank(n) && LineEqual(m, a, b)
    ensures LineEqual(n, a, b)
  {
    match m {
      case Exact =>
      case TrailingSpace => assert n != TrailingSpace ==> TrimSpace(a) == TrimSpace(b);
      case SurroundingSpace =>
      case UnicodeNormalized =>
    }
  }

  /** Each mode accepts whatever a stricter one accepts. */
  lemma ModesNest(m: Mode, n: Mode, a: seq<Line>, b: seq<Line>)
    requires Rank(m) <= Rank(n) && LinesEqual(m, a, b)
    ensures LinesEqual(n, a, b)
  {
    forall k | 0 <= k < |a| ensures LineEqual(n, a[k], b[k]) { LineNests(m, n, a[k], b[k]); }
  }

  /** Which windows match. */
  ghost function Windows(mode: Mode, ls: seq<Line>, pat: seq<Line>): (ws: seq<bool>)
    ensures |ws| == |ls| + 1
  {
    seq(|ls| + 1, i requires 0 <= i <= |ls| => WindowMatches(mode, ls, pat, i))
  }

  method WindowAt(mode: Mode, ls: seq<Line>, pat: seq<Line>, i: nat) returns (matched: bool)
    requires i + |pat| <= |ls|
    ensures matched == Windows(mode, ls, pat)[i]
  {
    for j := 0 to |pat|
      invariant WindowMatches(mode, ls, pat, i) == MatchesFrom(mode, ls, pat, i, j)
    {
      if !LineEqual(mode, ls[i + j], pat[j]) { return false; }
    }
    return true;
  }

  ghost function Count(ws: seq<bool>, lo: nat, hi: nat): nat
    requires lo <= hi <= |ws|
  {
    if lo == hi then 0 else Count(ws, lo, hi - 1) + if ws[hi - 1] then 1 else 0
  }

  ghost predicate None(ws: seq<bool>, lo: nat, hi: nat)
    requires lo <= hi <= |ws|
  {
    forall i :: lo <= i < hi ==> !ws[i]
  }

  // findApplyPatchMatch

  datatype Match = Match(offset: nat, length: nat, line: nat, searchLine: nat, candidates: nat, mode: Mode)
  datatype Search = Hit(m: Match) | Miss

  /** The first line that starts at or after the cursor. */
  ghost predicate IsStart(ls: seq<Line>, cursor: nat, start: nat)
  {
    && start <= |ls|
    && (forall i: nat :: i < start ==> Offset(ls, i) < cursor)
    && (start < |ls| ==> Offset(ls, start) >= cursor)
  }

  /** The windows [lo, hi) a search looks at. */
  ghost predicate IsRange(ls: seq<Line>, pat: seq<Line>, cursor: nat, eof: bool, lo: nat, hi: nat)
  {
    if eof then |pat| <= |ls| && lo == |ls| - |pat| && hi == lo + 1
    else IsStart(ls, cursor, lo) && hi == if lo + |pat| <= |ls| then |ls| - |pat| + 1 else lo
  }

  /** The first window of the strictest mode that has one, with its extent and the number of its rivals. */
  ghost predicate IsHit(ls: seq<Line>, pat: seq<Line>, lo: nat, hi: nat, m: Match)
    requires lo <= hi <= |ls| + 1
  {
    && lo <= m.line - 1 < hi && m.searchLine == lo + 1
    && (forall stricter :: Rank(stricter) < Rank(m.mode) ==> None(Windows(stricter, ls, pat), lo, hi))
    && var ws := Windows(m.mode, ls, pat);
      ws[m.line - 1] && None(ws, lo, m.line - 1) && m.candidates == Count(ws, lo, hi)
  }

  /** What a search promises of its result, given the windows [lo, hi) it looked at. */
  ghost predicate IsResult(content: string, pat: seq<Line>, cursor: nat, eof: bool, r: Search, lo: nat, hi: nat)
  {
    var ls := Lines(content);
    if |pat| > |ls| then r.Miss?
    else
      && IsRange(ls, pat, cursor, eof, lo, hi) && lo <= hi <= |ls| + 1
      && (r.Miss? ==> forall mode :: None(Windows(mode, ls, pat), lo, hi))
      && (r.Hit? ==> IsHit(ls, pat, lo, hi, r.m))
  }

  /** A hit's extent cuts out exactly the lines of its window. */
  ghost predicate IsCut(content: string, pat: seq<Line>, m: Match)
  {
    var ls := Lines(content);
    && 1 <= m.line && m.line - 1 + |pat| <= |ls|
    && m.offset == Offset(ls, m.line - 1) && m.offset + m.length <= |content|
    && content[m.offset..m.offset + m.length] == Join(ls[m.line - 1..m.line - 1 + |pat|])
  }

  lemma RangeEnd(ls: seq<Line>, pat: seq<Line>, cursor: nat, eof: bool, start: nat, end: nat)
    requires 1 <= |pat| <= |ls|
    requires if eof then start == |ls| - |pat| else IsStart(ls, cursor, start)
    requires end == if start + |pat| <= |ls| then |ls| - |pat| + 1 else start
    ensures start <= end <= |ls| + 1 && (start < end ==> end + |pat| == |ls| + 1) && IsRange(ls, pat, cursor, eof, start, end)
  {
  }

  lemma ExtentCuts(content: string, i: nat, j: nat, offset: nat, length: nat)
    requires i < j <= |Lines(content)| && offset == Offset(Lines(content), i)
    requires offset + length == Offset(Lines(content), j - 1) + |Lines(content)[j - 1]|
    ensures offset + length <= |content| && content[offset..offset + length] == Join(Lines(content)[i..j])
  {
    CutLines(content, i, j);
  }

  lemma HitCuts(content: string, pat: seq<Line>, start: nat, m: Match)
    requires |pat| >= 1 && HasExtent(Lines(content), pat, start, m)
    ensures IsCut(content, pat, m)
  {
    ExtentCuts(content, m.line - 1, m.line - 1 + |pat|, m.offset, m.length);
  }

  lemma HitPastCursor(ls: seq<Line>, pat: seq<Line>, cursor: nat, start: nat, m: Match)
    requires |pat| >= 1 && HasExtent(ls, pat, start, m) && IsStart(ls, cursor, start)
    ensures cursor <= m.offset
  {
    OffsetMono(ls, start, m.line - 1);
  }

  method FindMatch(content: string, pattern: string, cursor: nat, eof: bool) returns (r: Search, ghost lo: nat, ghost hi: nat)
    ensures IsResult(content, Split(pattern), cursor, eof, r, lo, hi)
    ensures r.Hit? ==> IsCut(content, Split(pattern), r.m)
    ensures r.Hit? && !eof ==> cursor <= r.m.offset
    ensures r.Miss? ==> forall mode, i: nat :: !Candidate(Lines(content), Split(pattern), cursor, eof, mode, i)
    ensures r.Hit? ==> IsFirst(Lines(content), Split(pattern), cursor, eof, r.m)
  {
    r, lo, hi := Scan(content, pattern, cursor, eof);
    ResultMeans(content, Split(pattern), cursor, eof, r, lo, hi);
  }

  method Scan(content: string, pattern: string, cursor: nat, eof: bool) returns (r: Search, ghost lo: nat, ghost hi: nat)
    ensures IsResult(content, Split(pattern), cursor, eof, r, lo, hi)
    ensures r.Hit? ==> IsCut(content, Split(pattern), r.m)
    ensures r.Hit? && !eof ==> cursor <= r.m.offset
  {
    var ls, offsets := LineIndex(content);
    var pat := Split(pattern);
    if |pat| > |ls| { return Miss, 0, 0; }
    var start := StartLine(ls, offsets, cursor);
    if eof { start := |ls| - |pat|; }
    var end := if start + |pat| <= |ls| then |ls| - |pat| + 1 else start;
    RangeEnd(ls, pat, cursor, eof, start, end);
    r := SearchModes(ls, offsets, pat, start, end);
    lo, hi := start, end;
    if r.Hit? {
      HitCuts(content, pat, start, r.m);
      if !eof { HitPastCursor(ls, pat, cursor, start, r.m); }
    }
  }

  // What a result means, line by line

  /** Lines i and on, within the search's range, equal the pattern in the mode. */
  ghost predicate Candidate(ls: seq<Line>, pat: seq<Line>, cursor: nat, eof: bool, mode: Mode, i: nat)
  {
    && i + |pat| <= |ls| && (if eof then i + |pat| == |ls| else Offset(ls, i) >= cursor)
    && LinesEqual(mode, ls[i..i + |pat|], pat)
  }

  lemma InRange(ls: seq<Line>, pat: seq<Line>, cursor: nat, eof: bool, lo: nat, hi: nat, mode: Mode, i: nat)
    requires 1 <= |pat| <= |ls| && IsRange(ls, pat, cursor, eof, lo, hi) && i <= |ls|
    ensures Candidate(ls, pat, cursor, eof, mode, i) <==> lo <= i < hi && Windows(mode, ls, pat)[i]
  {
    if i + |pat| <= |ls| {
      WindowIsLines(mode, ls, pat, i);
      if !eof && lo <= i { OffsetMono(ls, lo, i); }
    }
  }

  lemma {:induction false} CountIsSize(ws: seq<bool>, lo: nat, hi: nat)
    requires lo <= hi <= |ws|
    ensures Count(ws, lo, hi) == |set i: nat | lo <= i < hi && ws[i]|
    decreases hi
  {
    var here := set i: nat | lo <= i < hi && ws[i];
    if lo == hi {
      assert here == {};
    } else {
      CountIsSize(ws, lo, hi - 1);
      var before := set i: nat | lo <= i < hi - 1 && ws[i];
      assert here == if ws[hi - 1] then before + {hi - 1} else before;
    }
  }

  ghost function Candidates(ls: seq<Line>, pat: seq<Line>, cursor: nat, eof: bool, mode: Mode): set<nat>
  {
    set i: nat | i <= |ls| && Candidate(ls, pat, cursor, eof, mode, i)
  }

  /** The first candidate of the strictest mode that has one, and how many it has. */
  ghost predicate IsFirst(ls: seq<Line>, pat: seq<Line>, cursor: nat, eof: bool, m: Match)
  {
    && 1 <= m.line && Candidate(ls, pat, cursor, eof, m.mode, m.line - 1)
    && (forall i: nat :: i < m.line - 1 ==> !Candidate(ls, pat, cursor, eof, m.mode, i))
    && (forall mode, i: nat :: Rank(mode) < Rank(m.mode) ==> !Candidate(ls, pat, cursor, eof, mode, i))
    && m.candidates == |Candidates(ls, pat, cursor, eof, m.mode)|
  }

  lemma HitIsFirst(ls: seq<Line>, pat: seq<Line>, cursor: nat, eof: bool, lo: nat, hi: nat, m: Match)
    requires 1 <= |pat| <= |ls| && IsRange(ls, pat, cursor, eof, lo, hi) && lo <= hi <= |ls| + 1 && IsHit(ls, pat, lo, hi, m)
    ensures IsFirst(ls, pat, cursor, eof, m)
  {
    InRange(ls, pat, cursor, eof, lo, hi, m.mode, m.line - 1);
    forall i: nat | i < m.line - 1 ensures !Candidate(ls, pat, cursor, eof, m.mode, i) {
      InRange(ls, pat, cursor, eof, lo, hi, m.mode, i);
    }
    forall mode, i: nat | Rank(mode) < Rank(m.mode) ensures !Candidate(ls, pat, cursor, eof, mode, i) {
      if i <= |ls| { InRange(ls, pat, cursor, eof, lo, hi, mode, i); }
    }
    HitCount(ls, pat, cursor, eof, lo, hi, m);
  }

  lemma HitCount(ls: seq<Line>, pat: seq<Line>, cursor: nat, eof: bool, lo: nat, hi: nat, m: Match)
    requires 1 <= |pat| <= |ls| && IsRange(ls, pat, cursor, eof, lo, hi) && lo <= hi <= |ls| + 1 && IsHit(ls, pat, lo, hi, m)
    ensures m.candidates == |Candidates(ls, pat, cursor, eof, m.mode)|
  {
    var ws := Windows(m.mode, ls, pat);
    CountIsSize(ws, lo, hi);
    forall i: nat ensures i in Candidates(ls, pat, cursor, eof, m.mode) <==> i in set k: nat | lo <= k < hi && ws[k] {
      if i <= |ls| { InRange(ls, pat, cursor, eof, lo, hi, m.mode, i); }
    }
    assert Candidates(ls, pat, cursor, eof, m.mode) == set k: nat | lo <= k < hi && ws[k];
  }

  /** A search hits exactly when there is a candidate, and then the first of the strictest mode. */
  lemma ResultMeans(content: string, pat: seq<Line>, cursor: nat, eof: bool, r: Search, lo: nat, hi: nat)
    requires |pat| >= 1 && IsResult(content, pat, cursor, eof, r, lo, hi)
    ensures r.Miss? ==> forall mode, i: nat :: !Candidate(Lines(content), pat, cursor, eof, mode, i)
    ensures r.Hit? ==> IsFirst(Lines(content), pat, cursor, eof, r.m)
  {
    var ls := Lines(content);
    if |pat| <= |ls| {
      if r.Hit? { HitIsFirst(ls, pat, cursor, eof, lo, hi, r.m); }
      if r.Miss? {
        forall mode, i: nat ensures !Candidate(ls, pat, cursor, eof, mode, i) {
          if i <= |ls| {
            assert None(Windows(mode, ls, pat), lo, hi);
            InRange(ls, pat, cursor, eof, lo, hi, mode, i);
          }
        }
      }
    }
  }

  /** The lines put together again are the content, with its final newline if it has one. */
  lemma LinesExact(content: string)
    ensures AllPlain(Lines(content))
    ensures if content != "" && content[|content| - 1] == '\n' then content == Terminated(Lines(content))
      else Lines(content) != [] && content == Join(Lines(content))
  {
    var ls := Split(content);
    JoinSplit(content);
    assert HasSuffix(content, "\n") <==> content != "" && content[|content| - 1] == '\n';
    if HasSuffix(content, "\n") { SplitEnds(content); TerminatedJoin(ls[..|ls| - 1]); assert ls == ls[..|ls| - 1] + [""]; }
  }

  lemma {:induction false} SplitEnds(content: string)
    requires content != "" && content[|content| - 1] == '\n'
    ensures var ls := Split(content); |ls| > 1 && ls[|ls| - 1] == ""
    decreases |content|
  {
    if |content| > 1 { SplitEnds(content[1..]); }
  }

  lemma {:induction false} TerminatedJoin(ls: seq<Line>)
    ensures Join(ls + [""]) == Terminated(ls)
  {
    if ls == [] {
      assert ls + [""] == [""];
    } else {
      TerminatedJoin(ls[1..]);
      assert (ls + [""])[1..] == ls[1..] + [""];
    }
  }

  ghost predicate HasExtent(ls: seq<Line>, pat: seq<Line>, start: nat, m: Match)
    requires |pat| >= 1
  {
    && 1 <= m.line && start <= m.line - 1 && m.line - 1 + |pat| <= |ls| && m.offset == Offset(ls, m.line - 1)
    && var last := m.line - 1 + |pat| - 1; m.offset + m.length == Offset(ls, last) + |ls[last]|
  }

  method SearchModes(ls: seq<Line>, offsets: seq<nat>, pat: seq<Line>, start: nat, end: nat) returns (r: Search)
    requires |offsets| == |ls| && (forall i :: 0 <= i < |ls| ==> offsets[i] == Offset(ls, i)) && |pat| >= 1
    requires start <= end <= |ls| + 1 && (start < end ==> end + |pat| == |ls| + 1)
    ensures r.Miss? ==> forall mode :: None(Windows(mode, ls, pat), start, end)
    ensures r.Hit? ==> IsHit(ls, pat, start, end, r.m)
    ensures r.Hit? ==> HasExtent(ls, pat, start, r.m)
  {
    for k := 0 to 4
      invariant forall mode :: Rank(mode) < k ==> None(Windows(mode, ls, pat), start, end)
    {
      var first, candidates := FirstWindow(ModeAt(k), ls, pat, start, end);
      if candidates > 0 {
        var last := first + |pat| - 1;
        OffsetMono(ls, first, last);
        return Hit(Match(offsets[first], offsets[last] + |ls[last]| - offsets[first], first + 1, start + 1, candidates, ModeAt(k)));
      }
      forall mode | Rank(mode) == k ensures None(Windows(mode, ls, pat), start, end) { assert mode == ModeAt(k); }
    }
    return Miss;
  }

  method StartLine(ls: seq<Line>, offsets: seq<nat>, cursor: nat) returns (start: nat)
    requires |offsets| == |ls| && forall i :: 0 <= i < |ls| ==> offsets[i] == Offset(ls, i)
    ensures IsStart(ls, cursor, start)
  {
    start := 0;
    while start < |offsets| && offsets[start] < cursor
      invariant start <= |offsets| && forall i: nat :: i < start ==> Offset(ls, i) < cursor
    {
      start := start + 1;
    }
  }

  /** What one pass over the windows up to hi has found. */
  ghost predicate Tallied(ws: seq<bool>, lo: nat, hi: nat, first: nat, candidates: nat)
    requires lo <= hi <= |ws|
  {
    && candidates == Count(ws, lo, hi)
    && (candidates == 0 ==> None(ws, lo, hi))
    && (candidates > 0 ==> lo <= first < hi && ws[first] && None(ws, lo, first))
  }

  lemma TallyOne(ws: seq<bool>, lo: nat, i: nat, first: nat, candidates: nat)
    requires lo <= i < |ws| && Tallied(ws, lo, i, first, candidates)
    ensures ws[i] ==> Tallied(ws, lo, i + 1, if candidates == 0 then i else first, candidates + 1)
    ensures !ws[i] ==> Tallied(ws, lo, i + 1, first, candidates)
  {
  }

  /** One pass over the windows: where the first match is and how many there are. */
  method FirstWindow(mode: Mode, ls: seq<Line>, pat: seq<Line>, lo: nat, hi: nat) returns (first: nat, candidates: nat)
    requires lo <= hi <= |ls| + 1 && (lo < hi ==> hi + |pat| <= |ls| + 1)
    ensures Tallied(Windows(mode, ls, pat), lo, hi, first, candidates)
  {
    first, candidates := 0, 0;
    for i := lo to hi
      invariant Tallied(Windows(mode, ls, pat), lo, i, first, candidates)
    {
      var matched := WindowAt(mode, ls, pat, i);
      TallyOne(Windows(mode, ls, pat), lo, i, first, candidates);
      if matched {
        if candidates == 0 { first := i; }
        candidates := candidates + 1;
      }
    }
  }
}

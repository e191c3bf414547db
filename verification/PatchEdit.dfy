/**
 * claudetool/patch.go: the forward-cursor loop that applies one file's hunks.
 * Offsets count code points.
 */
module PatchEdit {
  import opened Text
  import opened PatchMatch

  datatype Hunk = Hunk(oldText: string, newText: string, line: nat, anchors: seq<string>, endOfFile: bool)

  datatype Error = LineHintOutside(line: nat) | AnchorNotFound(anchor: string) | NotFound(oldText: string)
  datatype Result = Ok(content: string) | Err(error: Error)

  // Replacing disjoint regions of a text

  /** original[start..end] becomes text. */
  datatype Region = Region(start: nat, end: nat, text: string)

  ghost function LastEnd(rs: seq<Region>): nat { if rs == [] then 0 else rs[|rs| - 1].end }

  /** The regions lie in order in the original and do not overlap. */
  ghost predicate Ordered(original: string, rs: seq<Region>)
  {
    rs == [] ||
    (var r, before := rs[|rs| - 1], rs[..|rs| - 1];
     Ordered(original, before) && LastEnd(before) <= r.start <= r.end <= |original|)
  }

  /** The edited text up to the end of the last region. */
  ghost function Edited(original: string, rs: seq<Region>): string
    requires Ordered(original, rs)
  {
    if rs == [] then ""
    else
      var r, before := rs[|rs| - 1], rs[..|rs| - 1];
      Edited(original, before) + original[LastEnd(before)..r.start] + r.text
  }

  ghost function Splice(original: string, rs: seq<Region>): string
    requires Ordered(original, rs)
  {
    LastEndInside(original, rs);
    Edited(original, rs) + original[LastEnd(rs)..]
  }

  lemma LastEndInside(original: string, rs: seq<Region>)
    requires Ordered(original, rs)
    ensures LastEnd(rs) <= |original|
  {
  }

  /** What a region has to do with the hunk it comes from. */
  ghost predicate Serves(original: string, h: Hunk, r: Region)
  {
    if h.oldText == "" then
      r.start == r.end == |original| && Padded(h.newText, r.text)
    else
      && r.start <= r.end <= |original| && r.text == h.newText
      && LinesEqual(UnicodeNormalized, Split(original[r.start..r.end]), Split(h.oldText))
  }

  /** The text, possibly with newlines put around it. */
  ghost predicate Padded(text: string, padded: string)
  {
    padded == text || padded == text + "\n" || padded == "\n" + text || padded == "\n" + text + "\n"
  }

  ghost predicate ServesAll(original: string, hs: seq<Hunk>, rs: seq<Region>)
  {
    |rs| == |hs| && forall i :: 0 <= i < |hs| ==> Serves(original, hs[i], rs[i])
  }

  // The loop's invariant: behind the cursor the text is edited, from it on it is the original's tail

  ghost predicate Spliced(original: string, rs: seq<Region>, content: string, cursor: nat)
  {
    && Ordered(original, rs) && content == Splice(original, rs)
    && cursor == |Edited(original, rs)|
  }

  lemma ReplaceRegion(original: string, rs: seq<Region>, content: string, cursor: nat, at: nat, len: nat, text: string)
    returns (r: Region)
    requires Spliced(original, rs, content, cursor) && cursor <= at && at + len <= |content|
    ensures r.text == text && r.start <= r.end <= |original| && original[r.start..r.end] == content[at..at + len]
    ensures Spliced(original, rs + [r], content[..at] + text + content[at + len..], at + |text|)
  {
    var e, last := Edited(original, rs), LastEnd(rs);
    LastEndInside(original, rs);
    r := Region(last + (at - |e|), last + (at - |e|) + len, text);
    assert (rs + [r])[..|rs|] == rs;
    assert content[..at] == e + original[last..r.start];
    assert content[at..at + len] == original[r.start..r.end];
    assert content[at + len..] == original[r.end..];
  }

  lemma AppendRegion(original: string, rs: seq<Region>, content: string, cursor: nat, text: string) returns (r: Region)
    requires Spliced(original, rs, content, cursor)
    ensures r == Region(|original|, |original|, text)
    ensures Spliced(original, rs + [r], content + text, |content + text|)
  {
    LastEndInside(original, rs);
    r := Region(|original|, |original|, text);
    assert (rs + [r])[..|rs|] == rs;
    assert original[|original|..] == [];
  }

  lemma HitMatches(content: string, pat: seq<Line>, cursor: nat, eof: bool, r: Search, lo: nat, hi: nat)
    requires r.Hit? && IsResult(content, pat, cursor, eof, r, lo, hi)
    ensures 1 <= r.m.line && WindowMatches(r.m.mode, Lines(content), pat, r.m.line - 1)
  {
    var ws := Windows(r.m.mode, Lines(content), pat);
    assert ws[r.m.line - 1];
  }

  /** A hit's text is, line by line, what the hunk asks for. */
  lemma HitServes(content: string, oldText: string, m: Match)
    requires IsCut(content, Split(oldText), m) && WindowMatches(m.mode, Lines(content), Split(oldText), m.line - 1)
    ensures LinesEqual(UnicodeNormalized, Split(content[m.offset..m.offset + m.length]), Split(oldText))
  {
    var ls, pat, i := Lines(content), Split(oldText), m.line - 1;
    WindowIsLines(m.mode, ls, pat, i);
    ModesNest(m.mode, UnicodeNormalized, ls[i..i + |pat|], pat);
    SplitJoin(ls[i..i + |pat|]);
  }

  // The loop

  function Addition(content: string, newText: string): string
  {
    var a := if content != "" && !HasSuffix(content, "\n") then "\n" + newText else newText;
    if a != "" && !HasSuffix(a, "\n") then a + "\n" else a
  }

  lemma AdditionPads(content: string, newText: string)
    ensures Padded(newText, Addition(content, newText))
  {
  }

  /** applyPatchLineOffset */
  method LineOffset(content: string, line: nat) returns (ok: bool, offset: nat)
    ensures ok <==> 1 <= line <= |Lines(content)|
    ensures ok ==> offset == Offset(Lines(content), line - 1) <= |content|
  {
    var ls, offsets := LineIndex(content);
    if line < 1 || line > |offsets| { return false, 0; }
    CutLines(content, line - 1, line);
    return true, offsets[line - 1];
  }

  /** A search from the cursor on finds m. */
  ghost predicate Finds(content: string, pattern: string, cursor: nat, eof: bool, m: Match)
  {
    && IsCut(content, Split(pattern), m)
    && exists lo: nat, hi: nat :: IsResult(content, Split(pattern), cursor, eof, Hit(m), lo, hi)
  }

  /** A search from the cursor on finds nothing. */
  ghost predicate Misses(content: string, pattern: string, cursor: nat, eof: bool)
  {
    exists lo: nat, hi: nat :: IsResult(content, Split(pattern), cursor, eof, Miss, lo, hi)
  }

  method Find(content: string, pattern: string, cursor: nat, eof: bool) returns (r: Search)
    ensures r.Hit? ==> Finds(content, pattern, cursor, eof, r.m) && Extent(content, pattern, cursor, eof, r.m)
    ensures r.Miss? ==> Misses(content, pattern, cursor, eof)
  {
    ghost var lo, hi;
    r, lo, hi := FindMatch(content, pattern, cursor, eof);
    if r.Hit? { HitExtent(content, pattern, cursor, eof, r.m, lo, hi); }
  }

  lemma HitExtent(content: string, pattern: string, cursor: nat, eof: bool, m: Match, lo: nat, hi: nat)
    requires IsResult(content, Split(pattern), cursor, eof, Hit(m), lo, hi)
    requires IsCut(content, Split(pattern), m) && (!eof ==> cursor <= m.offset)
    ensures Extent(content, pattern, cursor, eof, m)
  {
    HitMatches(content, Split(pattern), cursor, eof, Hit(m), lo, hi);
    HitServes(content, pattern, m);
  }

  /** Where a hit lies, and that its text is line by line the pattern. */
  ghost predicate Extent(content: string, pattern: string, cursor: nat, eof: bool, m: Match)
  {
    && m.offset + m.length <= |content| && (!eof ==> cursor <= m.offset)
    && LinesEqual(UnicodeNormalized, Split(content[m.offset..m.offset + m.length]), Split(pattern))
  }

  /** The start of the line after a match. */
  function Past(content: string, m: Match): nat
  {
    var end := m.offset + m.length;
    if end < |content| && content[end] == '\n' then end + 1 else end
  }

  ghost function CursorAfter(content: string, start: nat, ms: seq<Match>): nat
  {
    if ms == [] then start else Past(content, ms[|ms| - 1])
  }

  /** What a search for an anchor from a cursor on may find. */
  type Finder = (string, nat, Match) -> bool

  ghost function AnchorFinder(content: string): Finder { (a: string, cursor: nat, m: Match) => Finds(content, a, cursor, false, m) }

  /** Each anchor is found from past the one before it. */
  ghost predicate AnchoredBy(finds: Finder, content: string, anchors: seq<string>, start: nat, ms: seq<Match>)
    requires |anchors| == |ms|
  {
    ms == [] ||
    (var n := |ms| - 1;
     AnchoredBy(finds, content, anchors[..n], start, ms[..n])
     && finds(anchors[n], CursorAfter(content, start, ms[..n]), ms[n]))
  }

  ghost predicate Anchored(content: string, anchors: seq<string>, start: nat, ms: seq<Match>)
    requires |anchors| == |ms|
  {
    AnchoredBy(AnchorFinder(content), content, anchors, start, ms)
  }

  method NextAnchor(content: string, anchor: string, cursor: nat, ghost before: seq<string>, ghost start: nat, ghost ms: seq<Match>)
    returns (r: Search)
    requires cursor <= |content| && |before| == |ms|
    requires Anchored(content, before, start, ms) && cursor == CursorAfter(content, start, ms)
    ensures r.Hit? ==> Anchored(content, before + [anchor], start, ms + [r.m]) && cursor <= Past(content, r.m) <= |content|
    ensures r.Miss? ==> Misses(content, anchor, cursor, false)
  {
    r := Find(content, anchor, cursor, false);
    if r.Hit? { AnchoredSnoc(content, before, start, ms, anchor, r.m); }
  }

  method SkipAnchors(content: string, anchors: seq<string>, start: nat)
    returns (cursor: nat, failed: nat, ghost ms: seq<Match>)
    requires start <= |content|
    ensures |ms| == failed <= |anchors| && start <= cursor <= |content|
    ensures Anchored(content, anchors[..failed], start, ms) && cursor == CursorAfter(content, start, ms)
    ensures failed < |anchors| ==> Misses(content, anchors[failed], cursor, false)
  {
    cursor, ms := start, [];
    for i := 0 to |anchors|
      invariant |ms| == i && start <= cursor <= |content|
      invariant Anchored(content, anchors[..i], start, ms) && cursor == CursorAfter(content, start, ms)
    {
      var r := NextAnchor(content, anchors[i], cursor, anchors[..i], start, ms);
      if r.Miss? { return cursor, i, ms; }
      assert anchors[..i + 1] == anchors[..i] + [anchors[i]];
      ms := ms + [r.m];
      cursor := Past(content, r.m);
    }
    assert anchors[..|anchors|] == anchors;
    return cursor, |anchors|, ms;
  }

  lemma AnchoredSnoc(content: string, anchors: seq<string>, start: nat, ms: seq<Match>, a: string, m: Match)
    requires |anchors| == |ms| && Anchored(content, anchors, start, ms)
    requires Finds(content, a, CursorAfter(content, start, ms), false, m)
    ensures Anchored(content, anchors + [a], start, ms + [m])
  {
    assert (anchors + [a])[..|ms|] == anchors && (ms + [m])[..|ms|] == ms;
  }

  ghost predicate NoEofHunks(hs: seq<Hunk>) { forall i :: 0 <= i < |hs| ==> !hs[i].endOfFile }

  ghost predicate Located(content: string, h: Hunk, cursor: nat, at: nat, len: nat)
  {
    && at + len <= |content| && (!h.endOfFile ==> cursor <= at)
    && LinesEqual(UnicodeNormalized, Split(content[at..at + len]), Split(h.oldText))
  }

  datatype Place = At(m: Match) | Nowhere(error: Error)

  /** The line hint only moves the cursor forward. */
  ghost function Hinted(content: string, h: Hunk, start: nat): nat
    requires h.line <= |Lines(content)|
  {
    if h.line > 0 && Offset(Lines(content), h.line - 1) > start then Offset(Lines(content), h.line - 1) else start
  }

  /**
   * What the search for a hunk comes to: the hint lies outside the file, some
   * anchor is not found past the ones before it (matched at ms), or the old text
   * is found or missed past all of them.
   */
  ghost predicate IsPlace(content: string, h: Hunk, start: nat, ms: seq<Match>, p: Place)
  {
    if h.line > |Lines(content)| then p == Nowhere(LineHintOutside(h.line))
    else
      && |ms| <= |h.anchors|
      && Anchored(content, h.anchors[..|ms|], Hinted(content, h, start), ms)
      && IsOutcome(content, h, CursorAfter(content, Hinted(content, h, start), ms), |ms|, p)
  }

  ghost predicate IsOutcome(content: string, h: Hunk, cursor: nat, found: nat, p: Place)
    requires found <= |h.anchors|
  {
    if found < |h.anchors| then
      p == Nowhere(AnchorNotFound(h.anchors[found])) && Misses(content, h.anchors[found], cursor, false)
    else
      match p
      case At(m) => Finds(content, h.oldText, cursor, h.endOfFile, m)
      case Nowhere(e) => e == NotFound(h.oldText) && Misses(content, h.oldText, cursor, h.endOfFile)
  }

  /** The line hint and the anchors move the cursor forward, then the hunk is searched for. */
  method Locate(content: string, h: Hunk, start: nat) returns (p: Place, ghost ms: seq<Match>)
    requires start <= |content|
    ensures IsPlace(content, h, start, ms, p)
    ensures p.At? ==> Located(content, h, start, p.m.offset, p.m.length)
  {
    var cursor := start;
    ms := [];
    if h.line > 0 {
      var ok, offset := LineOffset(content, h.line);
      if !ok { return Nowhere(LineHintOutside(h.line)), ms; }
      if offset > cursor { cursor := offset; }
    }
    p, ms := LocatePast(content, h, cursor);
  }

  method LocatePast(content: string, h: Hunk, start: nat) returns (p: Place, ghost ms: seq<Match>)
    requires start <= |content|
    ensures |ms| <= |h.anchors| && Anchored(content, h.anchors[..|ms|], start, ms)
    ensures IsOutcome(content, h, CursorAfter(content, start, ms), |ms|, p)
    ensures p.At? ==> Located(content, h, start, p.m.offset, p.m.length)
  {
    var next, found;
    next, found, ms := SkipAnchors(content, h.anchors, start);
    if found < |h.anchors| { return Nowhere(AnchorNotFound(h.anchors[found])), ms; }
    var r := Find(content, h.oldText, next, h.endOfFile);
    if r.Miss? { return Nowhere(NotFound(h.oldText)), ms; }
    return At(r.m), ms;
  }

  /** What the loop has achieved after the hunks hs. */
  ghost predicate Progress(original: string, hs: seq<Hunk>, rs: seq<Region>, content: string, cursor: nat)
  {
    && cursor <= |content|
    && (NoEofHunks(hs) ==> Spliced(original, rs, content, cursor) && ServesAll(original, hs, rs))
  }

  lemma ServesSnoc(original: string, hs: seq<Hunk>, rs: seq<Region>, h: Hunk, r: Region)
    requires ServesAll(original, hs, rs) && Serves(original, h, r)
    ensures ServesAll(original, hs + [h], rs + [r])
  {
  }

  lemma AppendStep(original: string, hs: seq<Hunk>, rs: seq<Region>, content: string, cursor: nat, h: Hunk)
    returns (rs': seq<Region>)
    requires Progress(original, hs, rs, content, cursor) && h.oldText == ""
    ensures var next := content + Addition(content, h.newText); Progress(original, hs + [h], rs', next, |next|)
  {
    rs' := rs;
    assert NoEofHunks(hs + [h]) ==> NoEofHunks(hs) by { assert hs == (hs + [h])[..|hs|]; }
    if NoEofHunks(hs) {
      AdditionPads(content, h.newText);
      var r := AppendRegion(original, rs, content, cursor, Addition(content, h.newText));
      ServesSnoc(original, hs, rs, h, r);
      rs' := rs + [r];
    }
  }

  lemma ReplaceOne(original: string, hs: seq<Hunk>, rs: seq<Region>, content: string, cursor: nat, h: Hunk, at: nat, len: nat)
    returns (rs': seq<Region>)
    requires Spliced(original, rs, content, cursor) && ServesAll(original, hs, rs)
    requires cursor <= at && at + len <= |content| && h.oldText != ""
    requires LinesEqual(UnicodeNormalized, Split(content[at..at + len]), Split(h.oldText))
    ensures Spliced(original, rs', content[..at] + h.newText + content[at + len..], at + |h.newText|)
    ensures ServesAll(original, hs + [h], rs')
  {
    var r := ReplaceRegion(original, rs, content, cursor, at, len, h.newText);
    ServesSnoc(original, hs, rs, h, r);
    rs' := rs + [r];
  }

  lemma ReplaceStep(original: string, hs: seq<Hunk>, rs: seq<Region>, content: string, cursor: nat, h: Hunk, at: nat, len: nat)
    returns (rs': seq<Region>)
    requires Progress(original, hs, rs, content, cursor) && h.oldText != "" && Located(content, h, cursor, at, len)
    ensures Progress(original, hs + [h], rs', content[..at] + h.newText + content[at + len..], at + |h.newText|)
  {
    rs' := rs;
    assert NoEofHunks(hs + [h]) ==> NoEofHunks(hs) && !h.endOfFile by {
      assert hs == (hs + [h])[..|hs|] && h == (hs + [h])[|hs|];
    }
    if NoEofHunks(hs) && !h.endOfFile {
      rs' := ReplaceOne(original, hs, rs, content, cursor, h, at, len);
    }
  }

  datatype Cursor = Cursor(content: string, at: nat)
  datatype Turn = Turned(next: Cursor) | Stuck(error: Error)

  /** One turn of the loop. */
  ghost predicate IsTurn(c: Cursor, h: Hunk, t: Turn)
  {
    if h.oldText == "" then
      var next := c.content + Addition(c.content, h.newText);
      t == Turned(Cursor(next, |next|))
    else exists p, ms :: IsPlace(c.content, h, c.at, ms, p) && IsEdit(c.content, h, p, t)
  }

  ghost predicate IsEdit(content: string, h: Hunk, p: Place, t: Turn)
  {
    match p
    case At(m) =>
      && m.offset + m.length <= |content|
      && t == Turned(Cursor(content[..m.offset] + h.newText + content[m.offset + m.length..], m.offset + |h.newText|))
    case Nowhere(e) => t == Stuck(e)
  }

  lemma PlacedTurn(c: Cursor, h: Hunk, ms: seq<Match>, p: Place, t: Turn)
    requires h.oldText != "" && IsPlace(c.content, h, c.at, ms, p) && IsEdit(c.content, h, p, t)
    ensures IsTurn(c, h, t)
  {
  }

  /** The edit at a place that was found, or none. */
  method EditAt(c: Cursor, h: Hunk, p: Place, ghost original: string, ghost hs: seq<Hunk>, ghost rs: seq<Region>)
    returns (t: Turn, ghost rs': seq<Region>)
    requires Progress(original, hs, rs, c.content, c.at) && h.oldText != ""
    requires p.At? ==> Located(c.content, h, c.at, p.m.offset, p.m.length)
    ensures IsEdit(c.content, h, p, t)
    ensures t.Turned? ==> Progress(original, hs + [h], rs', t.next.content, t.next.at)
  {
    if p.Nowhere? { return Stuck(p.error), rs; }
    rs' := ReplaceStep(original, hs, rs, c.content, c.at, h, p.m.offset, p.m.length);
    var at, end := p.m.offset, p.m.offset + p.m.length;
    t := Turned(Cursor(c.content[..at] + h.newText + c.content[end..], at + |h.newText|));
  }

  method ApplyHunk(c: Cursor, h: Hunk, ghost original: string, ghost hs: seq<Hunk>, ghost rs: seq<Region>)
    returns (t: Turn, ghost rs': seq<Region>)
    requires Progress(original, hs, rs, c.content, c.at)
    ensures IsTurn(c, h, t)
    ensures t.Turned? ==> Progress(original, hs + [h], rs', t.next.content, t.next.at)
  {
    if h.oldText == "" {
      rs' := AppendStep(original, hs, rs, c.content, c.at, h);
      var next := c.content + Addition(c.content, h.newText);
      return Turned(Cursor(next, |next|)), rs';
    }
    var p, ms := Locate(c.content, h, c.at);
    t, rs' := EditAt(c, h, p, original, hs, rs);
    PlacedTurn(c, h, ms, p, t);
  }

  type TurnRelation = (Cursor, Hunk, Turn) -> bool

  /** The turns of the loop, from the original on; the last one may be stuck. */
  ghost predicate IsRunBy(turns: TurnRelation, original: string, hs: seq<Hunk>, run: seq<Turn>)
  {
    && 1 <= |run| <= |hs| + 1 && run[0] == Turned(Cursor(original, 0))
    && forall i :: 0 <= i < |run| - 1 ==> run[i].Turned? && turns(run[i].next, hs[i], run[i + 1])
  }

  ghost predicate IsRun(original: string, hs: seq<Hunk>, run: seq<Turn>) { IsRunBy(IsTurn, original, hs, run) }

  lemma RunSnocBy(turns: TurnRelation, original: string, hs: seq<Hunk>, run: seq<Turn>, t: Turn)
    requires IsRunBy(turns, original, hs, run) && |run| <= |hs|
    requires run[|run| - 1].Turned? && turns(run[|run| - 1].next, hs[|run| - 1], t)
    ensures IsRunBy(turns, original, hs, run + [t])
  {
  }

  lemma RunSnoc(original: string, hs: seq<Hunk>, run: seq<Turn>, t: Turn)
    requires IsRun(original, hs, run) && |run| <= |hs|
    requires run[|run| - 1].Turned? && IsTurn(run[|run| - 1].next, hs[|run| - 1], t)
    ensures IsRun(original, hs, run + [t])
  {
    RunSnocBy(IsTurn, original, hs, run, t);
  }

  /** All turns succeed and lead to content. */
  ghost predicate UpdatesTo(original: string, hs: seq<Hunk>, content: string)
  {
    exists run: seq<Turn> :: IsRun(original, hs, run) && |run| == |hs| + 1 && EndsIn(run, content)
  }

  ghost predicate EndsIn(run: seq<Turn>, content: string)
  {
    run != [] && run[|run| - 1].Turned? && run[|run| - 1].next.content == content
  }

  /** Some turn is stuck, for the reason given. */
  ghost predicate StopsWith(original: string, hs: seq<Hunk>, e: Error)
  {
    exists run: seq<Turn> :: IsRun(original, hs, run) && run[|run| - 1] == Stuck(e)
  }

  /** content is the original with one region per hunk replaced, in hunk order and without overlap. */
  ghost predicate Edits(original: string, hs: seq<Hunk>, content: string)
  {
    exists rs: seq<Region> :: Ordered(original, rs) && ServesAll(original, hs, rs) && content == Splice(original, rs)
  }

  lemma ProgressEdits(original: string, hs: seq<Hunk>, rs: seq<Region>, content: string, cursor: nat)
    requires Progress(original, hs, rs, content, cursor) && NoEofHunks(hs)
    ensures Edits(original, hs, content)
  {
  }

  /** The edit loop; End-of-File hunks may come before earlier regions. */
  method UpdateContent(original: string, hunks: seq<Hunk>) returns (r: Result)
    ensures r.Ok? && NoEofHunks(hunks) ==> Edits(original, hunks, r.content)
    ensures r.Ok? ==> UpdatesTo(original, hunks, r.content)
    ensures r.Err? ==> StopsWith(original, hunks, r.error)
  {
    var c := Cursor(original, 0);
    ghost var regions: seq<Region>, run: seq<Turn> := [], [Turned(c)];
    assert Splice(original, []) == original;
    for i := 0 to |hunks|
      invariant Progress(original, hunks[..i], regions, c.content, c.at)
      invariant IsRun(original, hunks, run) && |run| == i + 1 && run[i] == Turned(c)
    {
      var t;
      t, regions := ApplyHunk(c, hunks[i], original, hunks[..i], regions);
      RunSnoc(original, hunks, run, t);
      run := run + [t];
      if t.Stuck? { return Err(t.error); }
      assert hunks[..i + 1] == hunks[..i] + [hunks[i]];
      c := t.next;
    }
    assert hunks[..|hunks|] == hunks;
    if NoEofHunks(hunks) { ProgressEdits(original, hunks, regions, c.content, c.at); }
    assert EndsIn(run, c.content);
    return Ok(c.content);
  }
}

/** claudetool/patch.go: the edit loop's result is determined by the file and the hunks. */
module PatchUnique {
  import opened Text
  import opened PatchMatch
  import opened PatchEdit

  lemma StartUnique(ls: seq<Line>, cursor: nat, a: nat, b: nat)
    requires IsStart(ls, cursor, a) && IsStart(ls, cursor, b)
    ensures a == b
  {
  }

  lemma RangeUnique(ls: seq<Line>, pat: seq<Line>, cursor: nat, eof: bool, lo: nat, hi: nat, lo': nat, hi': nat)
    requires IsRange(ls, pat, cursor, eof, lo, hi) && IsRange(ls, pat, cursor, eof, lo', hi')
    ensures lo == lo' && hi == hi'
  {
    if !eof { StartUnique(ls, cursor, lo, lo'); }
  }

  lemma HitUnique(ls: seq<Line>, pat: seq<Line>, lo: nat, hi: nat, m: Match, n: Match)
    requires lo <= hi <= |ls| + 1 && IsHit(ls, pat, lo, hi, m) && IsHit(ls, pat, lo, hi, n)
    ensures m.mode == n.mode && m.line == n.line && m.searchLine == n.searchLine && m.candidates == n.candidates
  {
    assert m.mode == ModeAt(Rank(m.mode)) && n.mode == ModeAt(Rank(n.mode));
  }

  lemma HitNotMiss(ls: seq<Line>, pat: seq<Line>, lo: nat, hi: nat, m: Match)
    requires lo <= hi <= |ls| + 1 && IsHit(ls, pat, lo, hi, m)
    ensures !None(Windows(m.mode, ls, pat), lo, hi)
  {
  }

  lemma CutUnique(content: string, pat: seq<Line>, m: Match, n: Match)
    requires IsCut(content, pat, m) && IsCut(content, pat, n) && m.line == n.line
    ensures m.offset == n.offset && m.length == n.length
  {
    assert |content[m.offset..m.offset + m.length]| == m.length;
    assert |content[n.offset..n.offset + n.length]| == n.length;
  }

  /** A search has one result. */
  lemma ResultUnique(content: string, pat: seq<Line>, cursor: nat, eof: bool, r: Search, lo: nat, hi: nat, r': Search, lo': nat, hi': nat)
    requires IsResult(content, pat, cursor, eof, r, lo, hi) && IsResult(content, pat, cursor, eof, r', lo', hi')
    requires (r.Hit? ==> IsCut(content, pat, r.m)) && (r'.Hit? ==> IsCut(content, pat, r'.m))
    ensures r == r'
  {
    var ls := Lines(content);
    if |pat| <= |ls| {
      RangeUnique(ls, pat, cursor, eof, lo, hi, lo', hi');
      if r.Hit? { HitNotMiss(ls, pat, lo, hi, r.m); }
      if r'.Hit? { HitNotMiss(ls, pat, lo, hi, r'.m); }
      if r.Hit? && r'.Hit? {
        HitUnique(ls, pat, lo, hi, r.m, r'.m);
        CutUnique(content, pat, r.m, r'.m);
      }
    }
  }

  lemma FindsUnique(content: string, pattern: string, cursor: nat, eof: bool, m: Match, n: Match)
    requires Finds(content, pattern, cursor, eof, m) && Finds(content, pattern, cursor, eof, n)
    ensures m == n
  {
    var lo: nat, hi: nat :| IsResult(content, Split(pattern), cursor, eof, Hit(m), lo, hi);
    var lo': nat, hi': nat :| IsResult(content, Split(pattern), cursor, eof, Hit(n), lo', hi');
    ResultUnique(content, Split(pattern), cursor, eof, Hit(m), lo, hi, Hit(n), lo', hi');
  }

  lemma FindsOrMisses(content: string, pattern: string, cursor: nat, eof: bool, m: Match)
    requires Finds(content, pattern, cursor, eof, m)
    ensures !Misses(content, pattern, cursor, eof)
  {
    if Misses(content, pattern, cursor, eof) {
      var lo: nat, hi: nat :| IsResult(content, Split(pattern), cursor, eof, Hit(m), lo, hi);
      var lo': nat, hi': nat :| IsResult(content, Split(pattern), cursor, eof, Miss, lo', hi');
      ResultUnique(content, Split(pattern), cursor, eof, Hit(m), lo, hi, Miss, lo', hi');
    }
  }

  // Anchors, places, turns and runs

  ghost predicate Functional(finds: Finder)
  {
    forall a, cursor, m, n :: finds(a, cursor, m) && finds(a, cursor, n) ==> m == n
  }

  /** The k-th anchor is found from past the ones before it. */
  lemma {:induction false} AnchoredAt(finds: Finder, content: string, anchors: seq<string>, start: nat, ms: seq<Match>, k: nat)
    requires k < |ms| == |anchors| && AnchoredBy(finds, content, anchors, start, ms)
    ensures finds(anchors[k], CursorAfter(content, start, ms[..k]), ms[k])
    decreases |ms|
  {
    var n := |ms| - 1;
    if k < n {
      AnchoredAt(finds, content, anchors[..n], start, ms[..n], k);
      assert ms[..n][..k] == ms[..k];
    }
  }

  lemma {:induction false} AnchorsUnique(
    finds: Finder, content: string, anchors: seq<string>, start: nat, ms: seq<Match>, ms': seq<Match>, n: nat)
    requires n <= |ms| <= |anchors| && n <= |ms'| <= |anchors| && Functional(finds)
    requires AnchoredBy(finds, content, anchors[..|ms|], start, ms) && AnchoredBy(finds, content, anchors[..|ms'|], start, ms')
    ensures ms[..n] == ms'[..n]
    decreases n
  {
    if n > 0 {
      AnchorsUnique(finds, content, anchors, start, ms, ms', n - 1);
      AnchoredAt(finds, content, anchors[..|ms|], start, ms, n - 1);
      AnchoredAt(finds, content, anchors[..|ms'|], start, ms', n - 1);
      assert ms[..n] == ms[..n - 1] + [ms[n - 1]] && ms'[..n] == ms'[..n - 1] + [ms'[n - 1]];
    }
  }

  lemma FinderFunctional(content: string)
    ensures Functional(AnchorFinder(content))
  {
    var finds := AnchorFinder(content);
    forall a, cursor, m, n | finds(a, cursor, m) && finds(a, cursor, n) ensures m == n {
      FindsUnique(content, a, cursor, false, m, n);
    }
  }

  /** An anchor that is missed ends the list. */
  lemma MissedLast(content: string, h: Hunk, start: nat, ms: seq<Match>, ms': seq<Match>, p: Place)
    requires |ms| <= |h.anchors| && |ms'| <= |h.anchors|
    requires Anchored(content, h.anchors[..|ms|], start, ms) && Anchored(content, h.anchors[..|ms'|], start, ms')
    requires IsOutcome(content, h, CursorAfter(content, start, ms), |ms|, p)
    ensures |ms'| <= |ms|
  {
    var n := |ms|;
    if n < |ms'| {
      var finds := AnchorFinder(content);
      FinderFunctional(content);
      AnchorsUnique(finds, content, h.anchors, start, ms, ms', n);
      assert ms[..n] == ms;
      AnchoredAt(finds, content, h.anchors[..|ms'|], start, ms', n);
      FindsOrMisses(content, h.anchors[n], CursorAfter(content, start, ms), false, ms'[n]);
    }
  }

  lemma OutcomeUnique(content: string, h: Hunk, cursor: nat, found: nat, p: Place, p': Place)
    requires found <= |h.anchors| && IsOutcome(content, h, cursor, found, p) && IsOutcome(content, h, cursor, found, p')
    ensures p == p'
  {
    if found == |h.anchors| {
      if p.At? { FindsOrMisses(content, h.oldText, cursor, h.endOfFile, p.m); }
      if p'.At? { FindsOrMisses(content, h.oldText, cursor, h.endOfFile, p'.m); }
      if p.At? && p'.At? { FindsUnique(content, h.oldText, cursor, h.endOfFile, p.m, p'.m); }
    }
  }

  lemma PlaceUnique(content: string, h: Hunk, start: nat, ms: seq<Match>, p: Place, ms': seq<Match>, p': Place)
    requires IsPlace(content, h, start, ms, p) && IsPlace(content, h, start, ms', p')
    ensures p == p'
  {
    if h.line <= |Lines(content)| {
      var at := Hinted(content, h, start);
      MissedLast(content, h, at, ms, ms', p);
      MissedLast(content, h, at, ms', ms, p');
      FinderFunctional(content);
      AnchorsUnique(AnchorFinder(content), content, h.anchors, at, ms, ms', |ms|);
      assert ms[..|ms|] == ms && ms'[..|ms|] == ms';
      OutcomeUnique(content, h, CursorAfter(content, at, ms), |ms|, p, p');
    }
  }

  lemma EditUnique(content: string, h: Hunk, p: Place, t: Turn, t': Turn)
    requires IsEdit(content, h, p, t) && IsEdit(content, h, p, t')
    ensures t == t'
  {
  }

  lemma PlacedUnique(c: Cursor, h: Hunk, t: Turn, t': Turn)
    requires h.oldText != "" && IsTurn(c, h, t) && IsTurn(c, h, t')
    ensures t == t'
  {
    var p, ms :| IsPlace(c.content, h, c.at, ms, p) && IsEdit(c.content, h, p, t);
    var p', ms' :| IsPlace(c.content, h, c.at, ms', p') && IsEdit(c.content, h, p', t');
    PlaceUnique(c.content, h, c.at, ms, p, ms', p');
    EditUnique(c.content, h, p, t, t');
  }

  lemma TurnUnique(c: Cursor, h: Hunk, t: Turn, t': Turn)
    requires IsTurn(c, h, t) && IsTurn(c, h, t')
    ensures t == t'
  {
    if h.oldText != "" { PlacedUnique(c, h, t, t'); }
  }

  ghost predicate Deterministic(turns: TurnRelation)
  {
    forall c, h, t, t' :: turns(c, h, t) && turns(c, h, t') ==> t == t'
  }

  lemma {:induction false} RunsAgree(turns: TurnRelation, original: string, hs: seq<Hunk>, run: seq<Turn>, run': seq<Turn>, n: nat)
    requires IsRunBy(turns, original, hs, run) && IsRunBy(turns, original, hs, run') && Deterministic(turns)
    requires n < |run| && n < |run'|
    ensures run[n] == run'[n]
    decreases n
  {
    if n > 0 {
      RunsAgree(turns, original, hs, run, run', n - 1);
      assert run[n - 1].Turned? && turns(run[n - 1].next, hs[n - 1], run[n - 1 + 1]);
      assert run'[n - 1].Turned? && turns(run'[n - 1].next, hs[n - 1], run'[n - 1 + 1]);
    }
  }

  lemma TurnsDeterministic()
    ensures Deterministic(IsTurn)
  {
    forall c, h, t, t' | IsTurn(c, h, t) && IsTurn(c, h, t') ensures t == t' { TurnUnique(c, h, t, t'); }
  }

  /** The hunks lead to one content only. */
  lemma ContentUnique(original: string, hs: seq<Hunk>, c: string, c': string)
    requires UpdatesTo(original, hs, c) && UpdatesTo(original, hs, c')
    ensures c == c'
  {
    var run: seq<Turn> :| IsRun(original, hs, run) && |run| == |hs| + 1 && EndsIn(run, c);
    var run': seq<Turn> :| IsRun(original, hs, run') && |run'| == |hs| + 1 && EndsIn(run', c');
    TurnsDeterministic();
    RunsAgree(IsTurn, original, hs, run, run', |hs|);
  }

  /** A run that gets through all hunks leaves no run stuck. */
  lemma StuckRun(original: string, hs: seq<Hunk>, run: seq<Turn>, c: string)
    requires IsRun(original, hs, run) && |run| == |hs| + 1 && EndsIn(run, c)
    ensures forall e :: !StopsWith(original, hs, e)
  {
    TurnsDeterministic();
    forall e, run': seq<Turn> | IsRun(original, hs, run') ensures run'[|run'| - 1] != Stuck(e) {
      RunsAgree(IsTurn, original, hs, run, run', |run'| - 1);
    }
  }

  /** They do not both lead somewhere and stop. */
  lemma NotBoth(original: string, hs: seq<Hunk>, c: string, e: Error)
    requires UpdatesTo(original, hs, c)
    ensures !StopsWith(original, hs, e)
  {
    var run: seq<Turn> :| IsRun(original, hs, run) && |run| == |hs| + 1 && EndsIn(run, c);
    StuckRun(original, hs, run, c);
  }
}

/** claudetool/patch.go: a line hint and anchors only move the cursor, and to the lines one would say. */
module PatchMoves {
  import opened Text
  import opened PatchMatch
  import opened PatchEdit
  import opened PatchUnique
  import opened PatchApplies

  /** Where a search may end up, and with which anchors. */
  type Placer = (seq<Match>, Place) -> bool

  ghost function PlacerOf(content: string, h: Hunk, start: nat): Placer
  {
    (ms: seq<Match>, p: Place) => IsPlace(content, h, start, ms, p)
  }

  ghost predicate TurnsBy(places: Placer, c: Cursor, h: Hunk, t: Turn)
  {
    exists ms, p :: places(ms, p) && IsEdit(c.content, h, p, t)
  }

  lemma TurnIsBy(c: Cursor, h: Hunk, t: Turn)
    requires h.oldText != ""
    ensures IsTurn(c, h, t) <==> TurnsBy(PlacerOf(c.content, h, c.at), c, h, t)
  {
    var places := PlacerOf(c.content, h, c.at);
    if IsTurn(c, h, t) {
      var p, ms :| IsPlace(c.content, h, c.at, ms, p) && IsEdit(c.content, h, p, t);
      assert places(ms, p);
    }
  }

  ghost predicate Leads(f: Placer, g: Placer) { forall ms, p :: f(ms, p) ==> g(ms, p) }

  lemma LeadsTurns(f: Placer, g: Placer, c: Cursor, h: Hunk, d: Cursor, k: Hunk, t: Turn)
    requires Leads(f, g) && TurnsBy(f, c, h, t) && c.content == d.content && h.newText == k.newText
    ensures TurnsBy(g, d, k, t)
  {
    var ms, p :| f(ms, p) && IsEdit(c.content, h, p, t);
    assert g(ms, p) && IsEdit(d.content, k, p, t);
  }

  /** The anchors are found from start on, then the hunk is searched for. */
  ghost predicate PlaceFrom(finds: Finder, content: string, h: Hunk, start: nat, ms: seq<Match>, p: Place)
  {
    && |ms| <= |h.anchors| && AnchoredBy(finds, content, h.anchors[..|ms|], start, ms)
    && IsOutcome(content, h, CursorAfter(content, start, ms), |ms|, p)
  }

  lemma PlaceIsFrom(content: string, h: Hunk, start: nat, at: nat, ms: seq<Match>, p: Place)
    requires h.line <= |Lines(content)| && at == Hinted(content, h, start)
    ensures IsPlace(content, h, start, ms, p) <==> PlaceFrom(AnchorFinder(content), content, h, at, ms, p)
  {
  }

  // Line hints

  lemma LineIsIgnored(finds: Finder, content: string, h: Hunk, start: nat, ms: seq<Match>, p: Place)
    ensures PlaceFrom(finds, content, h, start, ms, p) <==> PlaceFrom(finds, content, h.(line := 0), start, ms, p)
  {
  }

  lemma HintedPlace(content: string, h: Hunk, start: nat, at: nat, ms: seq<Match>, p: Place)
    requires 1 <= h.line <= |Lines(content)|
    requires var offset := Offset(Lines(content), h.line - 1); at == if offset > start then offset else start
    ensures IsPlace(content, h, start, ms, p) <==> IsPlace(content, h.(line := 0), at, ms, p)
  {
    PlaceIsFrom(content, h, start, at, ms, p);
    PlaceIsFrom(content, h.(line := 0), at, at, ms, p);
    LineIsIgnored(AnchorFinder(content), content, h, at, ms, p);
  }

  lemma HintedPlaces(content: string, h: Hunk, start: nat, at: nat)
    requires 1 <= h.line <= |Lines(content)|
    requires var offset := Offset(Lines(content), h.line - 1); at == if offset > start then offset else start
    ensures Leads(PlacerOf(content, h, start), PlacerOf(content, h.(line := 0), at))
    ensures Leads(PlacerOf(content, h.(line := 0), at), PlacerOf(content, h, start))
  {
    forall ms, p ensures IsPlace(content, h, start, ms, p) <==> IsPlace(content, h.(line := 0), at, ms, p) {
      HintedPlace(content, h, start, at, ms, p);
    }
  }

  /** A hint moves the cursor to the start of its line, never back. */
  lemma HintMoves(c: Cursor, h: Hunk, t: Turn)
    requires h.oldText != "" && 1 <= h.line <= |Lines(c.content)|
    ensures var offset := Offset(Lines(c.content), h.line - 1);
      IsTurn(c, h, t) <==> IsTurn(Cursor(c.content, if offset > c.at then offset else c.at), h.(line := 0), t)
  {
    var offset := Offset(Lines(c.content), h.line - 1);
    var at := if offset > c.at then offset else c.at;
    var d, k := Cursor(c.content, at), h.(line := 0);
    var f, g := PlacerOf(c.content, h, c.at), PlacerOf(c.content, k, at);
    HintedPlaces(c.content, h, c.at, at);
    TurnIsBy(c, h, t);
    TurnIsBy(d, k, t);
    if TurnsBy(f, c, h, t) { LeadsTurns(f, g, c, h, d, k, t); }
    if TurnsBy(g, d, k, t) { LeadsTurns(g, f, d, k, c, h, t); }
  }

  /** A hint beyond the last line stops the update. */
  lemma HintStops(c: Cursor, h: Hunk)
    requires h.oldText != "" && h.line > |Lines(c.content)|
    ensures IsTurn(c, h, Stuck(LineHintOutside(h.line)))
  {
    PlacedTurn(c, h, [], Nowhere(LineHintOutside(h.line)), Stuck(LineHintOutside(h.line)));
  }

  // Anchors

  lemma {:induction false} AnchoredCons(
    finds: Finder, content: string, a: string, rest: seq<string>, start: nat, m: Match, ms: seq<Match>)
    requires |rest| == |ms| && finds(a, start, m) && AnchoredBy(finds, content, rest, Past(content, m), ms)
    ensures AnchoredBy(finds, content, [a] + rest, start, [m] + ms)
    decreases |ms|
  {
    var n := |ms|;
    var all, found := [a] + rest, [m] + ms;
    if n == 0 {
      assert all[..0] == [] && found[..0] == [];
    } else {
      AnchoredCons(finds, content, a, rest[..n - 1], start, m, ms[..n - 1]);
      assert all[..n] == [a] + rest[..n - 1] && found[..n] == [m] + ms[..n - 1];
      assert all[n] == rest[n - 1] && found[n] == ms[n - 1];
    }
  }

  lemma CursorCons(content: string, start: nat, m: Match, ms: seq<Match>)
    ensures CursorAfter(content, start, [m] + ms) == CursorAfter(content, Past(content, m), ms)
  {
    if ms != [] { assert ([m] + ms)[|ms|] == ms[|ms| - 1]; }
  }

  lemma PlacePastAnchor(
    finds: Finder, content: string, h: Hunk, a: string, rest: seq<string>, start: nat, m: Match, ms: seq<Match>, p: Place)
    requires h.anchors == [a] + rest && finds(a, start, m)
    requires PlaceFrom(finds, content, h.(anchors := rest), Past(content, m), ms, p)
    ensures PlaceFrom(finds, content, h, start, [m] + ms, p)
  {
    AnchoredCons(finds, content, a, rest[..|ms|], start, m, ms);
    assert ([a] + rest)[..|ms| + 1] == [a] + rest[..|ms|];
    CursorCons(content, start, m, ms);
    OutcomePastAnchor(content, h, a, rest, CursorAfter(content, Past(content, m), ms), |ms|, p);
  }

  lemma OutcomePastAnchor(content: string, h: Hunk, a: string, rest: seq<string>, cursor: nat, found: nat, p: Place)
    requires h.anchors == [a] + rest && found <= |rest| && IsOutcome(content, h.(anchors := rest), cursor, found, p)
    ensures IsOutcome(content, h, cursor, found + 1, p)
  {
    if found < |rest| { assert h.anchors[found + 1] == rest[found]; }
  }

  lemma PastAnchorPlace(content: string, h: Hunk, a: string, rest: seq<string>, start: nat, m: Match, next: nat, ms: seq<Match>, p: Place)
    requires h.line == 0 && h.anchors == [a] + rest && Finds(content, a, start, false, m) && next == Past(content, m)
    requires IsPlace(content, h.(anchors := rest), next, ms, p)
    ensures IsPlace(content, h, start, [m] + ms, p)
  {
    PlaceIsFrom(content, h.(anchors := rest), next, next, ms, p);
    PlacePastAnchor(AnchorFinder(content), content, h, a, rest, start, m, ms, p);
    PlaceIsFrom(content, h, start, start, [m] + ms, p);
  }

  lemma PastAnchorPlaces(content: string, h: Hunk, a: string, rest: seq<string>, start: nat, m: Match, next: nat)
    requires h.line == 0 && h.anchors == [a] + rest && Finds(content, a, start, false, m) && next == Past(content, m)
    ensures LeadsPast(m, PlacerOf(content, h.(anchors := rest), next), PlacerOf(content, h, start))
  {
    var f, g := PlacerOf(content, h.(anchors := rest), next), PlacerOf(content, h, start);
    forall ms, p | f(ms, p) ensures g([m] + ms, p) { PastAnchorPlace(content, h, a, rest, start, m, next, ms, p); }
  }

  ghost predicate LeadsPast(m: Match, f: Placer, g: Placer) { forall ms, p :: f(ms, p) ==> g([m] + ms, p) }

  lemma PastTurns(m: Match, f: Placer, g: Placer, c: Cursor, h: Hunk, d: Cursor, k: Hunk, t: Turn)
    requires LeadsPast(m, f, g) && TurnsBy(f, d, k, t) && c.content == d.content && h.newText == k.newText
    ensures TurnsBy(g, c, h, t)
  {
    var ms, p :| f(ms, p) && IsEdit(d.content, k, p, t);
    assert g([m] + ms, p) && IsEdit(c.content, h, p, t);
  }

  /** An anchor moves the cursor past the first window that matches it in the strictest mode that has one. */
  lemma AnchorMoves(c: Cursor, h: Hunk, a: string, rest: seq<string>, mode: Mode, i: nat, d: Cursor, k: Hunk, t: Turn)
    requires h.oldText != "" && h.line == 0 && h.anchors == [a] + rest
    requires FirstCandidate(Lines(c.content), Split(a), c.at, false, mode, i)
    requires d == Cursor(c.content, LineStart(c.content, i + |Split(a)|)) && k == h.(anchors := rest) && IsTurn(d, k, t)
    ensures IsTurn(c, h, t)
  {
    var m := CandidatePlaces(c.content, h, a, rest, c.at, mode, i, d.at);
    TurnIsBy(d, k, t);
    PastTurns(m, PlacerOf(c.content, k, d.at), PlacerOf(c.content, h, c.at), c, h, d, k, t);
    TurnIsBy(c, h, t);
  }

  lemma CandidatePlaces(content: string, h: Hunk, a: string, rest: seq<string>, start: nat, mode: Mode, i: nat, next: nat)
    returns (m: Match)
    requires h.line == 0 && h.anchors == [a] + rest && next == LineStart(content, i + |Split(a)|)
    requires FirstCandidate(Lines(content), Split(a), start, false, mode, i)
    ensures LeadsPast(m, PlacerOf(content, h.(anchors := rest), next), PlacerOf(content, h, start))
  {
    m := CandidateFound(content, a, start, false, mode, i);
    PastAnchorPlaces(content, h, a, rest, start, m, next);
  }

  /** An anchor that nothing matches stops the update. */
  lemma AnchorStops(c: Cursor, h: Hunk, a: string, rest: seq<string>)
    requires h.oldText != "" && h.line == 0 && h.anchors == [a] + rest
    requires forall mode, i: nat :: !Candidate(Lines(c.content), Split(a), c.at, false, mode, i)
    ensures IsTurn(c, h, Stuck(AnchorNotFound(a)))
  {
    NothingMissed(c.content, a, c.at, false);
    PlacedTurn(c, h, [], Nowhere(AnchorNotFound(a)), Stuck(AnchorNotFound(a)));
  }
}

/** claudetool/patch.go: which sequences of selectors and changed lines the parser makes hunks of. */
module PatchChange {
  import opened Text
  import opened PatchEdit
  import opened PatchGrammar

  /** Selectors, readable or not, and changed lines. */
  ghost predicate Pieces(ps: Tokens)
  {
    ps.Next? ==> (Selects(ps.first) || ps.first.Change?) && Pieces(ps.more)
  }

  function Before(ps: Tokens, rest: Tokens): Tokens { if ps.End? then rest else Next(ps.first, Before(ps.more, rest)) }

  ghost predicate AllRead(ps: Tokens) { ps.Next? ==> !ps.first.BadSelect? && AllRead(ps.more) }

  ghost predicate EndsInLine(ps: Tokens) { ps.Next? && if ps.more.End? then ps.first.Change? else EndsInLine(ps.more) }

  // One hunk takes the selectors in front and the changed lines after them

  ghost predicate SelectorsRead(ps: Tokens) { ps.Next? && Selects(ps.first) ==> !ps.first.BadSelect? && SelectorsRead(ps.more) }

  ghost function AfterSelectors(ps: Tokens): Tokens { if ps.Next? && Selects(ps.first) then AfterSelectors(ps.more) else ps }

  ghost function AfterLines(ps: Tokens): Tokens { if ps.Next? && ps.first.Change? then AfterLines(ps.more) else ps }

  lemma {:induction false} SelectorsSplit(ps: Tokens)
    requires Pieces(ps)
    ensures var qs := AfterSelectors(ps); Pieces(qs) && Size(qs) <= Size(ps) && (qs.Next? ==> qs.first.Change?)
    ensures AllRead(ps) <==> SelectorsRead(ps) && AllRead(AfterSelectors(ps))
    ensures EndsInLine(ps) <==> EndsInLine(AfterSelectors(ps))
  {
    if ps.Next? && Selects(ps.first) { SelectorsSplit(ps.more); }
  }

  lemma {:induction false} LinesSplit(ps: Tokens)
    requires Pieces(ps)
    ensures var qs := AfterLines(ps); Pieces(qs) && Size(qs) <= Size(ps) && (qs.Next? ==> Selects(qs.first))
    ensures AllRead(ps) <==> AllRead(AfterLines(ps))
    ensures ps.Next? && ps.first.Change? ==> (EndsInLine(ps) <==> AfterLines(ps).End? || EndsInLine(AfterLines(ps)))
  {
    if ps.Next? && ps.first.Change? { LinesSplit(ps.more); }
  }

  /** What comes after a change: perhaps an End of File line, then the end of the operation. */
  function Ending(eof: bool, rest: Tokens): Tokens { if eof then Next(TitleEof, rest) else rest }

  lemma {:induction false} SelectedPieces(ps: Tokens, tail: Tokens, acc: Selection)
    requires Pieces(ps) && (tail.Next? ==> !Selects(tail.first))
    ensures var r := Selected(Before(ps, tail), acc);
      if SelectorsRead(ps) then r.Done? && r.rest == Before(AfterSelectors(ps), tail) else r.Bad?
  {
    if ps.Next? && Selects(ps.first) && ps.first.Select? {
      SelectedPieces(ps.more, tail, AddSelector(acc, ps.first.line, ps.first.anchor));
    }
  }

  lemma {:induction false} BodyPieces(ps: Tokens, tail: Tokens, acc: Body)
    requires Pieces(ps) && BodyEnds(tail)
    ensures var r := BodyOf(Before(ps, tail), acc);
      && r.Done? && r.rest == Before(AfterLines(ps), tail)
      && (acc.olds != [] || acc.news != [] || (ps.Next? && ps.first.Change?) <==> r.value.olds != [] || r.value.news != [])
  {
    if ps.Next? && ps.first.Change? {
      BodyPieces(ps.more, tail, AddBodyLine(acc, ps.first.b));
    }
  }

  lemma HunkPieces(ps: Tokens, eof: bool, rest: Tokens, path: string)
    requires Pieces(ps) && ps.Next? && OpEnds(rest)
    ensures var r := HunkAt(Before(ps, Ending(eof, rest)), path);
      var qs := AfterSelectors(ps);
      if SelectorsRead(ps) && qs.Next? then
        r.Done? && r.rest == if AfterLines(qs).End? then rest else Before(AfterLines(qs), Ending(eof, rest))
      else r.Bad?
  {
    var tail := Ending(eof, rest);
    SelectorsSplit(ps);
    SelectedPieces(ps, tail, Selection(0, []));
    var qs := AfterSelectors(ps);
    BodyPieces(qs, tail, Body([], []));
    LinesSplit(qs);
  }

  /** The hunks are read exactly when every selector can be and the last piece is a changed line. */
  lemma {:induction false} HunksPieces(ps: Tokens, eof: bool, rest: Tokens, path: string, acc: seq<Hunk>)
    requires Pieces(ps) && ps.Next? && OpEnds(rest)
    ensures var r := HunksAt(Before(ps, Ending(eof, rest)), path, acc);
      if AllRead(ps) && EndsInLine(ps) then r.Done? && r.rest == rest && r.value != [] else r.Bad?
    decreases Size(ps)
  {
    var qs := AfterSelectors(ps);
    SelectorsSplit(ps);
    LinesSplit(qs);
    HunkPieces(ps, eof, rest, path);
    var first := HunkAt(Before(ps, Ending(eof, rest)), path);
    if first.Done? {
      var left := AfterLines(qs);
      AfterLinesShrinks(qs);
      if left.Next? { HunksPieces(left, eof, rest, path, acc + [first.value]); }
    }
  }

  lemma {:induction false} AfterLinesShrinks(ps: Tokens)
    requires ps.Next? && ps.first.Change?
    ensures Size(AfterLines(ps)) < Size(ps)
  {
    if ps.more.Next? && ps.more.first.Change? { AfterLinesShrinks(ps.more); }
  }
}

/** claudetool/patch.go: the grammar of apply_patch that models are given, and which of its texts the parser accepts. */
module PatchPublished {
  import opened Options
  import opened Bytes
  import opened Text
  import opened PatchGrammar
  import opened PatchParse
  import opened PatchPrint
  import PatchChange

  // Derivations of the grammar

  /** change_context, with or without a text, or change_line. */
  datatype Piece = Context(text: string) | Changed(b: BodyLine)

  datatype Change = Change(pieces: seq<Piece>, eof: bool)

  datatype Node =
    | AddNode(path: string, lines: seq<Line>)
    | DeleteNode(path: string)
    | UpdateNode(path: string, move: Option<string>, change: Option<Change>)

  /** filename: at least one character, none of them a newline. */
  ghost predicate FileName(s: string) { s != "" && Plain(s) }

  ghost predicate DerivesPiece(p: Piece) { match p case Context(t) => Plain(t) case Changed(b) => Plain(b.text) }

  ghost predicate DerivesChange(c: Change)
  {
    c.pieces != [] && forall i :: 0 <= i < |c.pieces| ==> DerivesPiece(c.pieces[i])
  }

  ghost predicate Derives(n: Node)
  {
    FileName(n.path) &&
    match n
    case AddNode(_, lines) => lines != [] && AllPlain(lines)
    case DeleteNode(_) => true
    case UpdateNode(_, move, change) =>
      (move.Some? ==> FileName(move.value)) && (change.Some? ==> DerivesChange(change.value))
  }

  // Their texts

  function PieceLine(p: Piece): Line
  {
    match p case Context(t) => (if t == "" then "@@" else "@@ " + t) case Changed(b) => ShowBody(b)
  }

  function PieceLines(ps: seq<Piece>, rest: seq<Line>): seq<Line>
  {
    if ps == [] then rest else [PieceLine(ps[0])] + PieceLines(ps[1..], rest)
  }

  function AddLines(ls: seq<Line>, rest: seq<Line>): seq<Line>
  {
    if ls == [] then rest else ["+" + ls[0]] + AddLines(ls[1..], rest)
  }

  function ChangeLines(c: Option<Change>, rest: seq<Line>): seq<Line>
  {
    if c.None? then rest else PieceLines(c.value.pieces, if c.value.eof then ["*** End of File"] + rest else rest)
  }

  function NodeLines(n: Node, rest: seq<Line>): seq<Line>
  {
    match n
    case AddNode(path, lines) => ["*** Add File: " + path] + AddLines(lines, rest)
    case DeleteNode(path) => ["*** Delete File: " + path] + rest
    case UpdateNode(path, move, change) =>
      ["*** Update File: " + path] + if move.Some? then ["*** Move to: " + move.value] + ChangeLines(change, rest) else ChangeLines(change, rest)
  }

  function NodesLines(ns: seq<Node>): seq<Line>
  {
    if ns == [] then [] else NodeLines(ns[0], NodesLines(ns[1..]))
  }

  /** The derived text; the newline at its end is optional. */
  function DerivedText(ns: seq<Node>, newline: bool): string
  {
    Join(["*** Begin Patch"] + NodesLines(ns) + ["*** End Patch"]) + if newline then "\n" else ""
  }

  // What the parser makes of their lines: a carriage return before a newline is part of it

  function DropCr(l: Line): Line { if l != "" && l[|l| - 1] == '\r' then l[..|l| - 1] else l }

  function DropAll(ls: seq<Line>): (ds: seq<Line>)
    ensures |ds| == |ls| && forall i :: 0 <= i < |ls| ==> ds[i] == DropCr(ls[i])
  {
    seq(|ls|, i requires 0 <= i < |ls| => DropCr(ls[i]))
  }

  function DropBody(b: BodyLine): BodyLine
  {
    match b case Keep(l) => Keep(DropCr(l)) case Remove(l) => Remove(DropCr(l)) case Insert(l) => Insert(DropCr(l))
  }

  ghost function PieceToken(p: Piece): Token
  {
    match p case Context(_) => LexSelector(PieceLine(p)) case Changed(b) => Token.Change(DropBody(b))
  }

  ghost function PieceTokens(ps: seq<Piece>): Tokens
  {
    if ps == [] then End else Next(PieceToken(ps[0]), PieceTokens(ps[1..]))
  }

  ghost function AddTokens(ls: seq<Line>, rest: Tokens): Tokens
  {
    if ls == [] then rest else Next(Token.Change(Insert(DropCr(ls[0]))), AddTokens(ls[1..], rest))
  }

  ghost function ChangeTokens(c: Option<Change>, rest: Tokens): Tokens
  {
    if c.None? then rest else PatchChange.Before(PieceTokens(c.value.pieces), PatchChange.Ending(c.value.eof, rest))
  }

  ghost function NodeTokens(n: Node, rest: Tokens): Tokens
  {
    match n
    case AddNode(path, lines) => Next(TitleAdd(DropCr(path)), AddTokens(lines, rest))
    case DeleteNode(path) => Next(TitleDelete(DropCr(path)), rest)
    case UpdateNode(path, move, change) =>
      Next(TitleUpdate(DropCr(path)),
           if move.Some? then Next(TitleMove(DropCr(move.value)), ChangeTokens(change, rest)) else ChangeTokens(change, rest))
  }

  ghost function NodesTokens(ns: seq<Node>): Tokens
  {
    if ns == [] then End else NodeTokens(ns[0], NodesTokens(ns[1..]))
  }

  // The condition

  /** A lone carriage return is no file name to the parser. */
  predicate Named(path: string) { path != "\r" }

  predicate Readable(p: Piece) { p.Context? ==> ReadSelector(PieceLine(p)).Some? }

  predicate AcceptsChange(c: Change)
  {
    && c.pieces != [] && c.pieces[|c.pieces| - 1].Changed?
    && forall i :: 0 <= i < |c.pieces| ==> Readable(c.pieces[i])
  }

  /** Named files, a change in every update, its last piece a changed line, and selectors that can be read. */
  predicate Accepts(n: Node)
  {
    Named(n.path) &&
    match n
    case UpdateNode(_, move, change) => (move.Some? ==> Named(move.value)) && change.Some? && AcceptsChange(change.value)
    case _ => true
  }

  // From pieces to tokens

  lemma {:induction false} PiecesOf(ps: seq<Piece>)
    ensures var ts := PieceTokens(ps); PatchChange.Pieces(ts) && (ps != [] <==> ts.Next?)
    ensures PatchChange.AllRead(PieceTokens(ps)) <==> forall i :: 0 <= i < |ps| ==> !PieceToken(ps[i]).BadSelect?
    ensures PatchChange.EndsInLine(PieceTokens(ps)) <==> ps != [] && ps[|ps| - 1].Changed?
  {
    if ps != [] {
      PiecesOf(ps[1..]);
      assert forall i :: 1 <= i < |ps| ==> ps[i] == ps[1..][i - 1];
    }
  }

  lemma PieceRead(p: Piece)
    ensures PieceToken(p).BadSelect? <==> !Readable(p)
  {
  }

  lemma ChangeAccepted(c: Change, rest: Tokens, path: string)
    requires DerivesChange(c) && OpEnds(rest)
    ensures var r := HunksAt(ChangeTokens(Some(c), rest), path, []);
      if AcceptsChange(c) then r.Done? && r.rest == rest && r.value != [] else r.Bad?
  {
    PiecesOf(c.pieces);
    forall i | 0 <= i < |c.pieces| ensures PieceToken(c.pieces[i]).BadSelect? <==> !Readable(c.pieces[i]) { PieceRead(c.pieces[i]); }
    PatchChange.HunksPieces(PieceTokens(c.pieces), c.eof, rest, path, []);
  }

  // One operation, then all of them

  lemma {:induction false} ReadAddTokens(ls: seq<Line>, rest: Tokens, acc: seq<Line>)
    requires OpEnds(rest)
    ensures var r := Added(AddTokens(ls, rest), acc); r.Done? && r.rest == rest && |r.value| == |acc| + |ls|
    decreases |ls|
  {
    if ls != [] { ReadAddTokens(ls[1..], rest, acc + [DropCr(ls[0])]); }
  }

  lemma ChangeFirst(c: Option<Change>, rest: Tokens)
    requires OpEnds(rest) && (c.Some? ==> DerivesChange(c.value))
    ensures var ts := ChangeTokens(c, rest); ts.Next? ==> !ts.first.TitleMove?
  {
    if c.Some? { PiecesOf(c.value.pieces); }
  }

  lemma UpdateAccepted(move: Option<string>, c: Option<Change>, rest: Tokens, path: string)
    requires OpEnds(rest) && (c.Some? ==> DerivesChange(c.value)) && (move.Some? ==> FileName(move.value))
    ensures var ts := ChangeTokens(c, rest);
      var r := UpdateAt(if move.Some? then Next(TitleMove(DropCr(move.value)), ts) else ts, path);
      if (move.Some? ==> Named(move.value)) && c.Some? && AcceptsChange(c.value) then r.Done? && r.rest == rest else r.Bad?
  {
    ChangeFirst(c, rest);
    if c.Some? { ChangeAccepted(c.value, rest, path); }
    if move.Some? { DropName(move.value); }
  }

  lemma DropName(path: string)
    requires path != ""
    ensures DropCr(path) == "" <==> !Named(path)
  {
    assert |path| == 1 ==> path == [path[0]];
  }

  lemma NodeAccepted(n: Node, rest: Tokens)
    requires Derives(n) && OpEnds(rest)
    ensures var r := OpAt(NodeTokens(n, rest)); if Accepts(n) then r.Done? && r.rest == rest else r.Bad?
  {
    DropName(n.path);
    match n {
      case AddNode(_, lines) => ReadAddTokens(lines, rest, []);
      case DeleteNode(_) =>
      case UpdateNode(_, move, change) => UpdateAccepted(move, change, rest, DropCr(n.path));
    }
  }

  ghost predicate AcceptsAll(ns: seq<Node>) { forall i :: 0 <= i < |ns| ==> Accepts(ns[i]) }

  ghost predicate DerivesAll(ns: seq<Node>) { forall i :: 0 <= i < |ns| ==> Derives(ns[i]) }

  lemma {:induction false} NodesAccepted(ns: seq<Node>, acc: seq<FileOp>)
    requires DerivesAll(ns)
    ensures var r := OpsAt(NodesTokens(ns), acc); if AcceptsAll(ns) then r.Done? && |r.value| == |acc| + |ns| else r.Bad?
    decreases |ns|
  {
    if ns != [] {
      var rest := NodesTokens(ns[1..]);
      NodeAccepted(ns[0], rest);
      assert AcceptsAll(ns) <==> Accepts(ns[0]) && AcceptsAll(ns[1..]) by {
        assert forall i :: 1 <= i < |ns| ==> ns[i] == ns[1..][i - 1];
      }
      var first := OpAt(NodeTokens(ns[0], rest));
      if first.Done? { NodesAccepted(ns[1..], acc + [first.value]); }
    }
  }

  // From lines to tokens

  ghost function LexAll(ls: seq<Line>): Tokens
  {
    if ls == [] then End else Next(Lex(DropCr(ls[0])), LexAll(ls[1..]))
  }

  lemma LexCons(l: Line, ls: seq<Line>)
    ensures LexAll([l] + ls) == Next(Lex(DropCr(l)), LexAll(ls))
  {
    assert ([l] + ls)[1..] == ls;
  }

  lemma DropAfter(h: string, p: string)
    requires h != "" && h[|h| - 1] != '\r'
    ensures DropCr(h + p) == h + DropCr(p)
  {
    var l := h + p;
    if p == "" {
      assert l == h;
    } else {
      assert l[|l| - 1] == p[|p| - 1];
      assert l[..|l| - 1] == h + p[..|p| - 1];
    }
  }

  lemma LexTitleLine(k: nat, p: string)
    requires k < 4
    ensures Lex(DropCr(Titles[k] + p)) == LexTitle(Titles[k] + DropCr(p))
    ensures LexTitle(Titles[k] + DropCr(p)) == [TitleAdd(DropCr(p)), TitleDelete(DropCr(p)), TitleUpdate(DropCr(p)), TitleMove(DropCr(p))][k]
  {
    DropAfter(Titles[k], p);
    LexShowTitle(k, DropCr(p));
  }

  lemma LexBodyLine(b: BodyLine)
    ensures Lex(DropCr(ShowBody(b))) == Token.Change(DropBody(b))
  {
    match b {
      case Keep(l) => DropAfter(" ", l);
      case Remove(l) => DropAfter("-", l);
      case Insert(l) => DropAfter("+", l);
    }
    LexShowBody(DropBody(b));
  }

  lemma TrimDropped(s: string)
    ensures TrimSpace(DropCr(s)) == TrimSpace(s)
  {
  }

  lemma ReadDropped(l: Line)
    requires Selector(l)
    ensures Selector(DropCr(l)) && ReadSelector(DropCr(l)) == ReadSelector(l)
  {
    var t := l[2..];
    assert l == "@@" + t && l[..2] == "@@";
    DropAfter("@@", t);
    assert TrimPrefix(l, "@@") == t;
    var d := DropCr(l);
    assert d == "@@" + DropCr(t) && d[..2] == "@@" && TrimPrefix(d, "@@") == DropCr(t);
    TrimDropped(t);
  }

  lemma LexPieceLine(p: Piece)
    ensures Lex(DropCr(PieceLine(p))) == PieceToken(p)
  {
    match p {
      case Context(t) =>
        var l := PieceLine(p);
        assert l[..2] == "@@";
        ReadDropped(l);
        PrefixFirst(DropCr(l), "@@");
        assert DropCr(l)[0] != "*** "[0];
      case Changed(b) => LexBodyLine(b);
    }
  }

  lemma {:induction false} LexPieces(ps: seq<Piece>, rest: seq<Line>)
    ensures LexAll(PieceLines(ps, rest)) == PatchChange.Before(PieceTokens(ps), LexAll(rest))
    decreases |ps|
  {
    if ps != [] {
      LexPieces(ps[1..], rest);
      LexPieceLine(ps[0]);
      LexCons(PieceLine(ps[0]), PieceLines(ps[1..], rest));
    }
  }

  lemma {:induction false} LexAdds(ls: seq<Line>, rest: seq<Line>)
    ensures LexAll(AddLines(ls, rest)) == AddTokens(ls, LexAll(rest))
    decreases |ls|
  {
    if ls != [] {
      LexAdds(ls[1..], rest);
      LexBodyLine(Insert(ls[0]));
      LexCons("+" + ls[0], AddLines(ls[1..], rest));
    }
  }

  lemma LexChange(c: Option<Change>, rest: seq<Line>)
    ensures LexAll(ChangeLines(c, rest)) == ChangeTokens(c, LexAll(rest))
  {
    if c.Some? {
      LexPieces(c.value.pieces, if c.value.eof then [EofLine] + rest else rest);
      LexEof(EofLine);
      LexCons(EofLine, rest);
    }
  }

  lemma LexNode(n: Node, rest: seq<Line>)
    ensures LexAll(NodeLines(n, rest)) == NodeTokens(n, LexAll(rest))
  {
    match n {
      case AddNode(path, lines) =>
        LexTitleLine(0, path);
        LexAdds(lines, rest);
        LexCons(AddHeader + path, AddLines(lines, rest));
      case DeleteNode(path) =>
        LexTitleLine(1, path);
        LexCons(DeleteHeader + path, rest);
      case UpdateNode(path, move, change) =>
        LexTitleLine(2, path);
        LexChange(change, rest);
        LexCons(UpdateHeader + path, ChangeLines(change, rest));
        if move.Some? {
          LexTitleLine(3, move.value);
          LexCons(MoveHeader + move.value, ChangeLines(change, rest));
          LexCons(UpdateHeader + path, [MoveHeader + move.value] + ChangeLines(change, rest));
        }
    }
  }

  lemma {:induction false} LexNodes(ns: seq<Node>)
    ensures LexAll(NodesLines(ns)) == NodesTokens(ns)
    decreases |ns|
  {
    if ns != [] {
      LexNodes(ns[1..]);
      LexNode(ns[0], NodesLines(ns[1..]));
    }
  }

  lemma {:induction false} TailIsLexAll(ls: seq<Line>, i: nat)
    requires i <= |ls|
    ensures Tail(DropAll(ls), i) == LexAll(ls[i..])
    decreases |ls| - i
  {
    if i < |ls| {
      TailIsLexAll(ls, i + 1);
      assert ls[i..] == [ls[i]] + ls[i + 1..];
    }
  }

  // From text to lines

  lemma {:induction false} UnixKeepsBefore(l: Line, s: string)
    requires Plain(l) && (l == "" || l[|l| - 1] != '\r' || s == "" || s[0] != '\n')
    ensures UnixLines(l + s) == l + UnixLines(s)
    decreases |l|
  {
    if l == "" {
      assert l + s == s;
    } else {
      var t := l + s;
      assert t[0] == l[0] && t[1..] == l[1..] + s;
      assert |l| > 1 ==> t[1] == l[1];
      assert |l| == 1 && s != "" ==> t[1] == s[0];
      UnixKeepsBefore(l[1..], s);
      assert l == [l[0]] + l[1..];
      ConcatAssoc([l[0]], l[1..], UnixLines(s));
    }
  }

  lemma UnixLine(l: Line, s: string)
    requires Plain(l)
    ensures UnixLines(l + "\n" + s) == DropCr(l) + "\n" + UnixLines(s)
  {
    if l != "" && l[|l| - 1] == '\r' {
      var k := l[..|l| - 1];
      assert l == k + "\r";
      assert l + "\n" + s == k + (Eol(true) + s);
      UnixKeepsBefore(k, Eol(true) + s);
      UnixEol(true, s);
      ConcatAssoc(k, "\n", UnixLines(s));
    } else {
      ConcatAssoc(l, "\n", s);
      UnixKeepsBefore(l, Eol(false) + s);
      UnixEol(false, s);
      ConcatAssoc(l, "\n", UnixLines(s));
    }
  }

  lemma {:induction false} UnixJoinRaw(ls: seq<Line>)
    requires ls != [] && AllPlain(ls) && DropCr(ls[|ls| - 1]) == ls[|ls| - 1]
    ensures UnixLines(Join(ls)) == Join(DropAll(ls))
    decreases |ls|
  {
    if |ls| == 1 {
      UnixKeepsBefore(ls[0], "");
      assert ls[0] + "" == ls[0];
    } else {
      UnixJoinRaw(ls[1..]);
      UnixLine(ls[0], Join(ls[1..]));
      assert DropAll(ls)[1..] == DropAll(ls[1..]);
    }
  }

  lemma DropAllPlain(ls: seq<Line>)
    requires AllPlain(ls)
    ensures AllPlain(DropAll(ls))
  {
  }

  lemma {:induction false} JoinInked(ls: seq<Line>)
    requires |ls| >= 2 && ls[0] == BeginLine && ls[|ls| - 1] == EndLine
    ensures Inked(Join(ls))
  {
    JoinLast(ls);
    assert Join(ls)[0] == BeginLine[0];
  }

  lemma {:induction false} JoinLast(ls: seq<Line>)
    requires ls != [] && ls[|ls| - 1] != ""
    ensures var s, last := Join(ls), ls[|ls| - 1]; s != "" && s[|s| - 1] == last[|last| - 1]
    decreases |ls|
  {
    if |ls| > 1 { JoinLast(ls[1..]); }
  }

  lemma RawLinesBack(ls: seq<Line>, newline: bool)
    requires |ls| >= 2 && AllPlain(ls) && ls[0] == BeginLine && ls[|ls| - 1] == EndLine
    ensures TextLines(Join(ls) + if newline then "\n" else "") == DropAll(ls)
  {
    var s, trail := Join(ls), if newline then "\n" else "";
    JoinInked(ls);
    assert AllSpace(trail) && "" + s == s;
    TrimOff("", s, trail);
    UnixJoinRaw(ls);
    DropAllPlain(ls);
    SplitJoin(DropAll(ls));
  }

  // Derived lines hold no newline

  lemma PieceLinePlain(p: Piece)
    requires DerivesPiece(p)
    ensures Plain(PieceLine(p))
  {
  }

  lemma {:induction false} PieceLinesPlain(ps: seq<Piece>, rest: seq<Line>)
    requires AllPlain(rest) && forall i :: 0 <= i < |ps| ==> DerivesPiece(ps[i])
    ensures AllPlain(PieceLines(ps, rest))
    decreases |ps|
  {
    if ps != [] { PieceLinesPlain(ps[1..], rest); PieceLinePlain(ps[0]); }
  }

  lemma {:induction false} AddLinesPlain(ls: seq<Line>, rest: seq<Line>)
    requires AllPlain(rest) && AllPlain(ls)
    ensures AllPlain(AddLines(ls, rest))
    decreases |ls|
  {
    if ls != [] { AddLinesPlain(ls[1..], rest); }
  }

  lemma ChangeLinesPlain(c: Option<Change>, rest: seq<Line>)
    requires AllPlain(rest) && (c.Some? ==> DerivesChange(c.value))
    ensures AllPlain(ChangeLines(c, rest))
  {
    if c.Some? { PieceLinesPlain(c.value.pieces, if c.value.eof then [EofLine] + rest else rest); }
  }

  lemma NodeLinesPlain(n: Node, rest: seq<Line>)
    requires AllPlain(rest) && Derives(n)
    ensures AllPlain(NodeLines(n, rest)) && NodeLines(n, rest) != []
  {
    match n {
      case AddNode(_, lines) => AddLinesPlain(lines, rest);
      case DeleteNode(_) =>
      case UpdateNode(_, _, change) => ChangeLinesPlain(change, rest);
    }
  }

  lemma {:induction false} NodesLinesPlain(ns: seq<Node>)
    requires DerivesAll(ns)
    ensures AllPlain(NodesLines(ns)) && (ns != [] ==> NodesLines(ns) != [])
    decreases |ns|
  {
    if ns != [] {
      NodesLinesPlain(ns[1..]);
      NodeLinesPlain(ns[0], NodesLines(ns[1..]));
    }
  }

  // The theorem

  lemma DerivedTail(ns: seq<Node>)
    ensures Tail(DropAll([BeginLine] + NodesLines(ns)), 1) == NodesTokens(ns)
  {
    var ls := [BeginLine] + NodesLines(ns);
    TailIsLexAll(ls, 1);
    assert ls[1..] == NodesLines(ns);
    LexNodes(ns);
  }

  lemma ParseDropped(ls: seq<Line>, ns: seq<Node>)
    requires ls == [BeginLine] + NodesLines(ns) + [EndLine] && DerivesAll(ns) && ns != [] && NodesLines(ns) != []
    ensures ParseLines(DropAll(ls)).Ops? <==> AcceptsAll(ns)
  {
    var ds := DropAll(ls);
    assert ds[0] == DropCr(BeginLine) == BeginLine && ds[|ds| - 1] == DropCr(EndLine) == EndLine;
    assert ds[..|ds| - 1] == DropAll([BeginLine] + NodesLines(ns));
    DerivedTail(ns);
    NodesAccepted(ns, []);
  }

  /**
   * The parser accepts a text of the published grammar exactly when no update lacks
   * a change or ends one in a context, no context is a line number it cannot read,
   * and no file is named by a lone carriage return.
   */
  lemma PublishedAccepted(ns: seq<Node>, newline: bool)
    requires ns != [] && DerivesAll(ns)
    ensures Parse(DerivedText(ns, newline)).Ops? <==> AcceptsAll(ns)
  {
    var ls := [BeginLine] + NodesLines(ns) + [EndLine];
    NodesLinesPlain(ns);
    assert Plain(BeginLine) && Plain(EndLine);
    RawLinesBack(ls, newline);
    ParseDropped(ls, ns);
  }

  /** An update that only moves a file is in the grammar, and refused. */
  lemma MoveAloneRefused(path: string, to: string, newline: bool)
    requires FileName(path) && FileName(to)
    ensures DerivesAll([UpdateNode(path, Some(to), None)])
    ensures !Parse(DerivedText([UpdateNode(path, Some(to), None)], newline)).Ops?
  {
    var ns := [UpdateNode(path, Some(to), None)];
    assert Derives(ns[0]) && !Accepts(ns[0]);
    PublishedAccepted(ns, newline);
  }
}

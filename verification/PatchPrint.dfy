/** The apply_patch format written out as text, and read back by the parser. */
module PatchPrint {
  import opened Bytes
  import opened Text
  import opened Options
  import opened Decimal
  import opened PatchGrammar
  import opened PatchParse

  // What can be written on one line

  /** A final carriage return would be taken for part of the line ending. */
  ghost predicate Fit(l: Line) { Plain(l) && (l == "" || l[|l| - 1] != '\r') }

  /** Not empty, and no white space at either end. */
  ghost predicate Inked(s: string) { s != "" && !IsSpace(s[0]) && !IsSpace(s[|s| - 1]) }

  /** Selectors are trimmed, and one that starts with "line " is a line number. */
  ghost predicate FitAnchor(a: string) { Plain(a) && Inked(a) && !HasPrefix(a, "line ") }

  ghost predicate FitEdit(e: Edit)
  {
    && e.body != [] && e.line <= MaxInt
    && (forall i :: 0 <= i < |e.anchors| ==> FitAnchor(e.anchors[i]))
    && forall i :: 0 <= i < |e.body| ==> Fit(e.body[i].text)
  }

  ghost predicate FitOp(op: Op)
  {
    && op.path != "" && Fit(op.path)
    && match op
      case Add(_, content) => content != [] && forall i :: 0 <= i < |content| ==> Fit(content[i])
      case Delete(_) => true
      case Update(_, move, edits) => Fit(move) && edits != [] && forall i :: 0 <= i < |edits| ==> FitEdit(edits[i])
  }

  ghost predicate FitOps(ops: seq<Op>) { ops != [] && forall i :: 0 <= i < |ops| ==> FitOp(ops[i]) }

  ghost predicate FitToken(t: Token)
  {
    match t
    case TitleAdd(p) => Fit(p)
    case TitleDelete(p) => Fit(p)
    case TitleUpdate(p) => Fit(p)
    case TitleMove(p) => Fit(p)
    case TitleEof => true
    case Select(n, a) => if a == "" then n <= MaxInt else n == 0 && FitAnchor(a)
    case Change(b) => Fit(b.text)
    case _ => false
  }

  ghost predicate AllFit(ts: Tokens) { ts.End? || (FitToken(ts.first) && AllFit(ts.more)) }

  // Lines

  function ShowBody(b: BodyLine): Line
  {
    match b case Keep(l) => " " + l case Remove(l) => "-" + l case Insert(l) => "+" + l
  }

  function ShowSelector(n: nat, a: string): Line
  {
    if n > 0 then "@@ line " + Itoa(n) else if a == "" then "@@" else "@@ " + a
  }

  function Show(t: Token): Line
  {
    match t
    case TitleAdd(p) => "*** Add File: " + p
    case TitleDelete(p) => "*** Delete File: " + p
    case TitleUpdate(p) => "*** Update File: " + p
    case TitleMove(p) => "*** Move to: " + p
    case TitleEof => "*** End of File"
    case Select(n, a) => ShowSelector(n, a)
    case Change(b) => ShowBody(b)
    case _ => ""
  }

  function ShowAll(ts: Tokens): seq<Line>
  {
    if ts.End? then [] else [Show(ts.first)] + ShowAll(ts.more)
  }

  function PatchLines(ops: seq<Op>): seq<Line>
  {
    ["*** Begin Patch"] + ShowAll(WriteOps(ops)) + ["*** End Patch"]
  }

  function Eol(crlf: bool): string { if crlf then "\r\n" else "\n" }

  /** Lines ended by "\r\n" where crlf says so, by "\n" elsewhere. */
  function JoinWith(ls: seq<Line>, crlf: seq<bool>): string
    requires |ls| == |crlf|
  {
    if |ls| == 0 then "" else if |ls| == 1 then ls[0]
    else ls[0] + Eol(crlf[0]) + JoinWith(ls[1..], crlf[1..])
  }

  // Selectors read back

  lemma TrimSpaceBefore(s: string)
    requires Inked(s)
    ensures TrimSpace(" " + s) == s
  {
    var t := " " + s;
    assert t[|t| - 1] == s[|s| - 1] && t[0] == ' ' && t[1..] == s;
    assert TrimRight(t) == t;
    assert TrimLeft(t) == TrimLeft(s);
  }

  lemma ReadAnchor(a: string)
    requires FitAnchor(a)
    ensures ReadSelector("@@ " + a) == Some((0, a))
  {
    var l := "@@ " + a;
    assert l[..2] == "@@" && TrimPrefix(l, "@@") == " " + a;
    TrimSpaceBefore(a);
  }

  lemma ReadNumber(d: string, n: int)
    requires Inked(d) && Atoi(d) == Some(n) && n >= 1
    ensures ReadSelector("@@ line " + d) == Some((n, ""))
  {
    var l, t := "@@ line " + d, "line " + d;
    assert l[..2] == "@@" && TrimPrefix(l, "@@") == " " + t;
    assert t[0] == 'l' && t[|t| - 1] == d[|d| - 1];
    TrimSpaceBefore(t);
    assert t[..5] == "line " && TrimPrefix(t, "line ") == d;
    assert TrimRight(d) == d && TrimLeft(d) == d;
  }

  lemma ReadSelectorBack(n: nat, a: string)
    requires FitToken(Select(n, a))
    ensures ReadSelector(ShowSelector(n, a)) == Some((n, a))
  {
    if n > 0 {
      var d := Itoa(n);
      ItoaDigits(n);
      AtoiItoa(n);
      assert IsDigit(d[0]) && IsDigit(d[|d| - 1]);
      ReadNumber(d, n);
    } else if a == "" {
      assert TrimPrefix("@@", "@@") == "" && TrimSpace("") == "";
    } else {
      ReadAnchor(a);
    }
  }

  // Lines read back

  lemma LexShowSelector(n: nat, a: string)
    requires FitToken(Select(n, a))
    ensures Lex(ShowSelector(n, a)) == Select(n, a)
  {
    var l := ShowSelector(n, a);
    ReadSelectorBack(n, a);
    assert l[..2] == "@@" && l[0] != "*** "[0];
  }

  lemma LexShowBody(b: BodyLine)
    ensures Lex(ShowBody(b)) == Change(b)
  {
    var l := ShowBody(b);
    assert l[0] in " -+" && l[1..] == b.text && l[..1] in [" ", "-", "+"];
    assert l[0] != "*** "[0] && l[0] != "@@"[0];
  }

  lemma LexShowTitle(k: nat, p: string)
    requires k < 4
    ensures var l := Titles[k] + p; Header(l) && TrimPrefix(l, Titles[k]) == p
    ensures var l := Titles[k] + p;
      (0 < k ==> !HasPrefix(l, AddHeader)) && (1 < k ==> !HasPrefix(l, DeleteHeader)) && (2 < k ==> !HasPrefix(l, UpdateHeader))
  {
    var l := Titles[k] + p;
    assert l[..|Titles[k]|] == Titles[k];
    TitlesDiffer(l, k);
    if HasPrefix(l, Titles[0]) { TitlesDiffer(l, 0); }
    if HasPrefix(l, Titles[1]) { TitlesDiffer(l, 1); }
    if HasPrefix(l, Titles[2]) { TitlesDiffer(l, 2); }
  }

  lemma LexShow(t: Token)
    requires FitToken(t)
    ensures Lex(Show(t)) == t
  {
    match t {
      case TitleAdd(p) => LexShowTitle(0, p);
      case TitleDelete(p) => LexShowTitle(1, p);
      case TitleUpdate(p) => LexShowTitle(2, p);
      case TitleMove(p) => LexShowTitle(3, p);
      case TitleEof => LexEof(EofLine);
      case Select(n, a) => LexShowSelector(n, a);
      case Change(b) => LexShowBody(b);
    }
  }

  lemma {:induction false} TailShow(ls: seq<Line>, i: nat, ts: Tokens)
    requires i <= |ls| && ls[i..] == ShowAll(ts) && AllFit(ts)
    ensures Tail(ls, i) == ts
    decreases ts
  {
    if ts.Next? {
      assert ls[i] == ls[i..][0];
      assert ls[i + 1..] == ls[i..][1..] == ShowAll(ts.more);
      LexShow(ts.first);
      TailShow(ls, i + 1, ts.more);
    } else {
      assert |ls[i..]| == 0;
    }
  }

  // Everything that is written fits

  lemma {:induction false} FitAdded(content: seq<Line>, rest: Tokens)
    requires AllFit(rest) && forall i :: 0 <= i < |content| ==> Fit(content[i])
    ensures AllFit(WriteAdded(content, rest))
    decreases |content|
  {
    if content != [] { FitAdded(content[1..], rest); }
  }

  lemma {:induction false} FitBody(body: seq<BodyLine>, rest: Tokens)
    requires AllFit(rest) && forall i :: 0 <= i < |body| ==> Fit(body[i].text)
    ensures AllFit(WriteBody(body, rest))
    decreases |body|
  {
    if body != [] { FitBody(body[1..], rest); }
  }

  lemma {:induction false} FitAnchors(anchors: seq<string>, rest: Tokens)
    requires AllFit(rest) && forall i :: 0 <= i < |anchors| ==> FitAnchor(anchors[i])
    ensures AllFit(WriteAnchors(anchors, rest))
    decreases |anchors|
  {
    if anchors != [] { FitAnchors(anchors[1..], rest); }
  }

  lemma FitOneEdit(e: Edit, rest: Tokens)
    requires AllFit(rest) && FitEdit(e)
    ensures AllFit(WriteEdit(e, rest)) && ShapedEdit(e)
  {
    var tail := if e.endOfFile then Next(TitleEof, rest) else rest;
    FitBody(e.body, tail);
    var body := WriteBody(e.body, tail);
    FitAnchors(e.anchors, if e.line > 0 || e.anchors == [] then Next(Select(e.line, ""), body) else body);
  }

  lemma {:induction false} FitEdits(edits: seq<Edit>, rest: Tokens)
    requires AllFit(rest) && forall i :: 0 <= i < |edits| ==> FitEdit(edits[i])
    ensures AllFit(WriteEdits(edits, rest)) && forall i :: 0 <= i < |edits| ==> ShapedEdit(edits[i])
    decreases |edits|
  {
    if edits != [] {
      FitEdits(edits[1..], rest);
      FitOneEdit(edits[0], WriteEdits(edits[1..], rest));
    }
  }

  lemma FitOneOp(op: Op, rest: Tokens)
    requires AllFit(rest) && FitOp(op)
    ensures AllFit(WriteOp(op, rest)) && Shaped(op)
  {
    match op {
      case Add(_, content) => FitAdded(content, rest);
      case Delete(_) =>
      case Update(_, move, edits) => FitEdits(edits, rest);
    }
  }

  lemma {:induction false} FitAllOps(ops: seq<Op>)
    requires forall i :: 0 <= i < |ops| ==> FitOp(ops[i])
    ensures AllFit(WriteOps(ops)) && forall i :: 0 <= i < |ops| ==> Shaped(ops[i])
    decreases |ops|
  {
    if ops != [] {
      FitAllOps(ops[1..]);
      FitOneOp(ops[0], WriteOps(ops[1..]));
    }
  }

  lemma FitShow(t: Token)
    requires FitToken(t)
    ensures Fit(Show(t))
  {
    var l := Show(t);
    match t {
      case Select(n, a) =>
        if n > 0 {
          ItoaDigits(n);
          assert IsDigit(Itoa(n)[|Itoa(n)| - 1]);
          assert Plain("@@ line ") && l[|l| - 1] == Itoa(n)[|Itoa(n)| - 1];
        }
      case _ =>
    }
  }

  lemma {:induction false} FitShowAll(ts: Tokens)
    requires AllFit(ts)
    ensures forall i :: 0 <= i < |ShowAll(ts)| ==> Fit(ShowAll(ts)[i])
    decreases ts
  {
    if ts.Next? { FitShow(ts.first); FitShowAll(ts.more); }
  }

  // From text to lines

  ghost predicate AllSpace(s: string) { forall i :: 0 <= i < |s| ==> IsSpace(s[i]) }

  lemma {:induction false} TrimLeftOff(lead: string, s: string)
    requires AllSpace(lead) && Inked(s)
    ensures TrimLeft(lead + s) == s
    decreases |lead|
  {
    if lead == "" {
      assert lead + s == s;
    } else {
      assert (lead + s)[0] == lead[0] && (lead + s)[1..] == lead[1..] + s;
      TrimLeftOff(lead[1..], s);
    }
  }

  lemma {:induction false} TrimRightOff(s: string, trail: string)
    requires AllSpace(trail) && s != "" && !IsSpace(s[|s| - 1])
    ensures TrimRight(s + trail) == s
    decreases |trail|
  {
    if trail == "" {
      assert s + trail == s;
    } else {
      var t, before := s + trail, trail[..|trail| - 1];
      assert t[|t| - 1] == trail[|trail| - 1] && t[..|t| - 1] == s + before;
      TrimRightOff(s, before);
    }
  }

  lemma TrimOff(lead: string, s: string, trail: string)
    requires AllSpace(lead) && AllSpace(trail) && Inked(s)
    ensures TrimSpace(lead + s + trail) == s
  {
    TrimRightOff(lead + s, trail);
    TrimLeftOff(lead, s);
  }

  lemma {:induction false} UnixKeeps(l: Line, s: string)
    requires Fit(l)
    ensures UnixLines(l + s) == l + UnixLines(s)
    decreases |l|
  {
    if l == "" {
      assert l + s == s;
    } else {
      var t := l + s;
      assert t[0] == l[0] && t[1..] == l[1..] + s;
      assert |l| > 1 ==> t[1] == l[1];
      UnixKeeps(l[1..], s);
      assert l == [l[0]] + l[1..];
      assert [l[0]] + (l[1..] + UnixLines(s)) == l + UnixLines(s);
    }
  }

  lemma UnixEol(crlf: bool, s: string)
    ensures UnixLines(Eol(crlf) + s) == "\n" + UnixLines(s)
  {
    var t := Eol(crlf) + s;
    assert t[|Eol(crlf)|..] == s;
  }

  lemma {:induction false} UnixJoin(ls: seq<Line>, crlf: seq<bool>)
    requires |ls| == |crlf| && |ls| >= 1 && forall i :: 0 <= i < |ls| ==> Fit(ls[i])
    ensures UnixLines(JoinWith(ls, crlf)) == Join(ls)
    decreases |ls|
  {
    var l := ls[0];
    if |ls| == 1 {
      UnixKeeps(l, "");
      assert l + "" == l;
    } else {
      var more := JoinWith(ls[1..], crlf[1..]);
      UnixJoin(ls[1..], crlf[1..]);
      UnixKeeps(l, Eol(crlf[0]) + more);
      UnixEol(crlf[0], more);
      ConcatAssoc(l, Eol(crlf[0]), more);
      ConcatAssoc(l, "\n", Join(ls[1..]));
    }
  }

  lemma {:induction false} JoinEnds(ls: seq<Line>, crlf: seq<bool>)
    requires |ls| == |crlf| && |ls| >= 1 && ls[|ls| - 1] != ""
    ensures var s, last := JoinWith(ls, crlf), ls[|ls| - 1]; s != "" && s[|s| - 1] == last[|last| - 1]
    decreases |ls|
  {
    if |ls| > 1 { JoinEnds(ls[1..], crlf[1..]); }
  }

  lemma PatchTextInked(ops: seq<Op>, crlf: seq<bool>)
    requires |crlf| == |PatchLines(ops)|
    ensures Inked(JoinWith(PatchLines(ops), crlf))
  {
    var ls, s := PatchLines(ops), JoinWith(PatchLines(ops), crlf);
    assert ls[0] == BeginLine && ls[|ls| - 1] == EndLine;
    JoinEnds(ls, crlf);
    assert s[0] == BeginLine[0];
  }

  lemma LinesBack(ls: seq<Line>, crlf: seq<bool>, lead: string, trail: string)
    requires |ls| == |crlf| && |ls| >= 1 && forall i :: 0 <= i < |ls| ==> Fit(ls[i])
    requires Inked(JoinWith(ls, crlf)) && AllSpace(lead) && AllSpace(trail)
    ensures TextLines(lead + JoinWith(ls, crlf) + trail) == ls
  {
    TrimOff(lead, JoinWith(ls, crlf), trail);
    UnixJoin(ls, crlf);
    SplitJoin(ls);
  }

  lemma PatchLinesFit(ops: seq<Op>)
    requires FitOps(ops)
    ensures forall i :: 0 <= i < |PatchLines(ops)| ==> Fit(PatchLines(ops)[i])
  {
    FitAllOps(ops);
    FitShowAll(WriteOps(ops));
    assert Fit(BeginLine) && Fit(EndLine);
  }

  lemma ParseEnveloped(ls: seq<Line>, ops: seq<FileOp>)
    requires Enveloped(ls) && ops != [] && OpsAt(Tail(ls[..|ls| - 1], 1), []) == Done(ops, End)
    ensures ParseLines(ls) == Ops(ops)
  {
  }

  lemma TailOfPatch(ops: seq<Op>)
    requires FitOps(ops)
    ensures Tail([BeginLine] + ShowAll(WriteOps(ops)), 1) == WriteOps(ops)
  {
    FitAllOps(ops);
    var body := [BeginLine] + ShowAll(WriteOps(ops));
    assert body[1..] == ShowAll(WriteOps(ops));
    TailShow(body, 1, WriteOps(ops));
  }

  lemma ParsePatchLines(ops: seq<Op>)
    requires FitOps(ops)
    ensures ParseLines(PatchLines(ops)) == Ops(OpsOf(ops))
  {
    var ls := PatchLines(ops);
    FitAllOps(ops);
    TailOfPatch(ops);
    assert ls[..|ls| - 1] == [BeginLine] + ShowAll(WriteOps(ops));
    ReadOps(ops, []);
    assert [] + OpsOf(ops) == OpsOf(ops);
    ParseEnveloped(ls, OpsOf(ops));
  }

  /** Whatever the line endings and the white space around it, a written patch is read back as its operations. */
  lemma ParsePrinted(ops: seq<Op>, crlf: seq<bool>, lead: string, trail: string)
    requires FitOps(ops) && |crlf| == |PatchLines(ops)| && AllSpace(lead) && AllSpace(trail)
    ensures Parse(lead + JoinWith(PatchLines(ops), crlf) + trail) == Ops(OpsOf(ops))
  {
    PatchLinesFit(ops);
    PatchTextInked(ops, crlf);
    LinesBack(PatchLines(ops), crlf, lead, trail);
    ParsePatchLines(ops);
  }

  // What a hunk's printed lines say

  /** The lines that start with one of the marks, without it. */
  function Marked(ls: seq<Line>, marks: set<char>): seq<Line>
  {
    if ls == [] then []
    else (if ls[0] != "" && ls[0][0] in marks then [ls[0][1..]] else []) + Marked(ls[1..], marks)
  }

  function ShowBodies(body: seq<BodyLine>): seq<Line>
  {
    if body == [] then [] else [ShowBody(body[0])] + ShowBodies(body[1..])
  }

  lemma {:induction false} OldsMarked(body: seq<BodyLine>)
    ensures Olds(body) == Marked(ShowBodies(body), {' ', '-'})
  {
    if body != [] {
      OldsMarked(body[1..]);
      assert ShowBodies(body)[1..] == ShowBodies(body[1..]);
    }
  }

  lemma {:induction false} NewsMarked(body: seq<BodyLine>)
    ensures News(body) == Marked(ShowBodies(body), {' ', '+'})
  {
    if body != [] {
      NewsMarked(body[1..]);
      assert ShowBodies(body)[1..] == ShowBodies(body[1..]);
    }
  }

  /** A hunk asks for the lines printed after a space or a minus, and puts those after a space or a plus. */
  lemma HunkSays(e: Edit)
    ensures HunkOf(e).oldText == Join(Marked(ShowBodies(e.body), {' ', '-'}))
    ensures HunkOf(e).newText == Join(Marked(ShowBodies(e.body), {' ', '+'}))
    ensures HunkOf(e).line == e.line && HunkOf(e).anchors == e.anchors && HunkOf(e).endOfFile == e.endOfFile
  {
    OldsMarked(e.body);
    NewsMarked(e.body);
  }

  lemma {:induction false} HunksSay(edits: seq<Edit>, i: nat)
    requires i < |edits|
    ensures |HunksOf(edits)| == |edits| && HunksOf(edits)[i] == HunkOf(edits[i])
    decreases |edits|
  {
    if |edits| > 1 {
      HunksSay(edits[1..], if i == 0 then 0 else i - 1);
    } else {
      assert edits[1..] == [];
    }
  }
}

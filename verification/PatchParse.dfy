/** claudetool/patch.go: the hand-written parser of the apply_patch format. */
module PatchParse {
  import opened Text
  import opened Options
  import opened Decimal
  import opened PatchEdit
  import opened PatchGrammar

  const AddHeader := "*** Add File: "
  const DeleteHeader := "*** Delete File: "
  const UpdateHeader := "*** Update File: "
  const MoveHeader := "*** Move to: "
  const EofLine := "*** End of File"
  const BeginLine := "*** Begin Patch"
  const EndLine := "*** End Patch"

  predicate Header(l: Line) { HasPrefix(l, "*** ") }

  predicate Selector(l: Line) { HasPrefix(l, "@@") }

  /** applyPatchHunkSelector: a line number, or 0 and an anchor that may be empty. */
  function ReadSelector(header: Line): Option<(nat, string)>
  {
    var tag := TrimSpace(TrimPrefix(header, "@@"));
    if HasPrefix(tag, "line ") then
      match Atoi(TrimSpace(TrimPrefix(tag, "line ")))
      case Some(n) => if n < 1 then None else Some((n, ""))
      case None => None
    else Some((0, tag))
  }

  // What a line is to the grammar

  ghost function LexSelector(l: Line): Token
  {
    match ReadSelector(l) case Some((n, a)) => Select(n, a) case None => BadSelect
  }

  ghost function LexTitle(l: Line): Token
  {
    if HasPrefix(l, AddHeader) then TitleAdd(TrimPrefix(l, AddHeader))
    else if HasPrefix(l, DeleteHeader) then TitleDelete(TrimPrefix(l, DeleteHeader))
    else if HasPrefix(l, UpdateHeader) then TitleUpdate(TrimPrefix(l, UpdateHeader))
    else if HasPrefix(l, MoveHeader) then TitleMove(TrimPrefix(l, MoveHeader))
    else if l == EofLine then TitleEof
    else TitleOther
  }

  ghost function LexBody(l: Line): Token
  {
    if HasPrefix(l, " ") then Change(Keep(TrimPrefix(l, " ")))
    else if HasPrefix(l, "-") then Change(Remove(TrimPrefix(l, "-")))
    else if HasPrefix(l, "+") then Change(Insert(TrimPrefix(l, "+")))
    else Junk
  }

  ghost function Lex(l: Line): Token
  {
    if Header(l) then LexTitle(l) else if Selector(l) then LexSelector(l) else LexBody(l)
  }

  ghost function Tail(ls: seq<Line>, i: nat): Tokens
    requires i <= |ls|
    decreases |ls| - i
  {
    if i == |ls| then End else Next(Lex(ls[i]), Tail(ls, i + 1))
  }

  lemma PrefixFirst(l: Line, p: string)
    requires p != "" && HasPrefix(l, p)
    ensures l != "" && l[0] == p[0]
  {
  }

  const Titles := [AddHeader, DeleteHeader, UpdateHeader, MoveHeader, EofLine]

  /** The titles are headers, told apart by their fifth character. */
  lemma TitlesDiffer(l: Line, k: nat)
    requires k < 5 && HasPrefix(l, Titles[k])
    ensures Header(l) && |l| > 4 && l[4] == "ADUME"[k]
  {
    var p := Titles[k];
    assert p[..4] == "*** " && p[4] == "ADUME"[k];
    assert l[..4] == p[..4];
  }

  /** The tests the parser makes on a line, in the grammar's terms. */
  lemma LexTests(l: Line)
    ensures Title(Lex(l)) == Header(l) && Selects(Lex(l)) == Selector(l)
    ensures Lex(l).Change? && Lex(l).b.Insert? <==> HasPrefix(l, "+")
    ensures HasPrefix(l, "+") ==> Lex(l) == Change(Insert(TrimPrefix(l, "+")))
  {
    if Header(l) { PrefixFirst(l, "*** "); }
    if Selector(l) { PrefixFirst(l, "@@"); }
    if HasPrefix(l, "+") { PrefixFirst(l, "+"); }
    if HasPrefix(l, " ") { PrefixFirst(l, " "); }
    if HasPrefix(l, "-") { PrefixFirst(l, "-"); }
  }

  lemma LexTitles(l: Line)
    ensures (exists k :: 0 <= k < 5 && HasPrefix(l, Titles[k])) ==> Lex(l) == LexTitle(l)
  {
    if k :| 0 <= k < 5 && HasPrefix(l, Titles[k]) { TitlesDiffer(l, k); }
  }

  lemma LexMove(l: Line)
    ensures Lex(l).TitleMove? <==> HasPrefix(l, MoveHeader)
    ensures HasPrefix(l, MoveHeader) ==> Lex(l) == TitleMove(TrimPrefix(l, MoveHeader))
  {
    LexTests(l);
    if HasPrefix(l, Titles[3]) {
      TitlesDiffer(l, 3);
      if HasPrefix(l, Titles[0]) { TitlesDiffer(l, 0); }
      if HasPrefix(l, Titles[1]) { TitlesDiffer(l, 1); }
      if HasPrefix(l, Titles[2]) { TitlesDiffer(l, 2); }
    }
  }

  lemma LexEof(l: Line)
    ensures Lex(l).TitleEof? <==> l == EofLine
  {
    LexTests(l);
    if l == Titles[4] {
      TitlesDiffer(l, 4);
      if HasPrefix(l, Titles[0]) { TitlesDiffer(l, 0); }
      if HasPrefix(l, Titles[3]) { TitlesDiffer(l, 3); }
    }
  }

  // The parser's loops. Each returns what it read and the index it stopped at.

  datatype Read<T> = Got(value: T, next: nat) | Failed(error: ParseError)

  /** The loop's result r, seen from the lines, is the grammar's. */
  ghost predicate Agrees<T>(ls: seq<Line>, r: Read<T>, step: Step<T>)
  {
    match r
    case Got(v, next) => next <= |ls| && step == Done(v, Tail(ls, next))
    case Failed(e) => step == Bad(e)
  }

  method ParseAdded(ls: seq<Line>, start: nat) returns (r: Read<seq<Line>>)
    requires start <= |ls|
    ensures Agrees(ls, r, Added(Tail(ls, start), []))
  {
    var i, content := start, [];
    while i < |ls| && !Header(ls[i])
      invariant start <= i <= |ls| && Added(Tail(ls, start), []) == Added(Tail(ls, i), content)
    {
      LexTests(ls[i]);
      if !HasPrefix(ls[i], "+") { return Failed(BadAddLine); }
      content := content + [TrimPrefix(ls[i], "+")];
      i := i + 1;
    }
    if i < |ls| { LexTests(ls[i]); }
    return Got(content, i);
  }

  method ParseSelectors(ls: seq<Line>, start: nat) returns (r: Read<Selection>)
    requires start <= |ls|
    ensures Agrees(ls, r, Selected(Tail(ls, start), Selection(0, [])))
  {
    var i, line: nat, anchors := start, 0, [];
    while i < |ls| && Selector(ls[i])
      invariant start <= i <= |ls|
      invariant Selected(Tail(ls, start), Selection(0, [])) == Selected(Tail(ls, i), Selection(line, anchors))
    {
      LexTests(ls[i]);
      var s := ReadSelector(ls[i]);
      if s.None? { return Failed(BadSelector); }
      line := s.value.0;
      if s.value.1 != "" { anchors := anchors + [s.value.1]; }
      i := i + 1;
    }
    if i < |ls| { LexTests(ls[i]); }
    return Got(Selection(line, anchors), i);
  }

  method ParseBody(ls: seq<Line>, start: nat) returns (r: Read<Body>)
    requires start <= |ls|
    ensures Agrees(ls, r, BodyOf(Tail(ls, start), Body([], [])))
  {
    var i, olds, news := start, [], [];
    while i < |ls| && !Selector(ls[i]) && !Header(ls[i])
      invariant start <= i <= |ls| && BodyOf(Tail(ls, start), Body([], [])) == BodyOf(Tail(ls, i), Body(olds, news))
    {
      LexTests(ls[i]);
      var l := ls[i];
      if HasPrefix(l, " ") {
        olds, news := olds + [TrimPrefix(l, " ")], news + [TrimPrefix(l, " ")];
      } else if HasPrefix(l, "-") {
        olds := olds + [TrimPrefix(l, "-")];
      } else if HasPrefix(l, "+") {
        news := news + [TrimPrefix(l, "+")];
      } else {
        return Failed(BadUpdateLine);
      }
      i := i + 1;
    }
    if i < |ls| { LexTests(ls[i]); }
    return Got(Body(olds, news), i);
  }

  method ParseHunk(ls: seq<Line>, start: nat, path: string) returns (r: Read<Hunk>)
    requires start <= |ls|
    ensures Agrees(ls, r, HunkAt(Tail(ls, start), path))
  {
    var s := ParseSelectors(ls, start);
    if s.Failed? { return Failed(s.error); }
    var b := ParseBody(ls, s.next);
    if b.Failed? { return Failed(b.error); }
    r := FinishHunk(ls, b.next, path, s.value, b.value);
  }

  method FinishHunk(ls: seq<Line>, start: nat, path: string, s: Selection, b: Body) returns (r: Read<Hunk>)
    requires start <= |ls|
    ensures Agrees(ls, r, HunkEnd(path, s, b, Tail(ls, start)))
  {
    var i, eof := start, false;
    if i < |ls| { LexEof(ls[i]); }
    if i < |ls| && ls[i] == EofLine { eof, i := true, i + 1; }
    if b.olds == [] && b.news == [] { return Failed(EmptyUpdate(path)); }
    return Got(Hunk(Join(b.olds), Join(b.news), s.line, s.anchors, eof), i);
  }

  lemma {:induction false} TailSize(ls: seq<Line>, i: nat)
    requires i <= |ls|
    ensures Size(Tail(ls, i)) == |ls| - i
    decreases |ls| - i
  {
    if i < |ls| { TailSize(ls, i + 1); }
  }

  method ParseHunks(ls: seq<Line>, start: nat, path: string) returns (r: Read<seq<Hunk>>)
    requires start <= |ls|
    ensures Agrees(ls, r, HunksAt(Tail(ls, start), path, []))
  {
    var i, hunks := start, [];
    while i < |ls| && !Header(ls[i])
      invariant start <= i <= |ls| && HunksAt(Tail(ls, start), path, []) == HunksAt(Tail(ls, i), path, hunks)
    {
      LexTests(ls[i]);
      var h := ParseHunk(ls, i, path);
      if h.Failed? { return Failed(h.error); }
      TailSize(ls, i);
      TailSize(ls, h.next);
      hunks := hunks + [h.value];
      i := h.next;
    }
    if i < |ls| { LexTests(ls[i]); }
    return Got(hunks, i);
  }

  method ParseUpdate(ls: seq<Line>, start: nat, path: string) returns (r: Read<FileOp>)
    requires start <= |ls|
    ensures Agrees(ls, r, UpdateAt(Tail(ls, start), path))
  {
    var i, move := start, "";
    if i < |ls| { LexMove(ls[i]); }
    if i < |ls| && HasPrefix(ls[i], MoveHeader) {
      move := TrimPrefix(ls[i], MoveHeader);
      if move == "" { return Failed(MissingPath); }
      i := i + 1;
    }
    var hs := ParseHunks(ls, i, path);
    if hs.Failed? { return Failed(hs.error); }
    if hs.value == [] { return Failed(EmptyUpdate(path)); }
    return Got(UpdateFile(path, move, hs.value), hs.next);
  }

  method ParseOp(ls: seq<Line>, i: nat) returns (r: Read<FileOp>)
    requires i < |ls|
    ensures Agrees(ls, r, OpAt(Tail(ls, i)))
  {
    LexTitles(ls[i]);
    if HasPrefix(ls[i], AddHeader) {
      var path := TrimPrefix(ls[i], AddHeader);
      if path == "" { return Failed(MissingPath); }
      var content := ParseAdded(ls, i + 1);
      if content.Failed? { return Failed(content.error); }
      if content.value == [] { return Failed(EmptyAdd(path)); }
      return Got(AddFile(path, Join(content.value) + "\n"), content.next);
    } else if HasPrefix(ls[i], DeleteHeader) {
      var path := TrimPrefix(ls[i], DeleteHeader);
      if path == "" { return Failed(MissingPath); }
      return Got(DeleteFile(path), i + 1);
    } else if HasPrefix(ls[i], UpdateHeader) {
      var path := TrimPrefix(ls[i], UpdateHeader);
      if path == "" { return Failed(MissingPath); }
      r := ParseUpdate(ls, i + 1, path);
    } else {
      return Failed(BadHeader);
    }
  }

  /** strings.ReplaceAll(s, "\r\n", "\n") */
  function UnixLines(s: string): string
  {
    if |s| >= 2 && s[0] == '\r' && s[1] == '\n' then "\n" + UnixLines(s[2..])
    else if s == "" then ""
    else [s[0]] + UnixLines(s[1..])
  }

  predicate Enveloped(ls: seq<Line>) { |ls| >= 3 && ls[0] == BeginLine && ls[|ls| - 1] == EndLine }

  datatype Parsed = Ops(ops: seq<FileOp>) | Rejected(error: ParseError)

  function TextLines(text: string): seq<Line> { Split(UnixLines(TrimSpace(text))) }

  ghost function ParseLines(ls: seq<Line>): Parsed
  {
    if !Enveloped(ls) then Rejected(BadEnvelope)
    else
      match OpsAt(Tail(ls[..|ls| - 1], 1), [])
      case Bad(e) => Rejected(e)
      case Done(ops, _) => if ops == [] then Rejected(NoOperations) else Ops(ops)
  }

  ghost function Parse(text: string): Parsed { ParseLines(TextLines(text)) }

  method ParseOps(ls: seq<Line>) returns (r: Read<seq<FileOp>>)
    requires 1 <= |ls|
    ensures Agrees(ls, r, OpsAt(Tail(ls, 1), []))
  {
    var i, ops := 1, [];
    while i < |ls|
      invariant 1 <= i <= |ls| && OpsAt(Tail(ls, 1), []) == OpsAt(Tail(ls, i), ops)
    {
      var op := ParseOp(ls, i);
      if op.Failed? { return Failed(op.error); }
      TailSize(ls, i);
      TailSize(ls, op.next);
      ops := ops + [op.value];
      i := op.next;
    }
    return Got(ops, i);
  }

  /** parseApplyPatch */
  method ParseApplyPatch(text: string) returns (r: Parsed)
    ensures r == Parse(text)
  {
    var lines := TextLines(text);
    if !Enveloped(lines) { return Rejected(BadEnvelope); }
    var ops := ParseOps(lines[..|lines| - 1]);
    if ops.Failed? { return Rejected(ops.error); }
    if ops.value == [] { return Rejected(NoOperations); }
    return Ops(ops.value);
  }
}

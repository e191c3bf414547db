/** claudetool/patch.go: the apply_patch format as a grammar over classified lines. */
module PatchGrammar {
  import opened Text
  import opened PatchEdit
  import opened Bytes

  // What one line is

  datatype BodyLine = Keep(text: Line) | Remove(text: Line) | Insert(text: Line)

  datatype Token =
    | TitleAdd(path: string) | TitleDelete(path: string) | TitleUpdate(path: string) | TitleMove(path: string)
    | TitleEof | TitleOther
    | Select(line: nat, anchor: string) | BadSelect
    | Change(b: BodyLine) | Junk

  predicate Title(t: Token)
  {
    t.TitleAdd? || t.TitleDelete? || t.TitleUpdate? || t.TitleMove? || t.TitleEof? || t.TitleOther?
  }

  predicate Selects(t: Token) { t.Select? || t.BadSelect? }

  // What the parser returns

  datatype FileOp =
    | AddFile(path: string, content: string)
    | DeleteFile(path: string)
    | UpdateFile(path: string, movePath: string, hunks: seq<Hunk>)

  datatype ParseError =
    | BadEnvelope
    | MissingPath
    | BadAddLine
    | EmptyAdd(path: string)
    | BadUpdateLine
    | EmptyUpdate(path: string)
    | BadSelector
    | BadHeader
    | NoOperations

  /** What was read and what is left, or the error. */
  datatype Step<T> = Done(value: T, rest: Tokens) | Bad(error: ParseError)

  datatype Tokens = End | Next(first: Token, more: Tokens)

  // The grammar

  ghost function Added(ts: Tokens, acc: seq<Line>): (r: Step<seq<Line>>)
    ensures r.Done? ==> Size(r.rest) <= Size(ts)
  {
    if ts.End? || Title(ts.first) then Done(acc, ts)
    else if !(ts.first.Change? && ts.first.b.Insert?) then Bad(BadAddLine)
    else Added(ts.more, acc + [ts.first.b.text])
  }

  ghost function Size(ts: Tokens): nat { if ts.End? then 0 else 1 + Size(ts.more) }

  datatype Selection = Selection(line: nat, anchors: seq<string>)

  /** The last selector decides the line; every anchor counts. */
  function AddSelector(s: Selection, line: nat, anchor: string): Selection
  {
    Selection(line, if anchor == "" then s.anchors else s.anchors + [anchor])
  }

  ghost function Selected(ts: Tokens, acc: Selection): (r: Step<Selection>)
    ensures r.Done? ==> r.rest == ts || Size(r.rest) < Size(ts)
  {
    if ts.End? || !Selects(ts.first) then Done(acc, ts)
    else if ts.first.BadSelect? then Bad(BadSelector)
    else Selected(ts.more, AddSelector(acc, ts.first.line, ts.first.anchor))
  }

  datatype Body = Body(olds: seq<Line>, news: seq<Line>)

  function AddBodyLine(acc: Body, b: BodyLine): Body
  {
    match b
    case Keep(l) => Body(acc.olds + [l], acc.news + [l])
    case Remove(l) => Body(acc.olds + [l], acc.news)
    case Insert(l) => Body(acc.olds, acc.news + [l])
  }

  predicate BodyEnds(ts: Tokens) { ts.End? || Selects(ts.first) || Title(ts.first) }

  ghost function BodyOf(ts: Tokens, acc: Body): (r: Step<Body>)
    ensures r.Done? ==> (r.rest == ts && r.value == acc) || Size(r.rest) < Size(ts)
  {
    if BodyEnds(ts) then Done(acc, ts)
    else if ts.first.Junk? then Bad(BadUpdateLine)
    else BodyOf(ts.more, AddBodyLine(acc, ts.first.b))
  }

  /** One hunk: its selectors, its body, perhaps an End of File line. */
  ghost function HunkAt(ts: Tokens, path: string): (r: Step<Hunk>)
    ensures r.Done? ==> Size(r.rest) < Size(ts)
  {
    match Selected(ts, Selection(0, []))
    case Bad(e) => Bad(e)
    case Done(s, afterSelectors) =>
      match BodyOf(afterSelectors, Body([], []))
      case Bad(e) => Bad(e)
      case Done(b, left) => HunkEnd(path, s, b, left)
  }

  ghost function HunkEnd(path: string, s: Selection, b: Body, left: Tokens): (r: Step<Hunk>)
    ensures r.Done? ==> Size(r.rest) <= Size(left) && (b.olds != [] || b.news != [])
  {
    var eof := left.Next? && left.first.TitleEof?;
    if b.olds == [] && b.news == [] then Bad(EmptyUpdate(path))
    else Done(Hunk(Join(b.olds), Join(b.news), s.line, s.anchors, eof), if eof then left.more else left)
  }

  ghost function HunksAt(ts: Tokens, path: string, acc: seq<Hunk>): (r: Step<seq<Hunk>>)
    ensures r.Done? ==> Size(r.rest) <= Size(ts)
    decreases Size(ts)
  {
    if ts.End? || Title(ts.first) then Done(acc, ts)
    else
      match HunkAt(ts, path)
      case Bad(e) => Bad(e)
      case Done(h, rest) => HunksAt(rest, path, acc + [h])
  }

  ghost function MoveAt(ts: Tokens): (r: Step<string>)
    ensures r.Done? ==> Size(r.rest) <= Size(ts)
  {
    if ts.Next? && ts.first.TitleMove? then
      if ts.first.path == "" then Bad(MissingPath) else Done(ts.first.path, ts.more)
    else Done("", ts)
  }

  ghost function UpdateAt(ts: Tokens, path: string): (r: Step<FileOp>)
    ensures r.Done? ==> Size(r.rest) <= Size(ts)
  {
    match MoveAt(ts)
    case Bad(e) => Bad(e)
    case Done(move, afterMove) =>
      match HunksAt(afterMove, path, [])
      case Bad(e) => Bad(e)
      case Done(hs, rest) => if hs == [] then Bad(EmptyUpdate(path)) else Done(UpdateFile(path, move, hs), rest)
  }

  ghost function AddAt(ts: Tokens, path: string): (r: Step<FileOp>)
    ensures r.Done? ==> Size(r.rest) <= Size(ts)
  {
    match Added(ts, [])
    case Bad(e) => Bad(e)
    case Done(content, rest) =>
      if content == [] then Bad(EmptyAdd(path)) else Done(AddFile(path, Join(content) + "\n"), rest)
  }

  /** One file operation. */
  ghost function OpAt(ts: Tokens): (r: Step<FileOp>)
    requires ts.Next?
    ensures r.Done? ==> Size(r.rest) < Size(ts)
  {
    match ts.first
    case TitleAdd(path) => if path == "" then Bad(MissingPath) else AddAt(ts.more, path)
    case TitleDelete(path) => if path == "" then Bad(MissingPath) else Done(DeleteFile(path), ts.more)
    case TitleUpdate(path) => if path == "" then Bad(MissingPath) else UpdateAt(ts.more, path)
    case _ => Bad(BadHeader)
  }

  ghost function OpsAt(ts: Tokens, acc: seq<FileOp>): Step<seq<FileOp>>
    decreases Size(ts)
  {
    if ts.End? then Done(acc, ts)
    else
      match OpAt(ts)
      case Bad(e) => Bad(e)
      case Done(op, rest) => OpsAt(rest, acc + [op])
  }

  // What a patch author writes, and what it means

  datatype Edit = Edit(anchors: seq<string>, line: nat, body: seq<BodyLine>, endOfFile: bool)

  datatype Op =
    | Add(path: string, content: seq<Line>)
    | Delete(path: string)
    | Update(path: string, movePath: string, edits: seq<Edit>)

  function OldPart(b: BodyLine): seq<Line> { if b.Insert? then [] else [b.text] }

  function NewPart(b: BodyLine): seq<Line> { if b.Remove? then [] else [b.text] }

  function Olds(body: seq<BodyLine>): seq<Line>
  {
    if body == [] then [] else OldPart(body[0]) + Olds(body[1..])
  }

  function News(body: seq<BodyLine>): seq<Line>
  {
    if body == [] then [] else NewPart(body[0]) + News(body[1..])
  }

  function HunkOf(e: Edit): Hunk
  {
    Hunk(Join(Olds(e.body)), Join(News(e.body)), e.line, e.anchors, e.endOfFile)
  }

  function HunksOf(edits: seq<Edit>): seq<Hunk>
  {
    if edits == [] then [] else [HunkOf(edits[0])] + HunksOf(edits[1..])
  }

  function OpOf(op: Op): FileOp
  {
    match op
    case Add(path, content) => AddFile(path, Join(content) + "\n")
    case Delete(path) => DeleteFile(path)
    case Update(path, move, edits) => UpdateFile(path, move, HunksOf(edits))
  }

  function OpsOf(ops: seq<Op>): seq<FileOp>
  {
    if ops == [] then [] else [OpOf(ops[0])] + OpsOf(ops[1..])
  }

  // How it is written, in front of the rest of the patch

  function WriteAdded(content: seq<Line>, rest: Tokens): Tokens
  {
    if content == [] then rest else Next(Change(Insert(content[0])), WriteAdded(content[1..], rest))
  }

  function WriteBody(body: seq<BodyLine>, rest: Tokens): Tokens
  {
    if body == [] then rest else Next(Change(body[0]), WriteBody(body[1..], rest))
  }

  function WriteAnchors(anchors: seq<string>, rest: Tokens): Tokens
  {
    if anchors == [] then rest else Next(Select(0, anchors[0]), WriteAnchors(anchors[1..], rest))
  }

  /** Anchors first: a later selector overrides an earlier line number. */
  function WriteSelectors(anchors: seq<string>, line: nat, rest: Tokens): Tokens
  {
    WriteAnchors(anchors, if line > 0 || anchors == [] then Next(Select(line, ""), rest) else rest)
  }

  function WriteEdit(e: Edit, rest: Tokens): Tokens
  {
    WriteSelectors(e.anchors, e.line, WriteBody(e.body, if e.endOfFile then Next(TitleEof, rest) else rest))
  }

  function WriteEdits(edits: seq<Edit>, rest: Tokens): Tokens
  {
    if edits == [] then rest else WriteEdit(edits[0], WriteEdits(edits[1..], rest))
  }

  function WriteMove(path: string, rest: Tokens): Tokens { if path == "" then rest else Next(TitleMove(path), rest) }

  function WriteOp(op: Op, rest: Tokens): Tokens
  {
    match op
    case Add(path, content) => Next(TitleAdd(path), WriteAdded(content, rest))
    case Delete(path) => Next(TitleDelete(path), rest)
    case Update(path, move, edits) => Next(TitleUpdate(path), WriteMove(move, WriteEdits(edits, rest)))
  }

  function WriteOps(ops: seq<Op>): Tokens
  {
    if ops == [] then End else WriteOp(ops[0], WriteOps(ops[1..]))
  }

  /** What the grammar itself asks of the operations. */
  ghost predicate Shaped(op: Op)
  {
    op.path != "" &&
    match op
    case Add(_, content) => content != []
    case Delete(_) => true
    case Update(_, _, edits) => edits != [] && forall i :: 0 <= i < |edits| ==> ShapedEdit(edits[i])
  }

  ghost predicate ShapedEdit(e: Edit)
  {
    e.body != [] && forall i :: 0 <= i < |e.anchors| ==> e.anchors[i] != ""
  }

  // Reading back what was written

  /** What follows an operation: nothing, or the header of another. */
  ghost predicate OpEnds(ts: Tokens)
  {
    ts.End? || ts.first.TitleAdd? || ts.first.TitleDelete? || ts.first.TitleUpdate?
  }

  lemma {:induction false} ReadAdded(content: seq<Line>, rest: Tokens, acc: seq<Line>)
    requires OpEnds(rest)
    ensures Added(WriteAdded(content, rest), acc) == Done(acc + content, rest)
    decreases |content|
  {
    if content == [] {
      assert acc + content == acc;
    } else {
      ReadAdded(content[1..], rest, acc + [content[0]]);
      assert acc + [content[0]] + content[1..] == acc + content;
    }
  }

  lemma {:induction false} ReadAnchors(anchors: seq<string>, rest: Tokens, acc: Selection)
    requires forall k :: 0 <= k < |anchors| ==> anchors[k] != ""
    ensures Selected(WriteAnchors(anchors, rest), acc)
         == Selected(rest, if anchors == [] then acc else Selection(0, acc.anchors + anchors))
    decreases |anchors|
  {
    if anchors != [] {
      var next := AddSelector(acc, 0, anchors[0]);
      ReadAnchors(anchors[1..], rest, next);
      assert acc.anchors + [anchors[0]] + anchors[1..] == acc.anchors + anchors;
      assert |anchors| == 1 ==> anchors == [anchors[0]];
    }
  }

  lemma ReadSelectors(anchors: seq<string>, line: nat, rest: Tokens)
    requires (forall k :: 0 <= k < |anchors| ==> anchors[k] != "") && rest.Next? && !Selects(rest.first)
    ensures Selected(WriteSelectors(anchors, line, rest), Selection(0, [])) == Done(Selection(line, anchors), rest)
  {
    ReadAnchors(anchors, if line > 0 || anchors == [] then Next(Select(line, ""), rest) else rest, Selection(0, []));
    assert [] + anchors == anchors;
  }

  lemma BodyLineParts(acc: Body, b: BodyLine)
    ensures AddBodyLine(acc, b) == Body(acc.olds + OldPart(b), acc.news + NewPart(b))
  {
  }

  lemma {:induction false} ReadBody(body: seq<BodyLine>, rest: Tokens, acc: Body)
    requires BodyEnds(rest)
    ensures BodyOf(WriteBody(body, rest), acc) == Done(Body(acc.olds + Olds(body), acc.news + News(body)), rest)
    decreases |body|
  {
    if body == [] {
      assert acc.olds + [] == acc.olds && acc.news + [] == acc.news;
    } else {
      var next := AddBodyLine(acc, body[0]);
      ReadBody(body[1..], rest, next);
      BodyLineParts(acc, body[0]);
      ConcatAssoc(acc.olds, OldPart(body[0]), Olds(body[1..]));
      ConcatAssoc(acc.news, NewPart(body[0]), News(body[1..]));
    }
  }

  /** What follows an edit: the end of its operation, or another edit. */
  ghost predicate EditEnds(ts: Tokens) { OpEnds(ts) || Selects(ts.first) }

  lemma EditFirst(e: Edit, rest: Tokens)
    ensures var ts := WriteEdit(e, rest); ts.Next? && Selects(ts.first)
  {
  }

  lemma ReadEdit(e: Edit, rest: Tokens, path: string)
    requires ShapedEdit(e) && EditEnds(rest)
    ensures HunkAt(WriteEdit(e, rest), path) == Done(HunkOf(e), rest)
  {
    var tail := if e.endOfFile then Next(TitleEof, rest) else rest;
    ReadSelectors(e.anchors, e.line, WriteBody(e.body, tail));
    ReadBody(e.body, tail, Body([], []));
    assert [] + Olds(e.body) == Olds(e.body) && [] + News(e.body) == News(e.body);
  }

  lemma {:induction false} ReadEdits(edits: seq<Edit>, rest: Tokens, path: string, acc: seq<Hunk>)
    requires OpEnds(rest) && forall k :: 0 <= k < |edits| ==> ShapedEdit(edits[k])
    ensures HunksAt(WriteEdits(edits, rest), path, acc) == Done(acc + HunksOf(edits), rest)
    decreases |edits|
  {
    if edits == [] {
      assert acc + HunksOf(edits) == acc;
    } else {
      var more := WriteEdits(edits[1..], rest);
      if |edits| > 1 { EditFirst(edits[1], WriteEdits(edits[2..], rest)); assert edits[1..][1..] == edits[2..]; }
      EditFirst(edits[0], more);
      ReadEdit(edits[0], more, path);
      ReadEdits(edits[1..], rest, path, acc + [HunkOf(edits[0])]);
      assert acc + [HunkOf(edits[0])] + HunksOf(edits[1..]) == acc + HunksOf(edits);
    }
  }

  lemma ReadMove(move: string, ts: Tokens)
    requires ts.Next? && Selects(ts.first)
    ensures MoveAt(WriteMove(move, ts)) == Done(move, ts)
  {
  }

  lemma UpdateParts(ts: Tokens, path: string, move: string, moved: Tokens, hs: seq<Hunk>, rest: Tokens)
    requires MoveAt(ts) == Done(move, moved) && HunksAt(moved, path, []) == Done(hs, rest) && hs != []
    ensures UpdateAt(ts, path) == Done(UpdateFile(path, move, hs), rest)
  {
  }

  lemma ReadUpdate(path: string, move: string, edits: seq<Edit>, rest: Tokens)
    requires OpEnds(rest) && edits != [] && forall k :: 0 <= k < |edits| ==> ShapedEdit(edits[k])
    ensures UpdateAt(WriteMove(move, WriteEdits(edits, rest)), path) == Done(UpdateFile(path, move, HunksOf(edits)), rest)
  {
    var ts := WriteEdits(edits, rest);
    EditFirst(edits[0], WriteEdits(edits[1..], rest));
    ReadMove(move, ts);
    ReadEdits(edits, rest, path, []);
    assert [] + HunksOf(edits) == HunksOf(edits);
    UpdateParts(WriteMove(move, ts), path, move, ts, HunksOf(edits), rest);
  }

  lemma ReadOp(op: Op, rest: Tokens)
    requires OpEnds(rest) && Shaped(op)
    ensures OpAt(WriteOp(op, rest)) == Done(OpOf(op), rest)
  {
    match op {
      case Add(path, content) =>
        ReadAdded(content, rest, []);
        assert [] + content == content;
      case Delete(_) =>
      case Update(path, move, edits) => ReadUpdate(path, move, edits, rest);
    }
  }

  /** Every list of operations is read back as itself. */
  lemma {:induction false} ReadOps(ops: seq<Op>, acc: seq<FileOp>)
    requires forall k :: 0 <= k < |ops| ==> Shaped(ops[k])
    ensures OpsAt(WriteOps(ops), acc) == Done(acc + OpsOf(ops), End)
    decreases |ops|
  {
    if ops == [] {
      assert acc + OpsOf(ops) == acc;
    } else {
      ReadOp(ops[0], WriteOps(ops[1..]));
      ReadOps(ops[1..], acc + [OpOf(ops[0])]);
      assert acc + [OpOf(ops[0])] + OpsOf(ops[1..]) == acc + OpsOf(ops);
    }
  }
}

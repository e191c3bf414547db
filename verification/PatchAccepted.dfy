/** claudetool/patch.go: every patch the parser accepts is a written list of operations, and means them. */
module PatchAccepted {
  import opened Options
  import opened Bytes
  import opened Text
  import opened Decimal
  import PatchModes
  import opened PatchEdit
  import opened PatchGrammar
  import opened PatchParse
  import opened PatchPrint

  // What can be written: any selectors in front of a hunk, in any order

  datatype Selector = Selector(line: nat, anchor: string)

  datatype AnyEdit = AnyEdit(selectors: seq<Selector>, body: seq<BodyLine>, endOfFile: bool)

  datatype AnyOp =
    | AnyAdd(path: string, content: seq<Line>)
    | AnyDelete(path: string)
    | AnyUpdate(path: string, movePath: string, edits: seq<AnyEdit>)

  /** The last selector's line; all anchors. */
  function Select(acc: Selection, sels: seq<Selector>): Selection
    decreases sels
  {
    if sels == [] then acc else Select(AddSelector(acc, sels[0].line, sels[0].anchor), sels[1..])
  }

  function HunkOfAny(e: AnyEdit): Hunk
  {
    var s := Select(Selection(0, []), e.selectors);
    Hunk(Join(Olds(e.body)), Join(News(e.body)), s.line, s.anchors, e.endOfFile)
  }

  function HunksOfAny(es: seq<AnyEdit>): seq<Hunk>
  {
    if es == [] then [] else [HunkOfAny(es[0])] + HunksOfAny(es[1..])
  }

  function OpOfAny(op: AnyOp): FileOp
  {
    match op
    case AnyAdd(path, content) => AddFile(path, Join(content) + "\n")
    case AnyDelete(path) => DeleteFile(path)
    case AnyUpdate(path, move, es) => UpdateFile(path, move, HunksOfAny(es))
  }

  function OpsOfAny(ops: seq<AnyOp>): seq<FileOp>
  {
    if ops == [] then [] else [OpOfAny(ops[0])] + OpsOfAny(ops[1..])
  }

  function PutSelectors(sels: seq<Selector>, rest: Tokens): Tokens
  {
    if sels == [] then rest else Next(Token.Select(sels[0].line, sels[0].anchor), PutSelectors(sels[1..], rest))
  }

  function PutEdit(e: AnyEdit, rest: Tokens): Tokens
  {
    PutSelectors(e.selectors, WriteBody(e.body, if e.endOfFile then Next(TitleEof, rest) else rest))
  }

  function PutEdits(es: seq<AnyEdit>, rest: Tokens): Tokens
  {
    if es == [] then rest else PutEdit(es[0], PutEdits(es[1..], rest))
  }

  function PutOp(op: AnyOp, rest: Tokens): Tokens
  {
    match op
    case AnyAdd(path, content) => Next(TitleAdd(path), WriteAdded(content, rest))
    case AnyDelete(path) => Next(TitleDelete(path), rest)
    case AnyUpdate(path, move, es) => Next(TitleUpdate(path), WriteMove(move, PutEdits(es, rest)))
  }

  function PutOps(ops: seq<AnyOp>): Tokens
  {
    if ops == [] then End else PutOp(ops[0], PutOps(ops[1..]))
  }

  /** Nothing is empty that a patch must have. */
  ghost predicate Whole(op: AnyOp)
  {
    op.path != "" &&
    match op
    case AnyAdd(_, content) => content != []
    case AnyDelete(_) => true
    case AnyUpdate(_, _, es) => es != [] && forall i :: 0 <= i < |es| ==> es[i].body != []
  }

  // What was read was written

  lemma {:induction false} UnreadAdded(ts: Tokens, acc: seq<Line>) returns (content: seq<Line>)
    requires Added(ts, acc).Done?
    ensures var r := Added(ts, acc); r.value == acc + content && ts == WriteAdded(content, r.rest)
  {
    if ts.End? || Title(ts.first) {
      content := [];
    } else {
      var l := ts.first.b.text;
      var more := UnreadAdded(ts.more, acc + [l]);
      content := [l] + more;
      ConcatAssoc(acc, [l], more);
      assert content[1..] == more;
    }
  }

  lemma {:induction false} UnreadSelected(ts: Tokens, acc: Selection) returns (sels: seq<Selector>)
    requires Selected(ts, acc).Done?
    ensures var r := Selected(ts, acc); r.value == Select(acc, sels) && ts == PutSelectors(sels, r.rest)
  {
    if ts.End? || !Selects(ts.first) {
      sels := [];
    } else {
      var s := Selector(ts.first.line, ts.first.anchor);
      var more := UnreadSelected(ts.more, AddSelector(acc, s.line, s.anchor));
      sels := [s] + more;
      assert sels[1..] == more;
    }
  }

  lemma {:induction false} UnreadBody(ts: Tokens, acc: Body) returns (body: seq<BodyLine>)
    requires BodyOf(ts, acc).Done?
    ensures var r := BodyOf(ts, acc);
      && r.value == Body(acc.olds + Olds(body), acc.news + News(body)) && ts == WriteBody(body, r.rest)
      && (body == [] ==> r.value == acc)
  {
    if BodyEnds(ts) {
      body := [];
      assert acc.olds + [] == acc.olds && acc.news + [] == acc.news;
    } else {
      var b := ts.first.b;
      BodyLineParts(acc, b);
      var more := UnreadBody(ts.more, AddBodyLine(acc, b));
      body := [b] + more;
      assert body[1..] == more;
      ConcatAssoc(acc.olds, OldPart(b), Olds(more));
      ConcatAssoc(acc.news, NewPart(b), News(more));
    }
  }

  lemma UnreadHunkEnd(path: string, s: Selection, b: Body, left: Tokens)
    requires HunkEnd(path, s, b, left).Done?
    ensures var r := HunkEnd(path, s, b, left);
      && r.value == Hunk(Join(b.olds), Join(b.news), s.line, s.anchors, r.value.endOfFile)
      && left == (if r.value.endOfFile then Next(TitleEof, r.rest) else r.rest)
      && (b.olds != [] || b.news != [])
  {
  }

  lemma UnreadHunk(ts: Tokens, path: string) returns (e: AnyEdit)
    requires HunkAt(ts, path).Done?
    ensures var r := HunkAt(ts, path); r.value == HunkOfAny(e) && ts == PutEdit(e, r.rest) && e.body != []
  {
    var s := Selected(ts, Selection(0, []));
    var sels := UnreadSelected(ts, Selection(0, []));
    var b := BodyOf(s.rest, Body([], []));
    var body := UnreadBody(s.rest, Body([], []));
    assert [] + Olds(body) == Olds(body) && [] + News(body) == News(body);
    UnreadHunkEnd(path, s.value, b.value, b.rest);
    e := AnyEdit(sels, body, HunkEnd(path, s.value, b.value, b.rest).value.endOfFile);
  }

  lemma {:induction false} UnreadHunks(ts: Tokens, path: string, acc: seq<Hunk>) returns (es: seq<AnyEdit>)
    requires HunksAt(ts, path, acc).Done?
    ensures var r := HunksAt(ts, path, acc); r.value == acc + HunksOfAny(es) && ts == PutEdits(es, r.rest)
    ensures forall i :: 0 <= i < |es| ==> es[i].body != []
    decreases Size(ts)
  {
    if ts.End? || Title(ts.first) {
      es := [];
      assert acc + [] == acc;
    } else {
      var h := HunkAt(ts, path);
      var e := UnreadHunk(ts, path);
      var more := UnreadHunks(h.rest, path, acc + [h.value]);
      es := [e] + more;
      assert es[1..] == more;
      ConcatAssoc(acc, [h.value], HunksOfAny(more));
    }
  }

  lemma UnreadMove(ts: Tokens)
    requires MoveAt(ts).Done?
    ensures ts == WriteMove(MoveAt(ts).value, MoveAt(ts).rest)
  {
  }

  lemma HunksEmpty(es: seq<AnyEdit>)
    ensures HunksOfAny(es) == [] <==> es == []
  {
  }

  lemma UnreadUpdate(ts: Tokens, path: string) returns (move: string, es: seq<AnyEdit>)
    requires UpdateAt(ts, path).Done?
    ensures var r := UpdateAt(ts, path);
      && r.value == UpdateFile(path, move, HunksOfAny(es)) && ts == WriteMove(move, PutEdits(es, r.rest))
      && es != [] && forall i :: 0 <= i < |es| ==> es[i].body != []
  {
    var m := MoveAt(ts);
    UnreadMove(ts);
    es := UnreadHunks(m.rest, path, []);
    assert [] + HunksOfAny(es) == HunksOfAny(es);
    HunksEmpty(es);
    move := m.value;
  }

  lemma UnreadAdd(ts: Tokens, path: string) returns (content: seq<Line>)
    requires AddAt(ts, path).Done?
    ensures var r := AddAt(ts, path);
      r.value == AddFile(path, Join(content) + "\n") && ts == WriteAdded(content, r.rest) && content != []
  {
    content := UnreadAdded(ts, []);
    assert [] + content == content;
  }

  lemma UnreadOp(ts: Tokens) returns (op: AnyOp)
    requires ts.Next? && OpAt(ts).Done?
    ensures var r := OpAt(ts); r.value == OpOfAny(op) && ts == PutOp(op, r.rest) && Whole(op)
  {
    match ts.first {
      case TitleAdd(path) =>
        var content := UnreadAdd(ts.more, path);
        op := AnyAdd(path, content);
      case TitleDelete(path) =>
        op := AnyDelete(path);
      case TitleUpdate(path) =>
        var move, es := UnreadUpdate(ts.more, path);
        op := AnyUpdate(path, move, es);
    }
  }

  lemma {:induction false} UnreadOps(ts: Tokens, acc: seq<FileOp>) returns (ops: seq<AnyOp>)
    requires OpsAt(ts, acc).Done?
    ensures OpsAt(ts, acc).value == acc + OpsOfAny(ops) && ts == PutOps(ops)
    ensures forall i :: 0 <= i < |ops| ==> Whole(ops[i])
    decreases Size(ts)
  {
    if ts.End? {
      ops := [];
      assert acc + [] == acc;
    } else {
      var r := OpAt(ts);
      var op := UnreadOp(ts);
      var more := UnreadOps(r.rest, acc + [r.value]);
      ops := [op] + more;
      assert ops[1..] == more;
      ConcatAssoc(acc, [r.value], OpsOfAny(more));
    }
  }

  // From tokens to lines

  /** The ways to write a selector: white space counts for nothing. */
  ghost predicate SpellsSelector(l: Line, n: nat, a: string)
  {
    exists tag :: |l| >= 2 && l[..2] == "@@" && PatchModes.Around(l[2..], tag)
      && if n == 0 then tag == a && !HasPrefix(tag, "line ")
         else a == "" && exists d :: HasPrefix(tag, "line ") && PatchModes.Around(tag[5..], d) && Atoi(d) == Some(n)
  }

  /** How each class of line is written. */
  ghost predicate Spells(l: Line, t: Token)
  {
    match t
    case TitleAdd(p) => l == "*** Add File: " + p
    case TitleDelete(p) => l == "*** Delete File: " + p
    case TitleUpdate(p) => l == "*** Update File: " + p
    case TitleMove(p) => l == "*** Move to: " + p
    case TitleEof => l == "*** End of File"
    case Select(n, a) => SpellsSelector(l, n, a)
    case Change(Keep(s)) => l == " " + s
    case Change(Remove(s)) => l == "-" + s
    case Change(Insert(s)) => l == "+" + s
    case _ => false
  }

  ghost predicate SpellsAll(ls: seq<Line>, ts: Tokens)
  {
    if ls == [] then ts.End? else ts.Next? && Spells(ls[0], ts.first) && SpellsAll(ls[1..], ts.more)
  }

  predicate Plainly(t: Token) { !t.TitleOther? && !t.BadSelect? && !t.Junk? }

  ghost predicate AllPlainly(ts: Tokens) { ts.Next? ==> Plainly(ts.first) && AllPlainly(ts.more) }

  lemma PrefixSplits(l: string, p: string)
    requires HasPrefix(l, p)
    ensures l == p + TrimPrefix(l, p)
  {
  }

  lemma SelectorSpelled(l: Line)
    requires PatchParse.Selector(l) && ReadSelector(l).Some?
    ensures SpellsSelector(l, ReadSelector(l).value.0, ReadSelector(l).value.1)
  {
    var s := TrimPrefix(l, "@@");
    var tag := TrimSpace(s);
    assert l[2..] == s && l[..2] == "@@";
    PatchModes.AroundTrim(s);
    if HasPrefix(tag, "line ") {
      var d := TrimPrefix(tag, "line ");
      assert tag[5..] == d;
      PatchModes.AroundTrim(d);
      var n := ReadSelector(l).value.0;
      assert PatchModes.Around(tag[5..], TrimSpace(d)) && Atoi(TrimSpace(d)) == Some(n);
    }
    assert PatchModes.Around(l[2..], tag);
  }

  lemma LexSpelled(l: Line)
    requires Plainly(Lex(l))
    ensures Spells(l, Lex(l))
  {
    if Header(l) {
      TitleSpelled(l);
    } else if PatchParse.Selector(l) {
      SelectorSpelled(l);
    } else {
      if HasPrefix(l, " ") { PrefixSplits(l, " "); }
      else if HasPrefix(l, "-") { PrefixSplits(l, "-"); }
      else { PrefixSplits(l, "+"); }
    }
  }

  lemma TitleSpelled(l: Line)
    requires Plainly(LexTitle(l))
    ensures Spells(l, LexTitle(l))
  {
    if HasPrefix(l, AddHeader) { PrefixSplits(l, AddHeader); }
    else if HasPrefix(l, DeleteHeader) { PrefixSplits(l, DeleteHeader); }
    else if HasPrefix(l, UpdateHeader) { PrefixSplits(l, UpdateHeader); }
    else if HasPrefix(l, MoveHeader) { PrefixSplits(l, MoveHeader); }
  }

  lemma {:induction false} TailSpelled(ls: seq<Line>, i: nat)
    requires i <= |ls| && AllPlainly(Tail(ls, i))
    ensures SpellsAll(ls[i..], Tail(ls, i))
    decreases |ls| - i
  {
    if i < |ls| {
      LexSpelled(ls[i]);
      TailSpelled(ls, i + 1);
      assert ls[i..][1..] == ls[i + 1..];
    }
  }

  // Everything that is put is plain

  lemma {:induction false} AddedPlainly(content: seq<Line>, rest: Tokens)
    requires AllPlainly(rest)
    ensures AllPlainly(WriteAdded(content, rest))
    decreases |content|
  {
    if content != [] { AddedPlainly(content[1..], rest); }
  }

  lemma {:induction false} BodyPlainly(body: seq<BodyLine>, rest: Tokens)
    requires AllPlainly(rest)
    ensures AllPlainly(WriteBody(body, rest))
    decreases |body|
  {
    if body != [] { BodyPlainly(body[1..], rest); }
  }

  lemma {:induction false} SelectorsPlainly(sels: seq<Selector>, rest: Tokens)
    requires AllPlainly(rest)
    ensures AllPlainly(PutSelectors(sels, rest))
    decreases |sels|
  {
    if sels != [] { SelectorsPlainly(sels[1..], rest); }
  }

  lemma {:induction false} EditsPlainly(es: seq<AnyEdit>, rest: Tokens)
    requires AllPlainly(rest)
    ensures AllPlainly(PutEdits(es, rest))
    decreases |es|
  {
    if es != [] {
      var more := PutEdits(es[1..], rest);
      EditsPlainly(es[1..], rest);
      var tail := if es[0].endOfFile then Next(TitleEof, more) else more;
      BodyPlainly(es[0].body, tail);
      SelectorsPlainly(es[0].selectors, WriteBody(es[0].body, tail));
    }
  }

  lemma {:induction false} OpsPlainly(ops: seq<AnyOp>)
    ensures AllPlainly(PutOps(ops))
    decreases |ops|
  {
    if ops != [] {
      OpsPlainly(ops[1..]);
      match ops[0] {
        case AnyAdd(_, content) => AddedPlainly(content, PutOps(ops[1..]));
        case AnyDelete(_) =>
        case AnyUpdate(_, move, es) => EditsPlainly(es, PutOps(ops[1..]));
      }
    }
  }

  // The theorem

  /** The text is these lines between the two envelope lines. */
  ghost predicate Envelopes(text: string, ls: seq<Line>)
  {
    ls != [] && UnixLines(TrimSpace(text)) == "*** Begin Patch\n" + Terminate(ls) + "*** End Patch"
  }

  /** The lines, each with its newline. */
  ghost function Terminate(ls: seq<Line>): string { if ls == [] then "" else ls[0] + "\n" + Terminate(ls[1..]) }

  lemma {:induction false} JoinEnd(ls: seq<Line>, last: Line)
    ensures Join(ls + [last]) == Terminate(ls) + last
  {
    if ls == [] {
      assert ls + [last] == [last] && "" + last == last;
    } else {
      JoinEnd(ls[1..], last);
      assert (ls + [last])[1..] == ls[1..] + [last];
      assert ls[0] + "\n" + (Terminate(ls[1..]) + last) == (ls[0] + "\n" + Terminate(ls[1..])) + last;
    }
  }

  /** A file is added with its lines, each with its newline. */
  lemma AddSays(path: string, content: seq<Line>)
    requires content != []
    ensures OpOf(Add(path, content)) == OpOfAny(AnyAdd(path, content)) == AddFile(path, Terminate(content))
  {
    var n := |content| - 1;
    JoinEnd(content[..n], content[n]);
    TerminateSnoc(content[..n], content[n]);
    assert content == content[..n] + [content[n]];
    ConcatAssoc(Terminate(content[..n]), content[n], "\n");
  }

  lemma {:induction false} TerminateSnoc(ls: seq<Line>, last: Line)
    ensures Terminate(ls + [last]) == Terminate(ls) + (last + "\n")
  {
    if ls == [] {
      assert ls + [last] == [last] && [last][1..] == [];
    } else {
      TerminateSnoc(ls[1..], last);
      assert (ls + [last])[1..] == ls[1..] + [last];
      ConcatAssoc(ls[0] + "\n", Terminate(ls[1..]), last + "\n");
    }
  }

  lemma EnvelopedText(text: string)
    requires Enveloped(TextLines(text))
    ensures var all := TextLines(text); Envelopes(text, all[1..|all| - 1])
  {
    var all := TextLines(text);
    var ls := all[1..|all| - 1];
    JoinSplit(UnixLines(TrimSpace(text)));
    JoinEnd([BeginLine] + ls, EndLine);
    assert all == [BeginLine] + ls + [EndLine];
    assert ([BeginLine] + ls)[1..] == ls;
  }

  /**
   * A text the parser accepts is, up to white space around it and line endings, the
   * written form of whole operations between the two envelope lines, and what the
   * parser returns is what they mean.
   */
  lemma AcceptedIsWritten(text: string) returns (ls: seq<Line>, ops: seq<AnyOp>)
    requires Parse(text).Ops?
    ensures Envelopes(text, ls) && SpellsAll(ls, PutOps(ops))
    ensures ops != [] && (forall i :: 0 <= i < |ops| ==> Whole(ops[i])) && Parse(text) == Ops(OpsOfAny(ops))
  {
    var all := TextLines(text);
    EnvelopedText(text);
    var body := all[..|all| - 1];
    ls := all[1..|all| - 1];
    assert body[1..] == ls;
    ops := UnreadOps(Tail(body, 1), []);
    assert [] + OpsOfAny(ops) == OpsOfAny(ops);
    OpsPlainly(ops);
    TailSpelled(body, 1);
  }

  /** Without the two envelope lines nothing is accepted. */
  lemma NoEnvelopeNoPatch(text: string)
    requires var s := UnixLines(TrimSpace(text)); !HasPrefix(s, "*** Begin Patch\n") || !HasSuffix(s, "\n*** End Patch")
    ensures Parse(text) == Rejected(BadEnvelope)
  {
    if Enveloped(TextLines(text)) {
      EnvelopedText(text);
      var all := TextLines(text);
      TerminateEnds(all[1..|all| - 1]);
      EnvelopeShape(Terminate(all[1..|all| - 1]));
    }
  }

  lemma EnvelopeShape(middle: string)
    requires middle != "" && middle[|middle| - 1] == '\n'
    ensures var s := "*** Begin Patch\n" + middle + "*** End Patch";
      HasPrefix(s, "*** Begin Patch\n") && HasSuffix(s, "\n*** End Patch")
  {
    var most := middle[..|middle| - 1];
    assert middle == most + "\n";
    var s := "*** Begin Patch\n" + middle + "*** End Patch";
    assert s == ("*** Begin Patch\n" + most) + "\n*** End Patch";
  }

  lemma {:induction false} TerminateEnds(ls: seq<Line>)
    requires ls != []
    ensures var s := Terminate(ls); s != "" && s[|s| - 1] == '\n'
    decreases |ls|
  {
    if |ls| > 1 { TerminateEnds(ls[1..]); }
  }
}

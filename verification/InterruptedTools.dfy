/** db/interrupted_tool_results.go: closing the tool calls an interrupted turn left open. */
module InterruptedTools {
  import opened Options
  import opened Bytes

  datatype Content = ToolUse(id: string) | ToolResult(of: string, error: bool) | Text

  /** spoken: an agent's or a user's message whose data can be read. */
  datatype Message = Message(spoken: bool, excluded: bool, generation: int, contents: seq<Content>)

  predicate InContext(m: Message, generation: int) { !m.excluded && m.generation == generation }

  /** ListMessagesForContext */
  function Context(ms: seq<Message>, generation: int): seq<Message>
  {
    if ms == [] then []
    else
      var before, last := Context(ms[..|ms| - 1], generation), ms[|ms| - 1];
      if InContext(last, generation) then before + [last] else before
  }

  /** All that was said, in order. */
  function Said(ms: seq<Message>): seq<Content>
  {
    if ms == [] then []
    else Said(ms[..|ms| - 1]) + if ms[|ms| - 1].spoken then ms[|ms| - 1].contents else []
  }

  // Open calls

  /** The calls used and not answered since. */
  function Open(cs: seq<Content>): set<string>
  {
    if cs == [] then {}
    else OpenThen(Open(cs[..|cs| - 1]), cs[|cs| - 1])
  }

  function OpenThen(before: set<string>, c: Content): set<string>
  {
    match c
    case ToolUse(id) => if id != "" then before + {id} else before
    case ToolResult(id, _) => before - {id}
    case Text => before
  }

  /** The calls in the order they were opened; one that is answered and used again is opened again. */
  function Opened(cs: seq<Content>): seq<string>
  {
    if cs == [] then []
    else
      var before, last := cs[..|cs| - 1], cs[|cs| - 1];
      OpenedThen(Opened(before), Open(before), last)
  }

  function OpenedThen(ids: seq<string>, open: set<string>, c: Content): seq<string>
  {
    if c.ToolUse? && c.id != "" && c.id !in open then ids + [c.id] else ids
  }

  function Keep(ids: seq<string>, open: set<string>): seq<string>
  {
    if ids == [] then []
    else
      var before, last := Keep(ids[..|ids| - 1], open), ids[|ids| - 1];
      if last in open then before + [last] else before
  }

  function Failures(ids: seq<string>): seq<Content>
  {
    if ids == [] then [] else Failures(ids[..|ids| - 1]) + [ToolResult(ids[|ids| - 1], true)]
  }

  /** The calls recovery answers, in order. */
  function Answers(cs: seq<Content>): seq<string> { Keep(Opened(cs), Open(cs)) }

  // Recovery

  /** The messages after recovery. */
  ghost function Recovered(ms: seq<Message>, generation: int): seq<Message>
  {
    var ids := Answers(Said(Context(ms, generation)));
    if ids == [] then ms else ms + [Message(true, false, generation, Failures(ids))]
  }

  lemma SaidOneMore(cs: seq<Content>, c: Content)
    ensures Open(cs + [c]) == OpenThen(Open(cs), c) && Opened(cs + [c]) == OpenedThen(Opened(cs), Open(cs), c)
  {
    assert (cs + [c])[..|cs|] == cs;
  }

  method ScanContent(c: Content, wasPending: set<string>, hadIds: seq<string>) returns (pending: set<string>, ids: seq<string>)
    ensures pending == OpenThen(wasPending, c) && ids == OpenedThen(hadIds, wasPending, c)
  {
    pending, ids := wasPending, hadIds;
    match c {
      case ToolUse(id) =>
        if id != "" && id !in pending { ids, pending := ids + [id], pending + {id}; }
      case ToolResult(id, _) => pending := pending - {id};
      case Text =>
    }
  }

  /** One message's contents after what was said before. */
  method ScanContents(cs: seq<Content>, ghost said: seq<Content>, wasPending: set<string>, hadIds: seq<string>)
    returns (pending: set<string>, ids: seq<string>)
    requires wasPending == Open(said) && hadIds == Opened(said)
    ensures pending == Open(said + cs) && ids == Opened(said + cs)
  {
    pending, ids := wasPending, hadIds;
    ghost var now := said;
    for k := 0 to |cs|
      invariant now == said + cs[..k] && pending == Open(now) && ids == Opened(now)
    {
      SaidOneMore(now, cs[k]);
      pending, ids := ScanContent(cs[k], pending, ids);
      now := now + [cs[k]];
    }
    assert cs[..|cs|] == cs;
  }

  method Scan(ms: seq<Message>) returns (pending: set<string>, ids: seq<string>)
    ensures pending == Open(Said(ms)) && ids == Opened(Said(ms))
  {
    pending, ids := {}, [];
    for i := 0 to |ms|
      invariant pending == Open(Said(ms[..i])) && ids == Opened(Said(ms[..i]))
    {
      assert ms[..i + 1][..i] == ms[..i];
      if !ms[i].spoken { assert Said(ms[..i]) + [] == Said(ms[..i]); continue; }
      pending, ids := ScanContents(ms[i].contents, Said(ms[..i]), pending, ids);
    }
    assert ms[..|ms|] == ms;
  }

  class Conversation {
    var interrupted: bool
    var child: bool
    var generation: int
    var messages: seq<Message>

    constructor (interrupted: bool, child: bool, generation: int, messages: seq<Message>)
      ensures this.interrupted == interrupted && this.child == child
      ensures this.generation == generation && this.messages == messages
    {
      this.interrupted, this.child, this.generation, this.messages := interrupted, child, generation, messages;
    }

    /** RecordInterruptedToolResults */
    method RecordResults() returns (result: Option<Message>)
      modifies this`messages
      ensures messages == if interrupted && !child then Recovered(old(messages), generation) else old(messages)
      ensures if messages == old(messages) then result == None else result.Some? && messages == old(messages) + [result.value]
    {
      if !interrupted || child { return None; }
      var pending, ids := Scan(Context(messages, generation));
      var results, answers := [], [];
      for i := 0 to |ids|
        invariant answers == Keep(ids[..i], pending) && results == Failures(answers)
      {
        assert ids[..i + 1][..i] == ids[..i];
        if ids[i] in pending {
          results := results + [ToolResult(ids[i], true)];
          answers := answers + [ids[i]];
          assert answers[..|answers| - 1] == Keep(ids[..i], pending);
        }
      }
      assert ids[..|ids|] == ids;
      if |results| == 0 { return None; }
      result := Some(Message(true, false, generation, results));
      messages := messages + [result.value];
    }
  }

  // What recovery achieves

  lemma {:induction false} OpenWasOpened(cs: seq<Content>, id: string)
    ensures id in Open(cs) ==> id in Opened(cs)
    decreases |cs|
  {
    if cs != [] { OpenWasOpened(cs[..|cs| - 1], id); }
  }

  lemma {:induction false} KeepCounts(ids: seq<string>, open: set<string>, id: string)
    ensures multiset(Keep(ids, open))[id] == if id in open then multiset(ids)[id] else 0
    decreases |ids|
  {
    if ids != [] {
      KeepCounts(ids[..|ids| - 1], open, id);
      assert ids == ids[..|ids| - 1] + [ids[|ids| - 1]];
    }
  }

  lemma {:induction false} FailuresClose(cs: seq<Content>, ids: seq<string>)
    ensures Open(cs + Failures(ids)) == Open(cs) - IdSet(ids) && Opened(cs + Failures(ids)) == Opened(cs)
    decreases |ids|
  {
    if ids == [] {
      assert cs + Failures(ids) == cs;
    } else {
      var before, last := ids[..|ids| - 1], ids[|ids| - 1];
      FailuresClose(cs, before);
      SaidOneMore(cs + Failures(before), ToolResult(last, true));
      ConcatAssoc(cs, Failures(before), [ToolResult(last, true)]);
      IdSetSnoc(before, last);
      assert ids == before + [last];
    }
  }

  lemma IdSetSnoc(ids: seq<string>, id: string)
    ensures IdSet(ids + [id]) == IdSet(ids) + {id}
  {
  }

  lemma SaidMore(ms: seq<Message>, m: Message, generation: int)
    requires m.spoken && InContext(m, generation)
    ensures Said(Context(ms + [m], generation)) == Said(Context(ms, generation)) + m.contents
  {
    assert (ms + [m])[..|ms|] == ms;
    var before := Context(ms, generation);
    assert (before + [m])[..|before|] == before;
  }

  lemma AnswersAllOpen(cs: seq<Content>)
    ensures IdSet(Answers(cs)) == Open(cs)
  {
    forall id ensures id in Answers(cs) <==> id in Open(cs) {
      OpenWasOpened(cs, id);
      KeepCounts(Opened(cs), Open(cs), id);
    }
  }

  ghost function IdSet(ids: seq<string>): set<string> { set id | id in ids }

  lemma SomeIn(ids: seq<string>)
    ensures ids != [] ==> IdSet(ids) != {}
  {
    if ids != [] { assert ids[0] in IdSet(ids); }
  }

  /** Afterwards no call is open, and recovering again writes nothing. */
  lemma RecoveryCloses(ms: seq<Message>, generation: int)
    ensures var after := Recovered(ms, generation);
      Open(Said(Context(after, generation))) == {} && Answers(Said(Context(after, generation))) == []
    ensures Recovered(Recovered(ms, generation), generation) == Recovered(ms, generation)
  {
    var cs := Said(Context(ms, generation));
    var ids := Answers(cs);
    AnswersAllOpen(cs);
    if ids != [] {
      SaidMore(ms, Message(true, false, generation, Failures(ids)), generation);
      FailuresClose(cs, ids);
    } else {
      assert Open(cs) == {};
    }
    var after := Said(Context(Recovered(ms, generation), generation));
    AnswersAllOpen(after);
    SomeIn(Answers(after));
  }

  // How often and in which order calls are answered

  /** A call is used, answered, and used again. */
  ghost predicate Reused(cs: seq<Content>, id: string)
  {
    exists i, j, k :: 0 <= i < j < k < |cs| && cs[i] == ToolUse(id) && AnswersCall(cs[j], id) && cs[k] == ToolUse(id)
  }

  predicate AnswersCall(c: Content, id: string) { c.ToolResult? && c.of == id }

  predicate Uses(cs: seq<Content>, id: string) { ToolUse(id) in cs }

  lemma {:induction false} UsedIsOpened(cs: seq<Content>, id: string)
    requires id != ""
    ensures id in Opened(cs) <==> Uses(cs, id)
    decreases |cs|
  {
    if cs != [] {
      var before, last := cs[..|cs| - 1], cs[|cs| - 1];
      UsedIsOpened(before, id);
      OpenWasOpened(before, id);
      assert cs == before + [last];
    }
  }

  /** A call used and no longer open has been answered. */
  lemma {:induction false} ClosedWasAnswered(cs: seq<Content>, i: nat)
    requires i < |cs| && cs[i].ToolUse? && cs[i].id != "" && cs[i].id !in Open(cs)
    ensures exists j :: i < j < |cs| && AnswersCall(cs[j], cs[i].id)
    decreases |cs|
  {
    var before, last := cs[..|cs| - 1], cs[|cs| - 1];
    if !AnswersCall(last, cs[i].id) {
      assert i < |before|;
      ClosedWasAnswered(before, i);
      var j :| i < j < |before| && AnswersCall(before[j], before[i].id);
      assert AnswersCall(cs[j], cs[i].id);
    }
  }

  lemma ReusedMore(before: seq<Content>, last: Content, id: string)
    ensures Reused(before, id) ==> Reused(before + [last], id)
    ensures Reused(before + [last], id) && last != ToolUse(id) ==> Reused(before, id)
  {
    var cs := before + [last];
    assert forall i :: 0 <= i < |before| ==> cs[i] == before[i];
  }

  /** A call answered and open at the end has been used since. */
  lemma {:induction false} OpenWasUsedSince(cs: seq<Content>, id: string, j: nat)
    requires id in Open(cs) && j < |cs| && AnswersCall(cs[j], id)
    ensures exists k :: j < k < |cs| && cs[k] == ToolUse(id)
    decreases |cs|
  {
    var before, last := cs[..|cs| - 1], cs[|cs| - 1];
    if last != ToolUse(id) {
      assert j < |before|;
      OpenWasUsedSince(before, id, j);
      var k :| j < k < |before| && before[k] == ToolUse(id);
      assert cs[k] == ToolUse(id);
    }
  }

  /** A use of a call that is open. */
  lemma UsedWhileOpen(before: seq<Content>, id: string)
    requires id in Open(before) && Reused(before + [ToolUse(id)], id)
    ensures Reused(before, id)
  {
    var cs := before + [ToolUse(id)];
    var i, j, k :| 0 <= i < j < k < |cs| && cs[i] == ToolUse(id) && AnswersCall(cs[j], id) && cs[k] == ToolUse(id);
    OpenWasUsedSince(before, id, j);
    var k' :| j < k' < |before| && before[k'] == ToolUse(id);
    assert before[i] == ToolUse(id) && AnswersCall(before[j], id) && before[k'] == ToolUse(id);
  }

  /** A use of a call that is not open. */
  lemma UsedWhileClosed(before: seq<Content>, id: string)
    requires id != "" && id !in Open(before)
    ensures Reused(before + [ToolUse(id)], id) <==> Uses(before, id)
  {
    var cs := before + [ToolUse(id)];
    if Uses(before, id) {
      var i :| 0 <= i < |before| && before[i] == ToolUse(id);
      ClosedWasAnswered(before, i);
      var j :| i < j < |before| && AnswersCall(before[j], id);
      assert cs[i] == ToolUse(id) && AnswersCall(cs[j], id) && cs[|before|] == ToolUse(id);
    }
    if Reused(cs, id) {
      var i, j, k :| 0 <= i < j < k < |cs| && cs[i] == ToolUse(id) && AnswersCall(cs[j], id) && cs[k] == ToolUse(id);
      assert before[i] == ToolUse(id);
    }
  }

  /** A call is opened more than once exactly when it is used again after an answer. */
  lemma {:induction false} OpenedTwiceIffReused(cs: seq<Content>, id: string)
    requires id != ""
    ensures multiset(Opened(cs))[id] > 1 <==> Reused(cs, id)
    decreases |cs|
  {
    if cs != [] {
      var before, last := cs[..|cs| - 1], cs[|cs| - 1];
      assert cs == before + [last];
      OpenedTwiceIffReused(before, id);
      ReusedMore(before, last, id);
      if last == ToolUse(id) {
        if id in Open(before) {
          if Reused(cs, id) { UsedWhileOpen(before, id); }
        } else {
          UsedWhileClosed(before, id);
          UsedIsOpened(before, id);
        }
      }
    }
  }

  lemma {:induction false} OpenIsNamed(cs: seq<Content>)
    ensures "" !in Open(cs)
    decreases |cs|
  {
    if cs != [] { OpenIsNamed(cs[..|cs| - 1]); }
  }

  /** Every open call is answered, and only those; more than once exactly when it had been answered before and used again. */
  lemma AnsweredOnceIffNotReused(cs: seq<Content>, id: string)
    ensures id in Answers(cs) <==> id in Open(cs)
    ensures id in Open(cs) ==> (multiset(Answers(cs))[id] == 1 <==> !Reused(cs, id))
  {
    AnswersAllOpen(cs);
    assert id in Answers(cs) <==> id in IdSet(Answers(cs));
    if id in Open(cs) {
      OpenIsNamed(cs);
      OpenWasOpened(cs, id);
      KeepCounts(Opened(cs), Open(cs), id);
      OpenedTwiceIffReused(cs, id);
    }
  }

  /** An id used again after its answer, then left open, is answered twice. */
  lemma ReusedIsAnsweredTwice(id: string)
    requires id != ""
    ensures Answers([ToolUse(id), ToolResult(id, false), ToolUse(id)]) == [id, id]
  {
    var cs := [ToolUse(id), ToolResult(id, false), ToolUse(id)];
    assert cs[..2] == [ToolUse(id), ToolResult(id, false)] && cs[..2][..1] == [ToolUse(id)] && cs[..2][..1][..0] == [];
    assert Open(cs[..2][..1]) == {id} && Opened(cs[..2][..1]) == [id];
    assert Open(cs[..2]) == {} && Opened(cs[..2]) == [id];
    assert Open(cs) == {id} && Opened(cs) == [id, id];
    assert [id, id][..1] == [id] && [id][..0] == [];
    assert Keep([id], {id}) == [id];
  }

  /** The calls in the order of their first use. */
  function FirstUses(cs: seq<Content>): seq<string>
  {
    if cs == [] then []
    else
      var before, last := FirstUses(cs[..|cs| - 1]), cs[|cs| - 1];
      if last.ToolUse? && last.id !in before then before + [last.id] else before
  }

  lemma {:induction false} FirstUsesAreUses(cs: seq<Content>, id: string)
    ensures id in FirstUses(cs) <==> Uses(cs, id)
    decreases |cs|
  {
    if cs != [] {
      FirstUsesAreUses(cs[..|cs| - 1], id);
      assert cs == cs[..|cs| - 1] + [cs[|cs| - 1]];
    }
  }

  lemma {:induction false} OpenedIsFirstUse(cs: seq<Content>, some: set<string>)
    requires "" !in some && forall id :: id in some ==> multiset(Opened(cs))[id] <= 1
    ensures Keep(Opened(cs), some) == Keep(FirstUses(cs), some)
    decreases |cs|
  {
    if cs != [] {
      var before, last := cs[..|cs| - 1], cs[|cs| - 1];
      OpenedIsFirstUse(before, some);
      if last.ToolUse? && last.id in some {
        UsedIsOpened(before, last.id);
        FirstUsesAreUses(before, last.id);
        OpenWasOpened(before, last.id);
      }
    }
  }

  ghost predicate NoRepeats(ids: seq<string>) { forall id :: multiset(ids)[id] <= 1 }

  lemma {:induction false} FirstUsesOnce(cs: seq<Content>)
    ensures NoRepeats(FirstUses(cs))
    decreases |cs|
  {
    if cs != [] { FirstUsesOnce(cs[..|cs| - 1]); }
  }

  /** The answers come in the order of first use exactly when no open call was used again after an answer. */
  lemma AnsweredInFirstUseOrder(cs: seq<Content>)
    ensures Answers(cs) == Keep(FirstUses(cs), Open(cs)) <==> forall id :: id in Open(cs) ==> !Reused(cs, id)
  {
    OpenIsNamed(cs);
    if Answers(cs) == Keep(FirstUses(cs), Open(cs)) {
      FirstUsesOnce(cs);
      forall id | id in Open(cs) ensures !Reused(cs, id) {
        KeepCounts(FirstUses(cs), Open(cs), id);
        KeepCounts(Opened(cs), Open(cs), id);
        OpenedTwiceIffReused(cs, id);
      }
    }
    if forall id :: id in Open(cs) ==> !Reused(cs, id) {
      forall id | id in Open(cs) ensures multiset(Opened(cs))[id] <= 1 { OpenedTwiceIffReused(cs, id); }
      OpenedIsFirstUse(cs, Open(cs));
    }
  }

  // The definitions, said of positions

  lemma {:induction false} FailuresAre(ids: seq<string>)
    ensures |Failures(ids)| == |ids| && forall i :: 0 <= i < |ids| ==> Failures(ids)[i] == ToolResult(ids[i], true)
    decreases |ids|
  {
    if ids != [] { FailuresAre(ids[..|ids| - 1]); }
  }

  /** The call is used at i and not answered after it. */
  ghost predicate Unanswered(cs: seq<Content>, id: string, i: nat)
  {
    i < |cs| && cs[i] == ToolUse(id) && forall j :: i < j < |cs| ==> !AnswersCall(cs[j], id)
  }

  /** A call is open exactly when some use of it is not answered after it. */
  lemma {:induction false} OpenIffUnanswered(cs: seq<Content>, id: string)
    requires id != ""
    ensures id in Open(cs) <==> exists i: nat :: Unanswered(cs, id, i)
    decreases |cs|
  {
    if cs != [] {
      var before, last := cs[..|cs| - 1], cs[|cs| - 1];
      OpenIffUnanswered(before, id);
      if last == ToolUse(id) {
        assert Unanswered(cs, id, |cs| - 1);
      } else if !AnswersCall(last, id) {
        if i: nat :| Unanswered(before, id, i) { assert Unanswered(cs, id, i); }
        if i: nat :| Unanswered(cs, id, i) { assert Unanswered(before, id, i); }
      }
    }
  }

  /** A message the model is shown, and the k-th thing it says. */
  ghost predicate Says(ms: seq<Message>, generation: int, i: nat, k: nat, c: Content)
  {
    i < |ms| && ms[i].spoken && InContext(ms[i], generation) && k < |ms[i].contents| && ms[i].contents[k] == c
  }

  /** Later than position k of message i. */
  predicate Later(i: nat, k: nat, i': nat, k': nat) { i < i' || (i == i' && k < k') }

  ghost predicate AnsweredLater(ms: seq<Message>, generation: int, id: string, i: nat, k: nat)
  {
    exists i': nat, k': nat, error :: Later(i, k, i', k') && Says(ms, generation, i', k', ToolResult(id, error))
  }

  predicate NoAnswer(cs: seq<Content>, id: string) { forall j :: 0 <= j < |cs| ==> !AnswersCall(cs[j], id) }

  lemma {:induction false} StaysOpen(cs: seq<Content>, more: seq<Content>, id: string)
    requires id in Open(cs) && NoAnswer(more, id)
    ensures id in Open(cs + more)
    decreases |more|
  {
    if more == [] {
      assert cs + more == cs;
    } else {
      var before, last := more[..|more| - 1], more[|more| - 1];
      StaysOpen(cs, before, id);
      assert cs + more == (cs + before) + [last];
      SaidOneMore(cs + before, last);
    }
  }

  lemma OpenAfterUse(cs: seq<Content>, more: seq<Content>, k: nat, id: string)
    requires id != "" && k < |more| && more[k] == ToolUse(id) && NoAnswer(more[k + 1..], id)
    ensures id in Open(cs + more)
  {
    SaidOneMore(cs + more[..k], more[k]);
    StaysOpen(cs + more[..k] + [more[k]], more[k + 1..], id);
    assert cs + more == cs + more[..k] + [more[k]] + more[k + 1..];
  }

  /** What the last message adds to what was said. */
  lemma SaidLast(ms: seq<Message>, generation: int)
    requires ms != []
    ensures var before, last := ms[..|ms| - 1], ms[|ms| - 1];
      Said(Context(ms, generation))
      == Said(Context(before, generation)) + if last.spoken && InContext(last, generation) then last.contents else []
  {
    var before, last := ms[..|ms| - 1], ms[|ms| - 1];
    var shown := Context(before, generation);
    assert (shown + [last])[..|shown|] == shown;
    assert Said(shown) + [] == Said(shown);
  }

  lemma {:induction false} UsedStaysOpen(ms: seq<Message>, generation: int, id: string, i: nat, k: nat)
    requires id != "" && Says(ms, generation, i, k, ToolUse(id)) && !AnsweredLater(ms, generation, id, i, k)
    ensures id in Open(Said(Context(ms, generation)))
    decreases |ms|
  {
    var before, last, n := ms[..|ms| - 1], ms[|ms| - 1], |ms| - 1;
    SaidLast(ms, generation);
    var shown := last.spoken && InContext(last, generation);
    if i < n {
      AnsweredMore(ms, generation, id, i, k);
      UsedStaysOpen(before, generation, id, i, k);
      if shown { NoAnswerFrom(ms, generation, id, i, k, 0); }
      StaysOpen(Said(Context(before, generation)), if shown then last.contents else [], id);
    } else {
      NoAnswerFrom(ms, generation, id, i, k, k + 1);
      OpenAfterUse(Said(Context(before, generation)), last.contents, k, id);
    }
  }

  lemma AnsweredMore(ms: seq<Message>, generation: int, id: string, i: nat, k: nat)
    requires ms != []
    ensures AnsweredLater(ms[..|ms| - 1], generation, id, i, k) ==> AnsweredLater(ms, generation, id, i, k)
  {
    var before := ms[..|ms| - 1];
    if i': nat, k': nat, error :| Later(i, k, i', k') && Says(before, generation, i', k', ToolResult(id, error)) {
      assert Says(ms, generation, i', k', ToolResult(id, error));
    }
  }

  lemma AnswerIsLater(ms: seq<Message>, generation: int, id: string, i: nat, k: nat, j: nat)
    requires ms != [] && j < |ms[|ms| - 1].contents| && Later(i, k, |ms| - 1, j)
    requires var last := ms[|ms| - 1]; last.spoken && InContext(last, generation)
    ensures AnswersCall(ms[|ms| - 1].contents[j], id) ==> AnsweredLater(ms, generation, id, i, k)
  {
    var c := ms[|ms| - 1].contents[j];
    if AnswersCall(c, id) { assert Says(ms, generation, |ms| - 1, j, ToolResult(id, c.error)); }
  }

  /** The last message, if it is shown, holds no answer from position from on. */
  lemma NoAnswerFrom(ms: seq<Message>, generation: int, id: string, i: nat, k: nat, from: nat)
    requires ms != [] && !AnsweredLater(ms, generation, id, i, k)
    requires var last := ms[|ms| - 1]; last.spoken && InContext(last, generation) && from <= |last.contents|
    requires i < |ms| - 1 || (i == |ms| - 1 && k < from)
    ensures NoAnswer(ms[|ms| - 1].contents[from..], id)
  {
    var cs := ms[|ms| - 1].contents;
    forall j | 0 <= j < |cs[from..]| ensures !AnswersCall(cs[from..][j], id) {
      AnswerIsLater(ms, generation, id, i, k, from + j);
    }
  }

  /** After recovery, every call the model is shown is followed by an answer. */
  lemma RecoveryAnswers(ms: seq<Message>, generation: int, id: string, i: nat, k: nat)
    requires id != "" && Says(ms, generation, i, k, ToolUse(id))
    ensures AnsweredLater(Recovered(ms, generation), generation, id, i, k)
  {
    var after := Recovered(ms, generation);
    if AnsweredLater(ms, generation, id, i, k) {
      var i': nat, k': nat, error :| Later(i, k, i', k') && Says(ms, generation, i', k', ToolResult(id, error));
      assert Says(after, generation, i', k', ToolResult(id, error));
    } else {
      UsedStaysOpen(ms, generation, id, i, k);
      var ids := Answers(Said(Context(ms, generation)));
      AnswersAllOpen(Said(Context(ms, generation)));
      assert id in IdSet(ids);
      var n: nat :| n < |ids| && ids[n] == id;
      FailuresAre(ids);
      assert Says(after, generation, |ms|, n, ToolResult(id, true)) && Later(i, k, |ms|, n);
    }
  }
}

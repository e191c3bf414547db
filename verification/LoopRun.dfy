/** loop/loop.go: producers and the Go loop sharing the queue and a wakeup channel of capacity one. */
module LoopRun {
  import opened Options
  import opened LoopQueue

  /** What the Go loop does next. Starting: the turn-start callback has not returned. */
  datatype Pc = Top | Starting | Running | Parked | Stopped

  /** A turn: the queued messages it took and what runs it. */
  datatype Turn = Turn(messages: seq<Queued>, runner: Option<Runner>)

  /** Positions from..to of the queued messages, added by one QueueMessages call. */
  datatype Group = Group(from: nat, to: nat)

  datatype Log = Log(enqueued: seq<Queued>, turns: seq<Turn>, groups: seq<Group>, replaced: bool)

  /** Counts of messages whose turn-start callback returned, of Retry calls, of those taken, of those begun. */
  datatype Tally = Tally(begun: nat, asked: nat, retried: nat, retriesBegun: nat)

  /** signalling: producers that have released the mutex and not yet signalled. */
  datatype World = World(f: Fields, notify: bool, signalling: nat, pc: Pc, log: Log, tally: Tally)

  datatype Action =
    | QueueMessages(messages: seq<Message>)
    | QueueTurn(message: Message, run: Option<Runner>)
    | Retry
    | Signal
    | AppendHistory(messages: seq<Message>)
    | Replace(history: seq<Message>)
    | Continue(failed: bool)
    | Cancel

  function Init(initial: seq<Message>): World
  {
    World(Append(Fields([], [], None, false, false), initial), false, 0, Top,
          Log([], [], [], false), Tally(0, 0, 0, 0))
  }

  function Add(w: World, qs: seq<Queued>, gs: seq<Group>): World
  {
    w.(f := Enqueue(w.f, qs), signalling := w.signalling + 1,
       log := w.log.(enqueued := w.log.enqueued + qs, groups := w.log.groups + gs))
  }

  function Taken(turns: seq<Turn>): seq<Queued>
  {
    if turns == [] then [] else Taken(turns[..|turns| - 1]) + turns[|turns| - 1].messages
  }

  /** The turn the top of the loop takes. */
  function NextTurn(f: Fields): Turn { Turn(f.queue[..Batch(f.queue)], Take(f).runner) }

  function LogTurn(log: Log, f: Fields): Log
  {
    if HasTurn(f) then log.(turns := log.turns + [NextTurn(f)]) else log
  }

  /** The Go loop's own steps. */
  function Advance(w: World, failed: bool): World
  {
    match w.pc
    case Top =>
      w.(f := Take(w.f), pc := if HasTurn(w.f) then Starting else Parked, log := LogTurn(w.log, w.f),
         tally := w.tally.(retried := w.tally.asked))
    case Starting =>
      w.(f := Started(w.f), pc := Running,
         tally := w.tally.(begun := |Taken(w.log.turns)|, retriesBegun := w.tally.retried))
    case Running => w.(pc := if failed then Stopped else Top)
    case Parked => if w.notify then w.(notify := false, pc := Top) else w
    case Stopped => w
  }

  function Act(w: World, a: Action): World
  {
    match a
    case QueueMessages(ms) =>
      if ms == [] then w
      else Add(w, LoopQueue.Plain(ms), [Group(|w.log.enqueued|, |w.log.enqueued| + |ms|)])
    case QueueTurn(m, run) => Add(w, [Queued(m, run)], [])
    case Retry =>
      w.(f := AskRetry(w.f), signalling := w.signalling + 1, tally := w.tally.(asked := w.tally.asked + 1))
    case Signal => if w.signalling > 0 then w.(notify := true, signalling := w.signalling - 1) else w
    case AppendHistory(ms) => w.(f := Append(w.f, ms))
    case Replace(h) =>
      if w.pc.Running? then w.(f := Append(w.f.(history := []), h), log := w.log.(replaced := true)) else w
    case Continue(failed) => Advance(w, failed)
    case Cancel => if w.pc.Starting? then w else w.(pc := Stopped)
  }

  function Exec(w: World, run: seq<Action>): World
  {
    if run == [] then w else Act(Exec(w, run[..|run| - 1]), run[|run| - 1])
  }

  // Wakeups

  ghost predicate Awake(w: World)
  {
    w.pc.Parked? && HasTurn(w.f) ==> w.notify || w.signalling > 0
  }

  lemma ActKeepsAwake(w: World, a: Action)
    requires Awake(w)
    ensures Awake(Act(w, a))
  {
  }

  /** Parked with nothing in the channel and no producer mid-signal: nothing is queued or pending. */
  lemma {:induction false} NoLostWakeup(initial: seq<Message>, run: seq<Action>)
    ensures var w := Exec(Init(initial), run);
      w.pc.Parked? && !w.notify && w.signalling == 0 ==> w.f.queue == [] && !w.f.retryPending
    ensures Awake(Exec(Init(initial), run))
  {
    if run != [] {
      NoLostWakeup(initial, run[..|run| - 1]);
      ActKeepsAwake(Exec(Init(initial), run[..|run| - 1]), run[|run| - 1]);
    }
  }

  // WillRunTurn

  ghost predicate Gapless(w: World)
  {
    && (w.pc.Starting? <==> w.f.startingTurn)
    && w.tally.retriesBegun <= w.tally.retried <= w.tally.asked
    && (w.tally.retried < w.tally.asked ==> w.f.retryPending)
    && (w.tally.retriesBegun < w.tally.retried ==> w.f.startingTurn)
    && (w.tally.begun != |Taken(w.log.turns)| ==> w.f.startingTurn)
    && w.tally.begun <= |Taken(w.log.turns)|
    && (w.f.startingTurn ==> w.tally.begun < |Taken(w.log.turns)| || w.tally.retriesBegun < w.tally.retried)
    && (w.f.retryPending ==> w.tally.retried < w.tally.asked)
    && Taken(w.log.turns) + w.f.queue == w.log.enqueued
  }

  lemma TakenSnoc(turns: seq<Turn>, t: Turn)
    ensures Taken(turns + [t]) == Taken(turns) + t.messages
  {
    assert (turns + [t])[..|turns|] == turns;
  }

  lemma TakeConserves(f: Fields, log: Log)
    requires Taken(log.turns) + f.queue == log.enqueued
    ensures Taken(LogTurn(log, f).turns) + Take(f).queue == log.enqueued
    ensures LogTurn(log, f).enqueued == log.enqueued && (!HasTurn(f) ==> LogTurn(log, f) == log)
  {
    TakenSnoc(log.turns, NextTurn(f));
    var n := Batch(f.queue);
    assert f.queue == f.queue[..n] + f.queue[n..];
  }

  lemma ActKeepsGapless(w: World, a: Action)
    requires Gapless(w)
    ensures Gapless(Act(w, a))
  {
    match a {
      case QueueMessages(ms) =>
        assert Taken(w.log.turns) + (w.f.queue + LoopQueue.Plain(ms)) == w.log.enqueued + LoopQueue.Plain(ms);
      case QueueTurn(m, run) =>
        assert Taken(w.log.turns) + (w.f.queue + [Queued(m, run)]) == w.log.enqueued + [Queued(m, run)];
      case Continue(_) => if w.pc.Top? { TakeConserves(w.f, w.log); }
      case _ =>
    }
  }

  lemma {:induction false} ReachableGapless(initial: seq<Message>, run: seq<Action>)
    ensures Gapless(Exec(Init(initial), run))
  {
    if run != [] {
      ReachableGapless(initial, run[..|run| - 1]);
      ActKeepsGapless(Exec(Init(initial), run[..|run| - 1]), run[|run| - 1]);
    }
  }

  /** WillRunTurn announces a turn exactly from the moment it is asked for until its turn-start callback returns. */
  lemma WillRunHasNoGap(initial: seq<Message>, run: seq<Action>)
    ensures var w := Exec(Init(initial), run);
      WillRun(w.f) <==> w.tally.begun < |w.log.enqueued| || w.tally.retriesBegun < w.tally.asked
  {
    ReachableGapless(initial, run);
  }

  /** Every queued message is taken exactly once, in order, by the turns. */
  lemma TakenInOrder(initial: seq<Message>, run: seq<Action>)
    ensures var w := Exec(Init(initial), run); Taken(w.log.turns) + w.f.queue == w.log.enqueued
  {
    ReachableGapless(initial, run);
  }

  // History

  /** The queued messages of a history. */
  function FromQueueIn(h: seq<Item>): seq<Queued>
  {
    if h == [] then []
    else
      var before, last := FromQueueIn(h[..|h| - 1]), h[|h| - 1];
      if last.FromQueue? then before + [last.q] else before
  }

  lemma {:induction false} FromQueueInConcat(a: seq<Item>, b: seq<Item>)
    ensures FromQueueIn(a + b) == FromQueueIn(a) + FromQueueIn(b)
    decreases |b|
  {
    if b == [] {
      assert a + b == a;
    } else {
      FromQueueInConcat(a, b[..|b| - 1]);
      assert (a + b)[..|a + b| - 1] == a + b[..|b| - 1];
    }
  }

  lemma {:induction false} FromQueuesBack(qs: seq<Queued>)
    ensures FromQueueIn(FromQueues(qs)) == qs
    decreases |qs|
  {
    if qs != [] {
      var before := qs[..|qs| - 1];
      FromQueuesBack(before);
      assert FromQueues(qs)[..|FromQueues(qs)| - 1] == FromQueues(before);
      assert qs == before + [qs[|qs| - 1]];
    }
  }

  lemma {:induction false} OthersHaveNone(h: seq<Item>)
    requires forall i :: 0 <= i < |h| ==> h[i].Other?
    ensures FromQueueIn(h) == []
    decreases |h|
  {
    if h != [] { OthersHaveNone(h[..|h| - 1]); }
  }

  lemma AppendKeepsQueued(f: Fields, ms: seq<Message>)
    ensures FromQueueIn(Append(f, ms).history) == FromQueueIn(f.history)
  {
    var tail := seq(|ms|, i requires 0 <= i < |ms| => Other(ms[i]));
    OthersHaveNone(tail);
    FromQueueInConcat(f.history, tail);
  }

  lemma TakeAddsQueued(f: Fields)
    ensures FromQueueIn(Take(f).history) == FromQueueIn(f.history) + f.queue[..Batch(f.queue)]
  {
    FromQueueInConcat(f.history, FromQueues(f.queue[..Batch(f.queue)]));
    FromQueuesBack(f.queue[..Batch(f.queue)]);
  }

  ghost predicate Mirrors(w: World) { !w.log.replaced ==> FromQueueIn(w.f.history) == Taken(w.log.turns) }

  lemma TopKeepsMirror(f: Fields, log: Log)
    requires FromQueueIn(f.history) == Taken(log.turns)
    ensures FromQueueIn(Take(f).history) == Taken(LogTurn(log, f).turns)
  {
    TakeAddsQueued(f);
    TakenSnoc(log.turns, NextTurn(f));
  }

  lemma ActKeepsMirror(w: World, a: Action)
    requires Mirrors(w)
    ensures Mirrors(Act(w, a))
  {
    match a {
      case AppendHistory(ms) => AppendKeepsQueued(w.f, ms);
      case Continue(_) => if w.pc.Top? && !w.log.replaced { TopKeepsMirror(w.f, w.log); }
      case _ =>
    }
  }

  /** Unless a history is replaced, it holds each taken message exactly once, in order. */
  lemma {:induction false} HistoryInOrder(initial: seq<Message>, run: seq<Action>)
    ensures Mirrors(Exec(Init(initial), run))
  {
    if run == [] {
      AppendKeepsQueued(Fields([], [], None, false, false), initial);
    } else {
      HistoryInOrder(initial, run[..|run| - 1]);
      ActKeepsMirror(Exec(Init(initial), run[..|run| - 1]), run[|run| - 1]);
    }
  }

  // Turns

  ghost predicate TurnOk(t: Turn, before: Option<Runner>)
  {
    if t.messages == [] then t.runner == before
    else
      && t.runner == t.messages[0].run
      && (t.runner.Some? ==> |t.messages| == 1)
      && (t.runner.None? ==> forall i :: 0 <= i < |t.messages| ==> t.messages[i].run.None?)
  }

  function LastRunner(turns: seq<Turn>): Option<Runner> { if turns == [] then None else turns[|turns| - 1].runner }

  ghost predicate TurnsOk(turns: seq<Turn>)
  {
    turns == [] || (TurnsOk(turns[..|turns| - 1]) && TurnOk(turns[|turns| - 1], LastRunner(turns[..|turns| - 1])))
  }

  lemma {:induction false} TurnsOkAt(turns: seq<Turn>, i: nat)
    requires TurnsOk(turns) && i < |turns|
    ensures TurnOk(turns[i], LastRunner(turns[..i]))
    decreases |turns|
  {
    if i < |turns| - 1 {
      TurnsOkAt(turns[..|turns| - 1], i);
      assert turns[..|turns| - 1][..i] == turns[..i];
    }
  }

  ghost predicate Isolated(f: Fields, log: Log) { f.runner == LastRunner(log.turns) && TurnsOk(log.turns) }

  lemma NextTurnOk(f: Fields)
    ensures TurnOk(NextTurn(f), f.runner) && NextTurn(f).runner == Take(f).runner
  {
  }

  lemma TopKeepsIsolated(f: Fields, log: Log)
    requires Isolated(f, log)
    ensures Isolated(Take(f), LogTurn(log, f))
  {
    NextTurnOk(f);
    var next := log.turns + [NextTurn(f)];
    assert next[..|log.turns|] == log.turns;
  }

  lemma ActKeepsIsolated(w: World, a: Action)
    requires Isolated(w.f, w.log)
    ensures Isolated(Act(w, a).f, Act(w, a).log)
  {
    if a.Continue? && w.pc.Top? { TopKeepsIsolated(w.f, w.log); }
  }

  lemma {:induction false} ReachableIsolated(initial: seq<Message>, run: seq<Action>)
    ensures Isolated(Exec(Init(initial), run).f, Exec(Init(initial), run).log)
  {
    if run != [] {
      ReachableIsolated(initial, run[..|run| - 1]);
      ActKeepsIsolated(Exec(Init(initial), run[..|run| - 1]), run[|run| - 1]);
    }
  }

  lemma OverrideAlone(t: Turn, before: Option<Runner>, k: nat)
    requires TurnOk(t, before) && k < |t.messages| && t.messages[k].run.Some?
    ensures |t.messages| == 1 && t.runner == t.messages[k].run
  {
  }

  /** A message with a runner is alone in its turn and decides its runner; a retry keeps the runner of the turn before. */
  lemma OverridesRunAlone(initial: seq<Message>, run: seq<Action>, i: nat)
    requires i < |Exec(Init(initial), run).log.turns|
    ensures var turns := Exec(Init(initial), run).log.turns;
      && TurnOk(turns[i], LastRunner(turns[..i]))
      && forall k :: 0 <= k < |turns[i].messages| && turns[i].messages[k].run.Some? ==>
           |turns[i].messages| == 1 && turns[i].runner == turns[i].messages[k].run
  {
    var turns := Exec(Init(initial), run).log.turns;
    ReachableIsolated(initial, run);
    TurnsOkAt(turns, i);
    forall k | 0 <= k < |turns[i].messages| && turns[i].messages[k].run.Some?
      ensures |turns[i].messages| == 1 && turns[i].runner == turns[i].messages[k].run
    {
      OverrideAlone(turns[i], LastRunner(turns[..i]), k);
    }
  }

  // Groups

  ghost predicate Apart(g: Group, cut: nat) { !(g.from < cut < g.to) }

  /** No group lies on both sides of the cut. */
  ghost predicate CutOk(log: Log, cut: nat)
  {
    && cut <= |log.enqueued|
    && forall i :: 0 <= i < |log.groups| ==> Apart(log.groups[i], cut)
  }

  ghost predicate GroupsOk(log: Log)
  {
    forall i :: 0 <= i < |log.groups| ==>
      && log.groups[i].from <= log.groups[i].to <= |log.enqueued|
      && forall k :: log.groups[i].from <= k < log.groups[i].to ==> log.enqueued[k].run.None?
  }

  ghost predicate CutsOk(log: Log)
  {
    && GroupsOk(log)
    && forall n :: 0 <= n <= |log.turns| ==> CutOk(log, |Taken(log.turns[..n])|)
  }

  lemma AddKeepsCuts(log: Log, qs: seq<Queued>, gs: seq<Group>)
    requires CutsOk(log)
    requires gs == [] || (gs == [Group(|log.enqueued|, |log.enqueued| + |qs|)] && forall i :: 0 <= i < |qs| ==> qs[i].run.None?)
    ensures CutsOk(log.(enqueued := log.enqueued + qs, groups := log.groups + gs))
  {
  }

  /** Where the next turn cuts the queue. */
  lemma BatchCuts(queue: seq<Queued>)
    ensures var n := Batch(queue); n == |queue| || queue[n].run.Some? || (n == 1 && queue[0].run.Some?)
  {
  }

  lemma NextCutOk(f: Fields, log: Log)
    requires Taken(log.turns) + f.queue == log.enqueued && GroupsOk(log) && f.queue != []
    ensures CutOk(log, |Taken(log.turns)| + Batch(f.queue))
  {
    var t, n := |Taken(log.turns)|, Batch(f.queue);
    BatchCuts(f.queue);
    assert forall k :: t <= k < |log.enqueued| ==> log.enqueued[k] == f.queue[k - t];
    if n < |f.queue| && f.queue[n].run.Some? {
      assert log.enqueued[t + n].run.Some?;
    } else if n < |f.queue| {
      assert log.enqueued[t].run.Some? && log.enqueued[t + n - 1].run.Some?;
    }
  }

  /** A retry with nothing queued cuts where the turns before it ended. */
  lemma EmptyCutOk(f: Fields, log: Log)
    requires Taken(log.turns) + f.queue == log.enqueued && GroupsOk(log) && f.queue == []
    ensures CutOk(log, |Taken(log.turns)|)
  {
  }

  lemma TopKeepsCuts(f: Fields, log: Log)
    requires Taken(log.turns) + f.queue == log.enqueued && CutsOk(log)
    ensures CutsOk(LogTurn(log, f))
  {
    if HasTurn(f) {
      if f.queue == [] { EmptyCutOk(f, log); } else { NextCutOk(f, log); }
      var next := LogTurn(log, f);
      TakenSnoc(log.turns, NextTurn(f));
      forall n | 0 <= n <= |next.turns| ensures CutOk(next, |Taken(next.turns[..n])|) {
        if n <= |log.turns| {
          assert next.turns[..n] == log.turns[..n];
          assert CutOk(log, |Taken(log.turns[..n])|);
        } else {
          assert next.turns[..n] == log.turns + [NextTurn(f)];
        }
      }
    }
  }

  lemma ActKeepsCuts(w: World, a: Action)
    requires Gapless(w) && CutsOk(w.log)
    ensures CutsOk(Act(w, a).log)
  {
    match a {
      case QueueMessages(ms) =>
        if ms != [] {
          AddKeepsCuts(w.log, LoopQueue.Plain(ms), [Group(|w.log.enqueued|, |w.log.enqueued| + |ms|)]);
        }
      case QueueTurn(m, run) => AddKeepsCuts(w.log, [Queued(m, run)], []);
      case Continue(_) => if w.pc.Top? { TopKeepsCuts(w.f, w.log); }
      case _ =>
    }
  }

  /** Messages queued by one call are never split between turns. */
  lemma {:induction false} GroupsStayWhole(initial: seq<Message>, run: seq<Action>)
    ensures CutsOk(Exec(Init(initial), run).log)
  {
    if run != [] {
      GroupsStayWhole(initial, run[..|run| - 1]);
      ReachableGapless(initial, run[..|run| - 1]);
      ActKeepsCuts(Exec(Init(initial), run[..|run| - 1]), run[|run| - 1]);
    }
  }

  // The queue does empty

  lemma {:induction false} ExecConcat(w: World, a: seq<Action>, b: seq<Action>)
    ensures Exec(w, a + b) == Exec(Exec(w, a), b)
    decreases |b|
  {
    if b == [] {
      assert a + b == a;
    } else {
      ExecConcat(w, a, b[..|b| - 1]);
      assert (a + b)[..|a + b| - 1] == a + b[..|b| - 1];
    }
  }

  const OneTurn := [Continue(false), Continue(false), Continue(false)]

  /** One turn takes from the queue: an override alone, else all messages up to one. */
  lemma TurnTakes(w: World)
    requires Gapless(w) && w.pc.Top? && w.f.queue != []
    ensures var t := Exec(w, OneTurn); var n := |w.f.queue| - |t.f.queue|;
      && Gapless(t) && t.pc.Top? && t.log.enqueued == w.log.enqueued
      && 1 <= n && t.f.queue == w.f.queue[n..] && Taken(t.log.turns) == Taken(w.log.turns) + w.f.queue[..n]
      && (if w.f.queue[0].run.Some? then n == 1
          else (forall i :: 0 <= i < n ==> w.f.queue[i].run.None?) && (n < |w.f.queue| ==> w.f.queue[n].run.Some?))
  {
    var a := Continue(false);
    ThreeSteps(w, a);
    ActKeepsGapless(w, a);
    ActKeepsGapless(Act(w, a), a);
    ActKeepsGapless(Act(Act(w, a), a), a);
    TakenSnoc(w.log.turns, NextTurn(w.f));
    TurnState(w);
  }

  lemma ThreeSteps(w: World, a: Action)
    ensures Exec(w, [a, a, a]) == Act(Act(Act(w, a), a), a)
  {
    assert [a, a, a][..2] == [a, a] && [a, a][..1] == [a] && [a][..0] == [];
    assert Exec(w, [a]) == Act(w, a);
    assert Exec(w, [a, a]) == Act(Act(w, a), a);
  }

  lemma TurnState(w: World)
    requires w.pc.Top? && w.f.queue != []
    ensures var a := Continue(false); var t := Act(Act(Act(w, a), a), a);
      t.pc.Top? && t.f.queue == w.f.queue[Batch(w.f.queue)..] && t.log == w.log.(turns := w.log.turns + [NextTurn(w.f)])
  {
  }

  /** Left to itself, the loop takes and begins everything that was queued. */
  lemma {:induction false} QueueEmpties(w: World) returns (run: seq<Action>)
    requires Gapless(w) && w.pc.Top?
    ensures forall i :: 0 <= i < |run| ==> run[i] == Continue(false)
    ensures var t := Exec(w, run);
      t.f.queue == [] && Taken(t.log.turns) == w.log.enqueued && t.tally.begun == |w.log.enqueued|
    decreases |w.f.queue|
  {
    if w.f.queue == [] {
      run := [];
      assert Taken(w.log.turns) + [] == Taken(w.log.turns);
    } else {
      TurnTakes(w);
      var rest := QueueEmpties(Exec(w, OneTurn));
      ExecConcat(w, OneTurn, rest);
      run := OneTurn + rest;
    }
  }
}

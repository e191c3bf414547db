/** db/db.go with server/convo.go: every run of turns, queued messages, claims, crashes, and ordinary and upgrade boots. */
module RestartRun {
  import opened Restart

  /** What can happen to one conversation between boots. */
  datatype Event =
    | Start(m: Message)            // AcceptUserMessage, no turn running: the message is recorded and starts one
    | Queue(q: nat)                // AcceptUserMessage, a turn running: the message is queued, without a row
    | Inject(q: nat, m: Message)   // takeInjectable: the running turn records a queued message and takes it
    | Drain(q: nat, m: Message)    // feedQueued, idle: a queued message is recorded and starts a turn
    | Unqueue(q: nat)              // CancelQueuedMessage
    | TurnStart                    // the loop's turn-start callback
    | Record(m: Message)           // the turn records a message; one that ends the turn stops the work with it
    | Fail(m: Message)             // the turn ends in an error
    | NextGeneration(g: int)
    | Retry                        // the turn that failed or was interrupted is tried again
    | Claim(token: Token)          // ClaimUpgradeInterruptedTurn
    | Finish                       // FinishUpgradeInterruptedTurn
    | MarkInterrupted(token: Token)
    | Continue                     // ClaimInterruptedTurn
    | Cancel                       // ClearConversationRuntimeState

  datatype Action = Create(id: Id, child: bool, managed: bool) | On(id: Id, e: Event) | Arm | Disarm | Boot

  /**
   * taken, failed: the user messages, by sequence number, that the turn under way
   * has to answer and whose turn failed. live: this process runs a turn.
   */
  datatype Work = Work(taken: set<nat>, failed: set<nat>, live: bool, line: Line)

  /** The conversation's queue, and what became of all messages ever put in it. */
  datatype Line = Line(queued: set<nat>, fed: seq<nat>, cancelled: set<nat>, accepted: set<nat>)

  const Idle := Work({}, {}, false, Line({}, [], {}, {}))

  predicate EndsTurn(m: Message, generation: int) { Real(m, generation) && m.kind.Agent? && m.endOfTurn }

  /** The sequence numbers of a conversation's messages grow. */
  predicate Follows(c: Conversation, m: Message)
  {
    m.sequence > 0 && (c.messages == [] || c.messages[|c.messages| - 1].sequence < m.sequence)
  }

  /** MAX(sequence_id) over the user messages, or 0. */
  function MaxUser(ms: seq<Message>): nat
  {
    if ms == [] then 0
    else
      var before, last := MaxUser(ms[..|ms| - 1]), ms[|ms| - 1];
      if last.kind.User? && last.sequence > before then last.sequence else before
  }

  predicate Names(token: Token, id: Id, c: Conversation)
  {
    token.id == id && token.generation == c.generation && token.maxUser == MaxUser(c.messages)
  }

  predicate CanClaim(token: Token, id: Id, c: Conversation) { c.working && !c.interrupted && Names(token, id, c) }

  /** A user message that can be recorded next. */
  predicate NextUser(c: Conversation, m: Message) { Follows(c, m) && m.kind.User? && Real(m, c.generation) }

  /** Whether the event can happen to this conversation. */
  ghost predicate Allowed(c: Conversation, w: Work, e: Event)
  {
    match e
    case Start(m) => NextUser(c, m) && !(c.working && w.live)
    case Queue(q) => q !in w.line.accepted
    case Inject(q, m) => NextUser(c, m) && c.working && w.live && q in w.line.queued
    case Drain(q, m) => NextUser(c, m) && !c.working && q in w.line.queued
    case Unqueue(q) => q in w.line.queued
    case TurnStart => w.taken != {}
    case Record(m) => Follows(c, m)
    case Fail(m) => Follows(c, m) && m.kind.Error? && Real(m, c.generation)
    case NextGeneration(g) => forall i :: 0 <= i < |c.messages| ==> c.messages[i].generation != g
    case Retry => !Ended(c.messages, c.generation)
    case _ => true
  }

  ghost function Happen(id: Id, c: Conversation, e: Event): Conversation
  {
    match e
    case Start(m) => c.(messages := c.messages + [m], working := true, interrupted := false)
    case Inject(_, m) => c.(messages := c.messages + [m])
    case Drain(_, m) => c.(messages := c.messages + [m], working := true, interrupted := false)
    case TurnStart => c.(working := true, interrupted := false)
    case Record(m) => c.(messages := c.messages + [m], working := c.working && !EndsTurn(m, c.generation))
    case Fail(m) => c.(messages := c.messages + [m], working := false)
    case NextGeneration(g) => c.(generation := g)
    case Retry => c.(working := true, interrupted := false)
    case Claim(token) => if CanClaim(token, id, c) then c.(interrupted := true) else c
    case Finish => if c.working && c.interrupted then c.(interrupted := false) else c
    case MarkInterrupted(token) =>
      if c.working && Names(token, id, c) then c.(working := false, interrupted := !c.child) else c
    case Continue => if c.interrupted && !c.working && !c.child then c.(working := true, interrupted := false) else c
    case Cancel => c.(working := false, interrupted := false)
    case _ => c
  }

  function LineAfter(l: Line, e: Event): Line
  {
    match e
    case Queue(q) => l.(queued := l.queued + {q}, accepted := l.accepted + {q})
    case Inject(q, _) => l.(queued := l.queued - {q}, fed := l.fed + [q])
    case Drain(q, _) => l.(queued := l.queued - {q}, fed := l.fed + [q])
    case Unqueue(q) => l.(queued := l.queued - {q}, cancelled := l.cancelled + {q})
    case _ => l
  }

  function TakenAfter(c: Conversation, w: Work, e: Event): set<nat>
  {
    match e
    case Start(m) => w.taken + {m.sequence}
    case Inject(_, m) => w.taken + {m.sequence}
    case Drain(_, m) => w.taken + {m.sequence}
    case Record(m) => if EndsTurn(m, c.generation) then {} else w.taken
    case Fail(_) => {}
    case Retry => w.taken + w.failed
    case Cancel => {}
    case _ => w.taken
  }

  function FailedAfter(c: Conversation, w: Work, e: Event): set<nat>
  {
    match e
    case Fail(_) => w.taken
    case Record(m) => if EndsTurn(m, c.generation) then {} else w.failed
    case Start(_) => {}
    case Drain(_, _) => {}
    case Retry => {}
    case Cancel => {}
    case _ => w.failed
  }

  function LiveAfter(id: Id, c: Conversation, w: Work, e: Event): bool
  {
    match e
    case Start(_) => true
    case Drain(_, _) => true
    case TurnStart => true
    case Retry => true
    case Continue => true
    case Record(m) => w.live && !EndsTurn(m, c.generation)
    case Fail(_) => false
    case MarkInterrupted(_) => false
    case Cancel => false
    case _ => w.live
  }

  function WorkAfter(id: Id, c: Conversation, w: Work, e: Event): Work
  {
    Work(TakenAfter(c, w, e), FailedAfter(c, w, e), LiveAfter(id, c, w, e), LineAfter(w.line, e))
  }

  /** tokens: what the last boot returned. */
  datatype State = State(table: Table, marker: bool, tokens: set<Token>, work: map<Id, Work>)

  const Init := State(map[], false, {}, map[])

  function WorkOf(s: State, id: Id): Work { if id in s.work then s.work[id] else Idle }

  ghost function TokenSet(t: Table): set<Token> { set id | id in t && Resumes(t[id]) :: TokenOf(id, t[id]) }

  /** The tokens a boot returns, each once, are this set. */
  lemma BootReturnsTokenSet(t: Table, tokens: seq<Token>)
    requires IsTokens(t, t.Keys, tokens)
    ensures (set k | 0 <= k < |tokens| :: tokens[k]) == TokenSet(t)
  {
    forall id | id in t && Resumes(t[id]) ensures TokenOf(id, t[id]) in set k | 0 <= k < |tokens| :: tokens[k] {
      assert TokenOf(id, t[id]) in tokens;
    }
  }

  ghost function Act(s: State, a: Action): State
  {
    match a
    case Create(id, child, managed) =>
      if id in s.table then s else s.(table := s.table[id := Conversation(child, managed, 0, false, false, [])])
    case On(id, e) =>
      if id !in s.table || !Allowed(s.table[id], WorkOf(s, id), e) then s
      else
        var c, w := s.table[id], WorkOf(s, id);
        s.(table := s.table[id := Happen(id, c, e)], work := s.work[id := WorkAfter(id, c, w, e)])
    case Arm => s.(marker := true)
    case Disarm => s.(marker := false)
    case Boot =>
      var table := BootAll(s.table, s.marker);
      State(table, false, if s.marker then TokenSet(s.table) else {},
            map id | id in s.work :: s.work[id].(live := false))
  }

  ghost function Exec(s: State, run: seq<Action>): State
  {
    if run == [] then s else Act(Exec(s, run[..|run| - 1]), run[|run| - 1])
  }

  // The invariant

  ghost predicate Sorted(ms: seq<Message>) { forall i, j :: 0 <= i < j < |ms| ==> ms[i].sequence < ms[j].sequence }

  /** A top-level turn under way is being worked on or known to be interrupted, and the log does not look answered. */
  ghost predicate Seen(c: Conversation, w: Work)
  {
    w.taken != {} && !c.child ==> (c.working || c.interrupted) && !Ended(c.messages, c.generation)
  }

  ghost predicate Unique(qs: seq<nat>) { forall i, j :: 0 <= i < j < |qs| ==> qs[i] != qs[j] }

  /** Every message ever queued is queued still, or was recorded, once, or cancelled. */
  ghost predicate LineOk(l: Line)
  {
    && Unique(l.fed) && (forall q :: q in l.queued ==> q !in l.fed && q !in l.cancelled)
    && (forall q :: q in l.fed ==> q !in l.cancelled)
    && forall q :: q in l.accepted <==> q in l.queued || q in l.fed || q in l.cancelled
  }

  ghost predicate RowOk(c: Conversation, w: Work) { Sorted(c.messages) && Seen(c, w) && LineOk(w.line) }

  ghost predicate Inv(s: State)
  {
    && s.work.Keys <= s.table.Keys
    && forall id :: id in s.table ==> RowOk(s.table[id], WorkOf(s, id))
  }

  lemma NewGenerationNotEnded(c: Conversation, g: int)
    requires forall i :: 0 <= i < |c.messages| ==> c.messages[i].generation != g
    ensures !Ended(c.messages, g)
  {
  }

  lemma HappenKeepsSeen(id: Id, c: Conversation, w: Work, e: Event)
    requires Seen(c, w) && Allowed(c, w, e)
    ensures Seen(Happen(id, c, e), WorkAfter(id, c, w, e))
  {
    match e {
      case Start(m) => EndedSnoc(c.messages, m, c.generation);
      case Inject(_, m) => EndedSnoc(c.messages, m, c.generation);
      case Drain(_, m) => EndedSnoc(c.messages, m, c.generation);
      case Record(m) => EndedSnoc(c.messages, m, c.generation);
      case NextGeneration(g) => NewGenerationNotEnded(c, g);
      case _ =>
    }
  }

  lemma HappenKeepsSorted(id: Id, c: Conversation, w: Work, e: Event)
    requires Sorted(c.messages) && Allowed(c, w, e)
    ensures Sorted(Happen(id, c, e).messages)
  {
  }

  lemma LineKeepsOk(c: Conversation, w: Work, e: Event)
    requires LineOk(w.line) && Allowed(c, w, e)
    ensures LineOk(LineAfter(w.line, e))
  {
    if e.Inject? || e.Drain? { FeedKeepsOk(w.line, e.q); }
  }

  lemma FeedKeepsOk(l: Line, q: nat)
    requires LineOk(l) && q in l.queued
    ensures LineOk(l.(queued := l.queued - {q}, fed := l.fed + [q]))
  {
    assert forall x :: x in l.fed + [q] <==> x in l.fed || x == q;
  }

  lemma EventKeepsInv(s: State, id: Id, e: Event)
    requires Inv(s) && id in s.table && Allowed(s.table[id], WorkOf(s, id), e)
    ensures Inv(Act(s, On(id, e)))
  {
    var t := Act(s, On(id, e));
    var c, w := s.table[id], WorkOf(s, id);
    assert RowOk(c, w);
    HappenKeepsSeen(id, c, w, e);
    HappenKeepsSorted(id, c, w, e);
    LineKeepsOk(c, w, e);
    forall i | i in t.table ensures RowOk(t.table[i], WorkOf(t, i)) {
      if i != id { assert RowOk(s.table[i], WorkOf(s, i)); }
    }
  }

  lemma BootKeepsRow(c: Conversation, w: Work, upgrade: bool)
    requires RowOk(c, w)
    ensures RowOk(AfterBoot(c, upgrade), w.(live := false))
  {
  }

  lemma BootKeepsInv(s: State)
    requires Inv(s)
    ensures Inv(Act(s, Boot))
  {
    var t := Act(s, Boot);
    forall i | i in t.table ensures RowOk(t.table[i], WorkOf(t, i)) {
      assert RowOk(s.table[i], WorkOf(s, i));
      BootKeepsRow(s.table[i], WorkOf(s, i), s.marker);
    }
  }

  lemma ActKeepsInv(s: State, a: Action)
    requires Inv(s)
    ensures Inv(Act(s, a))
  {
    match a {
      case Boot => BootKeepsInv(s);
      case On(id, e) => if id in s.table && Allowed(s.table[id], WorkOf(s, id), e) { EventKeepsInv(s, id, e); }
      case Create(id, child, managed) =>
        var t := Act(s, a);
        forall i | i in t.table ensures RowOk(t.table[i], WorkOf(t, i)) {
          if i in s.table { assert RowOk(s.table[i], WorkOf(s, i)); }
        }
      case _ =>
        forall i | i in s.table ensures RowOk(s.table[i], WorkOf(Act(s, a), i)) { assert RowOk(s.table[i], WorkOf(s, i)); }
    }
  }

  lemma {:induction false} Reachable(run: seq<Action>)
    ensures Inv(Exec(Init, run))
  {
    if run != [] {
      Reachable(run[..|run| - 1]);
      ActKeepsInv(Exec(Init, run[..|run| - 1]), run[|run| - 1]);
    }
  }

  lemma RowReachable(run: seq<Action>, id: Id)
    requires id in Exec(Init, run).table
    ensures RowOk(Exec(Init, run).table[id], WorkOf(Exec(Init, run), id))
  {
    Reachable(run);
  }

  lemma ExecSnoc(s: State, run: seq<Action>, a: Action)
    ensures Exec(s, run + [a]) == Act(Exec(s, run), a)
  {
    assert (run + [a])[..|run|] == run;
  }

  // The theorems

  /** A top-level turn under way: some user message is recorded and neither answered, nor failed, nor cancelled. */
  ghost predicate Begun(s: State, id: Id)
  {
    id in s.table && !s.table[id].child && WorkOf(s, id).taken != {}
  }

  /** In no state of no run is a top-level turn under way neither working nor marked interrupted. */
  lemma NeverDropped(run: seq<Action>, id: Id)
    requires Begun(Exec(Init, run), id)
    ensures var c := Exec(Init, run).table[id]; c.working || c.interrupted
  {
    RowReachable(run, id);
  }

  /** No boot loses a message of a top-level turn under way. */
  lemma NeverLost(run: seq<Action>, id: Id, u: nat)
    requires Begun(Exec(Init, run), id) && u in WorkOf(Exec(Init, run), id).taken
    ensures var t := Exec(Init, run + [Boot]);
      id in t.table && u in WorkOf(t, id).taken && (t.table[id].working || t.table[id].interrupted)
  {
    ExecSnoc(Init, run, Boot);
    NeverDropped(run + [Boot], id);
  }

  /** Any working top-level conversation a boot leaves idle is one whose log looks answered. */
  lemma IdleIffLooksAnswered(c: Conversation, upgrade: bool)
    requires c.working && !c.child
    ensures var after := AfterBoot(c, upgrade);
      !after.working && !after.interrupted <==> Ended(c.messages, c.generation) && (upgrade || !c.interrupted)
  {
  }

  /** Which children of a conversation keep their turn over an upgrade, and that no other boot keeps one. */
  lemma BootOfChild(c: Conversation)
    requires c.child && c.working
    ensures AfterBoot(c, false) == c.(working := false, interrupted := false)
    ensures AfterBoot(c, true)
         == c.(working := !c.managed && !Ended(c.messages, c.generation), interrupted := false)
  {
  }

  /** A boot leaves alone what was idle. */
  lemma BootOfIdle(c: Conversation, upgrade: bool)
    requires !c.working
    ensures AfterBoot(c, upgrade) == c
  {
  }

  /** A claim excludes every other until it is finished. */
  lemma ClaimExcludes(id: Id, c: Conversation, token: Token, other: Token)
    requires CanClaim(token, id, c)
    ensures var claimed := Happen(id, c, Claim(token));
      claimed.working && claimed.interrupted && !CanClaim(other, id, claimed)
      && Happen(id, claimed, Finish) == c
  {
  }

  /** In every run a queued message stays queued until it is recorded, once, or cancelled; boots change nothing in the queue. */
  lemma QueueConserved(run: seq<Action>, id: Id)
    requires id in Exec(Init, run).table
    ensures LineOk(WorkOf(Exec(Init, run), id).line)
    ensures WorkOf(Exec(Init, run + [Boot]), id).line == WorkOf(Exec(Init, run), id).line
  {
    RowReachable(run, id);
    ExecSnoc(Init, run, Boot);
  }

  /** An ordinary boot leaves nothing working, and every top-level turn under way marked. */
  lemma OrdinaryBoot(run: seq<Action>, id: Id)
    requires !Exec(Init, run).marker && id in Exec(Init, run).table
    ensures var s := Exec(Init, run + [Boot]); id in s.table && !s.table[id].working && s.tokens == {}
    ensures Begun(Exec(Init, run), id) ==> Exec(Init, run + [Boot]).table[id].interrupted
  {
    ExecSnoc(Init, run, Boot);
    RowReachable(run, id);
  }

  lemma {:induction false} LastUserIsMax(ms: seq<Message>)
    requires Sorted(ms)
    ensures LastUser(ms) == MaxUser(ms)
    ensures ms != [] ==> MaxUser(ms) <= ms[|ms| - 1].sequence
    decreases |ms|
  {
    if ms != [] {
      LastUserIsMax(ms[..|ms| - 1]);
      assert |ms| > 1 ==> ms[|ms| - 2].sequence < ms[|ms| - 1].sequence;
    }
  }

  /** An upgrade boot keeps a working turn under way going, clears its claim, and returns a token that claims it. */
  lemma UpgradeBoot(run: seq<Action>, id: Id)
    requires var s := Exec(Init, run); s.marker && Begun(s, id) && s.table[id].working
    ensures var s, t := Exec(Init, run + [Boot]), Exec(Init, run).table;
      && id in s.table && s.table[id].working && !s.table[id].interrupted
      && TokenOf(id, t[id]) in s.tokens && CanClaim(TokenOf(id, t[id]), id, s.table[id])
  {
    ExecSnoc(Init, run, Boot);
    RowReachable(run, id);
    var c := Exec(Init, run).table[id];
    assert Resumes(c);
    LastUserIsMax(c.messages);
  }

  /** Every token of a boot names a turn that boot left working. */
  lemma TokensNameWork(run: seq<Action>, token: Token)
    requires Exec(Init, run).marker && token in Exec(Init, run + [Boot]).tokens
    ensures var s := Exec(Init, run + [Boot]);
      token.id in s.table && CanClaim(token, token.id, s.table[token.id])
  {
    ExecSnoc(Init, run, Boot);
    var t := Exec(Init, run).table;
    var id :| id in t && Resumes(t[id]) && token == TokenOf(id, t[id]);
    RowReachable(run, id);
    LastUserIsMax(t[id].messages);
  }

  /** The marker serves one boot: a crash after it is an ordinary interruption. */
  lemma MarkerServesOnce(run: seq<Action>, id: Id)
    requires Begun(Exec(Init, run), id)
    ensures var s := Exec(Init, run + [Boot] + [Boot]);
      !s.marker && s.tokens == {} && id in s.table && !s.table[id].working && s.table[id].interrupted
  {
    ExecSnoc(Init, run, Boot);
    OrdinaryBoot(run + [Boot], id);
    ExecSnoc(Init, run + [Boot], Boot);
  }

  /** A user message recorded since outdates the token: it can no longer claim the turn. */
  lemma NewWorkOutdates(id: Id, c: Conversation, token: Token, m: Message, next: Conversation)
    requires Sorted(c.messages) && Names(token, id, c) && NextUser(c, m)
    requires next.generation == c.generation && next.messages == c.messages + [m]
    ensures !CanClaim(token, id, next)
  {
    assert next.messages[..|c.messages|] == c.messages;
    LastUserIsMax(c.messages);
  }

  lemma ContinueSnoc(run: seq<Action>, id: Id)
    requires var s := Exec(Init, run); Begun(s, id) && s.table[id].interrupted && !s.table[id].working
    ensures var s, t := Exec(Init, run), Exec(Init, run + [On(id, Continue)]);
      && id in t.table && t.table[id] == s.table[id].(working := true, interrupted := false)
      && WorkOf(t, id) == WorkOf(s, id).(live := true)
  {
    ExecSnoc(Init, run, On(id, Continue));
  }

  /**
   * A turn under way that an ordinary boot interrupted works again once it is
   * continued, with all its messages still to answer; continued again, nothing changes.
   */
  lemma InterruptedIsContinued(run: seq<Action>, id: Id)
    requires Begun(Exec(Init, run), id) && !Exec(Init, run).marker
    ensures var s, t := Exec(Init, run), Exec(Init, run + [Boot] + [On(id, Continue)]);
      && id in t.table && t.table[id] == s.table[id].(working := true, interrupted := false)
      && WorkOf(t, id) == WorkOf(s, id).(live := true)
      && Act(t, On(id, Continue)).table == t.table
  {
    OrdinaryBoot(run, id);
    ExecSnoc(Init, run, Boot);
    ContinueSnoc(run + [Boot], id);
  }

  /**
   * A turn that an upgrade boot resumes and that cannot be claimed after all is
   * marked by its token, and is then continued like any interrupted turn.
   */
  lemma GivenUpIsContinued(run: seq<Action>, id: Id)
    requires var s := Exec(Init, run); s.marker && Begun(s, id) && s.table[id].working
    ensures var c := Exec(Init, run).table[id];
      var marked := run + [Boot] + [On(id, MarkInterrupted(TokenOf(id, c)))];
      && id in Exec(Init, marked).table && Exec(Init, marked).table[id] == c.(working := false, interrupted := true)
      && var t := Exec(Init, marked + [On(id, Continue)]);
        id in t.table && t.table[id] == c.(working := true, interrupted := false)
        && WorkOf(t, id) == WorkOf(Exec(Init, run), id).(live := true)
  {
    var c := Exec(Init, run).table[id];
    UpgradeBoot(run, id);
    ExecSnoc(Init, run, Boot);
    var mark := On(id, MarkInterrupted(TokenOf(id, c)));
    ExecSnoc(Init, run + [Boot], mark);
    ContinueSnoc(run + [Boot] + [mark], id);
  }
}

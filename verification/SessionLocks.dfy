/** Mutual exclusion and freedom from circular waits in every reachable session state. */
module SessionLocks {
  import opened Session

  /** The mutexes a thread has locked and not yet unlocked, read off its program counter. */
  ghost function Holds(s: State, t: Tid): set<Lock>
  {
    match t
    case Pump => PumpHolds(s.pump)
    case Main => MainHolds(s.main)
    case Serve(c) => if c in s.serve then ServeHolds(c, s.serve[c]) else {}
  }

  ghost function PumpHolds(pc: PumpPc): set<Lock>
  {
    match pc
    case PAppend(_, _) => {SessionMu, RingMu}
    case PRing(_, _) => {SessionMu}
    case PCopy(_, _) => {SessionMu}
    case PDrop(_, _, _, _) => {SessionMu}
    case PWrite(_, _, _, c) => {SendMu(c)}
    case _ => {}
  }

  ghost function MainHolds(pc: MainPc): set<Lock>
  {
    match pc
    case MSet(_) => {SessionMu}
    case MWrite(_, _, c) => {SendMu(c)}
    case _ => {}
  }

  ghost function ServeHolds(c: Cid, pc: ServePc): set<Lock>
  {
    match pc
    case SLock => {SendMu(c)}
    case SRing => {SendMu(c), SessionMu}
    case STake => {SendMu(c), SessionMu, RingMu}
    case SJoin(_) => {SendMu(c), SessionMu}
    case SSnap(_, _, _) => {SendMu(c)}
    case SExit(_) => {SendMu(c)}
    case SFailDrop => {SessionMu}
    case SLeaveDrop => {SessionMu}
    case _ => {}
  }

  datatype Wanted = Nothing | Wants(l: Lock)

  /** The mutex a thread's next statement locks, if that is a Lock call. */
  ghost function Awaits(s: State, t: Tid): Wanted
  {
    var op := match t
      case Pump => PumpOp(s.pump)
      case Main => MainOp(s.main)
      case Serve(c) => if c in s.serve then ServeOp(c, s.serve[c]) else Keep;
    if op.Take? then Wants(op.l) else Nothing
  }

  /** A mutex is locked exactly when one thread's program counter says so. */
  ghost predicate LocksOk(s: State)
  {
    && (forall t, l :: l in Holds(s, t) ==> l in s.locks && s.locks[l] == t)
    && (forall l :: l in s.locks ==> l in Holds(s, s.locks[l]))
  }

  /** Does a program counter move keep the held set in step with the mutex operation? */
  ghost predicate Tracks(h: set<Lock>, op: Op, h': set<Lock>)
  {
    match op
    case Keep => h' == h
    case Take(l) => h' == h + {l}
    case Free(l) => l in h && h' == h - {l}
  }

  lemma PumpTracks(pc: PumpPc, w: World, ch: Choice)
    ensures Tracks(PumpHolds(pc), PumpOp(pc), PumpHolds(PumpNext(pc, w, ch)))
  {
  }

  lemma MainTracks(pc: MainPc, w: World, pumpDone: bool, ch: Choice)
    ensures Tracks(MainHolds(pc), MainOp(pc), MainHolds(MainNext(pc, w, pumpDone, ch)))
  {
  }

  lemma ServeTracks(c: Cid, pc: ServePc, w: World, ch: Choice)
    ensures Tracks(ServeHolds(c, pc), ServeOp(c, pc), ServeHolds(c, ServeNext(c, pc, w, ch)))
  {
  }

  lemma LockStepKeeps(s: State, s': State, me: Tid, op: Op)
    requires LocksOk(s) && !Blocked(s.locks, op)
    requires s'.locks == Locked(s.locks, op, me)
    requires Tracks(Holds(s, me), op, Holds(s', me))
    requires forall t :: t != me ==> Holds(s', t) == Holds(s, t)
    ensures LocksOk(s')
  {
    forall t, k | k in Holds(s', t) ensures k in s'.locks && s'.locks[k] == t {
      if op == Take(k) && t == me {
      } else {
        assert k in Holds(s, t);
        assert k in s.locks && s.locks[k] == t;
        match op
        case Keep =>
        case Take(l) => assert k != l;
        case Free(l) => assert l in Holds(s, me);
      }
    }
    forall k | k in s'.locks ensures k in Holds(s', s'.locks[k]) {
      if k in s.locks { assert k in Holds(s, s.locks[k]); }
    }
  }

  lemma StepKeepsLocks(s: State, a: Action)
    requires LocksOk(s)
    ensures LocksOk(Step(s, a))
  {
    var s' := Step(s, a);
    match a {
      case Accept(c) => LockStepKeeps(s, s', Serve(c), Keep);
      case Run(Pump, ch) =>
        PumpTracks(s.pump, s.w, ch);
        if s' != s { LockStepKeeps(s, s', Pump, PumpOp(s.pump)); }
      case Run(Main, ch) =>
        MainTracks(s.main, s.w, s.pump.Ended?, ch);
        if s' != s { LockStepKeeps(s, s', Main, MainOp(s.main)); }
      case Run(Serve(c), ch) =>
        if s' != s {
          ServeTracks(c, s.serve[c], s.w, ch);
          LockStepKeeps(s, s', Serve(c), ServeOp(c, s.serve[c]));
        }
    }
  }

  lemma {:induction false} ReachableLocks(capacity: nat, run: seq<Action>)
    ensures LocksOk(Exec(Init(capacity), run))
  {
    if run != [] {
      ReachableLocks(capacity, run[..|run| - 1]);
      StepKeepsLocks(Exec(Init(capacity), run[..|run| - 1]), run[|run| - 1]);
    } else {
      forall t ensures Holds(Init(capacity), t) == {} {}
    }
  }

  /** t's next statement is a Lock call on a mutex that u holds. */
  ghost predicate WaitsFor(s: State, t: Tid, u: Tid)
  {
    var w := Awaits(s, t);
    w.Wants? && w.l in s.locks && s.locks[w.l] == u
  }

  ghost predicate CircularWait(s: State, ts: seq<Tid>)
  {
    ts != [] && forall i :: 0 <= i < |ts| ==> WaitsFor(s, ts[i], ts[if i + 1 < |ts| then i + 1 else 0])
  }

  /** The lock order: a client's send mutex, then the session's, then the ring's. */
  ghost function Rank(l: Lock): nat
  {
    match l case SendMu(_) => 0 case SessionMu => 1 case RingMu => 2
  }

  lemma WaitsUpTheOrder(s: State, t: Tid, u: Tid)
    requires LocksOk(s) && WaitsFor(s, t, u) && Awaits(s, u).Wants?
    ensures Rank(Awaits(s, t).l) < Rank(Awaits(s, u).l)
  {
    assert Awaits(s, t).l in Holds(s, u);
  }

  lemma {:induction false} WaitChainClimbs(s: State, ts: seq<Tid>, i: nat)
    requires LocksOk(s) && CircularWait(s, ts) && i < |ts|
    ensures Awaits(s, ts[i]).Wants? && Awaits(s, ts[0]).Wants?
    ensures Rank(Awaits(s, ts[i]).l) >= Rank(Awaits(s, ts[0]).l) + i
  {
    assert WaitsFor(s, ts[i], ts[if i + 1 < |ts| then i + 1 else 0]);
    if i > 0 {
      WaitChainClimbs(s, ts, i - 1);
      assert WaitsFor(s, ts[i - 1], ts[i]);
      WaitsUpTheOrder(s, ts[i - 1], ts[i]);
    }
  }

  /** No interleaving of pump, joins, failures, drops and shutdown reaches a circular wait. */
  lemma NoCircularWait(capacity: nat, run: seq<Action>, ts: seq<Tid>)
    ensures !CircularWait(Exec(Init(capacity), run), ts)
  {
    var s := Exec(Init(capacity), run);
    ReachableLocks(capacity, run);
    if CircularWait(s, ts) {
      var n := |ts| - 1;
      WaitChainClimbs(s, ts, n);
      assert WaitsFor(s, ts[n], ts[0]) && WaitsFor(s, ts[0], ts[if 1 < |ts| then 1 else 0]);
      WaitsUpTheOrder(s, ts[n], ts[0]);
    }
  }

  ghost predicate Stuck(s: State, t: Tid) { exists u :: WaitsFor(s, t, u) }

  /** Whenever a thread is kept waiting, some thread that holds a mutex is free to run. */
  lemma SomeHolderRuns(capacity: nat, run: seq<Action>, t: Tid) returns (r: Tid)
    requires Stuck(Exec(Init(capacity), run), t)
    ensures var s := Exec(Init(capacity), run); Holds(s, r) != {} && !Stuck(s, r)
  {
    var s := Exec(Init(capacity), run);
    ReachableLocks(capacity, run);
    r :| WaitsFor(s, t, r);
    assert Awaits(s, t).l in Holds(s, r);
    while Stuck(s, r)
      invariant Holds(s, r) != {}
      decreases if Awaits(s, r).Wants? then 2 - Rank(Awaits(s, r).l) else 0
    {
      var u :| WaitsFor(s, r, u);
      assert Awaits(s, r).l in Holds(s, u);
      if Stuck(s, u) { WaitsUpTheOrder(s, r, u); } else { return u; }
      r := u;
    }
  }
}

/**
 * dtach/server.go as a transition system.  Each thread is a program counter.
 * From a program counter, a step does the work up to the next mutex operation
 * (which the mutexes already held make atomic), performs that operation and
 * moves on.  A thread whose mutex is taken, or whose choice is not on offer,
 * stutters.
 */
module Session {
  import opened Bytes
  import opened Wire

  const PumpBuffer: nat := 32 * 1024

  type Cid = nat
  datatype Tid = Pump | Main | Serve(c: Cid)
  datatype Lock = SendMu(c: Cid) | SessionMu | RingMu

  /** Live until a write fails, dropClient closes it, or the exit path closes it. */
  datatype Status = Live | Failed | Dropped | Finished
  datatype Conn = Conn(sent: seq<Frame>, status: Status)

  datatype PumpPc =
    | Reading
    | PLock(chunk: seq<byte>, last: bool)
    | PRing(chunk: seq<byte>, last: bool)                         // holds session
    | PAppend(chunk: seq<byte>, last: bool)                       // holds session, ring
    | PCopy(chunk: seq<byte>, last: bool)                         // holds session
    | PSend(chunk: seq<byte>, last: bool, todo: set<Cid>)
    | PSendLock(chunk: seq<byte>, last: bool, todo: set<Cid>, c: Cid)
    | PWrite(chunk: seq<byte>, last: bool, todo: set<Cid>, c: Cid)    // holds send(c)
    | PDropLock(chunk: seq<byte>, last: bool, todo: set<Cid>, c: Cid)
    | PDrop(chunk: seq<byte>, last: bool, todo: set<Cid>, c: Cid)     // holds session
    | Ended

  datatype MainPc =
    | MWait
    | MLock(code: int)
    | MSet(code: int)                                             // holds session
    | MSend(code: int, todo: set<Cid>)
    | MSendLock(code: int, todo: set<Cid>, c: Cid)
    | MWrite(code: int, todo: set<Cid>, c: Cid)                   // holds send(c)
    | MClose(code: int, todo: set<Cid>, c: Cid)
    | MDone

  datatype ServePc =
    | Arrived
    | SLock                                                       // holds send
    | SRing                                                       // holds send, session
    | STake                                                       // holds send, session, ring
    | SJoin(snap: seq<byte>)                                      // holds send, session
    | SSnap(snap: seq<byte>, exited: bool, code: int)             // holds send
    | SFail
    | SFailDrop                                                   // holds session
    | SFailClose
    | SExitLock(code: int)
    | SExit(code: int)                                            // holds send
    | SExitClose
    | Serving
    | SLeave
    | SLeaveDrop                                                  // holds session
    | SDone

  /** What the threads share. */
  datatype World = World(
    capacity: nat,
    ring: seq<byte>,
    clients: set<Cid>,
    exited: bool,
    exitCode: int,
    conns: map<Cid, Conn>,
    chunks: seq<seq<byte>>,    // history: every chunk appended so far
    joinedAt: map<Cid, nat>)   // history: how many chunks there were when a client joined

  datatype State = State(w: World, locks: map<Lock, Tid>, pump: PumpPc, main: MainPc, serve: map<Cid, ServePc>)

  function Init(capacity: nat): State
  {
    State(World(capacity, [], {}, false, 0, map[], [], map[]), map[], Reading, MWait, map[])
  }

  /** What the environment decides: the next read, the map order, whether a write gets through, ... */
  datatype Choice = Choice(chunk: seq<byte>, eof: bool, pick: Cid, ok: bool, leave: bool, code: int)
  datatype Action = Accept(c: Cid) | Run(t: Tid, ch: Choice)

  function ConnOf(w: World, c: Cid): Conn
  {
    if c in w.conns then w.conns[c] else Conn([], Dropped)
  }

  /** Does WriteFrame succeed?  An oversized frame is refused before the wire is touched. */
  predicate WriteOk(k: Conn, f: Frame, ok: bool)
  {
    |f.payload| <= MaxPayload && k.status.Live? && ok
  }

  function WriteTo(w: World, c: Cid, f: Frame, ok: bool): (r: World)
    ensures r.capacity == w.capacity
  {
    var k := ConnOf(w, c);
    if |f.payload| > MaxPayload then w
    else if WriteOk(k, f, ok) then w.(conns := w.conns[c := Conn(k.sent + [f], Live)])
    else Close(w, c, Failed)
  }

  function Close(w: World, c: Cid, how: Status): (r: World)
    ensures r.capacity == w.capacity
  {
    var k := ConnOf(w, c);
    if k.status.Live? then w.(conns := w.conns[c := Conn(k.sent, how)]) else w
  }

  function DropClient(w: World, c: Cid): (r: World)
    ensures r.capacity == w.capacity
  {
    if c in w.clients then Close(w, c, Dropped).(clients := w.clients - {c}) else w
  }

  function SnapshotFrame(data: seq<byte>): Frame { Frame(MsgSnapshot, data) }
  function OutputFrame(data: seq<byte>): Frame { Frame(MsgOutput, data) }
  function ExitFrame(code: int): Frame { Frame(MsgExit, EncodeExit(if Int32(code) then code else 0)) }

  /** The mutex operation that ends the step from a program counter. */
  datatype Op = Keep | Take(l: Lock) | Free(l: Lock)

  // pumpPTY

  function PumpOp(pc: PumpPc): Op
  {
    match pc
    case PLock(_, _) => Take(SessionMu)
    case PRing(_, _) => Take(RingMu)
    case PAppend(_, _) => Free(RingMu)
    case PCopy(_, _) => Free(SessionMu)
    case PSendLock(_, _, _, c) => Take(SendMu(c))
    case PWrite(_, _, _, c) => Free(SendMu(c))
    case PDropLock(_, _, _, _) => Take(SessionMu)
    case PDrop(_, _, _, _) => Free(SessionMu)
    case _ => Keep
  }

  function PumpWork(pc: PumpPc, w: World, ch: Choice): (r: World)
    ensures r.capacity == w.capacity
  {
    match pc
    case PAppend(chunk, _) => w.(ring := LastN(w.capacity, w.ring + chunk), chunks := w.chunks + [chunk])
    case PWrite(chunk, _, _, c) => WriteTo(w, c, OutputFrame(chunk), ch.ok)
    case PDrop(_, _, _, c) => DropClient(w, c)
    case _ => w
  }

  function PumpNext(pc: PumpPc, w: World, ch: Choice): PumpPc
  {
    match pc
    case Reading => if 0 < |ch.chunk| <= PumpBuffer then PLock(ch.chunk, ch.eof) else if ch.eof then Ended else Reading
    case PLock(chunk, last) => PRing(chunk, last)
    case PRing(chunk, last) => PAppend(chunk, last)
    case PAppend(chunk, last) => PCopy(chunk, last)
    case PCopy(chunk, last) => PSend(chunk, last, w.clients)
    case PSend(chunk, last, todo) =>
      if todo == {} then if last then Ended else Reading
      else if ch.pick in todo then PSendLock(chunk, last, todo - {ch.pick}, ch.pick) else pc
    case PSendLock(chunk, last, todo, c) => PWrite(chunk, last, todo, c)
    case PWrite(chunk, last, todo, c) =>
      if WriteOk(ConnOf(w, c), OutputFrame(chunk), ch.ok) then PSend(chunk, last, todo) else PDropLock(chunk, last, todo, c)
    case PDropLock(chunk, last, todo, c) => PDrop(chunk, last, todo, c)
    case PDrop(chunk, last, todo, c) => PSend(chunk, last, todo)
    case Ended => Ended
  }

  // Serve once the pump has drained the PTY: shutdown

  function MainOp(pc: MainPc): Op
  {
    match pc
    case MLock(_) => Take(SessionMu)
    case MSet(_) => Free(SessionMu)
    case MSendLock(_, _, c) => Take(SendMu(c))
    case MWrite(_, _, c) => Free(SendMu(c))
    case _ => Keep
  }

  function MainWork(pc: MainPc, w: World, ch: Choice): (r: World)
    ensures r.capacity == w.capacity
  {
    match pc
    case MSet(code) => w.(exited := true, exitCode := code)
    case MWrite(code, _, c) => WriteTo(w, c, ExitFrame(code), ch.ok)
    case MClose(_, _, c) => Close(w, c, Finished)
    case _ => w
  }

  function MainNext(pc: MainPc, w: World, pumpDone: bool, ch: Choice): MainPc
  {
    match pc
    case MWait => if pumpDone && Int32(ch.code) then MLock(ch.code) else MWait
    case MLock(code) => MSet(code)
    case MSet(code) => MSend(code, w.clients)
    case MSend(code, todo) =>
      if todo == {} then MDone else if ch.pick in todo then MSendLock(code, todo - {ch.pick}, ch.pick) else pc
    case MSendLock(code, todo, c) => MWrite(code, todo, c)
    case MWrite(code, todo, c) => MClose(code, todo, c)
    case MClose(code, todo, _) => MSend(code, todo)
    case MDone => MDone
  }

  // serveClient

  function ServeOp(c: Cid, pc: ServePc): Op
  {
    match pc
    case Arrived => Take(SendMu(c))
    case SLock => Take(SessionMu)
    case SRing => Take(RingMu)
    case STake => Free(RingMu)
    case SJoin(_) => Free(SessionMu)
    case SSnap(_, _, _) => Free(SendMu(c))
    case SFail => Take(SessionMu)
    case SFailDrop => Free(SessionMu)
    case SExitLock(_) => Take(SendMu(c))
    case SExit(_) => Free(SendMu(c))
    case SLeave => Take(SessionMu)
    case SLeaveDrop => Free(SessionMu)
    case _ => Keep
  }

  function ServeWork(c: Cid, pc: ServePc, w: World, ch: Choice): (r: World)
    ensures r.capacity == w.capacity
  {
    match pc
    case SJoin(_) =>
      w.(clients := if w.exited then w.clients else w.clients + {c}, joinedAt := w.joinedAt[c := |w.chunks|])
    case SSnap(snap, _, _) => WriteTo(w, c, SnapshotFrame(snap), ch.ok)
    case SFailDrop => DropClient(w, c)
    case SFailClose => Close(w, c, Dropped)
    case SExit(code) => WriteTo(w, c, ExitFrame(code), ch.ok)
    case SExitClose => Close(w, c, Finished)
    case SLeaveDrop => DropClient(w, c)
    case _ => w
  }

  function ServeNext(c: Cid, pc: ServePc, w: World, ch: Choice): ServePc
  {
    match pc
    case Arrived => SLock
    case SLock => SRing
    case SRing => STake
    case STake => SJoin(w.ring)
    case SJoin(snap) => SSnap(snap, w.exited, w.exitCode)
    case SSnap(snap, exited, code) =>
      if !WriteOk(ConnOf(w, c), SnapshotFrame(snap), ch.ok) then SFail else if exited then SExitLock(code) else Serving
    case SFail => SFailDrop
    case SFailDrop => SFailClose
    case SFailClose => SDone
    case SExitLock(code) => SExit(code)
    case SExit(_) => SExitClose
    case SExitClose => SDone
    case Serving => if ch.leave then SLeave else Serving
    case SLeave => SLeaveDrop
    case SLeaveDrop => SDone
    case SDone => SDone
  }

  // Scheduling

  predicate Blocked(locks: map<Lock, Tid>, op: Op) { op.Take? && op.l in locks }

  function Locked(locks: map<Lock, Tid>, op: Op, t: Tid): map<Lock, Tid>
  {
    match op case Keep => locks case Take(l) => locks[l := t] case Free(l) => locks - {l}
  }

  function StepPump(s: State, ch: Choice): State
  {
    var op := PumpOp(s.pump);
    if Blocked(s.locks, op) then s
    else s.(w := PumpWork(s.pump, s.w, ch), locks := Locked(s.locks, op, Pump), pump := PumpNext(s.pump, s.w, ch))
  }

  function StepMain(s: State, ch: Choice): State
  {
    var op := MainOp(s.main);
    if Blocked(s.locks, op) then s
    else s.(w := MainWork(s.main, s.w, ch), locks := Locked(s.locks, op, Main),
            main := MainNext(s.main, s.w, s.pump.Ended?, ch))
  }

  function StepServe(s: State, c: Cid, ch: Choice): State
  {
    if c !in s.serve then s
    else
      var pc := s.serve[c];
      var op := ServeOp(c, pc);
      if Blocked(s.locks, op) then s
      else s.(w := ServeWork(c, pc, s.w, ch), locks := Locked(s.locks, op, Serve(c)),
              serve := s.serve[c := ServeNext(c, pc, s.w, ch)])
  }

  /** The accept loop hands a new connection to its own serveClient goroutine. */
  function StepAccept(s: State, c: Cid): State
  {
    if c in s.serve then s
    else s.(w := s.w.(conns := s.w.conns[c := Conn([], Live)]), serve := s.serve[c := Arrived])
  }

  function Step(s: State, a: Action): State
  {
    match a
    case Accept(c) => StepAccept(s, c)
    case Run(Pump, ch) => StepPump(s, ch)
    case Run(Main, ch) => StepMain(s, ch)
    case Run(Serve(c), ch) => StepServe(s, c, ch)
  }

  function Exec(s: State, run: seq<Action>): State
  {
    if run == [] then s else Step(Exec(s, run[..|run| - 1]), run[|run| - 1])
  }

  lemma {:induction false} ExecConcat(s: State, a: seq<Action>, b: seq<Action>)
    ensures Exec(s, a + b) == Exec(Exec(s, a), b)
  {
    if b == [] {
      assert a + b == a;
    } else {
      ExecConcat(s, a, b[..|b| - 1]);
      assert (a + b)[..|a + b| - 1] == a + b[..|b| - 1];
    }
  }
}

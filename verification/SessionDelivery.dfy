/**
 * What a client of a session is sent, in every interleaving: its snapshot, then
 * every chunk read since exactly once and in order, then the exit frame.
 */
module SessionDelivery {
  import opened Bytes
  import opened Wire
  import opened Session
  import opened SessionLocks

  // The ideal stream of a client

  ghost function Outputs(chunks: seq<seq<byte>>): (fs: seq<Frame>)
    ensures |fs| == |chunks|
  {
    seq(|chunks|, i requires 0 <= i < |chunks| => OutputFrame(chunks[i]))
  }

  /** The scrollback when c joined: the last `capacity` bytes of output until then. */
  ghost function JoinSnapshot(w: World, c: Cid): seq<byte>
    requires c in w.joinedAt && w.joinedAt[c] <= |w.chunks|
  {
    LastN(w.capacity, Flatten(w.chunks[..w.joinedAt[c]]))
  }

  ghost function Stream(w: World, c: Cid, n: nat, exit: bool): seq<Frame>
    requires c in w.joinedAt && w.joinedAt[c] <= n <= |w.chunks|
  {
    [SnapshotFrame(JoinSnapshot(w, c))] + Outputs(w.chunks[w.joinedAt[c]..n])
    + if exit then [ExitFrame(w.exitCode)] else []
  }

  lemma StreamExtends(w: World, c: Cid, n: nat)
    requires c in w.joinedAt && w.joinedAt[c] <= n < |w.chunks|
    ensures Stream(w, c, n + 1, false) == Stream(w, c, n, false) + [OutputFrame(w.chunks[n])]
  {
    var j := w.joinedAt[c];
    assert w.chunks[j..n + 1] == w.chunks[j..n] + [w.chunks[n]];
    assert Outputs(w.chunks[j..n + 1]) == Outputs(w.chunks[j..n]) + [OutputFrame(w.chunks[n])];
  }

  lemma StreamPrefix(w: World, c: Cid, n: nat, exit: bool)
    requires c in w.joinedAt && w.joinedAt[c] <= n <= |w.chunks| <= n + 1
    ensures Stream(w, c, n, false) <= Stream(w, c, |w.chunks|, exit)
  {
    if n < |w.chunks| { StreamExtends(w, c, n); }
    assert Stream(w, c, |w.chunks|, false) <= Stream(w, c, |w.chunks|, true);
  }

  lemma StreamStable(w: World, w': World, c: Cid, n: nat, exit: bool)
    requires c in w.joinedAt && w.joinedAt[c] <= n <= |w.chunks|
    requires w.chunks <= w'.chunks && w'.capacity == w.capacity
    requires c in w'.joinedAt && w'.joinedAt[c] == w.joinedAt[c]
    requires exit ==> w'.exitCode == w.exitCode
    ensures Stream(w', c, n, exit) == Stream(w, c, n, exit)
  {
    assert w'.chunks[..w.joinedAt[c]] == w.chunks[..w.joinedAt[c]];
    assert w'.chunks[w.joinedAt[c]..n] == w.chunks[w.joinedAt[c]..n];
  }

  // The invariant

  /** The clients that have yet to be sent the latest chunk. */
  ghost function Owed(clients: set<Cid>, pc: PumpPc): set<Cid>
  {
    match pc
    case PCopy(_, _) => clients
    case PSend(_, _, todo) => todo
    case PSendLock(_, _, todo, c) => todo + {c}
    case PWrite(_, _, todo, c) => todo + {c}
    case PDropLock(_, _, todo, _) => todo
    case PDrop(_, _, todo, _) => todo
    case _ => {}
  }

  /** The clients that shutdown has yet to send the exit frame ... */
  ghost function ExitOwed(pc: MainPc): set<Cid>
  {
    match pc
    case MSend(_, todo) => todo
    case MSendLock(_, todo, c) => todo + {c}
    case MWrite(_, todo, c) => todo + {c}
    case MClose(_, todo, _) => todo
    case _ => {}
  }

  /** ... and the one it has sent to but not closed. */
  ghost predicate Closing(pc: MainPc, c: Cid) { pc.MClose? && pc.c == c }

  ghost predicate Broadcasting(pc: PumpPc)
  {
    pc.PCopy? || pc.PSend? || pc.PSendLock? || pc.PWrite? || pc.PDropLock? || pc.PDrop?
  }

  ghost predicate WorldOk(w: World)
  {
    && w.capacity <= MaxPayload
    && w.ring == LastN(w.capacity, Flatten(w.chunks))
    && w.clients <= w.joinedAt.Keys
    && (forall c :: c in w.joinedAt ==> w.joinedAt[c] <= |w.chunks|)
  }

  ghost predicate PumpOk(w: World, pc: PumpPc)
  {
    && (!pc.Reading? && !pc.Ended? ==> 0 < |pc.chunk| <= PumpBuffer)
    && (Broadcasting(pc) ==> w.chunks != [] && w.chunks[|w.chunks| - 1] == pc.chunk)
    && (pc.PSendLock? || pc.PWrite? ==> pc.c !in pc.todo)
    && (pc.PDropLock? || pc.PDrop? ==> pc.c in w.joinedAt && !ConnOf(w, pc.c).status.Live?)
    && (forall c :: c in Owed(w.clients, pc) ==> c in w.joinedAt && w.joinedAt[c] < |w.chunks|)
  }

  ghost predicate Announced(pc: MainPc) { !pc.MWait? && !pc.MLock? && !pc.MSet? }

  ghost predicate MainOk(w: World, pc: MainPc, pumpDone: bool)
  {
    && (!pc.MWait? ==> pumpDone)
    && (w.exited <==> Announced(pc))
    && (pc.MSend? || pc.MSendLock? || pc.MWrite? || pc.MClose? ==> w.exitCode == pc.code)
    && (pc.MSendLock? || pc.MWrite? || pc.MClose? ==> pc.c !in pc.todo && pc.c in w.joinedAt)
    && ExitOwed(pc) <= w.joinedAt.Keys
  }

  /** What is known of one client, given whether it is owed a chunk or an exit frame. */
  ghost predicate ClientOk(w: World, owed: bool, exitOwed: bool, closing: bool, c: Cid, pc: ServePc)
  {
    && c in w.conns
    && var k := w.conns[c];
      if pc.Arrived? || pc.SLock? || pc.SRing? || pc.STake? || pc.SJoin? then
        c !in w.joinedAt && k == Conn([], Live) && (pc.SJoin? ==> pc.snap == w.ring)
      else
        && c in w.joinedAt
        && w.joinedAt[c] + (if owed then 1 else 0) <= |w.chunks|
        && var n := |w.chunks| - if owed then 1 else 0;
          if pc.SSnap? then
            && k == Conn([], Live) && pc.snap == JoinSnapshot(w, c) && n == w.joinedAt[c]
            && (if pc.exited then w.exited && pc.code == w.exitCode && c !in w.clients && !exitOwed && !closing
                else c in w.clients && !closing && (w.exited ==> exitOwed))
          else
            && (Late(pc) ==> w.exited && c !in w.clients && !exitOwed && !closing && (pc.SExitClose? || pc.code == w.exitCode))
            && match k.status
            case Live => LiveOk(w, n, exitOwed, closing, c, pc)
            case Finished => w.exited && k.sent == Stream(w, c, |w.chunks|, true)
            case _ => k.sent <= Stream(w, c, |w.chunks|, w.exited)
  }

  /** A client that found the session already exited. */
  ghost predicate Late(pc: ServePc) { pc.SExitLock? || pc.SExit? || pc.SExitClose? }

  ghost predicate LiveOk(w: World, n: nat, exitOwed: bool, closing: bool, c: Cid, pc: ServePc)
    requires c in w.conns && c in w.joinedAt && w.joinedAt[c] <= n <= |w.chunks|
  {
    if Late(pc) then w.conns[c].sent == Stream(w, c, n, pc.SExitClose?)
    else
      && (pc.Serving? || pc.SLeave? || pc.SLeaveDrop?)
      && c in w.clients && (w.exited ==> exitOwed || closing)
      && w.conns[c].sent == Stream(w, c, n, closing)
  }

  ghost predicate ClientOkIn(s: State, c: Cid)
    requires c in s.serve
  {
    ClientOk(s.w, c in Owed(s.w.clients, s.pump), c in ExitOwed(s.main), Closing(s.main, c), c, s.serve[c])
  }

  ghost predicate Inv(s: State)
  {
    && LocksOk(s) && WorldOk(s.w) && PumpOk(s.w, s.pump) && MainOk(s.w, s.main, s.pump.Ended?)
    && s.w.joinedAt.Keys <= s.serve.Keys && s.serve.Keys == s.w.conns.Keys
    && forall c :: c in s.serve ==> ClientOkIn(s, c)
  }

  lemma Exclusive(s: State, t: Tid, u: Tid, l: Lock)
    requires LocksOk(s) && l in Holds(s, t) && l in Holds(s, u)
    ensures t == u
  {
    assert s.locks[l] == t;
    assert s.locks[l] == u;
  }

  // What each piece of work does to what is known of one client

  ghost predicate SameFor(w: World, w': World, c: Cid)
  {
    && w'.capacity == w.capacity && w'.chunks == w.chunks && w'.ring == w.ring
    && w'.exited == w.exited && w'.exitCode == w.exitCode
    && (c in w'.conns <==> c in w.conns) && (c in w.conns ==> w'.conns[c] == w.conns[c])
    && (c in w'.joinedAt <==> c in w.joinedAt) && (c in w.joinedAt ==> w'.joinedAt[c] == w.joinedAt[c])
    && (c in w'.clients <==> c in w.clients)
  }

  lemma FrameClient(w: World, w': World, owed: bool, exitOwed: bool, closing: bool, c: Cid, pc: ServePc)
    requires ClientOk(w, owed, exitOwed, closing, c, pc) && SameFor(w, w', c)
    ensures ClientOk(w', owed, exitOwed, closing, c, pc)
  {
    if c in w.joinedAt {
      var n := |w.chunks| - if owed then 1 else 0;
      if !pc.SSnap? {
        if w.joinedAt[c] <= n { StreamStable(w, w', c, n, false); StreamStable(w, w', c, n, true); }
        StreamStable(w, w', c, |w.chunks|, w.exited);
        StreamStable(w, w', c, |w.chunks|, true);
      }
    }
  }

  lemma CloseSame(w: World, d: Cid, c: Cid, how: Status)
    requires c != d
    ensures SameFor(w, Close(w, d, how), c)
  {
  }

  lemma WriteSame(w: World, d: Cid, c: Cid, f: Frame, ok: bool)
    requires c != d
    ensures SameFor(w, WriteTo(w, d, f, ok), c)
  {
    CloseSame(w, d, c, Failed);
  }

  lemma DropSame(w: World, d: Cid, c: Cid)
    requires c != d
    ensures SameFor(w, DropClient(w, d), c)
  {
    CloseSame(w, d, c, Dropped);
  }

  lemma AppendClient(w: World, w': World, c: Cid, pc: ServePc, chunk: seq<byte>)
    requires ClientOk(w, false, false, false, c, pc) && !pc.SJoin? && !w.exited
    requires w' == w.(chunks := w.chunks + [chunk], ring := w'.ring)
    ensures ClientOk(w', c in w.clients, false, false, c, pc)
  {
    if c in w.joinedAt {
      var n := |w.chunks|;
      StreamStable(w, w', c, n, false);
      StreamExtends(w', c, n);
      assert w'.chunks[..w.joinedAt[c]] == w.chunks[..w.joinedAt[c]];
    }
  }

  lemma OutputClient(w: World, c: Cid, pc: ServePc, chunk: seq<byte>, ok: bool)
    requires ClientOk(w, true, false, false, c, pc) && !pc.SSnap? && c in w.joinedAt && !w.exited
    requires w.chunks != [] && w.chunks[|w.chunks| - 1] == chunk && |chunk| <= PumpBuffer
    ensures ClientOk(WriteTo(w, c, OutputFrame(chunk), ok), false, false, false, c, pc)
    ensures !WriteOk(ConnOf(w, c), OutputFrame(chunk), ok) ==> !WriteTo(w, c, OutputFrame(chunk), ok).conns[c].status.Live?
  {
    var w' := WriteTo(w, c, OutputFrame(chunk), ok);
    var n := |w.chunks| - 1;
    StreamExtends(w, c, n);
    StreamStable(w, w', c, n, false);
    StreamStable(w, w', c, n + 1, false);
  }

  /** A dead connection owes its client nothing more, whoever drops it and wherever its thread goes. */
  lemma DeadClient(w: World, w': World, owed: bool, exitOwed: bool, closing: bool, c: Cid, pc: ServePc, pc': ServePc)
    requires ClientOk(w, owed, exitOwed, closing, c, pc) && c in w.joinedAt && !pc.SSnap?
    requires !w.conns[c].status.Live?
    requires w' == w.(clients := w'.clients, conns := w'.conns) && w'.clients <= w.clients
    requires c in w'.conns && w'.conns[c] == w.conns[c]
    requires pc' == pc || pc'.SFailDrop? || pc'.SFailClose? || pc'.SDone? || pc'.SLeave? || pc'.SLeaveDrop?
    ensures ClientOk(w', owed, exitOwed, closing, c, pc')
  {
    StreamStable(w, w', c, |w.chunks|, w.exited);
    StreamStable(w, w', c, |w.chunks|, true);
  }

  /** A client that leaves has had a prefix of its stream. */
  lemma LeaveClient(w: World, owed: bool, exitOwed: bool, closing: bool, c: Cid, pc: ServePc)
    requires ClientOk(w, owed, exitOwed, closing, c, pc) && pc.SLeaveDrop? && w.conns[c].status.Live?
    requires (closing ==> w.exited) && (w.exited ==> !owed)
    ensures ClientOk(DropClient(w, c), owed, exitOwed, closing, c, SDone)
  {
    StreamStable(w, DropClient(w, c), c, |w.chunks|, w.exited);
    StreamPrefix(w, c, |w.chunks| - if owed then 1 else 0, w.exited);
  }

  lemma AnnounceClient(w: World, c: Cid, pc: ServePc, code: int)
    requires ClientOk(w, false, false, false, c, pc) && !w.exited
    ensures ClientOk(w.(exited := true, exitCode := code), false, c in w.clients, false, c, pc)
  {
    var w' := w.(exited := true, exitCode := code);
    if c in w.joinedAt {
      StreamStable(w, w', c, |w.chunks|, false);
      StreamPrefix(w', c, |w.chunks|, true);
    }
  }

  lemma ExitClient(w: World, c: Cid, pc: ServePc, ok: bool)
    requires ClientOk(w, false, true, false, c, pc) && c in w.joinedAt && !pc.SSnap? && w.exited
    ensures ClientOk(WriteTo(w, c, ExitFrame(w.exitCode), ok), false, false, true, c, pc)
  {
    var w' := WriteTo(w, c, ExitFrame(w.exitCode), ok);
    StreamStable(w, w', c, |w.chunks|, false);
    StreamStable(w, w', c, |w.chunks|, true);
    StreamPrefix(w, c, |w.chunks|, true);
  }

  lemma CloseClient(w: World, c: Cid, pc: ServePc)
    requires ClientOk(w, false, false, true, c, pc) && c in w.joinedAt && w.exited
    ensures ClientOk(Close(w, c, Finished), false, false, false, c, pc)
  {
    var w' := Close(w, c, Finished);
    StreamStable(w, w', c, |w.chunks|, true);
  }

  lemma JoinClient(w: World, c: Cid, pc: ServePc, w': World)
    requires ClientOk(w, false, false, false, c, pc) && pc.SJoin? && WorldOk(w)
    requires w' == w.(clients := if w.exited then w.clients else w.clients + {c}, joinedAt := w.joinedAt[c := |w.chunks|])
    requires c !in w.clients
    ensures ClientOk(w', false, false, false, c, SSnap(pc.snap, w.exited, w.exitCode))
  {
    assert w'.chunks[..|w.chunks|] == w.chunks;
  }

  lemma SnapshotClient(w: World, owed: bool, exitOwed: bool, c: Cid, pc: ServePc, ch: Choice)
    requires ClientOk(w, owed, exitOwed, false, c, pc) && pc.SSnap? && WorldOk(w)
    ensures ClientOk(WriteTo(w, c, SnapshotFrame(pc.snap), ch.ok), owed, exitOwed, false, c, ServeNext(c, pc, w, ch))
  {
    var w' := WriteTo(w, c, SnapshotFrame(pc.snap), ch.ok);
    var n := |w.chunks| - if owed then 1 else 0;
    StreamStable(w, w', c, n, false);
    assert w.chunks[w.joinedAt[c]..n] == [];
    assert Stream(w, c, n, false) == [SnapshotFrame(pc.snap)];
  }

  lemma LateExitClient(w: World, c: Cid, pc: ServePc, ok: bool)
    requires ClientOk(w, false, false, false, c, pc) && pc.SExit?
    ensures ClientOk(WriteTo(w, c, ExitFrame(pc.code), ok), false, false, false, c, SExitClose)
  {
    var w' := WriteTo(w, c, ExitFrame(pc.code), ok);
    StreamStable(w, w', c, |w.chunks|, false);
    StreamStable(w, w', c, |w.chunks|, true);
    StreamPrefix(w, c, |w.chunks|, true);
  }

  lemma LateCloseClient(w: World, c: Cid, pc: ServePc)
    requires ClientOk(w, false, false, false, c, pc) && pc.SExitClose? && w.exited
    ensures ClientOk(Close(w, c, Finished), false, false, false, c, SDone)
  {
    StreamStable(w, Close(w, c, Finished), c, |w.chunks|, true);
  }

  // The pump keeps the invariant

  ghost predicate Works(pc: PumpPc) { pc.PAppend? || pc.PWrite? || pc.PDrop? }

  lemma OwedMoves(w: World, pc: PumpPc, ch: Choice)
    requires !Works(pc)
    ensures Owed(w.clients, PumpNext(pc, w, ch)) == Owed(w.clients, pc)
  {
  }

  lemma OwedWritten(w: World, clients: set<Cid>, pc: PumpPc, ch: Choice)
    requires PumpOk(w, pc) && pc.PWrite?
    ensures Owed(clients, PumpNext(pc, w, ch)) == Owed(clients, pc) - {pc.c}
  {
  }

  lemma PumpWriteClient(w: World, pump: PumpPc, ch: Choice, c: Cid, pc: ServePc)
    requires PumpOk(w, pump) && pump.PWrite? && !w.exited && (pump.c == c ==> !pc.SSnap?)
    requires ClientOk(w, c in Owed(w.clients, pump), false, false, c, pc)
    ensures ClientOk(PumpWork(pump, w, ch), c in Owed(w.clients, PumpNext(pump, w, ch)), false, false, c, pc)
  {
    OwedWritten(w, w.clients, pump, ch);
    if pump.c == c {
      OutputClient(w, c, pc, pump.chunk, ch.ok);
    } else {
      WriteSame(w, pump.c, c, OutputFrame(pump.chunk), ch.ok);
      FrameClient(w, PumpWork(pump, w, ch), c in Owed(w.clients, pump), false, false, c, pc);
    }
  }

  lemma PumpDropClient(w: World, pump: PumpPc, ch: Choice, c: Cid, pc: ServePc)
    requires PumpOk(w, pump) && pump.PDrop?
    requires ClientOk(w, c in pump.todo, false, false, c, pc)
    ensures ClientOk(PumpWork(pump, w, ch), c in pump.todo, false, false, c, pc)
  {
    var w' := DropClient(w, pump.c);
    if pump.c == c {
      assert w'.conns == w.conns;
      DeadClient(w, w', c in pump.todo, false, false, c, pc, pc);
    } else {
      DropSame(w, pump.c, c);
      FrameClient(w, w', c in pump.todo, false, false, c, pc);
    }
  }

  lemma PumpWorkClient(w: World, pump: PumpPc, ch: Choice, c: Cid, pc: ServePc, exitOwed: bool, closing: bool)
    requires PumpOk(w, pump) && ClientOk(w, c in Owed(w.clients, pump), exitOwed, closing, c, pc)
    requires Works(pump) ==> !w.exited && !exitOwed && !closing
    requires pump.PAppend? ==> !pc.SJoin?
    requires pump.PWrite? && pump.c == c ==> !pc.SSnap?
    ensures var w' := PumpWork(pump, w, ch);
      ClientOk(w', c in Owed(w'.clients, PumpNext(pump, w, ch)), exitOwed, closing, c, pc)
  {
    if pump.PAppend? {
      AppendClient(w, PumpWork(pump, w, ch), c, pc, pump.chunk);
    } else if pump.PWrite? {
      PumpWriteClient(w, pump, ch, c, pc);
    } else if pump.PDrop? {
      PumpDropClient(w, pump, ch, c, pc);
    } else {
      OwedMoves(w, pump, ch);
    }
  }

  lemma PumpKeepsClient(s: State, ch: Choice, c: Cid)
    requires Inv(s) && c in s.serve && !Blocked(s.locks, PumpOp(s.pump))
    ensures ClientOkIn(StepPump(s, ch), c)
  {
    assert ClientOkIn(s, c);
    if s.pump.PAppend? && s.serve[c].SJoin? { Exclusive(s, Pump, Serve(c), SessionMu); }
    if s.pump.PWrite? && s.pump.c == c && s.serve[c].SSnap? { Exclusive(s, Pump, Serve(c), SendMu(c)); }
    PumpWorkClient(s.w, s.pump, ch, c, s.serve[c], c in ExitOwed(s.main), Closing(s.main, c));
  }

  lemma PumpMovesOk(w: World, pc: PumpPc, ch: Choice)
    requires WorldOk(w) && PumpOk(w, pc) && !Works(pc)
    ensures PumpOk(w, PumpNext(pc, w, ch))
  {
    OwedMoves(w, pc, ch);
  }

  lemma PumpAppendOk(w: World, pc: PumpPc, ch: Choice)
    requires WorldOk(w) && PumpOk(w, pc) && pc.PAppend?
    ensures var w' := PumpWork(pc, w, ch); WorldOk(w') && PumpOk(w', PumpNext(pc, w, ch))
  {
    LastNAbsorbs(w.capacity, Flatten(w.chunks), pc.chunk);
    assert (w.chunks + [pc.chunk])[..|w.chunks|] == w.chunks;
  }

  lemma PumpWriteOk(w: World, pc: PumpPc, ch: Choice)
    requires WorldOk(w) && PumpOk(w, pc) && pc.PWrite? && pc.c in w.conns
    ensures var w' := PumpWork(pc, w, ch); WorldOk(w') && PumpOk(w', PumpNext(pc, w, ch))
  {
    OwedWritten(w, w.clients, pc, ch);
  }

  /** Dropping a client changes nothing but the clients and that client's connection. */
  lemma DropKeepsWorld(w: World, c: Cid)
    requires WorldOk(w)
    ensures var w' := DropClient(w, c);
      WorldOk(w') && w'.chunks == w.chunks && w'.joinedAt == w.joinedAt
  {
  }

  lemma DropDonePumpOk(w: World, w': World, pc: PumpPc, ch: Choice)
    requires PumpOk(w, pc) && pc.PDrop? && w'.chunks == w.chunks && w'.joinedAt == w.joinedAt
    ensures PumpOk(w', PumpNext(pc, w, ch))
  {
    assert Owed(w'.clients, PumpNext(pc, w, ch)) == Owed(w.clients, pc);
  }

  lemma PumpDropOk(w: World, pc: PumpPc, ch: Choice)
    requires WorldOk(w) && PumpOk(w, pc) && pc.PDrop?
    ensures var w' := PumpWork(pc, w, ch); WorldOk(w') && PumpOk(w', PumpNext(pc, w, ch))
  {
    DropKeepsWorld(w, pc.c);
    DropDonePumpOk(w, DropClient(w, pc.c), pc, ch);
  }

  lemma PumpKeepsInv(s: State, ch: Choice)
    requires Inv(s)
    ensures Inv(StepPump(s, ch))
  {
    var s' := StepPump(s, ch);
    if !Blocked(s.locks, PumpOp(s.pump)) {
      StepKeepsLocks(s, Run(Pump, ch));
      forall c | c in s'.serve ensures ClientOkIn(s', c) { PumpKeepsClient(s, ch, c); }
      if s.pump.PAppend? {
        PumpAppendOk(s.w, s.pump, ch);
      } else if s.pump.PWrite? {
        PumpWriteOk(s.w, s.pump, ch);
      } else if s.pump.PDrop? {
        PumpDropOk(s.w, s.pump, ch);
      } else {
        PumpMovesOk(s.w, s.pump, ch);
      }
    }
  }

  // Shutdown keeps the invariant

  lemma ExitOwedMoves(w: World, pc: MainPc, pumpDone: bool, ch: Choice)
    requires !pc.MSet? && !pc.MWrite? && !pc.MClose?
    ensures ExitOwed(MainNext(pc, w, pumpDone, ch)) == ExitOwed(pc)
  {
  }

  lemma MainWriteClient(w: World, main: MainPc, ch: Choice, c: Cid, pc: ServePc)
    requires MainOk(w, main, true) && main.MWrite? && (main.c == c ==> !pc.SSnap?)
    requires ClientOk(w, false, c in ExitOwed(main), false, c, pc)
    ensures ClientOk(MainWork(main, w, ch), false, c in main.todo, main.c == c, c, pc)
  {
    if main.c == c {
      ExitClient(w, c, pc, ch.ok);
    } else {
      WriteSame(w, main.c, c, ExitFrame(main.code), ch.ok);
      FrameClient(w, MainWork(main, w, ch), false, c in main.todo, false, c, pc);
    }
  }

  lemma MainCloseClient(w: World, main: MainPc, ch: Choice, c: Cid, pc: ServePc)
    requires MainOk(w, main, true) && main.MClose?
    requires ClientOk(w, false, c in main.todo, main.c == c, c, pc)
    ensures ClientOk(MainWork(main, w, ch), false, c in main.todo, false, c, pc)
  {
    if main.c == c {
      CloseClient(w, c, pc);
    } else {
      CloseSame(w, main.c, c, Finished);
      FrameClient(w, MainWork(main, w, ch), false, c in main.todo, false, c, pc);
    }
  }

  lemma MainWorkClient(w: World, main: MainPc, pumpDone: bool, ch: Choice, c: Cid, pc: ServePc, owed: bool)
    requires MainOk(w, main, pumpDone) && ClientOk(w, owed, c in ExitOwed(main), Closing(main, c), c, pc)
    requires pumpDone ==> !owed
    requires main.MWrite? && main.c == c ==> !pc.SSnap?
    ensures var next := MainNext(main, w, pumpDone, ch);
      ClientOk(MainWork(main, w, ch), owed, c in ExitOwed(next), Closing(next, c), c, pc)
  {
    if main.MSet? {
      AnnounceClient(w, c, pc, main.code);
    } else if main.MWrite? {
      MainWriteClient(w, main, ch, c, pc);
    } else if main.MClose? {
      MainCloseClient(w, main, ch, c, pc);
    } else {
      ExitOwedMoves(w, main, pumpDone, ch);
    }
  }

  lemma MainKeepsClient(s: State, ch: Choice, c: Cid)
    requires Inv(s) && c in s.serve && !Blocked(s.locks, MainOp(s.main))
    ensures ClientOkIn(StepMain(s, ch), c)
  {
    assert ClientOkIn(s, c);
    if s.main.MWrite? && s.main.c == c && s.serve[c].SSnap? { Exclusive(s, Main, Serve(c), SendMu(c)); }
    OwedSame(s.w.clients, MainWork(s.main, s.w, ch).clients, s.pump, c);
    MainWorkClient(s.w, s.main, s.pump.Ended?, ch, c, s.serve[c], c in Owed(s.w.clients, s.pump));
  }

  lemma MainKeepsRest(w: World, pump: PumpPc, pc: MainPc, ch: Choice)
    requires WorldOk(w) && PumpOk(w, pump) && MainOk(w, pc, pump.Ended?)
    requires pc.MWrite? || pc.MClose? ==> pc.c in w.conns
    ensures var w' := MainWork(pc, w, ch);
      WorldOk(w') && PumpOk(w', pump) && MainOk(w', MainNext(pc, w, pump.Ended?, ch), pump.Ended?)
  {
  }

  lemma MainKeepsInv(s: State, ch: Choice)
    requires Inv(s)
    ensures Inv(StepMain(s, ch))
  {
    var s' := StepMain(s, ch);
    if !Blocked(s.locks, MainOp(s.main)) {
      StepKeepsLocks(s, Run(Main, ch));
      forall c | c in s'.serve ensures ClientOkIn(s', c) { MainKeepsClient(s, ch, c); }
      MainKeepsRest(s.w, s.pump, s.main, ch);
    }
  }

  // serveClient and accept keep the invariant

  lemma ServeSame(w: World, d: Cid, pc: ServePc, ch: Choice, c: Cid)
    requires c != d
    ensures SameFor(w, ServeWork(d, pc, w, ch), c)
  {
    match pc
    case SSnap(snap, _, _) => WriteSame(w, d, c, SnapshotFrame(snap), ch.ok);
    case SExit(code) => WriteSame(w, d, c, ExitFrame(code), ch.ok);
    case SExitClose => CloseSame(w, d, c, Finished);
    case SFailClose => CloseSame(w, d, c, Dropped);
    case SFailDrop => DropSame(w, d, c);
    case SLeaveDrop => DropSame(w, d, c);
    case _ =>
  }

  lemma OwedSame(clients: set<Cid>, clients': set<Cid>, pc: PumpPc, c: Cid)
    requires !pc.PCopy? || (c in clients <==> c in clients')
    ensures c in Owed(clients, pc) <==> c in Owed(clients', pc)
  {
  }

  lemma ServeKeepsOthers(s: State, d: Cid, ch: Choice, c: Cid)
    requires c in s.serve && d in s.serve && c != d && ClientOkIn(s, c)
    ensures ClientOkIn(StepServe(s, d, ch), c)
  {
    var w' := StepServe(s, d, ch).w;
    ServeSame(s.w, d, s.serve[d], ch, c);
    OwedSame(s.w.clients, w'.clients, s.pump, c);
    FrameClient(s.w, w', c in Owed(s.w.clients, s.pump), c in ExitOwed(s.main), Closing(s.main, c), c, s.serve[c]);
  }

  lemma ServeJoins(w: World, owed: bool, exitOwed: bool, closing: bool, c: Cid, pc: ServePc, ch: Choice)
    requires ClientOk(w, owed, exitOwed, closing, c, pc) && WorldOk(w)
    requires pc.Arrived? || pc.SLock? || pc.SRing? || pc.STake? || pc.SJoin? || pc.SSnap?
    requires pc.SJoin? ==> !owed && !exitOwed && !closing
    ensures ClientOk(ServeWork(c, pc, w, ch), owed, exitOwed, closing, c, ServeNext(c, pc, w, ch))
  {
    if pc.SJoin? {
      JoinClient(w, c, pc, ServeWork(c, pc, w, ch));
    } else if pc.SSnap? {
      SnapshotClient(w, owed, exitOwed, c, pc, ch);
    }
  }

  lemma ServeExits(w: World, owed: bool, exitOwed: bool, closing: bool, c: Cid, pc: ServePc, ch: Choice)
    requires ClientOk(w, owed, exitOwed, closing, c, pc) && Late(pc)
    requires w.exited ==> !owed
    ensures ClientOk(ServeWork(c, pc, w, ch), owed, exitOwed, closing, c, ServeNext(c, pc, w, ch))
  {
    if pc.SExit? {
      LateExitClient(w, c, pc, ch.ok);
    } else if pc.SExitClose? {
      LateCloseClient(w, c, pc);
    }
  }

  /** Waiting and leaving look alike from outside. */
  lemma WaitingMoves(w: World, owed: bool, exitOwed: bool, closing: bool, c: Cid, pc: ServePc, pc': ServePc)
    requires ClientOk(w, owed, exitOwed, closing, c, pc) && (pc.Serving? || pc.SLeave?) && (pc'.SLeave? || pc'.SLeaveDrop?)
    ensures ClientOk(w, owed, exitOwed, closing, c, pc')
  {
  }

  lemma WaitingStays(c: Cid, pc: ServePc, w: World, ch: Choice)
    requires pc.Serving? || pc.SLeave? || pc.SDone?
    ensures ServeWork(c, pc, w, ch) == w
    ensures var pc' := ServeNext(c, pc, w, ch); pc' == pc || (!pc.SDone? && (pc'.SLeave? || pc'.SLeaveDrop?))
  {
  }

  lemma ServeWaits(w: World, owed: bool, exitOwed: bool, closing: bool, c: Cid, pc: ServePc, ch: Choice)
    requires ClientOk(w, owed, exitOwed, closing, c, pc)
    requires pc.Serving? || pc.SLeave? || pc.SDone?
    ensures ClientOk(ServeWork(c, pc, w, ch), owed, exitOwed, closing, c, ServeNext(c, pc, w, ch))
  {
    WaitingStays(c, pc, w, ch);
    var pc' := ServeNext(c, pc, w, ch);
    if pc' != pc { WaitingMoves(w, owed, exitOwed, closing, c, pc, pc'); }
  }

  lemma ServeEnds(w: World, owed: bool, exitOwed: bool, closing: bool, c: Cid, pc: ServePc, ch: Choice)
    requires ClientOk(w, owed, exitOwed, closing, c, pc)
    requires pc.SFail? || pc.SFailDrop? || pc.SFailClose? || pc.SLeaveDrop?
    requires (closing ==> w.exited) && (w.exited ==> !owed)
    ensures ClientOk(ServeWork(c, pc, w, ch), owed, exitOwed, closing, c, ServeNext(c, pc, w, ch))
  {
    if w.conns[c].status.Live? {
      LeaveClient(w, owed, exitOwed, closing, c, pc);
    } else {
      DeadClient(w, ServeWork(c, pc, w, ch), owed, exitOwed, closing, c, pc, ServeNext(c, pc, w, ch));
    }
  }

  lemma ServeKeepsOwn(s: State, c: Cid, ch: Choice)
    requires Inv(s) && c in s.serve && !Blocked(s.locks, ServeOp(c, s.serve[c]))
    ensures ClientOkIn(StepServe(s, c, ch), c)
  {
    var w, pc := s.w, s.serve[c];
    var owed, exitOwed, closing := c in Owed(w.clients, s.pump), c in ExitOwed(s.main), Closing(s.main, c);
    assert ClientOkIn(s, c);
    if s.pump.PCopy? && (pc.SJoin? || pc.SFailDrop? || pc.SLeaveDrop?) { Exclusive(s, Pump, Serve(c), SessionMu); }
    OwedSame(w.clients, ServeWork(c, pc, w, ch).clients, s.pump, c);
    if Late(pc) {
      ServeExits(w, owed, exitOwed, closing, c, pc, ch);
    } else if pc.Serving? || pc.SLeave? || pc.SDone? {
      ServeWaits(w, owed, exitOwed, closing, c, pc, ch);
    } else if pc.SFail? || pc.SFailDrop? || pc.SFailClose? || pc.SLeaveDrop? {
      ServeEnds(w, owed, exitOwed, closing, c, pc, ch);
    } else {
      ServeJoins(w, owed, exitOwed, closing, c, pc, ch);
    }
  }

  lemma ServeKeepsWorld(w: World, c: Cid, pc: ServePc, ch: Choice)
    requires WorldOk(w) && c in w.conns
    ensures WorldOk(ServeWork(c, pc, w, ch))
  {
  }

  lemma ServeKeepsPump(w: World, pump: PumpPc, c: Cid, pc: ServePc, ch: Choice)
    requires WorldOk(w) && PumpOk(w, pump) && c in w.conns
    requires pc.SJoin? ==> !pump.PCopy? && c !in w.joinedAt
    ensures PumpOk(ServeWork(c, pc, w, ch), pump)
  {
    forall d | d in Owed(ServeWork(c, pc, w, ch).clients, pump) ensures d in Owed(w.clients, pump) {}
  }

  lemma ServeKeepsMain(w: World, pump: PumpPc, main: MainPc, c: Cid, pc: ServePc, ch: Choice)
    requires MainOk(w, main, pump.Ended?) && c in w.conns
    ensures MainOk(ServeWork(c, pc, w, ch), main, pump.Ended?)
  {
  }

  lemma ServeKeepsRest(w: World, pump: PumpPc, main: MainPc, c: Cid, pc: ServePc, ch: Choice)
    requires WorldOk(w) && PumpOk(w, pump) && MainOk(w, main, pump.Ended?) && c in w.conns
    requires pc.SJoin? ==> !pump.PCopy? && c !in w.joinedAt
    ensures var w' := ServeWork(c, pc, w, ch); WorldOk(w') && PumpOk(w', pump) && MainOk(w', main, pump.Ended?)
  {
    ServeKeepsWorld(w, c, pc, ch);
    ServeKeepsPump(w, pump, c, pc, ch);
    ServeKeepsMain(w, pump, main, c, pc, ch);
  }

  lemma ServeKeepsClients(s: State, c: Cid, ch: Choice)
    requires Inv(s) && c in s.serve && !Blocked(s.locks, ServeOp(c, s.serve[c]))
    ensures forall d :: d in StepServe(s, c, ch).serve ==> ClientOkIn(StepServe(s, c, ch), d)
  {
    var s' := StepServe(s, c, ch);
    forall d | d in s'.serve ensures ClientOkIn(s', d) {
      if d == c {
        ServeKeepsOwn(s, c, ch);
      } else {
        assert ClientOkIn(s, d);
        ServeKeepsOthers(s, c, ch, d);
      }
    }
  }

  lemma ServeKeepsKeys(w: World, c: Cid, pc: ServePc, ch: Choice)
    requires c in w.conns
    ensures ServeWork(c, pc, w, ch).conns.Keys == w.conns.Keys
    ensures ServeWork(c, pc, w, ch).joinedAt.Keys <= w.joinedAt.Keys + {c}
  {
  }

  /** The client has not joined yet, and the pump is not taking the clients now. */
  lemma JoinIsFresh(s: State, c: Cid)
    requires Inv(s) && c in s.serve
    ensures c in s.w.conns && (s.serve[c].SJoin? ==> !s.pump.PCopy? && c !in s.w.joinedAt)
  {
    assert ClientOkIn(s, c);
    if s.pump.PCopy? && s.serve[c].SJoin? { Exclusive(s, Pump, Serve(c), SessionMu); }
  }

  lemma ServeKeepsInv(s: State, c: Cid, ch: Choice)
    requires Inv(s)
    ensures Inv(StepServe(s, c, ch))
  {
    if c in s.serve && !Blocked(s.locks, ServeOp(c, s.serve[c])) {
      StepKeepsLocks(s, Run(Serve(c), ch));
      ServeKeepsClients(s, c, ch);
      JoinIsFresh(s, c);
      ServeKeepsRest(s.w, s.pump, s.main, c, s.serve[c], ch);
      ServeKeepsKeys(s.w, c, s.serve[c], ch);
    }
  }

  lemma AcceptKeepsInv(s: State, c: Cid)
    requires Inv(s)
    ensures Inv(StepAccept(s, c))
  {
    var s' := StepAccept(s, c);
    if c !in s.serve {
      StepKeepsLocks(s, Accept(c));
      forall d | d in s'.serve ensures ClientOkIn(s', d) {
        if d != c {
          FrameClient(s.w, s'.w, d in Owed(s.w.clients, s.pump), d in ExitOwed(s.main), Closing(s.main, d), d, s.serve[d]);
        }
      }
    }
  }

  lemma StepKeepsInv(s: State, a: Action)
    requires Inv(s)
    ensures Inv(Step(s, a))
  {
    match a
    case Accept(c) => AcceptKeepsInv(s, c);
    case Run(Pump, ch) => PumpKeepsInv(s, ch);
    case Run(Main, ch) => MainKeepsInv(s, ch);
    case Run(Serve(c), ch) => ServeKeepsInv(s, c, ch);
  }

  lemma InitInv(capacity: nat)
    requires capacity <= MaxPayload
    ensures Inv(Init(capacity))
  {
    ReachableLocks(capacity, []);
  }

  lemma {:induction false} ReachableInv(capacity: nat, run: seq<Action>)
    requires capacity <= MaxPayload
    ensures Inv(Exec(Init(capacity), run))
  {
    if run == [] {
      InitInv(capacity);
    } else {
      ReachableInv(capacity, run[..|run| - 1]);
      StepKeepsInv(Exec(Init(capacity), run[..|run| - 1]), run[|run| - 1]);
    }
  }

  lemma {:induction false} CapacityFixed(capacity: nat, run: seq<Action>)
    ensures Exec(Init(capacity), run).w.capacity == capacity
  {
    if run != [] { CapacityFixed(capacity, run[..|run| - 1]); }
  }

  // The theorems

  /** A client has been sent a prefix of: its snapshot, every later chunk once, the exit frame. */
  ghost predicate Delivered(w: World, c: Cid)
  {
    if c in w.joinedAt then w.joinedAt[c] <= |w.chunks| && ConnOf(w, c).sent <= Stream(w, c, |w.chunks|, w.exited)
    else ConnOf(w, c).sent == []
  }

  lemma DeliveredPrefix(capacity: nat, run: seq<Action>, c: Cid)
    requires capacity <= MaxPayload
    ensures Delivered(Exec(Init(capacity), run).w, c)
  {
    var s := Exec(Init(capacity), run);
    ReachableInv(capacity, run);
    if c in s.serve {
      assert ClientOkIn(s, c);
      if c in s.w.joinedAt {
        var n := |s.w.chunks| - if c in Owed(s.w.clients, s.pump) then 1 else 0;
        StreamPrefix(s.w, c, n, s.w.exited);
      }
    }
  }

  /** Once shutdown is over, a client whose writes got through and that did not leave has had all of it. */
  lemma DeliveredAll(capacity: nat, run: seq<Action>, c: Cid)
    requires capacity <= MaxPayload
    requires var s := Exec(Init(capacity), run);
      && c in s.w.joinedAt && s.main.MDone?
      && c in s.serve && (s.serve[c].Serving? || s.serve[c].SDone?)
      && ConnOf(s.w, c).status in {Live, Finished}
    ensures var s := Exec(Init(capacity), run);
      s.w.joinedAt[c] <= |s.w.chunks| && ConnOf(s.w, c).sent == Stream(s.w, c, |s.w.chunks|, true)
  {
    var s := Exec(Init(capacity), run);
    ReachableInv(capacity, run);
    assert ClientOkIn(s, c);
  }

  lemma WorkDropsOnlyDead(w: World, pump: PumpPc, main: MainPc, ch: Choice, c: Cid)
    requires PumpOk(w, pump) && c in w.conns && w.conns[c].status.Live?
    ensures c in PumpWork(pump, w, ch).conns && !PumpWork(pump, w, ch).conns[c].status.Dropped?
    ensures c in MainWork(main, w, ch).conns && !MainWork(main, w, ch).conns[c].status.Dropped?
  {
  }

  ghost predicate Spared(w: World, c: Cid) { c in w.conns && !w.conns[c].status.Dropped? }

  lemma StepDropsOnlyDead(s: State, ch: Choice, c: Cid)
    requires PumpOk(s.w, s.pump) && c in s.w.conns && s.w.conns[c].status.Live?
    ensures Spared(StepPump(s, ch).w, c) && Spared(StepMain(s, ch).w, c)
  {
    WorkDropsOnlyDead(s.w, s.pump, s.main, ch, c);
  }

  /** In every run, neither the pump nor shutdown drops a connection that still works: only its own departure does. */
  lemma PumpDropsOnlyDead(capacity: nat, run: seq<Action>, ch: Choice, c: Cid)
    requires capacity <= MaxPayload
    requires var w := Exec(Init(capacity), run).w; c in w.conns && w.conns[c].status.Live?
    ensures Spared(Step(Exec(Init(capacity), run), Run(Pump, ch)).w, c)
    ensures Spared(Step(Exec(Init(capacity), run), Run(Main, ch)).w, c)
  {
    ReachableInv(capacity, run);
    StepDropsOnlyDead(Exec(Init(capacity), run), ch, c);
  }
}

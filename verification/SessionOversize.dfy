/**
 * A scrollback larger than a frame may carry breaks the delivery order: the
 * snapshot is refused, yet the joined client still receives output.
 */
module SessionOversize {
  import opened Bytes
  import opened Wire
  import opened Session
  import opened SessionDelivery

  ghost predicate Reaches(capacity: nat, run: seq<Action>, s: State) { Exec(Init(capacity), run) == s }

  lemma Advance(capacity: nat, run: seq<Action>, s: State, a: Action) returns (run': seq<Action>, s': State)
    requires Reaches(capacity, run, s)
    ensures Reaches(capacity, run', s') && s' == Step(s, a)
  {
    run', s' := run + [a], Step(s, a);
    assert run'[..|run|] == run;
  }

  /** Nothing holds a mutex and the pump is about to read. */
  ghost predicate Idle(s: State) { s.pump.Reading? && s.main.MWait? && s.locks == map[] }

  lemma AppendRound(capacity: nat, run: seq<Action>, s: State, ch: Choice) returns (run': seq<Action>, s': State)
    requires Reaches(capacity, run, s) && Idle(s) && 0 < |ch.chunk| <= PumpBuffer
    ensures Reaches(capacity, run', s') && s'.locks == map[] && s'.main == s.main && s'.serve == s.serve
    ensures s'.pump == PSend(ch.chunk, ch.eof, s.w.clients)
    ensures s'.w == s.w.(ring := LastN(s.w.capacity, s.w.ring + ch.chunk), chunks := s.w.chunks + [ch.chunk])
  {
    run', s' := Advance(capacity, run, s, Run(Pump, ch));
    assert s' == s.(pump := PLock(ch.chunk, ch.eof));
    run', s' := Advance(capacity, run', s', Run(Pump, ch));
    assert s' == s.(pump := PRing(ch.chunk, ch.eof), locks := map[SessionMu := Pump]);
    run', s' := Advance(capacity, run', s', Run(Pump, ch));
    assert s'.pump == PAppend(ch.chunk, ch.eof) && s'.w == s.w && s'.serve == s.serve && s'.main == s.main;
    assert s'.locks.Keys == {SessionMu, RingMu};
    run', s' := Advance(capacity, run', s', Run(Pump, ch));
    assert s'.pump == PCopy(ch.chunk, ch.eof) && s'.locks.Keys == {SessionMu};
    run', s' := Advance(capacity, run', s', Run(Pump, ch));
    assert s'.locks.Keys == {};
  }

  /** How much of n chunks of one length the scrollback holds. */
  function Held(capacity: nat, n: nat, length: nat): nat { if n * length <= capacity then n * length else capacity }

  lemma Grows(capacity: nat, ring: seq<byte>, chunk: seq<byte>, n: nat)
    requires n > 0 && |ring| == Held(capacity, n - 1, |chunk|)
    ensures |LastN(capacity, ring + chunk)| == Held(capacity, n, |chunk|)
  {
    assert n * |chunk| == (n - 1) * |chunk| + |chunk|;
  }

  /** n chunks read while nobody is attached. */
  lemma {:induction false} Fill(capacity: nat, ch: Choice, n: nat) returns (run: seq<Action>, s: State)
    requires 0 < |ch.chunk| <= PumpBuffer && !ch.eof
    ensures Reaches(capacity, run, s) && Idle(s) && s.w.capacity == capacity && s.serve == map[] && s.w.clients == {}
    ensures !s.w.exited
    ensures |s.w.ring| == Held(capacity, n, |ch.chunk|)
  {
    if n == 0 {
      run, s := [], Init(capacity);
    } else {
      run, s := Fill(capacity, ch, n - 1);
      Grows(capacity, s.w.ring, ch.chunk, n);
      run, s := AppendRound(capacity, run, s, ch);
      run, s := EmptyRound(capacity, run, s, ch);
    }
  }

  /** With nobody attached there is nothing to send. */
  lemma EmptyRound(capacity: nat, run: seq<Action>, s: State, ch: Choice) returns (run': seq<Action>, s': State)
    requires Reaches(capacity, run, s) && s.pump == PSend(ch.chunk, false, {})
    ensures Reaches(capacity, run', s') && s' == s.(pump := Reading)
  {
    run', s' := Advance(capacity, run, s, Run(Pump, ch));
  }

  lemma Attach(capacity: nat, run: seq<Action>, s: State, ch: Choice) returns (run': seq<Action>, s': State)
    requires Reaches(capacity, run, s) && Idle(s) && s.serve == map[]
    ensures Reaches(capacity, run', s') && s'.pump.Reading? && s'.main.MWait?
    ensures s'.locks.Keys == {SendMu(0), SessionMu} && s'.serve == map[0 := SJoin(s.w.ring)]
    ensures s'.w == s.w.(conns := s.w.conns[0 := Conn([], Live)])
  {
    var c: Cid := 0;
    run', s' := Advance(capacity, run, s, Accept(c));
    run', s' := Advance(capacity, run', s', Run(Serve(c), ch));
    assert s'.serve[c].SLock? && s'.locks.Keys == {SendMu(c)};
    run', s' := Advance(capacity, run', s', Run(Serve(c), ch));
    assert s'.serve[c].SRing? && s'.locks.Keys == {SendMu(c), SessionMu};
    run', s' := Advance(capacity, run', s', Run(Serve(c), ch));
    assert s'.serve[c].STake? && s'.locks.Keys == {SendMu(c), SessionMu, RingMu};
    run', s' := Advance(capacity, run', s', Run(Serve(c), ch));
  }

  /** Client 0 joins; its snapshot is too large to send, and it is still a client. */
  lemma JoinRefused(capacity: nat, run: seq<Action>, s: State, ch: Choice) returns (run': seq<Action>, s': State)
    requires Reaches(capacity, run, s) && Idle(s) && s.serve == map[] && !s.w.exited && |s.w.ring| > MaxPayload
    ensures Reaches(capacity, run', s') && Idle(s') && s'.w.clients == s.w.clients + {0}
    ensures 0 in s'.w.conns && s'.w.conns[0] == Conn([], Live) && 0 in s'.w.joinedAt
  {
    run', s' := Attach(capacity, run, s, ch);
    run', s' := Advance(capacity, run', s', Run(Serve(0), ch));
    assert s'.serve[0] == SSnap(s.w.ring, false, s.w.exitCode) && s'.locks.Keys == {SendMu(0)};
    run', s' := Advance(capacity, run', s', Run(Serve(0), ch));
    assert s'.locks.Keys == {};
  }

  /** The next chunk is then the first frame that client receives. */
  lemma OutputFirst(capacity: nat, run: seq<Action>, s: State, ch: Choice) returns (run': seq<Action>, s': State)
    requires Reaches(capacity, run, s) && Idle(s) && s.w.clients == {0} && 0 < |ch.chunk| <= PumpBuffer && !ch.eof
    requires 0 in s.w.conns && s.w.conns[0] == Conn([], Live) && 0 in s.w.joinedAt && ch.pick == 0 && ch.ok
    ensures Reaches(capacity, run', s') && 0 in s'.w.joinedAt && ConnOf(s'.w, 0).sent == [OutputFrame(ch.chunk)]
  {
    run', s' := AppendRound(capacity, run, s, ch);
    run', s' := Advance(capacity, run', s', Run(Pump, ch));
    run', s' := Advance(capacity, run', s', Run(Pump, ch));
    run', s' := Advance(capacity, run', s', Run(Pump, ch));
  }

  lemma OversizeBreaksDelivery(capacity: nat) returns (run: seq<Action>)
    requires capacity > MaxPayload
    ensures !Delivered(Exec(Init(capacity), run).w, 0)
  {
    var ch := Choice(seq(PumpBuffer, i => 0), false, 0, true, false, 0);
    var s: State;
    run, s := Fill(capacity, ch, 33);
    run, s := JoinRefused(capacity, run, s, ch);
    run, s := OutputFirst(capacity, run, s, ch);
    if s.w.joinedAt[0] <= |s.w.chunks| {
      assert ConnOf(s.w, 0).sent[0] != Stream(s.w, 0, |s.w.chunks|, s.w.exited)[0];
    }
  }

  /** Delivery in order holds in every run exactly when the scrollback fits in one frame. */
  lemma DeliveryIffSnapshotFits(capacity: nat)
    ensures (forall run: seq<Action>, c: Cid :: Delivered(Exec(Init(capacity), run).w, c)) <==> capacity <= 0x10_0000
  {
    if capacity <= MaxPayload {
      forall run: seq<Action>, c: Cid ensures Delivered(Exec(Init(capacity), run).w, c) {
        DeliveredPrefix(capacity, run, c);
      }
    } else {
      var run := OversizeBreaksDelivery(capacity);
      assert !Delivered(Exec(Init(capacity), run).w, 0);
    }
  }
}

/** Delivery does happen: a client attaches, the PTY delivers its last chunk, the command ends. */
module SessionServed {
  import opened Options
  import opened Bytes
  import opened Wire
  import opened Session
  import opened SessionDelivery
  import opened SessionOversize
  import opened SessionTrace

  /** Client 0 is attached and has been sent these frames. */
  ghost predicate Attached(s: State, sent: seq<Frame>)
  {
    && s.locks == map[] && s.serve == map[0 := Serving] && s.w.clients == {0}
    && 0 in s.w.conns && s.w.conns[0] == Conn(sent, Live) && 0 in s.w.joinedAt
  }

  lemma JoinServed(capacity: nat, ch: Choice) returns (run: seq<Action>, s: State)
    requires ch.ok
    ensures Reaches(capacity, run, s) && Attached(s, [SnapshotFrame([])]) && s.pump.Reading? && s.main.MWait?
    ensures s.w.joinedAt[0] == 0 && s.w.chunks == [] && !s.w.exited
  {
    run, s := Attach(capacity, [], Init(capacity), ch);
    run, s := Advance(capacity, run, s, Run(Serve(0), ch));
    assert s.serve[0] == SSnap([], false, 0) && s.locks.Keys == {SendMu(0)};
    run, s := Advance(capacity, run, s, Run(Serve(0), ch));
    assert s.locks.Keys == {};
  }

  lemma OutputServed(capacity: nat, run: seq<Action>, s: State, ch: Choice, sent: seq<Frame>) returns (run': seq<Action>, s': State)
    requires Reaches(capacity, run, s) && Attached(s, sent) && s.pump.Reading? && s.main.MWait?
    requires 0 < |ch.chunk| <= PumpBuffer && ch.eof && ch.ok && ch.pick == 0
    ensures Reaches(capacity, run', s') && Attached(s', sent + [OutputFrame(ch.chunk)]) && s'.pump.Ended? && s'.main.MWait?
    ensures s'.w.joinedAt == s.w.joinedAt && s'.w.chunks == s.w.chunks + [ch.chunk] && s'.w.exited == s.w.exited
  {
    run', s' := AppendRound(capacity, run, s, ch);
    run', s' := SendServed(capacity, run', s', ch, sent);
    run', s' := Advance(capacity, run', s', Run(Pump, ch));
  }

  lemma SendServed(capacity: nat, run: seq<Action>, s: State, ch: Choice, sent: seq<Frame>) returns (run': seq<Action>, s': State)
    requires Reaches(capacity, run, s) && Attached(s, sent) && s.pump == PSend(ch.chunk, ch.eof, {0})
    requires 0 < |ch.chunk| <= PumpBuffer && ch.ok && ch.pick == 0
    ensures Reaches(capacity, run', s') && Attached(s', sent + [OutputFrame(ch.chunk)]) && s'.pump == PSend(ch.chunk, ch.eof, {})
    ensures s'.main == s.main && s'.w == s.w.(conns := s'.w.conns)
  {
    run', s' := Advance(capacity, run, s, Run(Pump, ch));
    assert s'.pump == PSendLock(ch.chunk, ch.eof, {}, 0);
    run', s' := Advance(capacity, run', s', Run(Pump, ch));
    assert s'.pump == PWrite(ch.chunk, ch.eof, {}, 0) && s'.locks.Keys == {SendMu(0)};
    run', s' := Advance(capacity, run', s', Run(Pump, ch));
    assert s'.locks.Keys == {};
  }

  lemma ExitAnnounced(capacity: nat, run: seq<Action>, s: State, ch: Choice, sent: seq<Frame>) returns (run': seq<Action>, s': State)
    requires Reaches(capacity, run, s) && Attached(s, sent) && s.pump.Ended? && s.main.MWait? && Int32(ch.code)
    ensures Reaches(capacity, run', s') && Attached(s', sent) && s'.main == MSend(ch.code, {0})
    ensures s'.w == s.w.(exited := true, exitCode := ch.code) && s'.pump == s.pump
  {
    run', s' := Advance(capacity, run, s, Run(Main, ch));
    assert s' == s.(main := MLock(ch.code));
    run', s' := Advance(capacity, run', s', Run(Main, ch));
    assert s'.main == MSet(ch.code) && s'.locks.Keys == {SessionMu};
    run', s' := Advance(capacity, run', s', Run(Main, ch));
    assert s'.locks.Keys == {};
  }

  lemma ExitServed(capacity: nat, run: seq<Action>, s: State, ch: Choice, sent: seq<Frame>) returns (run': seq<Action>, s': State)
    requires Reaches(capacity, run, s) && Attached(s, sent) && s.main == MSend(ch.code, {0}) && Int32(ch.code) && ch.ok && ch.pick == 0
    ensures Reaches(capacity, run', s') && s'.main.MDone? && s'.serve == map[0 := Serving]
    ensures ConnOf(s'.w, 0) == Conn(sent + [ExitFrame(ch.code)], Finished)
    ensures s'.w.chunks == s.w.chunks && s'.w.exitCode == s.w.exitCode
  {
    run', s' := Advance(capacity, run, s, Run(Main, ch));
    assert s'.main == MSendLock(ch.code, {}, 0) && s'.locks == map[];
    run', s' := Advance(capacity, run', s', Run(Main, ch));
    assert s'.main == MWrite(ch.code, {}, 0);
    run', s' := Advance(capacity, run', s', Run(Main, ch));
    assert s'.main == MClose(ch.code, {}, 0) && ConnOf(s'.w, 0) == Conn(sent + [ExitFrame(ch.code)], Live);
    run', s' := Advance(capacity, run', s', Run(Main, ch));
    run', s' := Advance(capacity, run', s', Run(Main, ch));
  }

  lemma Announce(capacity: nat, ch: Choice) returns (run: seq<Action>, s: State)
    requires 0 < |ch.chunk| <= PumpBuffer && ch.eof && ch.ok && ch.pick == 0 && Int32(ch.code)
    ensures Reaches(capacity, run, s) && Attached(s, [SnapshotFrame([])] + [OutputFrame(ch.chunk)]) && s.main == MSend(ch.code, {0})
    ensures s.w.chunks == [ch.chunk] && s.w.exitCode == ch.code
  {
    run, s := JoinServed(capacity, ch);
    run, s := OutputServed(capacity, run, s, ch, [SnapshotFrame([])]);
    assert s.w.chunks == [ch.chunk];
    run, s := ExitAnnounced(capacity, run, s, ch, [SnapshotFrame([])] + [OutputFrame(ch.chunk)]);
  }

  /** For every chunk and every exit code there is a run in which a client is sent exactly these. */
  lemma DeliveryHappens(capacity: nat, chunk: seq<byte>, code: int) returns (run: seq<Action>, s: State)
    requires capacity <= MaxPayload && 0 < |chunk| <= PumpBuffer && Int32(code)
    ensures Reaches(capacity, run, s) && s.main.MDone?
    ensures Reads(capacity, run) == [chunk] && Given(capacity, run) == Some(code)
    ensures ConnOf(s.w, 0).sent == [SnapshotFrame([])] + [OutputFrame(chunk)] + [ExitFrame(code)]
  {
    var ch := Choice(chunk, true, 0, true, false, code);
    run, s := Announce(capacity, ch);
    run, s := ExitServed(capacity, run, s, ch, [SnapshotFrame([])] + [OutputFrame(chunk)]);
    RunEnds(capacity, run, s, [chunk], code);
  }

  lemma RunEnds(capacity: nat, run: seq<Action>, s: State, rs: seq<seq<byte>>, code: int)
    requires capacity <= MaxPayload && Reaches(capacity, run, s) && s.main.MDone? && s.w.chunks == rs && s.w.exitCode == code
    ensures Reads(capacity, run) == rs && Given(capacity, run) == Some(code)
  {
    EndedBeforeExit(capacity, run);
    AllRead(capacity, run);
    CodeReported(capacity, run);
  }
}

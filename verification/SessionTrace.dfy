/**
 * What a session's clients receive, in terms of what the environment gave it:
 * the chunks read from the PTY and the exit code of the command.
 */
module SessionTrace {
  import opened Options
  import opened Bytes
  import opened Wire
  import opened Session
  import opened SessionDelivery
  import opened SessionOversize

  ghost function Before(capacity: nat, run: seq<Action>): State
    requires run != []
  {
    Exec(Init(capacity), run[..|run| - 1])
  }

  /** The last action of the run is a read of the pump. */
  ghost predicate IsRead(capacity: nat, run: seq<Action>)
  {
    run != [] && run[|run| - 1].Run? && run[|run| - 1].t.Pump? && Before(capacity, run).pump.Reading?
  }

  /** Every chunk the PTY delivered to a read, in order. */
  ghost function Reads(capacity: nat, run: seq<Action>): seq<seq<byte>>
  {
    if run == [] then []
    else
      var before, chunk := Reads(capacity, run[..|run| - 1]), if IsRead(capacity, run) then run[|run| - 1].ch.chunk else [];
      if 0 < |chunk| <= PumpBuffer then before + [chunk] else before
  }

  /** Some read was the PTY's last. */
  ghost predicate EofRead(capacity: nat, run: seq<Action>)
  {
    run != [] && ((IsRead(capacity, run) && run[|run| - 1].ch.eof) || EofRead(capacity, run[..|run| - 1]))
  }

  /** The exit code the command's end gave, once the pump was done. */
  ghost function Given(capacity: nat, run: seq<Action>): Option<int>
  {
    if run == [] then None
    else
      var earlier, a, s := Given(capacity, run[..|run| - 1]), run[|run| - 1], Before(capacity, run);
      if earlier.Some? then earlier
      else if a.Run? && a.t.Main? && s.main.MWait? && s.pump.Ended? && Int32(a.ch.code) then Some(a.ch.code)
      else None
  }

  /** The i-th action gave the code, when the pump was done and nobody had given one before. */
  ghost predicate Gives(capacity: nat, run: seq<Action>, i: nat, code: int)
  {
    && i < |run| && run[i].Run? && run[i].t.Main? && run[i].ch.code == code
    && Exec(Init(capacity), run[..i]).main.MWait? && Exec(Init(capacity), run[..i]).pump.Ended?
  }

  lemma {:induction false} GivenByAction(capacity: nat, run: seq<Action>)
    ensures Given(capacity, run).Some? ==> exists i: nat :: Gives(capacity, run, i, Given(capacity, run).value)
    decreases |run|
  {
    if run != [] {
      var earlier := run[..|run| - 1];
      GivenByAction(capacity, earlier);
      if Given(capacity, earlier).Some? {
        var code := Given(capacity, earlier).value;
        var i: nat :| Gives(capacity, earlier, i, code);
        assert run[..i] == earlier[..i];
        assert Gives(capacity, run, i, code);
      } else if Given(capacity, run).Some? {
        assert Gives(capacity, run, |run| - 1, Given(capacity, run).value);
      }
    }
  }

  function Pending(pc: PumpPc): seq<seq<byte>>
  {
    if pc.PLock? || pc.PRing? || pc.PAppend? then [pc.chunk] else []
  }

  /** The pump will read no more. */
  predicate LastSeen(pc: PumpPc) { !pc.Reading? && (pc.Ended? || pc.last) }

  /** What is read and not yet appended is on its way; nothing else is ever appended. */
  lemma {:induction false} ChunksAreReads(capacity: nat, run: seq<Action>)
    ensures var s := Exec(Init(capacity), run); s.w.chunks + Pending(s.pump) == Reads(capacity, run)
  {
    if run != [] {
      ChunksAreReads(capacity, run[..|run| - 1]);
      StepReads(Before(capacity, run), run[|run| - 1]);
    }
  }

  lemma StepReads(s: State, a: Action)
    ensures var t := Step(s, a);
      t.w.chunks + Pending(t.pump) == s.w.chunks + Pending(s.pump)
        + if a.Run? && a.t.Pump? && s.pump.Reading? && 0 < |a.ch.chunk| <= PumpBuffer then [a.ch.chunk] else []
  {
    match a {
      case Accept(_) =>
      case Run(Pump, ch) => PumpReads(s.pump, s.w, ch);
      case Run(Main, ch) => assert MainWork(s.main, s.w, ch).chunks == s.w.chunks;
      case Run(Serve(c), ch) => if c in s.serve { assert ServeWork(c, s.serve[c], s.w, ch).chunks == s.w.chunks; }
    }
  }

  lemma PumpReads(pc: PumpPc, w: World, ch: Choice)
    ensures PumpWork(pc, w, ch).chunks + Pending(PumpNext(pc, w, ch)) == w.chunks + Pending(pc)
      + if pc.Reading? && 0 < |ch.chunk| <= PumpBuffer then [ch.chunk] else []
  {
  }

  /** The pump ends its reading exactly with the PTY's last read. */
  lemma {:induction false} ReadsUntilEof(capacity: nat, run: seq<Action>)
    ensures LastSeen(Exec(Init(capacity), run).pump) <==> EofRead(capacity, run)
  {
    if run != [] {
      ReadsUntilEof(capacity, run[..|run| - 1]);
      StepEof(Before(capacity, run), run[|run| - 1]);
    }
  }

  lemma StepEof(s: State, a: Action)
    ensures LastSeen(Step(s, a).pump) <==> LastSeen(s.pump) || (a.Run? && a.t.Pump? && s.pump.Reading? && a.ch.eof)
  {
  }

  ghost predicate CodeOk(w: World, pc: MainPc, given: Option<int>)
  {
    && (pc.MWait? <==> given.None?)
    && (given.Some? ==> Int32(given.value))
    && (!pc.MWait? && !pc.MDone? ==> given == Some(pc.code))
    && (w.exited ==> given == Some(w.exitCode))
    && (w.exited || pc.MWait? || pc.MLock? || pc.MSet?)
  }

  /** The session reports the code it was given, and no other. */
  lemma {:induction false} ReportsGivenCode(capacity: nat, run: seq<Action>)
    ensures var s := Exec(Init(capacity), run); CodeOk(s.w, s.main, Given(capacity, run))
  {
    if run != [] {
      ReportsGivenCode(capacity, run[..|run| - 1]);
      StepCode(Before(capacity, run), run[|run| - 1], Given(capacity, run[..|run| - 1]));
    }
  }

  lemma StepCode(s: State, a: Action, given: Option<int>)
    requires CodeOk(s.w, s.main, given)
    ensures var now := if given.Some? then given
      else if a.Run? && a.t.Main? && s.main.MWait? && s.pump.Ended? && Int32(a.ch.code) then Some(a.ch.code) else None;
      CodeOk(Step(s, a).w, Step(s, a).main, now)
  {
    match a {
      case Accept(_) =>
      case Run(Pump, ch) => assert PumpWork(s.pump, s.w, ch).exited == s.w.exited && PumpWork(s.pump, s.w, ch).exitCode == s.w.exitCode;
      case Run(Main, ch) =>
      case Run(Serve(c), ch) =>
        if c in s.serve {
          var w := ServeWork(c, s.serve[c], s.w, ch);
          assert w.exited == s.w.exited && w.exitCode == s.w.exitCode;
        }
    }
  }

  /** The frames of a client that joined after j of the chunks rs, and got all the rest and the code. */
  ghost predicate Served(capacity: nat, rs: seq<seq<byte>>, j: nat, code: int, sent: seq<Frame>)
  {
    && j <= |rs| && |sent| == 1 + (|rs| - j) + 1
    && sent[0].kind == 0x10 && IsLast(capacity, Flatten(rs[..j]), sent[0].payload)
    && (forall k :: j <= k < |rs| ==> sent[1 + k - j] == Frame(0x11, rs[k]))
    && sent[|sent| - 1].kind == 0x12 && DecodeExit(sent[|sent| - 1].payload) == Exited(code)
  }

  /** r is the end of s, capacity long or all of it. */
  ghost predicate IsLast(capacity: nat, s: seq<byte>, r: seq<byte>)
  {
    |r| == (if |s| < capacity then |s| else capacity) && exists before :: s == before + r
  }

  lemma StreamServes(w: World, c: Cid)
    requires c in w.joinedAt && w.joinedAt[c] <= |w.chunks| && Int32(w.exitCode)
    ensures Served(w.capacity, w.chunks, w.joinedAt[c], w.exitCode, Stream(w, c, |w.chunks|, true))
  {
    LastIsLast(w.capacity, Flatten(w.chunks[..w.joinedAt[c]]));
    var fs, j := Stream(w, c, |w.chunks|, true), w.joinedAt[c];
    var outputs := Outputs(w.chunks[j..]);
    assert w.chunks[j..|w.chunks|] == w.chunks[j..];
    forall k | j <= k < |w.chunks| ensures fs[1 + k - j] == Frame(MsgOutput, w.chunks[k]) {
      assert outputs[k - j] == OutputFrame(w.chunks[j..][k - j]);
    }
  }

  lemma LastIsLast(capacity: nat, s: seq<byte>)
    ensures IsLast(capacity, s, LastN(capacity, s))
  {
    var r := LastN(capacity, s);
    assert s == s[..|s| - |r|] + r;
  }

  /**
   * Once shutdown is over, a client whose writes got through and that did not leave
   * has been sent every chunk the PTY delivered since it joined, and the command's code.
   */
  lemma ServedAll(capacity: nat, run: seq<Action>, c: Cid)
    requires capacity <= MaxPayload
    requires var s := Exec(Init(capacity), run);
      && c in s.w.joinedAt && s.main.MDone?
      && c in s.serve && (s.serve[c].Serving? || s.serve[c].SDone?)
      && ConnOf(s.w, c).status in {Live, Finished}
    ensures Given(capacity, run).Some? && EofRead(capacity, run)
    ensures var s := Exec(Init(capacity), run);
      Served(capacity, Reads(capacity, run), s.w.joinedAt[c], Given(capacity, run).value, ConnOf(s.w, c).sent)
  {
    var s := Exec(Init(capacity), run);
    DeliveredAll(capacity, run, c);
    ReadsUntilEof(capacity, run);
    EndedBeforeExit(capacity, run);
    AllRead(capacity, run);
    CodeReported(capacity, run);
    CapacityFixed(capacity, run);
    StreamServes(s.w, c);
  }

  lemma AllRead(capacity: nat, run: seq<Action>)
    requires Exec(Init(capacity), run).pump.Ended?
    ensures Exec(Init(capacity), run).w.chunks == Reads(capacity, run)
  {
    ChunksAreReads(capacity, run);
    var w := Exec(Init(capacity), run).w;
    assert w.chunks + [] == w.chunks;
  }

  lemma CodeReported(capacity: nat, run: seq<Action>)
    requires Exec(Init(capacity), run).main.MDone?
    ensures var w := Exec(Init(capacity), run).w;
      w.exited && Given(capacity, run) == Some(w.exitCode) && Int32(w.exitCode)
  {
    ReportsGivenCode(capacity, run);
  }

  lemma EndedBeforeExit(capacity: nat, run: seq<Action>)
    requires capacity <= MaxPayload && !Exec(Init(capacity), run).main.MWait?
    ensures Exec(Init(capacity), run).pump.Ended?
  {
    ReachableInv(capacity, run);
  }
}

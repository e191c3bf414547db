/** What a client's reader makes of the bytes it receives, wherever its connection stops. */
module SessionReader {
  import opened Bytes
  import opened Wire
  import opened Session
  import opened SessionDelivery

  /** Every frame fits, so it is written whole or cut off by a dying connection. */
  ghost predicate AllFit(fs: seq<Frame>) { forall f <- fs :: |f.payload| <= MaxPayload }

  ghost predicate ChunksFit(w: World) { forall i :: 0 <= i < |w.chunks| ==> |w.chunks[i]| <= PumpBuffer }

  lemma StepKeepsChunks(s: State, a: Action)
    requires PumpOk(s.w, s.pump) && ChunksFit(s.w)
    ensures ChunksFit(Step(s, a).w)
  {
    match a {
      case Accept(_) =>
      case Run(Pump, ch) =>
      case Run(Main, ch) => assert MainWork(s.main, s.w, ch).chunks == s.w.chunks;
      case Run(Serve(c), ch) => if c in s.serve { assert ServeWork(c, s.serve[c], s.w, ch).chunks == s.w.chunks; }
    }
  }

  lemma {:induction false} ReachableChunks(capacity: nat, run: seq<Action>)
    requires capacity <= MaxPayload
    ensures ChunksFit(Exec(Init(capacity), run).w)
  {
    if run != [] {
      ReachableChunks(capacity, run[..|run| - 1]);
      ReachableInv(capacity, run[..|run| - 1]);
      StepKeepsChunks(Exec(Init(capacity), run[..|run| - 1]), run[|run| - 1]);
    }
  }

  lemma StreamFits(w: World, c: Cid, n: nat, exit: bool)
    requires c in w.joinedAt && w.joinedAt[c] <= n <= |w.chunks| && w.capacity <= MaxPayload && ChunksFit(w)
    ensures AllFit(Stream(w, c, n, exit))
  {
    var outputs := Outputs(w.chunks[w.joinedAt[c]..n]);
    forall f | f in outputs ensures |f.payload| <= MaxPayload {
      var i :| 0 <= i < |outputs| && outputs[i] == f;
      assert f.payload == w.chunks[w.joinedAt[c] + i];
    }
  }

  /** In every run, what is sent to a client is made of frames that fit. */
  lemma SentFits(capacity: nat, run: seq<Action>, c: Cid)
    requires capacity <= MaxPayload
    ensures AllFit(ConnOf(Exec(Init(capacity), run).w, c).sent)
  {
    var w := Exec(Init(capacity), run).w;
    DeliveredPrefix(capacity, run, c);
    if c in w.joinedAt {
      ReachableChunks(capacity, run);
      CapacityFixed(capacity, run);
      StreamFits(w, c, |w.chunks|, w.exited);
    }
  }

  /**
   * A client's connection carries the frames sent to it and perhaps the start of one
   * more; whatever part of that arrives, the reader decodes a prefix of its stream.
   */
  lemma ReaderSeesStream(capacity: nat, run: seq<Action>, c: Cid, cut: seq<byte>, n: nat)
    requires capacity <= MaxPayload && c in Exec(Init(capacity), run).w.joinedAt && IsCut(cut)
    requires n <= |WireBytes(Exec(Init(capacity), run).w, c, cut)|
    ensures var w := Exec(Init(capacity), run).w;
      && w.joinedAt[c] <= |w.chunks| && AllFit(ConnOf(w, c).sent)
      && DecodeAll(WireBytes(w, c, cut)[..n]) <= Stream(w, c, |w.chunks|, w.exited)
      && (n == |WireBytes(w, c, cut)| ==> DecodeAll(WireBytes(w, c, cut)[..n]) == ConnOf(w, c).sent)
  {
    var w := Exec(Init(capacity), run).w;
    DeliveredPrefix(capacity, run, c);
    SentFits(capacity, run, c);
    ReaderSeesCut(ConnOf(w, c).sent, cut, n);
  }

  ghost function WireBytes(w: World, c: Cid, cut: seq<byte>): seq<byte>
  {
    if AllFit(ConnOf(w, c).sent) then EncodeAll(ConnOf(w, c).sent) + cut else []
  }
}

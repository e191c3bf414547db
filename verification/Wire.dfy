/** dtach/protocol.go: the framed wire protocol between a session and its clients. */
module Wire {
  import opened Bytes

  const MsgInput: byte := 0x01
  const MsgResize: byte := 0x02
  const MsgSnapshot: byte := 0x10
  const MsgOutput: byte := 0x11
  const MsgExit: byte := 0x12

  const MaxPayload: nat := 0x10_0000

  datatype Frame = Frame(kind: byte, payload: seq<byte>)

  function Encode(f: Frame): (b: seq<byte>)
    requires |f.payload| <= MaxPayload
    ensures |b| == 5 + |f.payload|
  {
    [f.kind] + PutUint32(|f.payload|) + f.payload
  }

  function EncodeAll(fs: seq<Frame>): seq<byte>
    requires forall f <- fs :: |f.payload| <= MaxPayload
  {
    if fs == [] then [] else Encode(fs[0]) + EncodeAll(fs[1..])
  }

  /** What the peer of a connection accepts before its socket dies. */
  class Writer {
    var sent: seq<byte>
    var budget: nat

    constructor (budget: nat)
      ensures sent == [] && this.budget == budget
    {
      sent := [];
      this.budget := budget;
    }

    method Write(p: seq<byte>) returns (ok: bool)
      modifies this
      ensures ok == (|p| <= old(budget))
      ensures ok ==> sent == old(sent) + p && budget == old(budget) - |p|
      ensures !ok ==> sent == old(sent) + p[..old(budget)] && budget == 0
    {
      if |p| <= budget {
        sent, budget, ok := sent + p, budget - |p|, true;
      } else {
        sent, budget, ok := sent + p[..budget], 0, false;
      }
    }

    /** Writes all of one frame, nothing of an oversized one, or dies inside it. */
    method WriteFrame(kind: byte, payload: seq<byte>) returns (ok: bool)
      modifies this
      ensures |payload| > MaxPayload ==> !ok && sent == old(sent) && budget == old(budget)
      ensures |payload| <= MaxPayload ==>
        var b := Encode(Frame(kind, payload));
        && ok == (|b| <= old(budget))
        && (ok ==> sent == old(sent) + b && budget == old(budget) - |b|)
        && (!ok ==> sent == old(sent) + b[..old(budget)] && budget == 0)
    {
      if |payload| > MaxPayload {
        return false;
      }
      ghost var b := Encode(Frame(kind, payload));
      var hdr := [kind] + PutUint32(|payload|);
      assert hdr == b[..5] && payload == b[5..];
      ok := Write(hdr);
      if !ok {
        assert hdr[..old(budget)] == b[..old(budget)];
        return;
      }
      if |payload| > 0 {
        ok := Write(payload);
        if !ok {
          assert hdr + payload[..old(budget) - 5] == b[..old(budget)];
        }
      }
    }
  }

  datatype ReadResult = Got(frame: Frame, rest: seq<byte>) | Short | TooLarge

  /** ReadFrame against the bytes a connection will still deliver. */
  function Decode(b: seq<byte>): (r: ReadResult)
    ensures r.Got? ==> |r.frame.payload| <= MaxPayload && b == Encode(r.frame) + r.rest
  {
    if |b| < 5 then Short
    else
      var n := Uint32(b[1..5]);
      if n > MaxPayload then TooLarge
      else if |b| < 5 + n then Short
      else
        var f := Frame(b[0], b[5..5 + n]);
        assert b == [b[0]] + b[1..5] + b[5..5 + n] + b[5 + n..];
        assert PutUint32(n) == b[1..5] by { Uint32Injective(PutUint32(n), b[1..5]); }
        Got(f, b[5 + n..])
  }

  /** The type, the payload's length in four bytes, the payload. */
  lemma FrameLayout(f: Frame)
    requires |f.payload| <= MaxPayload
    ensures var e := Encode(f);
      |e| == 5 + |f.payload| && e[0] == f.kind && Uint32(e[1..5]) == |f.payload| && e[5..] == f.payload
  {
  }

  lemma DecodeEncode(f: Frame, rest: seq<byte>)
    requires |f.payload| <= 0x10_0000
    ensures Decode(Encode(f) + rest) == Got(f, rest)
  {
    var b := Encode(f) + rest;
    assert b[1..5] == PutUint32(|f.payload|);
    assert b[5..5 + |f.payload|] == f.payload;
    assert b[5 + |f.payload|..] == rest;
  }

  /** A header that announces more than the limit is refused before any of its payload has arrived. */
  lemma OversizeRefused(kind: byte, n: int, rest: seq<byte>)
    requires 0x10_0000 < n < 0x1_0000_0000
    ensures Decode([kind] + PutUint32(n) + rest) == TooLarge
  {
    var b := [kind] + PutUint32(n) + rest;
    assert b[1..5] == PutUint32(n);
  }

  /** Every frame a client reads until its connection stops delivering. */
  function DecodeAll(b: seq<byte>): (fs: seq<Frame>)
    ensures forall f <- fs :: |f.payload| <= MaxPayload
    decreases |b|
  {
    var r := Decode(b);
    if r.Got? then [r.frame] + DecodeAll(r.rest) else []
  }

  /** A frame cut short is never delivered, whole or garbled. */
  lemma DecodeCutFrame(f: Frame, n: nat)
    requires |f.payload| <= MaxPayload
    requires n < |Encode(f)|
    ensures Decode(Encode(f)[..n]).Short?
  {
    var b := Encode(f)[..n];
    if n >= 5 {
      assert b[1..5] == Encode(f)[1..5] == PutUint32(|f.payload|);
    }
  }

  lemma ReadOne(f: Frame, rest: seq<byte>, n: nat)
    requires |f.payload| <= MaxPayload
    requires n <= |Encode(f)| + |rest|
    ensures DecodeAll((Encode(f) + rest)[..n])
         == if n < |Encode(f)| then [] else [f] + DecodeAll(rest[..n - |Encode(f)|])
  {
    var e := Encode(f);
    if n < |e| {
      assert (e + rest)[..n] == e[..n];
      DecodeCutFrame(f, n);
    } else {
      assert (e + rest)[..n] == e + rest[..n - |e|];
      DecodeEncode(f, rest[..n - |e|]);
    }
  }

  lemma PrefixCons(f: Frame, a: seq<Frame>, b: seq<Frame>)
    requires a <= b
    ensures [f] + a <= [f] + b
  {
  }

  /**
   * Wherever the connection dies, the client has read exactly the frames that
   * arrived in full: a prefix of what was sent, and all of it when nothing is cut.
   */
  lemma {:induction false} ReaderSeesPrefix(fs: seq<Frame>, n: nat)
    requires forall f <- fs :: |f.payload| <= MaxPayload
    requires n <= |EncodeAll(fs)|
    ensures DecodeAll(EncodeAll(fs)[..n]) <= fs
    ensures n == |EncodeAll(fs)| ==> DecodeAll(EncodeAll(fs)[..n]) == fs
    decreases |fs|
  {
    if fs != [] {
      var e, tail := |Encode(fs[0])|, fs[1..];
      ReadOne(fs[0], EncodeAll(tail), n);
      if n >= e {
        ReaderSeesPrefix(tail, n - e);
        PrefixCons(fs[0], DecodeAll(EncodeAll(tail)[..n - e]), tail);
        assert fs == [fs[0]] + tail;
      }
    }
  }

  /** The same when the last bytes are those of a frame whose write was cut off. */
  lemma {:induction false} ReaderSeesCut(fs: seq<Frame>, cut: seq<byte>, n: nat)
    requires forall f <- fs :: |f.payload| <= MaxPayload
    requires IsCut(cut) && n <= |EncodeAll(fs)| + |cut|
    ensures DecodeAll((EncodeAll(fs) + cut)[..n]) <= fs
    ensures n >= |EncodeAll(fs)| ==> DecodeAll((EncodeAll(fs) + cut)[..n]) == fs
    decreases |fs|
  {
    if fs == [] {
      assert [] + cut == cut;
      CutSeesNothing(cut, n);
    } else {
      var e, tail := |Encode(fs[0])|, fs[1..];
      ConcatAssoc(Encode(fs[0]), EncodeAll(tail), cut);
      ReadOne(fs[0], EncodeAll(tail) + cut, n);
      if n >= e {
        ReaderSeesCut(tail, cut, n - e);
        PrefixCons(fs[0], DecodeAll((EncodeAll(tail) + cut)[..n - e]), tail);
        assert fs == [fs[0]] + tail;
      }
    }
  }

  /** The first bytes of some frame, not all of them. */
  ghost predicate IsCut(cut: seq<byte>)
  {
    exists f: Frame :: |f.payload| <= MaxPayload && |cut| < |Encode(f)| && cut == Encode(f)[..|cut|]
  }

  lemma CutSeesNothing(cut: seq<byte>, n: nat)
    requires IsCut(cut) && n <= |cut|
    ensures DecodeAll(cut[..n]) == []
  {
    var f: Frame :| |f.payload| <= MaxPayload && |cut| < |Encode(f)| && cut == Encode(f)[..|cut|];
    assert cut[..n] == Encode(f)[..n];
    DecodeCutFrame(f, n);
  }

  function EncodeResize(cols: int, rows: int): (p: seq<byte>)
    requires 0 <= cols < 0x10000 && 0 <= rows < 0x10000
    ensures DecodeResize(p) == Resized(cols, rows)
  {
    [cols / 256, cols % 256, rows / 256, rows % 256]
  }

  datatype ResizeResult = Resized(cols: int, rows: int) | NotResize

  function DecodeResize(p: seq<byte>): ResizeResult
  {
    if |p| != 4 then NotResize
    else
      var c: int, r: int := p[0], p[2];
      Resized(c * 256 + p[1], r * 256 + p[3])
  }

  datatype ExitResult = Exited(code: int) | NotExit

  predicate Int32(n: int) { -0x8000_0000 <= n < 0x8000_0000 }

  /** Exit codes travel as the two's complement of an int32. */
  function EncodeExit(code: int): (p: seq<byte>)
    requires Int32(code)
    ensures |p| == 4 && DecodeExit(p) == Exited(code)
  {
    PutUint32(if code < 0 then code + TwoTo32 else code)
  }

  function DecodeExit(p: seq<byte>): (r: ExitResult)
    ensures r.Exited? <==> |p| == 4
    ensures r.Exited? ==> Int32(r.code)
  {
    if |p| != 4 then NotExit
    else
      var n := Uint32(p);
      Exited(if n >= 0x8000_0000 then n - TwoTo32 else n)
  }

  lemma EncodeDecodeExit(p: seq<byte>)
    requires |p| == 4
    ensures EncodeExit(DecodeExit(p).code) == p
  {
    Uint32Injective(EncodeExit(DecodeExit(p).code), p);
  }

  /** Columns before rows, most significant byte first; no other length is a size. */
  lemma ResizeLayout(p: seq<byte>, cols: int, rows: int)
    ensures DecodeResize(p) == Resized(cols, rows)
      <==> |p| == 4 && cols == p[0] as int * 0x100 + p[1] && rows == p[2] as int * 0x100 + p[3]
  {
  }

  /** An exit code is the int32 whose bytes these are, most significant first: the code, up to a multiple of 2^32. */
  lemma ExitLayout(p: seq<byte>, code: int)
    requires |p| == 4 && Int32(code)
    ensures DecodeExit(p) == Exited(code)
      <==> (((p[0] as int * 0x100 + p[1]) * 0x100 + p[2]) * 0x100 + p[3] - code) % 0x1_0000_0000 == 0
  {
    BigEndian(p);
  }
}

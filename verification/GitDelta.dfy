/**
 * gitstate/object.go: applyDelta, the interpreter of git's deltified
 * representation (gitformat-pack(5), "Deltified representation").
 */
module GitDelta {
  import opened Bytes
  import opened GitNumber

  function Pow2(n: nat): (p: nat)
    ensures p >= 1
  {
    if n == 0 then 1 else 2 * Pow2(n - 1)
  }

  datatype Error = TruncatedVarint | TruncatedCopy | TruncatedInsert | CopyOutOfRange | OpcodeZero | SizeMismatch
  datatype Result = Ok(out: seq<byte>) | Err(error: Error)

  function Over(low: nat, scale: nat, p: Parsed): Parsed
  {
    match p case Short => Short case Val(v, next) => Val(low + scale * v, next)
  }

  /** The bytes e stand in d from pos on. */
  ghost predicate At(d: seq<byte>, pos: nat, e: seq<byte>)
  {
    pos + |e| <= |d| && forall k :: pos <= k < pos + |e| ==> d[k] == e[k - pos]
  }

  lemma AtSplit(d: seq<byte>, pos: nat, a: seq<byte>, b: seq<byte>)
    requires At(d, pos, a + b)
    ensures At(d, pos, a) && At(d, pos + |a|, b)
  {
    forall k | pos <= k < pos + |a| ensures d[k] == a[k - pos] { assert (a + b)[k - pos] == a[k - pos]; }
    forall k | pos + |a| <= k < pos + |a| + |b| ensures d[k] == b[k - pos - |a|] {
      assert (a + b)[k - pos] == b[k - pos - |a|];
    }
  }

  // Size varints: seven bits a byte, least significant first

  ghost function Varint(d: seq<byte>, pos: nat): (p: Parsed)
    ensures p.Val? ==> pos < p.next <= |d|
    decreases |d| - pos
  {
    if pos >= |d| then Short
    else if d[pos] < 128 then Val(d[pos], pos + 1)
    else Over(d[pos] - 128, 128, Varint(d, pos + 1))
  }

  function Wrap(v: nat): nat { v % TwoTo64 }

  lemma WrapSmall(v: nat)
    requires v < TwoTo64
    ensures Wrap(v) == v
  {
  }

  /** The size varint as a uint64: higher bits fall off. */
  ghost function SizeAt(d: seq<byte>, pos: nat): Parsed
  {
    match Varint(d, pos) case Short => Short case Val(v, next) => Val(Wrap(v), next)
  }

  lemma ModAdd(a: nat, b: nat)
    ensures (a % TwoTo64 + b) % TwoTo64 == (a + b) % TwoTo64
  {
    var q := a / TwoTo64;
    assert a == q * TwoTo64 + a % TwoTo64;
    ModShift(a % TwoTo64 + b, q);
  }

  lemma ModShift(a: nat, q: nat)
    ensures (a + q * TwoTo64) % TwoTo64 == a % TwoTo64
  {
    if q > 0 { ModShift(a, q - 1); }
  }

  lemma OverOver(low: nat, scale: nat, d: nat, p: Parsed)
    ensures Over(low, scale, Over(d, 128, p)) == Over(low + scale * d, scale * 128, p)
    ensures Over(low, scale, Over(d, 256, p)) == Over(low + scale * d, scale * 256, p)
  {
    if p.Val? {
      assert scale * (d + 128 * p.v) == scale * d + scale * 128 * p.v;
      assert scale * (d + 256 * p.v) == scale * d + scale * 256 * p.v;
    }
  }

  lemma Pow2Plus7(n: nat)
    ensures Pow2(n + 7) == Pow2(n) * 128
  {
    assert Pow2(n + 2) == 4 * Pow2(n);
    assert Pow2(n + 4) == 4 * Pow2(n + 2);
    assert Pow2(n + 6) == 4 * Pow2(n + 4);
  }

  method ReadVarint(d: seq<byte>, start: nat) returns (p: Parsed)
    ensures p == SizeAt(d, start)
  {
    var pos: nat, v: nat, shift: nat := start, 0, 0;
    ghost var low: nat := 0;
    while true
      invariant start <= pos && v == low % TwoTo64
      invariant Varint(d, start) == Over(low, Pow2(shift), Varint(d, pos))
      decreases |d| - pos
    {
      if pos >= |d| { return Short; }
      var b := d[pos];
      pos := pos + 1;
      var digit: nat := b % 128;
      var add: nat := Pow2(shift) * digit;
      ModAdd(low, add);
      v := (v + add) % TwoTo64;
      if b < 128 {
        assert Varint(d, start) == Val(low + add, pos);
        return Val(v, pos);
      }
      OverOver(low, Pow2(shift), digit, Varint(d, pos));
      low := low + add;
      Pow2Plus7(shift);
      shift := shift + 7;
    }
  }

  ghost function EncodeVarint(n: nat): (b: seq<byte>)
  {
    if n < 128 then [n] else [128 + n % 128] + EncodeVarint(n / 128)
  }

  lemma {:induction false} VarintRoundTrip(n: nat, d: seq<byte>, pos: nat)
    requires At(d, pos, EncodeVarint(n))
    ensures Varint(d, pos) == Val(n, pos + |EncodeVarint(n)|)
  {
    assert d[pos] == EncodeVarint(n)[0];
    if n >= 128 {
      AtSplit(d, pos, [128 + n % 128], EncodeVarint(n / 128));
      VarintRoundTrip(n / 128, d, pos + 1);
    }
  }

  const OffsetBytes: nat := 4
  const SizeBytes: nat := 3

  // Copy operands: the bytes whose flag bit is set, least significant first

  ghost function Field(d: seq<byte>, pos: nat, flags: nat, n: nat): (p: Parsed)
    requires pos <= |d|
    ensures p.Val? ==> pos <= p.next <= |d|
    decreases n, flags
  {
    if n == 0 then Val(0, pos)
    else if flags % 2 == 0 then Over(0, 256, Field(d, pos, flags / 2, n - 1))
    else if pos >= |d| then Short
    else Over(d[pos], 256, Field(d, pos + 1, flags / 2, n - 1))
  }

  ghost function Pow256(n: nat): nat { if n == 0 then 1 else 256 * Pow256(n - 1) }

  method ReadField(d: seq<byte>, start: nat, flags: nat, n: nat) returns (p: Parsed)
    requires start <= |d|
    ensures p == Field(d, start, flags, n)
  {
    var pos: nat, v: nat, scale: nat, bits: nat := start, 0, 1, flags;
    for i := 0 to n
      invariant start <= pos <= |d|
      invariant Field(d, start, flags, n) == Over(v, scale, Field(d, pos, bits, n - i))
    {
      if bits % 2 == 1 {
        if pos >= |d| { return Short; }
        var b: nat := d[pos];
        OverOver(v, scale, b, Field(d, pos + 1, bits / 2, n - i - 1));
        v := v + scale * b;
        pos := pos + 1;
      } else {
        OverOver(v, scale, 0, Field(d, pos, bits / 2, n - i - 1));
      }
      scale, bits := scale * 256, bits / 2;
    }
    return Val(v, pos);
  }

  // Instructions

  datatype Instr = Copy(off: nat, size: nat) | Insert(data: seq<byte>)

  datatype Decoded = Instruction(i: Instr, next: nat) | Bad(error: Error)

  ghost function InstrAt(d: seq<byte>, pos: nat): (r: Decoded)
    requires pos < |d|
    ensures r.Instruction? ==> pos < r.next <= |d| && (r.i.Insert? ==> 0 < |r.i.data| < 128)
  {
    var op: nat := d[pos];
    if op >= 128 then
      var off := Field(d, pos + 1, op, OffsetBytes);
      if off.Short? then Bad(TruncatedCopy)
      else
        var size := Field(d, off.next, op / 16, SizeBytes);
        if size.Short? then Bad(TruncatedCopy)
        else Instruction(Copy(off.v, if size.v == 0 then 0x10000 else size.v), size.next)
    else if op == 0 then Bad(OpcodeZero)
    else if pos + 1 + op > |d| then Bad(TruncatedInsert)
    else Instruction(Insert(d[pos + 1..pos + 1 + op]), pos + 1 + op)
  }

  predicate InRange(base: seq<byte>, i: Instr)
  {
    match i
    case Copy(off, size) => off + size <= |base|
    case Insert(data) => 0 < |data| < 128
  }

  function Piece(base: seq<byte>, i: Instr): seq<byte>
    requires InRange(base, i)
  {
    match i
    case Copy(off, size) => base[off..off + size]
    case Insert(data) => data
  }

  /** What a list of instructions denotes. */
  ghost function Denote(base: seq<byte>, prog: seq<Instr>): seq<byte>
    requires forall i <- prog :: InRange(base, i)
  {
    if prog == [] then [] else Piece(base, prog[0]) + Denote(base, prog[1..])
  }

  /** What each position of a delta decodes to. */
  ghost function Table(d: seq<byte>): (t: seq<Decoded>)
    ensures |t| == |d| && Forward(t)
  {
    seq(|d|, pos requires 0 <= pos < |d| => InstrAt(d, pos))
  }

  ghost predicate Forward(t: seq<Decoded>)
  {
    forall pos :: 0 <= pos < |t| && t[pos].Instruction? ==> pos < t[pos].next <= |t|
  }

  ghost function RunFrom(base: seq<byte>, t: seq<Decoded>, pos: nat, out: seq<byte>): Result
    requires Forward(t) && pos <= |t|
    decreases |t| - pos
  {
    if pos == |t| then Ok(out)
    else
      match t[pos]
      case Bad(e) => Err(e)
      case Instruction(i, next) =>
        if !InRange(base, i) then Err(CopyOutOfRange) else RunFrom(base, t, next, out + Piece(base, i))
  }

  ghost function Apply(base: seq<byte>, d: seq<byte>): Result
  {
    var a := SizeAt(d, 0);
    if a.Short? then Err(TruncatedVarint)
    else
      var b := SizeAt(d, a.next);
      if b.Short? then Err(TruncatedVarint)
      else
        var r := RunFrom(base, Table(d), b.next, []);
        if r.Ok? && |r.out| != b.v then Err(SizeMismatch) else r
  }

  method ReadInstr(delta: seq<byte>, start: nat) returns (r: Decoded)
    requires start < |delta|
    ensures r == InstrAt(delta, start)
  {
    var op: nat, pos := delta[start], start + 1;
    if op >= 128 {
      var cpOff := ReadField(delta, pos, op, OffsetBytes);
      if cpOff.Short? { return Bad(TruncatedCopy); }
      var cpSize := ReadField(delta, cpOff.next, op / 16, SizeBytes);
      if cpSize.Short? { return Bad(TruncatedCopy); }
      return Instruction(Copy(cpOff.v, if cpSize.v == 0 then 0x10000 else cpSize.v), cpSize.next);
    } else if op != 0 {
      if pos + op > |delta| { return Bad(TruncatedInsert); }
      return Instruction(Insert(delta[pos..pos + op]), pos + op);
    } else {
      return Bad(OpcodeZero);
    }
  }

  method RunInstrs(base: seq<byte>, delta: seq<byte>, start: nat) returns (r: Result)
    requires start <= |delta|
    ensures r == RunFrom(base, Table(delta), start, [])
  {
    var pos, out := start, [];
    ghost var t := Table(delta);
    while pos < |delta|
      invariant pos <= |delta| == |t|
      invariant RunFrom(base, t, start, []) == RunFrom(base, t, pos, out)
    {
      var decoded := ReadInstr(delta, pos);
      assert decoded == t[pos];
      match decoded
      case Bad(error) => return Err(error);
      case Instruction(i, next) =>
        if !InRange(base, i) { return Err(CopyOutOfRange); }
        out, pos := out + Piece(base, i), next;
    }
    return Ok(out);
  }

  method ApplyDelta(base: seq<byte>, delta: seq<byte>) returns (r: Result)
    ensures r == Apply(base, delta)
  {
    var baseSize := ReadVarint(delta, 0);
    if baseSize.Short? { return Err(TruncatedVarint); }
    var outSize := ReadVarint(delta, baseSize.next);
    if outSize.Short? { return Err(TruncatedVarint); }
    r := RunInstrs(base, delta, outSize.next);
    if r.Ok? && |r.out| != outSize.v { r := Err(SizeMismatch); }
  }

  // Soundness: an accepted delta is a list of in-range pieces of the declared total size

  /** prog is what t holds from pos to its end. */
  ghost predicate Holds(t: seq<Decoded>, pos: nat, prog: seq<Instr>)
    decreases |prog|
  {
    if prog == [] then pos == |t|
    else pos < |t| && t[pos].Instruction? && t[pos].i == prog[0] && Holds(t, t[pos].next, prog[1..])
  }

  lemma {:induction false} RunIsDenotation(base: seq<byte>, t: seq<Decoded>, pos: nat, out: seq<byte>) returns (prog: seq<Instr>)
    requires Forward(t) && pos <= |t| && RunFrom(base, t, pos, out).Ok?
    ensures Holds(t, pos, prog) && forall i <- prog :: InRange(base, i)
    ensures RunFrom(base, t, pos, out).out == out + Denote(base, prog)
    decreases |t| - pos
  {
    prog := [];
    if pos < |t| {
      var r := t[pos];
      var rest := RunIsDenotation(base, t, r.next, out + Piece(base, r.i));
      prog := [r.i] + rest;
      assert prog[1..] == rest;
      ConcatAssoc(out, Piece(base, r.i), Denote(base, rest));
    }
  }

  /** The instructions an accepted delta holds are all in range, and the result is what they denote. */
  lemma AcceptedDelta(base: seq<byte>, d: seq<byte>) returns (prog: seq<Instr>, size: nat)
    requires Apply(base, d).Ok?
    ensures forall i <- prog :: InRange(base, i)
    ensures Apply(base, d).out == Denote(base, prog)
    ensures SizeAt(d, 0).Val? && SizeAt(d, SizeAt(d, 0).next).Val? && size == SizeAt(d, SizeAt(d, 0).next).v
    ensures |Apply(base, d).out| == size && Holds(Table(d), SizeAt(d, SizeAt(d, 0).next).next, prog)
  {
    var b := SizeAt(d, SizeAt(d, 0).next);
    prog := RunIsDenotation(base, Table(d), b.next, []);
    size := b.v;
    assert [] + Denote(base, prog) == Denote(base, prog);
  }

  // Completeness: every instruction list has an encoding that runs to what it denotes

  ghost predicate Encodable(i: Instr)
  {
    match i
    case Copy(off, size) => off < 0x1_0000_0000 && 0 < size < 0x100_0000
    case Insert(data) => 0 < |data| < 128
  }

  ghost function FieldBytes(v: nat, n: nat): seq<byte>
    decreases n, v
  {
    if n == 0 then [] else (if v % 256 == 0 then [] else [v % 256]) + FieldBytes(v / 256, n - 1)
  }

  /** One flag bit for each byte of v that is not zero. */
  ghost function Mask(v: nat, n: nat): (m: nat)
    ensures m < Pow2(n)
    decreases n, v
  {
    if n == 0 then 0 else (if v % 256 == 0 then 0 else 1) + 2 * Mask(v / 256, n - 1)
  }

  lemma MaskStep(v: nat, n: nat, high: nat)
    requires n > 0
    ensures Mask(v, n) + Pow2(n) * high
         == (if v % 256 == 0 then 0 else 1) + 2 * (Mask(v / 256, n - 1) + Pow2(n - 1) * high)
  {
  }

  /** The low n bits of flags say which of v's bytes are not zero. */
  ghost predicate FlagsFor(flags: nat, v: nat, n: nat)
    decreases n, v
  {
    n > 0 ==> (flags % 2 == 0 <==> v % 256 == 0) && FlagsFor(flags / 2, v / 256, n - 1)
  }

  lemma {:induction false} MaskFlags(v: nat, n: nat, high: nat)
    ensures FlagsFor(Mask(v, n) + Pow2(n) * high, v, n)
  {
    if n > 0 {
      MaskStep(v, n, high);
      MaskFlags(v / 256, n - 1, high);
    }
  }

  lemma {:induction false} FieldRoundTrip(v: nat, n: nat, flags: nat, d: seq<byte>, pos: nat)
    requires v < Pow256(n) && FlagsFor(flags, v, n) && At(d, pos, FieldBytes(v, n))
    ensures Field(d, pos, flags, n) == Val(v, pos + |FieldBytes(v, n)|)
  {
    if n > 0 {
      var low, rest := v % 256, FieldBytes(v / 256, n - 1);
      if low == 0 {
        assert [] + rest == rest;
        FieldRoundTrip(v / 256, n - 1, flags / 2, d, pos);
      } else {
        AtSplit(d, pos, [low], rest);
        assert d[pos] == [low][0];
        FieldRoundTrip(v / 256, n - 1, flags / 2, d, pos + 1);
      }
    }
  }

  ghost function EncodeInstr(i: Instr): (b: seq<byte>)
    requires Encodable(i)
    ensures |b| > 0
  {
    match i
    case Copy(off, size) =>
      assert Pow2(4) == 16 && Pow2(3) == 8;
      [128 + Mask(off, OffsetBytes) + 16 * Mask(size, SizeBytes)] + (FieldBytes(off, OffsetBytes) + FieldBytes(size, SizeBytes))
    case Insert(data) => [|data|] + data
  }

  ghost function EncodeDelta(baseSize: nat, outSize: nat, prog: seq<Instr>): seq<byte>
    requires forall i <- prog :: Encodable(i)
  {
    EncodeVarint(baseSize) + (EncodeVarint(outSize) + Flatten(Encodings(prog)))
  }

  lemma CopyOp(x: nat, m: nat)
    requires x < Pow2(OffsetBytes) && m < Pow2(SizeBytes)
    ensures var op := 128 + x + 16 * m;
      op < 256 && op == x + Pow2(OffsetBytes) * (8 + m) && op / 16 == m + Pow2(SizeBytes) * 1
  {
    assert Pow2(4) == 16 && Pow2(3) == 8;
  }

  lemma CopyAt(d: seq<byte>, pos: nat, off: nat, mid: nat, size: nat, next: nat)
    requires pos < |d| && d[pos] >= 128 && size > 0
    requires Field(d, pos + 1, d[pos], OffsetBytes) == Val(off, mid)
    requires Field(d, mid, d[pos] / 16, SizeBytes) == Val(size, next)
    ensures InstrAt(d, pos) == Instruction(Copy(off, size), next)
  {
  }

  lemma Pow256Values()
    ensures Pow256(OffsetBytes) == 0x1_0000_0000 && Pow256(SizeBytes) == 0x100_0000
  {
  }

  lemma CopyParts(d: seq<byte>, pos: nat, op: byte, a: seq<byte>, b: seq<byte>)
    requires At(d, pos, [op] + (a + b))
    ensures pos < |d| && d[pos] == op && At(d, pos + 1, a) && At(d, pos + 1 + |a|, b)
  {
    AtSplit(d, pos, [op], a + b);
    AtSplit(d, pos + 1, a, b);
    assert d[pos] == [op][0];
  }

  lemma CopyRoundTrip(i: Instr, d: seq<byte>, pos: nat)
    requires Encodable(i) && i.Copy? && At(d, pos, EncodeInstr(i))
    ensures InstrAt(d, pos) == Instruction(i, pos + |EncodeInstr(i)|)
  {
    var a, b := FieldBytes(i.off, OffsetBytes), FieldBytes(i.size, SizeBytes);
    var x, m := Mask(i.off, OffsetBytes), Mask(i.size, SizeBytes);
    CopyOp(x, m);
    Pow256Values();
    CopyParts(d, pos, 128 + x + 16 * m, a, b);
    MaskFlags(i.off, OffsetBytes, 8 + m);
    FieldRoundTrip(i.off, OffsetBytes, d[pos], d, pos + 1);
    MaskFlags(i.size, SizeBytes, 1);
    FieldRoundTrip(i.size, SizeBytes, d[pos] / 16, d, pos + 1 + |a|);
    CopyAt(d, pos, i.off, pos + 1 + |a|, i.size, pos + 1 + |a| + |b|);
  }

  lemma InstrRoundTrip(i: Instr, d: seq<byte>, pos: nat)
    requires Encodable(i) && At(d, pos, EncodeInstr(i))
    ensures InstrAt(d, pos) == Instruction(i, pos + |EncodeInstr(i)|)
  {
    if i.Copy? {
      CopyRoundTrip(i, d, pos);
    } else {
      AtSplit(d, pos, [|i.data|], i.data);
      assert d[pos] == [|i.data|][0];
      assert d[pos + 1..pos + 1 + |i.data|] == i.data;
    }
  }

  /** The encodings of prog's instructions stand in d from pos to its end. */
  ghost predicate Encodes(d: seq<byte>, pos: nat, es: seq<seq<byte>>)
    decreases |es|
  {
    if es == [] then pos == |d| else At(d, pos, es[0]) && Encodes(d, pos + |es[0]|, es[1..])
  }

  ghost function Encodings(prog: seq<Instr>): seq<seq<byte>>
    requires forall i <- prog :: Encodable(i)
  {
    seq(|prog|, k requires 0 <= k < |prog| => EncodeInstr(prog[k]))
  }

  lemma {:induction false} FlattenEncodes(d: seq<byte>, pos: nat, es: seq<seq<byte>>)
    requires At(d, pos, Flatten(es)) && pos + |Flatten(es)| == |d|
    ensures Encodes(d, pos, es)
    decreases |es|
  {
    if es != [] {
      FlattenCons(es);
      AtSplit(d, pos, es[0], Flatten(es[1..]));
      FlattenEncodes(d, pos + |es[0]|, es[1..]);
    }
  }

  ghost predicate IsEncoding(i: Instr, e: seq<byte>) { Encodable(i) && e == EncodeInstr(i) }

  lemma TableEncoded(i: Instr, e: seq<byte>, d: seq<byte>, pos: nat)
    requires IsEncoding(i, e) && At(d, pos, e)
    ensures pos < |d| && Table(d)[pos] == Instruction(i, pos + |e|)
  {
    InstrRoundTrip(i, d, pos);
  }

  lemma {:induction false} EncodedHolds(prog: seq<Instr>, es: seq<seq<byte>>, d: seq<byte>, t: seq<Decoded>, pos: nat)
    requires |es| == |prog| && Encodes(d, pos, es)
    requires |t| == |d| && forall i, e, p: nat :: IsEncoding(i, e) && At(d, p, e) ==> p < |t| && t[p] == Instruction(i, p + |e|)
    requires forall k :: 0 <= k < |prog| ==> IsEncoding(prog[k], es[k])
    ensures Holds(t, pos, prog)
    decreases |prog|
  {
    if prog != [] {
      assert IsEncoding(prog[0], es[0]) && At(d, pos, es[0]);
      EncodedHolds(prog[1..], es[1..], d, t, pos + |es[0]|);
    }
  }

  lemma {:induction false} HeldRuns(base: seq<byte>, prog: seq<Instr>, t: seq<Decoded>, pos: nat, out: seq<byte>)
    requires (forall i <- prog :: InRange(base, i)) && Forward(t) && Holds(t, pos, prog)
    ensures pos <= |t| && RunFrom(base, t, pos, out) == Ok(out + Denote(base, prog))
    decreases |prog|
  {
    if prog == [] {
      assert out + [] == out;
    } else {
      HeldRuns(base, prog[1..], t, t[pos].next, out + Piece(base, prog[0]));
      ConcatAssoc(out, Piece(base, prog[0]), Denote(base, prog[1..]));
    }
  }

  lemma HeaderRoundTrip(a: nat, b: nat, rest: seq<byte>) returns (d: seq<byte>, mid: nat, pos: nat)
    ensures d == EncodeVarint(a) + (EncodeVarint(b) + rest)
    ensures Varint(d, 0) == Val(a, mid) && Varint(d, mid) == Val(b, pos) && At(d, pos, rest) && pos + |rest| == |d|
  {
    var x, y := EncodeVarint(a), EncodeVarint(b);
    d, mid, pos := x + (y + rest), |x|, |x| + |y|;
    assert At(d, 0, d);
    AtSplit(d, 0, x, y + rest);
    AtSplit(d, mid, y, rest);
    VarintRoundTrip(a, d, 0);
    VarintRoundTrip(b, d, mid);
  }

  lemma ApplyRun(base: seq<byte>, d: seq<byte>, mid: nat, pos: nat, out: seq<byte>)
    requires Varint(d, 0).Val? && Varint(d, 0).next == mid && Varint(d, mid) == Val(|out|, pos) && |out| < TwoTo64
    requires RunFrom(base, Table(d), pos, []) == Ok([] + out)
    ensures Apply(base, d) == Ok(out)
  {
    WrapSmall(|out|);
    assert SizeAt(d, mid) == Val(|out|, pos);
    assert [] + out == out;
  }

  /** Encoding any instructions that are valid for a base and running the delta yields what they denote. */
  lemma DeltaRoundTrip(base: seq<byte>, baseSize: nat, prog: seq<Instr>)
    requires forall i <- prog :: Encodable(i) && InRange(base, i)
    requires |Denote(base, prog)| < TwoTo64
    ensures Apply(base, EncodeDelta(baseSize, |Denote(base, prog)|, prog)) == Ok(Denote(base, prog))
  {
    var d, mid, pos := HeaderRoundTrip(baseSize, |Denote(base, prog)|, Flatten(Encodings(prog)));
    FlattenEncodes(d, pos, Encodings(prog));
    forall i, e, p: nat | IsEncoding(i, e) && At(d, p, e) ensures p < |d| && Table(d)[p] == Instruction(i, p + |e|) {
      TableEncoded(i, e, d, p);
    }
    EncodedHolds(prog, Encodings(prog), d, Table(d), pos);
    HeldRuns(base, prog, Table(d), pos, []);
    ApplyRun(base, d, mid, pos, Denote(base, prog));
  }
}

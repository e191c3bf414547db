/** gitstate/object.go: what the bytes of an unpacked object come from. */
module GitDeltaMeans {
  import opened Bytes
  import opened GitNumber
  import opened GitDelta

  lemma {:induction false} DenoteConcat(base: seq<byte>, a: seq<Instr>, b: seq<Instr>)
    requires forall i <- a + b :: InRange(base, i)
    ensures (forall i <- a :: InRange(base, i)) && (forall i <- b :: InRange(base, i))
    ensures Denote(base, a + b) == Denote(base, a) + Denote(base, b)
    decreases |a|
  {
    forall i <- a ensures InRange(base, i) { assert i in a + b; }
    forall i <- b ensures InRange(base, i) { assert i in a + b; }
    if a == [] {
      assert a + b == b;
    } else {
      assert (a + b)[1..] == a[1..] + b;
      DenoteConcat(base, a[1..], b);
      ConcatAssoc(Piece(base, a[0]), Denote(base, a[1..]), Denote(base, b));
    }
  }

  lemma PieceAt(base: seq<byte>, i: Instr, k: nat)
    requires InRange(base, i)
    ensures match i
      case Copy(off, size) => |Piece(base, i)| == size && (k < size ==> off + k < |base| && Piece(base, i)[k] == base[off + k])
      case Insert(data) => |Piece(base, i)| == |data| && (k < |data| ==> Piece(base, i)[k] == data[k])
  {
  }

  /** After what the instructions before it give, the k-th byte of a copy is the base's at the offset and k. */
  lemma CopiedByte(base: seq<byte>, before: seq<Instr>, off: nat, size: nat, after: seq<Instr>, k: nat)
    requires (forall i <- before + [Copy(off, size)] + after :: InRange(base, i)) && k < size
    ensures (forall i <- before :: InRange(base, i)) && off + k < |base|
    ensures var out, at := Denote(base, before + [Copy(off, size)] + after), |Denote(base, before)| + k;
      at < |out| && out[at] == base[off + k]
  {
    var c := [Copy(off, size)];
    PartAt(base, before, Copy(off, size), after);
    PieceAt(base, Copy(off, size), k);
  }

  /** And of an insert, its own. */
  lemma InsertedByte(base: seq<byte>, before: seq<Instr>, data: seq<byte>, after: seq<Instr>, k: nat)
    requires (forall i <- before + [Insert(data)] + after :: InRange(base, i)) && k < |data|
    ensures forall i <- before :: InRange(base, i)
    ensures var out, at := Denote(base, before + [Insert(data)] + after), |Denote(base, before)| + k;
      at < |out| && out[at] == data[k]
  {
    PartAt(base, before, Insert(data), after);
    PieceAt(base, Insert(data), k);
  }

  lemma PartAt(base: seq<byte>, before: seq<Instr>, i: Instr, after: seq<Instr>)
    requires forall j <- before + [i] + after :: InRange(base, j)
    ensures InRange(base, i) && (forall j <- before :: InRange(base, j)) && (forall j <- after :: InRange(base, j))
    ensures Denote(base, before + [i] + after) == Denote(base, before) + Piece(base, i) + Denote(base, after)
  {
    assert i in before + [i] + after;
    DenoteConcat(base, before + [i], after);
    DenoteConcat(base, before, [i]);
    assert Denote(base, [i]) == Piece(base, i) + [];
  }

  /** A copy is carried out exactly when it lies inside the base, up to its last byte. */
  lemma SingleCopy(base: seq<byte>, off: nat, size: nat)
    requires off < 0x1_0000_0000 && 0 < size < 0x100_0000
    ensures Apply(base, EncodeDelta(|base|, size, [Copy(off, size)]))
         == if off + size <= |base| then Ok(base[off..off + size]) else Err(CopyOutOfRange)
  {
    var i := Copy(off, size);
    var d, mid, pos := HeaderRoundTrip(|base|, size, Flatten(Encodings([i])));
    FlattenCons(Encodings([i]));
    assert Flatten(Encodings([i])) == EncodeInstr(i);
    TableEncoded(i, EncodeInstr(i), d, pos);
    if off + size <= |base| {
      assert RunFrom(base, Table(d), |d|, [] + base[off..off + size]).Ok?;
      ApplyRun(base, d, mid, pos, base[off..off + size]);
    } else {
      OneRefused(base, d, mid, pos, size);
    }
  }

  lemma OneRefused(base: seq<byte>, d: seq<byte>, mid: nat, pos: nat, size: nat)
    requires Varint(d, 0).Val? && Varint(d, 0).next == mid && Varint(d, mid) == Val(size, pos)
    requires pos < |d| && Table(d)[pos].Instruction? && !InRange(base, Table(d)[pos].i)
    ensures Apply(base, d) == Err(CopyOutOfRange)
  {
  }
}

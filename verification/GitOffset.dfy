/** gitstate/object.go: the offset encoding of ofs-deltas (gitformat-pack(5), "pack-*.pack files have the following format"). */
module GitOffset {
  import opened Bytes
  import opened GitNumber

  /** Seven bits a byte, most significant first, one added at each continuation. */
  ghost function Value(bs: seq<byte>): nat
  {
    if bs == [] then 0
    else
      var low := bs[|bs| - 1] as nat % 128;
      if |bs| == 1 then low else (Value(bs[..|bs| - 1]) + 1) * 128 + low
  }

  /** All bytes but the last announce another. */
  ghost predicate Terminated(bs: seq<byte>)
  {
    bs != [] && bs[|bs| - 1] < 128 && Continued(bs[..|bs| - 1])
  }

  ghost predicate Continued(bs: seq<byte>) { forall i :: 0 <= i < |bs| ==> bs[i] >= 128 }

  /** The position after the first byte from pos on that announces no other; none if beyond the end. */
  ghost function EndOf(bs: seq<byte>, pos: nat): (end: nat)
    ensures end <= |bs| ==> pos < end
    decreases |bs| - pos
  {
    if pos >= |bs| then |bs| + 1 else if bs[pos] < 128 then pos + 1 else EndOf(bs, pos + 1)
  }

  /** The number at pos, as a uint64. */
  ghost function OffsetAt(bs: seq<byte>, pos: nat): Parsed
  {
    var end := EndOf(bs, pos);
    if end > |bs| then Short else Val(Value(bs[pos..end]) % TwoTo64, end)
  }

  lemma WrapStep(v: nat, low: nat)
    requires low < 128
    ensures ((v % TwoTo64 + 1) * 128 + low) % TwoTo64 == ((v + 1) * 128 + low) % TwoTo64
  {
    var q := v / TwoTo64;
    assert v == q * TwoTo64 + v % TwoTo64;
    var a := (v % TwoTo64 + 1) * 128 + low;
    assert (v + 1) * 128 + low == a + (q * 128) * TwoTo64;
    ModMultiple(a, q * 128);
  }

  lemma ModMultiple(a: nat, k: nat)
    ensures (a + k * TwoTo64) % TwoTo64 == a % TwoTo64
  {
  }

  lemma ValueSnoc(bs: seq<byte>, pos: nat, next: nat)
    requires pos < next < |bs|
    ensures Value(bs[pos..next + 1]) == (Value(bs[pos..next]) + 1) * 128 + bs[next] as nat % 128
  {
    var w := bs[pos..next + 1];
    assert w[..|w| - 1] == bs[pos..next] && w[|w| - 1] == bs[next];
  }

  method ReadOffset(bs: seq<byte>, pos: nat) returns (p: Parsed)
    ensures p == OffsetAt(bs, pos)
  {
    if pos >= |bs| { return Short; }
    var c, next := bs[pos], pos + 1;
    var rel: nat := c as nat % 128;
    assert bs[pos..next] == [c];
    while c >= 128
      invariant pos < next <= |bs| && c == bs[next - 1]
      invariant EndOf(bs, pos) == if c < 128 then next else EndOf(bs, next)
      invariant rel == Value(bs[pos..next]) % TwoTo64
      decreases |bs| - next
    {
      if next >= |bs| { return Short; }
      c := bs[next];
      ValueSnoc(bs, pos, next);
      WrapStep(Value(bs[pos..next]), c as nat % 128);
      rel := ((rel + 1) * 128 + c as nat % 128) % TwoTo64;
      next := next + 1;
    }
    return Val(rel, next);
  }

  // Writing

  ghost function Encode(n: nat, more: bool): (bs: seq<byte>)
    ensures bs != []
  {
    var last := (n % 128 + if more then 128 else 0) as byte;
    if n < 128 then [last] else Encode(n / 128 - 1, true) + [last]
  }

  lemma {:induction false} EncodeValue(n: nat, more: bool)
    ensures Value(Encode(n, more)) == n
    ensures if more then Continued(Encode(n, more)) else Terminated(Encode(n, more))
    decreases n
  {
    if n >= 128 {
      EncodeValue(n / 128 - 1, true);
      var bs := Encode(n, more);
      assert bs[..|bs| - 1] == Encode(n / 128 - 1, true);
    }
  }

  lemma {:induction false} ValueEncode(bs: seq<byte>, more: bool)
    requires bs != [] && if more then Continued(bs) else Terminated(bs)
    ensures Encode(Value(bs), more) == bs
    decreases |bs|
  {
    var last := bs[|bs| - 1];
    if |bs| == 1 {
      assert bs == [last];
    } else {
      var before := bs[..|bs| - 1];
      assert Continued(before);
      ValueEncode(before, true);
      var n := Value(bs);
      assert n == (Value(before) + 1) * 128 + last as nat % 128;
      assert n / 128 - 1 == Value(before) && n % 128 == last as nat % 128;
      assert bs == before + [last];
    }
  }

  lemma {:induction false} EndOfTerminated(e: seq<byte>, rest: seq<byte>, k: nat)
    requires Terminated(e) && k < |e|
    ensures EndOf(e + rest, k) == |e|
    decreases |e| - k
  {
    assert (e + rest)[k] == e[k];
    if k < |e| - 1 {
      assert e[..|e| - 1][k] == e[k];
      EndOfTerminated(e, rest, k + 1);
    }
  }

  /** A number below 2^64 is read back, whatever follows it. */
  lemma OffsetRoundTrip(n: nat, rest: seq<byte>)
    requires n < TwoTo64
    ensures OffsetAt(Encode(n, false) + rest, 0) == Val(n, |Encode(n, false)|)
  {
    var e := Encode(n, false);
    EncodeValue(n, false);
    EndOfTerminated(e, rest, 0);
    assert (e + rest)[0..|e|] == e;
  }

  /** Every number has exactly one encoding: no byte sequence is wasted. */
  lemma OffsetBijection(n: nat, bs: seq<byte>)
    ensures Terminated(Encode(n, false)) && Value(Encode(n, false)) == n
    ensures Terminated(bs) && Value(bs) == n ==> bs == Encode(n, false)
  {
    EncodeValue(n, false);
    if Terminated(bs) { ValueEncode(bs, false); }
  }
}

/** Bytes, big-endian integers and the small sequence vocabulary the other modules share. */
module Bytes {

  type byte = x: int | 0 <= x < 256

  const TwoTo32: int := 0x1_0000_0000
  const TwoTo64: int := 0x1_0000_0000_0000_0000

  /** row is what f has at pos. */
  ghost predicate Has(f: seq<byte>, pos: int, row: seq<byte>)
  {
    0 <= pos && pos + |row| <= |f| && forall i :: 0 <= i < |row| ==> row[i] == f[pos + i]
  }

  /** The last n elements of s, or all of s when it is shorter. */
  function LastN<T>(n: nat, s: seq<T>): (r: seq<T>)
    ensures |r| == (if |s| <= n then |s| else n) && r == s[|s| - |r|..]
  {
    if |s| <= n then s else s[|s| - n..]
  }

  /** Truncating before an append loses nothing that survives the append. */
  lemma LastNAbsorbs<T>(n: nat, a: seq<T>, b: seq<T>)
    ensures LastN(n, LastN(n, a) + b) == LastN(n, a + b)
  {
    if |a| > n {
      assert a == a[..|a| - n] + a[|a| - n..];
      assert a + b == a[..|a| - n] + (a[|a| - n..] + b);
    }
  }

  lemma ConcatAssoc<T>(a: seq<T>, b: seq<T>, c: seq<T>)
    ensures (a + b) + c == a + (b + c)
  {
  }

  function Flatten<T>(ss: seq<seq<T>>): seq<T>
  {
    if ss == [] then [] else Flatten(ss[..|ss| - 1]) + ss[|ss| - 1]
  }

  lemma {:induction false} FlattenAppend<T>(a: seq<seq<T>>, b: seq<seq<T>>)
    ensures Flatten(a + b) == Flatten(a) + Flatten(b)
  {
    if b == [] {
      assert a + b == a;
    } else {
      var b' := b[..|b| - 1];
      FlattenAppend(a, b');
      assert (a + b)[..|a + b| - 1] == a + b';
    }
  }

  lemma FlattenCons<T>(ss: seq<seq<T>>)
    requires ss != []
    ensures Flatten(ss) == ss[0] + Flatten(ss[1..])
  {
    FlattenAppend([ss[0]], ss[1..]);
    assert ss == [ss[0]] + ss[1..] && [ss[0]][..0] == [];
    assert Flatten([ss[0]]) == ss[0];
  }

  function PutUint32(n: int): (b: seq<byte>)
    requires 0 <= n < TwoTo32
    ensures |b| == 4 && Uint32(b) == n
  {
    var q1, q2 := n / 0x100, n / 0x100 / 0x100;
    [q2 / 0x100, q2 % 0x100, q1 % 0x100, n % 0x100]
  }

  function Uint32(b: seq<byte>): (n: int)
    requires |b| == 4
    ensures 0 <= n < TwoTo32
  {
    var b0: int, b1: int, b2: int, b3: int := b[0], b[1], b[2], b[3];
    ((b0 * 0x100 + b1) * 0x100 + b2) * 0x100 + b3
  }

  /** Most significant byte first. */
  lemma BigEndian(b: seq<byte>)
    requires |b| == 4
    ensures Uint32(b) == ((b[0] as int * 256 + b[1]) * 256 + b[2]) * 256 + b[3]
  {
  }

  lemma Uint32Injective(a: seq<byte>, b: seq<byte>)
    requires |a| == |b| == 4
    requires Uint32(a) == Uint32(b)
    ensures a == b
  {
    var a0: int, a1: int, a2: int := a[0], a[1], a[2];
    var b0: int, b1: int, b2: int := b[0], b[1], b[2];
    assert a[3] == b[3];
    assert (a0 * 0x100 + a1) * 0x100 + a2 == (b0 * 0x100 + b1) * 0x100 + b2;
    assert a0 * 0x100 + a1 == b0 * 0x100 + b1;
  }

  function Uint64(b: seq<byte>): (n: int)
    requires |b| == 8
    ensures 0 <= n < TwoTo64
  {
    Uint32(b[..4]) * TwoTo32 + Uint32(b[4..])
  }
}

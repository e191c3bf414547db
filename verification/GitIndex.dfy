/**
 * gitstate/object.go: lookupPackOffset, the search of a version 2 pack index
 * (gitformat-pack(5), "Version 2 pack-*.idx files").  A file is its bytes, and
 * every access below is proved to lie inside them.
 */
module GitIndex {
  import opened Bytes

  type File = seq<byte>

  const NamesStart: nat := 8 + 256 * 4
  const Magic: nat := 0xff744f63

  datatype Error = HashLength | ShortHeader | Format | Fanout | Truncated | LargeOffset | SeekRange
  datatype Lookup = Found(offset: nat) | Missing | Bad(error: Error)

  function Uint32At(f: File, pos: nat): nat
    requires pos + 4 <= |f|
  {
    Uint32(f[pos..pos + 4])
  }

  /** How many names start with a byte up to b, as the file has it. */
  function FanoutAt(f: File, b: nat): nat
    requires |f| >= NamesStart && b < 256
  {
    Uint32At(f, 8 + 4 * b)
  }

  function Total(f: File): nat
    requires |f| >= NamesStart
  {
    FanoutAt(f, 255)
  }

  function Off4Start(total: nat): nat { NamesStart + total * 24 }
  function Off8Start(total: nat): nat { Off4Start(total) + total * 4 }

  /** The tables end before the two checksums. */
  function TableEnd(f: File): int { |f| - 40 }

  ghost predicate Monotone(f: File)
    requires |f| >= NamesStart
  {
    (forall b, c :: 0 <= b <= c < 256 ==> FanoutAt(f, b) <= FanoutAt(f, c))
  }

  ghost predicate TablesFit(f: File)
    requires |f| >= NamesStart
  {
    Off8Start(Total(f)) <= TableEnd(f) && (TableEnd(f) - Off8Start(Total(f))) % 8 == 0
  }

  ghost predicate Accepts(f: File)
  {
    |f| >= NamesStart && Uint32At(f, 0) == Magic && Uint32At(f, 4) == 2 && Monotone(f) && TablesFit(f)
  }

  function Name(f: File, i: nat): (n: seq<byte>)
    requires NamesStart + 20 * i + 20 <= |f|
    ensures |n| == 20
  {
    f[NamesStart + i * 20..NamesStart + i * 20 + 20]
  }

  /** The pack offset stored for the i-th name: 31 bits, or an entry of the 64-bit table. */
  function Entry(f: File, i: nat): (r: Lookup)
    requires |f| >= NamesStart && Off8Start(Total(f)) <= TableEnd(f) && i < Total(f)
  {
    var o := Uint32At(f, Off4Start(Total(f)) + i * 4);
    if o < 0x8000_0000 then Found(o)
    else
      var pos := Off8Start(Total(f)) + (o - 0x8000_0000) * 8;
      if pos + 8 > TableEnd(f) then Bad(LargeOffset)
      else
        var large := Uint64(f[pos..pos + 8]);
        if large > 0x7FFF_FFFF_FFFF_FFFF then Bad(SeekRange) else Found(large)
  }

  // bytes.Compare

  function Compare(a: seq<byte>, b: seq<byte>): (r: int)
  {
    if a == [] then if b == [] then 0 else -1
    else if b == [] then 1
    else if a[0] < b[0] then -1
    else if a[0] > b[0] then 1
    else Compare(a[1..], b[1..])
  }

  lemma {:induction false} CompareOrder(a: seq<byte>, b: seq<byte>)
    ensures Compare(a, b) == 0 <==> a == b
    ensures Compare(a, b) == -Compare(b, a)
    decreases |a|
  {
    if a != [] && b != [] && a[0] == b[0] {
      CompareOrder(a[1..], b[1..]);
      assert a == [a[0]] + a[1..] && b == [b[0]] + b[1..];
    }
  }

  lemma {:induction false} CompareTransitive(a: seq<byte>, b: seq<byte>, c: seq<byte>)
    requires Compare(a, b) < 0 && Compare(b, c) < 0
    ensures Compare(a, c) < 0
    decreases |a|
  {
    if a != [] && a[0] == b[0] == c[0] { CompareTransitive(a[1..], b[1..], c[1..]); }
  }

  // The lookup and its linear reference

  ghost function LinearFrom(f: File, want: seq<byte>, i: nat): Lookup
    requires Accepts(f) && i <= Total(f)
    decreases Total(f) - i
  {
    if i == Total(f) then Missing
    else if Name(f, i) == want then Entry(f, i)
    else LinearFrom(f, want, i + 1)
  }

  ghost predicate SortedNames(f: File)
    requires Accepts(f)
  {
    forall i: nat, j: nat :: i < j < Total(f) ==> Compare(Name(f, i), Name(f, j)) < 0
  }

  ghost predicate FanoutMatches(f: File)
    requires Accepts(f)
  {
    forall i: nat, b: nat :: i < Total(f) && b < 256 ==> (i < FanoutAt(f, b) <==> Name(f, i)[0] <= b)
  }

  ghost predicate WellFormed(f: File) { Accepts(f) && SortedNames(f) && FanoutMatches(f) }

  lemma {:induction false} LinearFinds(f: File, want: seq<byte>, i: nat, at: nat)
    requires Accepts(f) && SortedNames(f) && i <= at < Total(f) && Name(f, at) == want
    ensures LinearFrom(f, want, i) == Entry(f, at)
    decreases at - i
  {
    if i < at {
      CompareOrder(Name(f, i), Name(f, at));
      assert Name(f, i) != want;
      LinearFinds(f, want, i + 1, at);
    }
  }

  lemma {:induction false} LinearMisses(f: File, want: seq<byte>, i: nat)
    requires Accepts(f) && i <= Total(f)
    requires forall k: nat :: i <= k < Total(f) ==> Name(f, k) != want
    ensures LinearFrom(f, want, i) == Missing
    decreases Total(f) - i
  {
    if i < Total(f) { LinearMisses(f, want, i + 1); }
  }

  /** Every name that could be want lies between lo and hi. */
  ghost predicate Narrowed(f: File, want: seq<byte>, lo: nat, hi: nat)
    requires Accepts(f)
  {
    forall k: nat :: k < Total(f) && Name(f, k) == want ==> lo <= k < hi
  }

  lemma BucketBounds(f: File, want: seq<byte>, lo: nat, hi: nat)
    requires Accepts(f) && |want| == 20
    requires lo == (if want[0] > 0 then FanoutAt(f, want[0] - 1) else 0) && hi == FanoutAt(f, want[0])
    ensures lo <= hi <= Total(f) && (WellFormed(f) ==> Narrowed(f, want, lo, hi))
  {
    if WellFormed(f) {
      forall k: nat | k < Total(f) && Name(f, k) == want ensures lo <= k < hi {
        assert k < FanoutAt(f, want[0]);
        assert want[0] > 0 ==> !(k < FanoutAt(f, want[0] - 1));
      }
    }
  }

  lemma NarrowUp(f: File, want: seq<byte>, lo: nat, hi: nat, mid: nat)
    requires WellFormed(f) && Narrowed(f, want, lo, hi) && mid < Total(f) && Compare(Name(f, mid), want) < 0
    ensures Narrowed(f, want, mid + 1, hi)
  {
    forall k: nat | k < Total(f) && Name(f, k) == want ensures mid + 1 <= k {
      CompareOrder(Name(f, mid), want);
    }
  }

  lemma NarrowDown(f: File, want: seq<byte>, lo: nat, hi: nat, mid: nat)
    requires WellFormed(f) && Narrowed(f, want, lo, hi) && mid < Total(f) && Compare(Name(f, mid), want) > 0
    ensures Narrowed(f, want, lo, mid)
  {
    forall k: nat | k < Total(f) && Name(f, k) == want ensures k < mid {
      CompareOrder(Name(f, mid), want);
    }
  }

  /** Where the search for want starts and ends. */
  function BucketStart(f: File, want: seq<byte>): nat
    requires |f| >= NamesStart && |want| == 20
  {
    if want[0] > 0 then FanoutAt(f, want[0] - 1) else 0
  }

  ghost function BinaryFrom(f: File, want: seq<byte>, lo: nat, hi: nat): Lookup
    requires Accepts(f) && lo <= hi <= Total(f)
    decreases hi - lo
  {
    if lo == hi then Missing
    else
      var mid := lo + (hi - lo) / 2;
      var c := Compare(Name(f, mid), want);
      if c == 0 then Entry(f, mid) else if c < 0 then BinaryFrom(f, want, mid + 1, hi) else BinaryFrom(f, want, lo, mid)
  }

  /** What the lookup makes of any file and any name. */
  ghost function LookupAt(f: File, want: seq<byte>): Lookup
  {
    if |want| != 20 then Bad(HashLength)
    else if |f| < NamesStart then Bad(ShortHeader)
    else if Uint32At(f, 0) != Magic || Uint32At(f, 4) != 2 then Bad(Format)
    else if !Monotone(f) then Bad(Fanout)
    else if !TablesFit(f) then Bad(Truncated)
    else
      BucketBounds(f, want, BucketStart(f, want), FanoutAt(f, want[0]));
      BinaryFrom(f, want, BucketStart(f, want), FanoutAt(f, want[0]))
  }

  method CheckFanout(f: File) returns (ok: bool)
    requires |f| >= NamesStart
    ensures ok <==> Monotone(f)
  {
    var total := FanoutAt(f, 255);
    var prev := 0;
    for i := 0 to 256
      invariant forall b, c :: 0 <= b <= c < i ==> FanoutAt(f, b) <= FanoutAt(f, c) <= total
      invariant prev == if i == 0 then 0 else FanoutAt(f, i - 1)
    {
      var n := FanoutAt(f, i);
      if n < prev || n > total {
        assert i > 0 ==> FanoutAt(f, i - 1) == prev;
        assert FanoutAt(f, 255) == total;
        return false;
      }
      prev := n;
    }
    return true;
  }

  lemma {:induction false} BinaryFinds(f: File, want: seq<byte>, lo: nat, hi: nat)
    requires Accepts(f) && lo <= hi <= Total(f)
    ensures var r := BinaryFrom(f, want, lo, hi);
      r.Missing? || exists i: nat :: i < Total(f) && Name(f, i) == want && r == Entry(f, i)
    decreases hi - lo
  {
    if lo < hi {
      var mid := lo + (hi - lo) / 2;
      CompareOrder(Name(f, mid), want);
      BinaryFinds(f, want, mid + 1, hi);
      BinaryFinds(f, want, lo, mid);
    }
  }

  lemma {:induction false} BinaryIsLinear(f: File, want: seq<byte>, lo: nat, hi: nat)
    requires WellFormed(f) && lo <= hi <= Total(f) && Narrowed(f, want, lo, hi)
    ensures BinaryFrom(f, want, lo, hi) == LinearFrom(f, want, 0)
    decreases hi - lo
  {
    if lo == hi {
      LinearMisses(f, want, 0);
    } else {
      var mid := lo + (hi - lo) / 2;
      var c := Compare(Name(f, mid), want);
      CompareOrder(Name(f, mid), want);
      if c == 0 {
        LinearFinds(f, want, 0, mid);
      } else if c < 0 {
        NarrowUp(f, want, lo, hi, mid);
        BinaryIsLinear(f, want, mid + 1, hi);
      } else {
        NarrowDown(f, want, lo, hi, mid);
        BinaryIsLinear(f, want, lo, mid);
      }
    }
  }

  /** One turn of the loop: the answer, or the half that is left. */
  method Halve(f: File, want: seq<byte>, lo: nat, hi: nat) returns (found: bool, r: Lookup, lo': nat, hi': nat)
    requires Accepts(f) && lo < hi <= Total(f)
    ensures found ==> r == BinaryFrom(f, want, lo, hi)
    ensures !found ==> lo <= lo' <= hi' <= hi && hi' - lo' < hi - lo && BinaryFrom(f, want, lo', hi') == BinaryFrom(f, want, lo, hi)
  {
    var mid := lo + (hi - lo) / 2;
    var c := Compare(Name(f, mid), want);
    if c == 0 { return true, Entry(f, mid), lo, hi; }
    if c < 0 { return false, Missing, mid + 1, hi; }
    return false, Missing, lo, mid;
  }

  /** The loop that narrows lo and hi. */
  method Narrow(f: File, want: seq<byte>, from: nat, to: nat) returns (r: Lookup)
    requires Accepts(f) && from <= to <= Total(f)
    ensures r == BinaryFrom(f, want, from, to)
  {
    var lo: nat, hi: nat := from, to;
    while lo < hi
      invariant lo <= hi <= to && BinaryFrom(f, want, lo, hi) == BinaryFrom(f, want, from, to)
      decreases hi - lo
    {
      var found;
      found, r, lo, hi := Halve(f, want, lo, hi);
      if found { return; }
    }
    return Missing;
  }

  /** Binary search within the bucket of want's first byte. */
  method Search(f: File, want: seq<byte>) returns (r: Lookup)
    requires Accepts(f) && |want| == 20
    ensures r.Missing? || exists i: nat :: i < Total(f) && Name(f, i) == want && r == Entry(f, i)
    ensures WellFormed(f) ==> r == LinearFrom(f, want, 0)
    ensures r == LookupAt(f, want)
  {
    var lo: nat, hi: nat := BucketStart(f, want), FanoutAt(f, want[0]);
    BucketBounds(f, want, lo, hi);
    r := Narrow(f, want, lo, hi);
    BinaryFinds(f, want, lo, hi);
    if WellFormed(f) { BinaryIsLinear(f, want, lo, hi); }
  }

  method LookupPackOffset(f: File, want: seq<byte>) returns (r: Lookup)
    ensures r.Bad? && r.error !in {LargeOffset, SeekRange} <==> |want| != 20 || !Accepts(f)
    ensures r.Found? ==> Accepts(f) && exists i: nat :: i < Total(f) && Name(f, i) == want && r == Entry(f, i)
    ensures |want| == 20 && WellFormed(f) ==> r == LinearFrom(f, want, 0)
    ensures r == LookupAt(f, want)
  {
    if |want| != 20 { return Bad(HashLength); }
    if |f| < NamesStart { return Bad(ShortHeader); }
    if Uint32At(f, 0) != Magic || Uint32At(f, 4) != 2 { return Bad(Format); }
    var monotone := CheckFanout(f);
    if !monotone { return Bad(Fanout); }
    var total := Total(f);
    if Off8Start(total) > TableEnd(f) || (TableEnd(f) - Off8Start(total)) % 8 != 0 { return Bad(Truncated); }
    r := Search(f, want);
  }
}

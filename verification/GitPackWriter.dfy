/**
 * The other side of a pack (gitformat-pack(5), "pack-*.pack files have the
 * following format"): an entry's header as it is written, and what
 * gitstate/object.go makes of it.
 */
module GitPackWriter {
  import opened Options
  import opened Bytes
  import opened GitNumber
  import opened GitOffset
  import opened GitChain
  import GitDelta
  import GitIndex
  import GitIndexWriter

  /** An entry before its compressed data: an object, a delta at a distance, a delta by name. */
  datatype Head = Plain(kind: nat) | Back(rel: nat) | ByName(base: Hash)

  ghost predicate Storable(h: Head)
  {
    match h
    case Plain(kind) => 1 <= kind <= 4
    case Back(rel) => rel < 0x1_0000_0000_0000_0000
    case ByName(base) => |base| == 20
  }

  ghost function KindOf(h: Head): nat { match h case Plain(kind) => kind case Back(_) => 6 case ByName(_) => 7 }

  /** What is left of the size, seven bits a byte, least significant first. */
  ghost function SizeTail(n: nat): (bs: seq<byte>)
    ensures bs != []
  {
    if n < 128 then [n] else [128 + n % 128] + SizeTail(n / 128)
  }

  /** Type and size. */
  ghost function TypeSize(kind: nat, size: nat): (bs: seq<byte>)
    requires kind < 8
    ensures bs != []
  {
    if size < 16 then [kind * 16 + size] else [128 + kind * 16 + size % 16] + SizeTail(size / 16)
  }

  /** What comes before the compressed data. */
  ghost function Base(h: Head): seq<byte>
  {
    match h case Plain(_) => [] case Back(rel) => Encode(rel, false) case ByName(base) => base
  }

  ghost function Written(h: Head, size: nat): seq<byte>
    requires Storable(h)
  {
    TypeSize(KindOf(h), size) + Base(h)
  }

  ghost function Meant(h: Head, data: seq<byte>): Entry
  {
    match h
    case Plain(kind) => Whole(Object(kind, data))
    case Back(rel) => OfsDelta(rel, data)
    case ByName(base) => RefDelta(base, data)
  }

  lemma {:induction false} TailTerminated(n: nat)
    ensures Terminated(SizeTail(n))
  {
    if n >= 128 {
      TailTerminated(n / 128);
      ContinueTerminated(128 + n % 128, SizeTail(n / 128));
    }
  }

  lemma ContinueTerminated(b: byte, bs: seq<byte>)
    requires b >= 128 && Terminated(bs)
    ensures Terminated([b] + bs)
  {
    var w := [b] + bs;
    assert w[..|w| - 1] == [b] + bs[..|bs| - 1];
  }

  lemma TypeSizeTerminated(kind: nat, size: nat)
    requires kind < 8
    ensures Terminated(TypeSize(kind, size)) && TypeSize(kind, size)[0] as nat / 16 % 8 == kind
  {
    if size >= 16 {
      TailTerminated(size / 16);
      ContinueTerminated(128 + kind * 16 + size % 16, SizeTail(size / 16));
    }
  }

  lemma {:induction false} EndOfAt(f: seq<byte>, pos: nat, e: seq<byte>, k: nat)
    requires Has(f, pos, e) && Terminated(e) && k < |e|
    ensures EndOf(f, pos + k) == pos + |e|
    decreases |e| - k
  {
    assert e[k] == f[pos + k];
    if k < |e| - 1 {
      assert e[..|e| - 1][k] == e[k];
      EndOfAt(f, pos, e, k + 1);
    }
  }

  lemma HasConcat(f: seq<byte>, pos: nat, a: seq<byte>, b: seq<byte>)
    requires Has(f, pos, a + b)
    ensures Has(f, pos, a) && Has(f, pos + |a|, b)
  {
    forall i | 0 <= i < |a| ensures a[i] == f[pos + i] { assert (a + b)[i] == a[i]; }
    forall i | 0 <= i < |b| ensures b[i] == f[pos + |a| + i] { assert (a + b)[|a| + i] == b[i]; }
  }

  lemma HasSlice(f: seq<byte>, pos: nat, e: seq<byte>)
    requires Has(f, pos, e)
    ensures pos + |e| <= |f| && f[pos..pos + |e|] == e
  {
  }

  lemma BackReads(p: Pack, rel: nat, pos: nat)
    requires rel < TwoTo64 && Has(p.bytes, pos, Encode(rel, false))
    ensures OffsetAt(p.bytes, pos) == Val(rel, pos + |Encode(rel, false)|)
  {
    var e := Encode(rel, false);
    EncodeValue(rel, false);
    EndOfAt(p.bytes, pos, e, 0);
    HasSlice(p.bytes, pos, e);
  }

  lemma BodyReads(p: Pack, h: Head, pos: nat)
    requires Storable(h) && Has(p.bytes, pos, Base(h))
    ensures var data := p.inflate(pos + |Base(h)|);
      Body(p, KindOf(h), pos) == if data.Some? then Meant(h, data.value) else Broken
  {
    match h {
      case Plain(_) =>
      case Back(rel) => BackReads(p, rel, pos);
      case ByName(base) => assert p.bytes[pos..pos + 20] == base;
    }
  }

  lemma HeadReads(p: Pack, h: Head, size: nat, at: nat)
    requires Storable(h) && Has(p.bytes, at, TypeSize(KindOf(h), size))
    ensures at < |p.bytes| && p.bytes[at] as nat / 16 % 8 == KindOf(h)
    ensures EndOf(p.bytes, at) == at + |TypeSize(KindOf(h), size)| <= |p.bytes|
  {
    var t := TypeSize(KindOf(h), size);
    TypeSizeTerminated(KindOf(h), size);
    EndOfAt(p.bytes, at, t, 0);
    assert t[0] == p.bytes[at];
  }

  /** An entry is read as it was written, wherever it lies: its base, and what its data inflates to. */
  lemma EntryReads(p: Pack, h: Head, size: nat, at: nat)
    requires Storable(h) && Has(p.bytes, at, Written(h, size))
    ensures var data := p.inflate(at + |Written(h, size)|);
      EntryAt(p, at) == if data.Some? then Meant(h, data.value) else Broken
  {
    var t := TypeSize(KindOf(h), size);
    HasConcat(p.bytes, at, t, Base(h));
    HeadReads(p, h, size, at);
    BodyReads(p, h, at + |t|);
  }

  /** A delta at a distance is against the entry that far before it. */
  lemma BackLinks(s: Store, k: nat, rel: nat, size: nat, at: nat, delta: seq<byte>)
    requires k < |s.packs| && rel <= at < 0x8000_0000_0000_0000
    requires Has(s.packs[k].bytes, at, Written(Back(rel), size))
    requires s.packs[k].inflate(at + |Written(Back(rel), size)|) == Some(delta)
    ensures LinkAt(s, Packed(k, at)) == Delta(Packed(k, at - rel), delta)
  {
    EntryReads(s.packs[k], Back(rel), size, at);
    assert (at - rel) % TwoTo64 == at - rel;
  }

  lemma NameLinks(s: Store, k: nat, base: Hash, size: nat, at: nat, delta: seq<byte>)
    requires k < |s.packs| && |base| == 20
    requires Has(s.packs[k].bytes, at, Written(ByName(base), size))
    requires s.packs[k].inflate(at + |Written(ByName(base), size)|) == Some(delta)
    ensures LinkAt(s, Packed(k, at)) == Delta(Named(base), delta)
  {
    EntryReads(s.packs[k], ByName(base), size, at);
  }

  lemma PlainStops(s: Store, k: nat, kind: nat, size: nat, at: nat, data: seq<byte>)
    requires k < |s.packs| && 1 <= kind <= 4
    requires Has(s.packs[k].bytes, at, Written(Plain(kind), size))
    requires s.packs[k].inflate(at + |Written(Plain(kind), size)|) == Some(data)
    ensures LinkAt(s, Packed(k, at)) == Stop(Some(Object(kind, data)))
  {
    EntryReads(s.packs[k], Plain(kind), size, at);
  }

  lemma {:induction false} FirstFoundAt(os: seq<GitIndex.Lookup>, i: nat, k: nat)
    requires i <= k < |os| && os[k].Found? && forall j :: i <= j < k ==> !os[j].Found?
    ensures FirstFound(os, i) == k
    decreases k - i
  {
    if i < k { FirstFoundAt(os, i + 1, k); }
  }

  lemma NamedLinkAt(s: Store, os: seq<GitIndex.Lookup>, k: nat)
    requires |os| == |s.packs| && k < |os| && os[k].Found? && s.packs[k].opens
    requires forall j :: 0 <= j < k ==> !os[j].Found?
    ensures NamedLink(s, os) == EntryLink(s, k, os[k].offset)
  {
    FirstFoundAt(os, 0, k);
  }

  /** A name that is not loose leads to its entry in the first pack whose index was written with it. */
  lemma NamedIsPacked(s: Store, k: nat, rs: seq<GitIndexWriter.Record>, sums: seq<byte>, i: nat)
    requires k < |s.packs| && s.packs[k].opens && GitIndexWriter.Indexable(rs) && |sums| == 40 && i < |rs|
    requires s.packs[k].index == GitIndexWriter.Written(rs, sums) && rs[i].name !in s.loose
    requires forall j :: 0 <= j < k ==> !GitIndex.LookupAt(s.packs[j].index, rs[i].name).Found?
    ensures LinkAt(s, Named(rs[i].name)) == LinkAt(s, Packed(k, rs[i].offset))
  {
    GitIndexWriter.WrittenFound(rs, sums, i);
    NamedLinkAt(s, Offsets(s.packs, rs[i].name), k);
  }

  /** An object behind n deltas and a written one is the same kind of object, with the data the delta's instructions denote. */
  lemma WrittenDelta(s: Store, at: Place, base: Place, n: nat, o: Object, prog: seq<GitDelta.Instr>)
    requires Chain(GraphOf(s), base, n) == Some(o)
    requires forall i <- prog :: GitDelta.Encodable(i) && GitDelta.InRange(o.data, i)
    requires |GitDelta.Denote(o.data, prog)| < TwoTo64
    requires LinkAt(s, at) == Delta(base, GitDelta.EncodeDelta(|o.data|, |GitDelta.Denote(o.data, prog)|, prog))
    ensures Chain(GraphOf(s), at, n + 1) == Some(Object(o.kind, GitDelta.Denote(o.data, prog)))
  {
    GitDelta.DeltaRoundTrip(o.data, |o.data|, prog);
  }

  /** A loose object is taken before any packed one, and stands for the name even when it cannot be read. */
  lemma LooseFirst(s: Store, h: Hash)
    requires |h| == 20 && h in s.loose
    ensures LinkAt(s, Named(h)) == Stop(s.loose[h])
  {
  }
}

/** gitstate/object.go: reading objects through chains of deltas, at most fifty long. */
module GitChain {
  import opened Options
  import opened Bytes
  import opened GitNumber
  import opened GitOffset
  import GitDelta
  import GitIndex

  /** The twenty bytes of an object name. */
  type Hash = seq<byte>

  datatype Object = Object(kind: nat, data: seq<byte>)

  datatype Entry = Whole(o: Object) | OfsDelta(rel: nat, delta: seq<byte>) | RefDelta(base: Hash, delta: seq<byte>) | Broken

  /** index: the bytes of its index file. inflate: what zlib makes of the pack's bytes from a position on. */
  datatype Pack = Pack(index: GitIndex.File, bytes: seq<byte>, inflate: nat -> Option<seq<byte>>, opens: bool)

  /** A loose object that cannot be read is None. */
  datatype Store = Store(loose: map<Hash, Option<Object>>, packs: seq<Pack>)

  const MaxDepth: nat := 50

  const TwoTo63: nat := 0x8000_0000_0000_0000

  /** offset - int64(rel), in 64 bits. */
  function BaseOffset(offset: int, rel: nat): int
  {
    var d := (offset - rel) % TwoTo64;
    if d < TwoTo63 then d else d - TwoTo64
  }

  // One entry of a pack

  ghost function Inflated(p: Pack, pos: nat, make: seq<byte> -> Entry): Entry
  {
    match p.inflate(pos) case Some(data) => make(data) case None => Broken
  }

  /** The entry whose header ends before pos. */
  ghost function Body(p: Pack, kind: nat, pos: nat): Entry
  {
    if 1 <= kind <= 4 then Inflated(p, pos, data => Whole(Object(kind, data)))
    else if kind == 6 then
      match OffsetAt(p.bytes, pos)
      case Short => Broken
      case Val(rel, next) => Inflated(p, next, delta => OfsDelta(rel, delta))
    else if kind == 7 then
      if pos + 20 > |p.bytes| then Broken
      else Inflated(p, pos + 20, delta => RefDelta(p.bytes[pos..pos + 20], delta))
    else Broken
  }

  ghost function EntryAt(p: Pack, offset: int): Entry
  {
    if offset < 0 || offset >= |p.bytes| || EndOf(p.bytes, offset) > |p.bytes| then Broken
    else Body(p, p.bytes[offset] as nat / 16 % 8, EndOf(p.bytes, offset))
  }

  method ReadBody(p: Pack, kind: nat, pos: nat) returns (e: Entry)
    ensures e == Body(p, kind, pos)
  {
    if 1 <= kind <= 4 {
      var data := p.inflate(pos);
      return if data.Some? then Whole(Object(kind, data.value)) else Broken;
    } else if kind == 6 {
      var rel := ReadOffset(p.bytes, pos);
      if rel.Short? { return Broken; }
      var delta := p.inflate(rel.next);
      return if delta.Some? then OfsDelta(rel.v, delta.value) else Broken;
    } else if kind == 7 {
      if pos + 20 > |p.bytes| { return Broken; }
      var delta := p.inflate(pos + 20);
      return if delta.Some? then RefDelta(p.bytes[pos..pos + 20], delta.value) else Broken;
    }
    return Broken;
  }

  method ReadEntry(p: Pack, offset: int) returns (e: Entry)
    ensures e == EntryAt(p, offset)
  {
    if offset < 0 || offset >= |p.bytes| { return Broken; }
    var c, next := p.bytes[offset], offset + 1;
    while c >= 128
      invariant offset < next <= |p.bytes| && c == p.bytes[next - 1]
      invariant EndOf(p.bytes, offset) == if c < 128 then next else EndOf(p.bytes, next)
      decreases |p.bytes| - next
    {
      if next >= |p.bytes| { return Broken; }
      c, next := p.bytes[next], next + 1;
    }
    e := ReadBody(p, p.bytes[offset] as nat / 16 % 8, next);
  }

  // Chains of deltas

  datatype Place = Named(h: Hash) | Packed(pack: nat, offset: int)

  /** What lies at a place: an object or an error, or a delta against another place. */
  datatype Link = Stop(o: Option<Object>) | Delta(base: Place, delta: seq<byte>)

  datatype Graph = Graph(link: Place -> Link, patch: (Object, seq<byte>) -> Option<Object>)

  /** The object behind exactly n deltas. */
  ghost function Chain(g: Graph, at: Place, n: nat): Option<Object>
    decreases n
  {
    match g.link(at)
    case Stop(o) => if n == 0 then o else None
    case Delta(base, delta) =>
      if n == 0 then None
      else match Chain(g, base, n - 1) case Some(o) => g.patch(o, delta) case None => None
  }

  /** r is what a chain of at most budget deltas gives, or there is no such chain. */
  ghost predicate Within(g: Graph, at: Place, budget: int, r: Option<Object>)
  {
    && (r.Some? ==> exists n: nat :: n <= budget && Chain(g, at, n) == r)
    && (r.None? ==> forall n: nat :: n <= budget ==> Chain(g, at, n).None?)
  }

  /** No place gives objects for two chain lengths. */
  lemma {:induction false} ChainLengthUnique(g: Graph, at: Place, m: nat, n: nat)
    requires Chain(g, at, m).Some? && Chain(g, at, n).Some?
    ensures m == n
    decreases m
  {
    var link := g.link(at);
    if link.Delta? { ChainLengthUnique(g, link.base, m - 1, n - 1); }
  }

  lemma StopWithin(g: Graph, at: Place, budget: int, o: Option<Object>)
    requires g.link(at) == Stop(o) && budget >= 0
    ensures Within(g, at, budget, o)
  {
    assert Chain(g, at, 0) == o;
  }

  lemma DeltaWithin(g: Graph, at: Place, base: Place, delta: seq<byte>, budget: int, b: Option<Object>, r: Option<Object>)
    requires g.link(at) == Delta(base, delta) && Within(g, base, budget - 1, b)
    requires r == if b.Some? then g.patch(b.value, delta) else None
    ensures Within(g, at, budget, r)
  {
    if r.Some? {
      var n: nat :| n <= budget - 1 && Chain(g, base, n) == b;
      assert Chain(g, at, n + 1) == r;
    } else {
      forall n: nat | n <= budget ensures Chain(g, at, n).None? {
        if n > 0 && Chain(g, base, n - 1).Some? {
          var m: nat :| m <= budget - 1 && Chain(g, base, m) == b;
          ChainLengthUnique(g, base, m, n - 1);
        }
      }
    }
  }

  /** Following n deltas. */
  ghost predicate Leads(g: Graph, at: Place, to: Place, n: nat)
    decreases n
  {
    if n == 0 then at == to else g.link(at).Delta? && Leads(g, g.link(at).base, to, n - 1)
  }

  lemma {:induction false} ChainAlong(g: Graph, at: Place, to: Place, steps: nat, n: nat)
    requires Leads(g, at, to, steps) && Chain(g, at, n).Some?
    ensures steps <= n && Chain(g, to, n - steps).Some?
    decreases steps
  {
    if steps > 0 { ChainAlong(g, g.link(at).base, to, steps - 1, n - 1); }
  }

  /** A chain that comes back to where it was has no object, and reading it ends in an error. */
  lemma CyclesAreRefused(g: Graph, at: Place, steps: nat, budget: int, r: Option<Object>)
    requires steps > 0 && Leads(g, at, at, steps) && Within(g, at, budget, r)
    ensures r.None?
  {
    if r.Some? {
      var n: nat :| n <= budget && Chain(g, at, n) == r;
      ChainAlong(g, at, at, steps, n);
      ChainLengthUnique(g, at, n - steps, n);
    }
  }

  /** An object behind n deltas is read, and read right, exactly when n is at most fifty. */
  lemma ReadIffShort(g: Graph, at: Place, n: nat, r: Option<Object>)
    requires Chain(g, at, n).Some? && Within(g, at, MaxDepth, r)
    ensures if n <= 50 then r == Chain(g, at, n) else r.None?
  {
    if r.Some? {
      var m: nat :| m <= MaxDepth && Chain(g, at, m) == r;
      ChainLengthUnique(g, at, m, n);
    }
  }

  // The object store

  /** Where each pack's index has h; an index that cannot be read has nothing. */
  ghost function Offsets(packs: seq<Pack>, h: Hash): (os: seq<GitIndex.Lookup>)
    ensures |os| == |packs|
  {
    seq(|packs|, i requires 0 <= i < |packs| => GitIndex.LookupAt(packs[i].index, h))
  }

  /** The first of them that is found. */
  ghost function FirstFound(os: seq<GitIndex.Lookup>, i: nat): (k: nat)
    requires i <= |os|
    ensures i <= k <= |os| && (k < |os| ==> os[k].Found?)
    decreases |os| - i
  {
    if i == |os| || os[i].Found? then i else FirstFound(os, i + 1)
  }

  ghost function EntryLink(s: Store, k: nat, offset: int): Link
  {
    if k >= |s.packs| then Stop(None)
    else
      match EntryAt(s.packs[k], offset)
      case Whole(o) => Stop(Some(o))
      case OfsDelta(rel, delta) => Delta(Packed(k, BaseOffset(offset, rel)), delta)
      case RefDelta(h, delta) => Delta(Named(h), delta)
      case Broken => Stop(None)
  }

  ghost function NamedLink(s: Store, os: seq<GitIndex.Lookup>): Link
    requires |os| == |s.packs|
  {
    var k := FirstFound(os, 0);
    if k < |os| && s.packs[k].opens then EntryLink(s, k, os[k].offset) else Stop(None)
  }

  /** A loose object comes first, then the first pack that has the name. */
  ghost function LinkAt(s: Store, at: Place): Link
  {
    match at
    case Packed(k, offset) => EntryLink(s, k, offset)
    case Named(h) =>
      if |h| != 20 then Stop(None)
      else if h in s.loose then Stop(s.loose[h])
      else
        NamedLink(s, Offsets(s.packs, h))
  }

  ghost function PatchObject(o: Object, delta: seq<byte>): Option<Object>
  {
    match GitDelta.Apply(o.data, delta) case Ok(out) => Some(Object(o.kind, out)) case Err(_) => None
  }

  ghost function GraphOf(s: Store): Graph { Graph(at => LinkAt(s, at), PatchObject) }

  method FindPack(packs: seq<Pack>, h: Hash) returns (k: nat, offset: nat)
    ensures k == FirstFound(Offsets(packs, h), 0)
    ensures k < |packs| ==> Offsets(packs, h)[k] == GitIndex.Found(offset)
  {
    ghost var os := Offsets(packs, h);
    k, offset := 0, 0;
    while k < |packs|
      invariant k <= |packs| && FirstFound(os, 0) == FirstFound(os, k)
    {
      var r := GitIndex.LookupPackOffset(packs[k].index, h);
      assert r == os[k];
      if r.Found? { return k, r.offset; }
      k := k + 1;
    }
  }

  method ReadObject(s: Store, h: Hash, depth: nat) returns (r: Option<Object>)
    ensures Within(GraphOf(s), Named(h), MaxDepth - depth, r)
    decreases if depth > MaxDepth then 0 else MaxDepth + 1 - depth, 1
  {
    if depth > MaxDepth { return None; }
    ghost var g := GraphOf(s);
    if |h| != 20 {
      StopWithin(g, Named(h), MaxDepth - depth, None);
      return None;
    }
    if h in s.loose {
      StopWithin(g, Named(h), MaxDepth - depth, s.loose[h]);
      return s.loose[h];
    }
    var k, offset := FindPack(s.packs, h);
    if k == |s.packs| || !s.packs[k].opens {
      StopWithin(g, Named(h), MaxDepth - depth, None);
      return None;
    }
    r := ReadPackEntry(s, k, offset, depth, Named(h));
  }

  /** at: the place the entry was reached by. */
  method ReadPackEntry(s: Store, k: nat, offset: int, depth: nat, ghost at: Place) returns (r: Option<Object>)
    requires k < |s.packs| && LinkAt(s, at) == EntryLink(s, k, offset)
    ensures Within(GraphOf(s), at, MaxDepth - depth, r)
    decreases if depth > MaxDepth then 0 else MaxDepth + 1 - depth, 0
  {
    if depth > MaxDepth { return None; }
    ghost var g := GraphOf(s);
    var e := ReadEntry(s.packs[k], offset);
    match e {
      case Whole(o) =>
        StopWithin(g, at, MaxDepth - depth, Some(o));
        return Some(o);
      case OfsDelta(rel, delta) =>
        ghost var there := Packed(k, BaseOffset(offset, rel));
        var base := ReadPackEntry(s, k, BaseOffset(offset, rel), depth + 1, there);
        r := Patch(base, delta);
        DeltaWithin(g, at, there, delta, MaxDepth - depth, base, r);
      case RefDelta(h, delta) =>
        var base := ReadObject(s, h, depth + 1);
        r := Patch(base, delta);
        DeltaWithin(g, at, Named(h), delta, MaxDepth - depth, base, r);
      case Broken =>
        StopWithin(g, at, MaxDepth - depth, None);
        return None;
    }
  }

  method Patch(base: Option<Object>, delta: seq<byte>) returns (r: Option<Object>)
    ensures r == if base.Some? then PatchObject(base.value, delta) else None
  {
    if base.None? { return None; }
    var out := GitDelta.ApplyDelta(base.value.data, delta);
    return if out.Ok? then Some(Object(base.value.kind, out.out)) else None;
  }
}

/** dtach/ring.go: the scrollback that drops its oldest bytes on overflow. */
module ScrollbackRing {
  import opened Bytes

  class Ring {
    var buf: seq<byte>
    const capacity: nat
    ghost var written: seq<byte>  // everything ever written

    ghost predicate Valid()
      reads this
    {
      buf == LastN(capacity, written)
    }

    constructor (capacity: nat)
      ensures Valid() && this.capacity == capacity && written == [] && buf == []
    {
      this.capacity := capacity;
      buf := [];
      written := [];
    }

    method Write(p: seq<byte>)
      requires Valid()
      modifies this
      ensures Valid() && written == old(written) + p
      ensures buf == LastN(capacity, old(buf) + p)
    {
      LastNAbsorbs(capacity, written, p);
      written := written + p;
      if |p| >= capacity {
        assert old(buf) + p == (old(buf) + p[..|p| - capacity]) + p[|p| - capacity..];
        buf := p[|p| - capacity..];
        return;
      }
      var needed := |buf| + |p| - capacity;
      if needed > 0 {
        assert old(buf) + p == old(buf)[..needed] + (old(buf)[needed..] + p);
        buf := buf[needed..];
      }
      buf := buf + p;
    }

    method Snapshot() returns (out: seq<byte>)
      requires Valid()
      ensures out == LastN(capacity, written)
    {
      out := buf;
    }
  }
}

/** client/mcp_schema.go: replacing references to definitions that may refer to each other and to themselves. */
module SchemaRefs {
  import opened Options

  /**
   * A schema, or the nil pointer. keywords: what resolution copies as it is.
   * stands: the references this node was put in place of, in a result.
   */
  datatype Schema =
    | Nil
    | Node(keywords: string, description: string, default: Option<string>, ref: string, cut: Option<string>,
           kids: Kids, stands: set<string>)

  /** The items, additional properties, alternatives and properties, each under its own slot. */
  datatype Kids = NoKids | Kid(slot: string, s: Schema, more: Kids)

  type Defs = map<string, Schema>

  predicate Resolvable(defs: Defs, ref: string) { ref in defs && defs[ref].Node? }

  /** The text after the last slash. */
  function LastName(ref: string): string
  {
    if ref == "" || ref[|ref| - 1] == '/' then "" else LastName(ref[..|ref| - 1]) + [ref[|ref| - 1]]
  }

  function Cut(s: Schema): Schema
    requires s.Node?
  {
    s.(cut := Some(LastName(s.ref)), stands := {})
  }

  /** A definition in place of the reference s: the reference's description and default win. */
  function InPlace(s: Schema, d: Schema): Schema
    requires s.Node? && d.Node?
  {
    d.(description := if s.description != "" then s.description else d.description,
       default := if s.default.Some? then s.default else d.default,
       stands := d.stands + {s.ref})
  }

  // Sizes

  function Size(s: Schema): nat { if s.Nil? then 0 else 1 + KidsSize(s.kids) }

  function KidsSize(ks: Kids): nat { if ks.NoKids? then 0 else 1 + Size(ks.s) + KidsSize(ks.more) }

  lemma FewerLeft(defs: Defs, active: set<string>, ref: string)
    requires ref in defs && ref !in active
    ensures |defs.Keys - (active + {ref})| < |defs.Keys - active|
  {
    assert defs.Keys - (active + {ref}) == (defs.Keys - active) - {ref};
  }

  // Resolution

  ghost function Expand(defs: Defs, active: set<string>, s: Schema): (r: Schema)
    ensures r.Nil? <==> s.Nil?
    decreases |defs.Keys - active|, Size(s)
  {
    if s.Nil? then Nil
    else if Resolvable(defs, s.ref) then
      if s.ref in active then Cut(s)
      else
        FewerLeft(defs, active, s.ref);
        InPlace(s, Expand(defs, active + {s.ref}, defs[s.ref]))
    else s.(kids := ExpandKids(defs, active, s.kids), stands := {})
  }

  ghost function ExpandKids(defs: Defs, active: set<string>, ks: Kids): Kids
    decreases |defs.Keys - active|, KidsSize(ks)
  {
    if ks.NoKids? then NoKids else Kid(ks.slot, Expand(defs, active, ks.s), ExpandKids(defs, active, ks.more))
  }

  function Append(ks: Kids, slot: string, s: Schema): Kids
  {
    if ks.NoKids? then Kid(slot, s, NoKids) else ks.(more := Append(ks.more, slot, s))
  }

  function Concat(a: Kids, b: Kids): Kids { if a.NoKids? then b else a.(more := Concat(a.more, b)) }

  lemma {:induction false} ConcatAppend(a: Kids, slot: string, s: Schema, b: Kids)
    ensures Concat(Append(a, slot, s), b) == Concat(a, Kid(slot, s, b))
  {
    if a.Kid? { ConcatAppend(a.more, slot, s, b); }
  }

  lemma {:induction false} ConcatNone(a: Kids)
    ensures Concat(a, NoKids) == a
  {
    if a.Kid? { ConcatNone(a.more); }
  }

  /** The closure of resolveRefs and the map it keeps. */
  class Resolver {
    const defs: Defs
    var active: set<string>

    constructor (defs: Defs)
      ensures this.defs == defs && active == {}
    {
      this.defs, active := defs, {};
    }

    /** Terminates on every graph of definitions, and leaves the active set as it found it. */
    method Resolve(s: Schema) returns (r: Schema)
      modifies this
      ensures active == old(active) && r == Expand(defs, active, s)
      decreases |defs.Keys - active|, Size(s)
    {
      if s.Nil? { return Nil; }
      if Resolvable(defs, s.ref) {
        if s.ref in active { return Cut(s); }
        FewerLeft(defs, active, s.ref);
        ghost var before := active;
        active := active + {s.ref};
        r := Resolve(defs[s.ref]);
        active := active - {s.ref};
        assert active == before;
        return InPlace(s, r);
      }
      var kids := ResolveKids(s.kids);
      return s.(kids := kids, stands := {});
    }

    method ResolveKids(ks: Kids) returns (out: Kids)
      modifies this
      ensures active == old(active) && out == ExpandKids(defs, active, ks)
      decreases |defs.Keys - active|, KidsSize(ks)
    {
      var rest := ks;
      out := NoKids;
      while rest.Kid?
        invariant active == old(active) && KidsSize(rest) <= KidsSize(ks)
        invariant Concat(out, ExpandKids(defs, active, rest)) == ExpandKids(defs, active, ks)
        decreases KidsSize(rest)
      {
        var r := Resolve(rest.s);
        ConcatAppend(out, rest.slot, r, ExpandKids(defs, active, rest.more));
        out := Append(out, rest.slot, r);
        rest := rest.more;
      }
      ConcatNone(out);
    }
  }

  // References that are left

  /** The references to definitions a reader of the schema meets. */
  ghost function Refs(defs: Defs, s: Schema): set<string>
  {
    if s.Nil? then {} else if Resolvable(defs, s.ref) then {s.ref} else KidsRefs(defs, s.kids)
  }

  ghost function KidsRefs(defs: Defs, ks: Kids): set<string>
  {
    if ks.NoKids? then {} else Refs(defs, ks.s) + KidsRefs(defs, ks.more)
  }

  /** Each reference that is left lies inside a node that stands for the definition it names. */
  ghost predicate Inside(defs: Defs, r: Schema, around: set<string>)
  {
    r.Node? ==>
      if Resolvable(defs, r.ref) then r.ref in around + r.stands && r.cut == Some(LastName(r.ref))
      else KidsInside(defs, r.kids, around + r.stands)
  }

  ghost predicate KidsInside(defs: Defs, ks: Kids, around: set<string>)
  {
    ks.Kid? ==> Inside(defs, ks.s, around) && KidsInside(defs, ks.more, around)
  }

  lemma {:induction false} ExpandInside(defs: Defs, active: set<string>, s: Schema)
    ensures Inside(defs, Expand(defs, active, s), active)
    decreases |defs.Keys - active|, Size(s)
  {
    if s.Node? {
      if !Resolvable(defs, s.ref) {
        ExpandKidsInside(defs, active, s.kids);
        assert active + {} == active;
      } else if s.ref !in active {
        FewerLeft(defs, active, s.ref);
        ExpandInside(defs, active + {s.ref}, defs[s.ref]);
        var d := Expand(defs, active + {s.ref}, defs[s.ref]);
        assert active + {s.ref} + d.stands == active + (d.stands + {s.ref});
      }
    }
  }

  lemma {:induction false} ExpandKidsInside(defs: Defs, active: set<string>, ks: Kids)
    ensures KidsInside(defs, ExpandKids(defs, active, ks), active)
    decreases |defs.Keys - active|, KidsSize(ks)
  {
    if ks.Kid? {
      ExpandInside(defs, active, ks.s);
      ExpandKidsInside(defs, active, ks.more);
    }
  }

  /** In a result, a reference is left only inside the expansion of the definition it names. */
  lemma LeftOnlyInside(defs: Defs, s: Schema)
    ensures Inside(defs, Expand(defs, {}, s), {})
  {
    ExpandInside(defs, {}, s);
  }

  // Recursion

  /** Definitions that refer one to the next, starting from s. */
  ghost predicate IsPath(defs: Defs, s: Schema, p: seq<string>)
    decreases |p|
  {
    p == [] || (p[0] in Refs(defs, s) && Resolvable(defs, p[0]) && IsPath(defs, defs[p[0]], p[1..]))
  }

  /** No definition comes twice, none is active. */
  ghost predicate Simple(p: seq<string>, active: set<string>)
  {
    p == [] || (p[0] !in active && Simple(p[1..], active + {p[0]}))
  }

  ghost predicate AllSimple(defs: Defs, active: set<string>, s: Schema)
  {
    forall p :: IsPath(defs, s, p) ==> Simple(p, active)
  }

  ghost predicate AllSimpleIn(defs: Defs, active: set<string>, refs: set<string>)
  {
    forall m :: m in refs && Resolvable(defs, m) ==> m !in active && AllSimple(defs, active + {m}, defs[m])
  }

  lemma AllSimpleByRef(defs: Defs, active: set<string>, s: Schema)
    ensures AllSimple(defs, active, s) <==> AllSimpleIn(defs, active, Refs(defs, s))
  {
    if AllSimple(defs, active, s) {
      forall m | m in Refs(defs, s) && Resolvable(defs, m) ensures m !in active && AllSimple(defs, active + {m}, defs[m]) {
        forall p | IsPath(defs, defs[m], p) ensures m !in active && Simple(p, active + {m}) {
          assert ([m] + p)[1..] == p;
          assert IsPath(defs, s, [m] + p);
        }
        assert IsPath(defs, defs[m], []);
      }
    }
    if AllSimpleIn(defs, active, Refs(defs, s)) {
      forall p | IsPath(defs, s, p) ensures Simple(p, active) {}
    }
  }

  /** Nothing is left exactly when no path of definitions from s comes back to itself or to an active one. */
  lemma {:induction false} NoneLeftIffSimple(defs: Defs, active: set<string>, s: Schema)
    ensures Refs(defs, Expand(defs, active, s)) == {} <==> AllSimpleIn(defs, active, Refs(defs, s))
    decreases |defs.Keys - active|, Size(s)
  {
    if s.Node? {
      if !Resolvable(defs, s.ref) {
        NoneLeftInKids(defs, active, s.kids);
      } else if s.ref !in active {
        FewerLeft(defs, active, s.ref);
        NoneLeftIffSimple(defs, active + {s.ref}, defs[s.ref]);
        AllSimpleByRef(defs, active + {s.ref}, defs[s.ref]);
      }
    }
  }

  lemma {:induction false} NoneLeftInKids(defs: Defs, active: set<string>, ks: Kids)
    ensures KidsRefs(defs, ExpandKids(defs, active, ks)) == {} <==> AllSimpleIn(defs, active, KidsRefs(defs, ks))
    decreases |defs.Keys - active|, KidsSize(ks)
  {
    if ks.Kid? {
      NoneLeftIffSimple(defs, active, ks.s);
      NoneLeftInKids(defs, active, ks.more);
    }
  }

  /** Resolution leaves no reference exactly when no definition reachable from the schema reaches itself. */
  lemma NoneLeftIffAcyclic(defs: Defs, s: Schema)
    ensures Refs(defs, Expand(defs, {}, s)) == {} <==> forall p :: IsPath(defs, s, p) ==> Distinct(p)
  {
    NoneLeftIffSimple(defs, {}, s);
    AllSimpleByRef(defs, {}, s);
    forall p ensures Simple(p, {}) <==> Distinct(p) { SimpleIffDistinct(p, {}); }
  }

  ghost predicate Distinct(p: seq<string>) { forall i, j :: 0 <= i < j < |p| ==> p[i] != p[j] }

  lemma {:induction false} SimpleIffDistinct(p: seq<string>, active: set<string>)
    ensures Simple(p, active) <==> Distinct(p) && forall i :: 0 <= i < |p| ==> p[i] !in active
    decreases |p|
  {
    if p != [] {
      SimpleIffDistinct(p[1..], active + {p[0]});
      assert forall i :: 0 <= i < |p| - 1 ==> p[1..][i] == p[i + 1];
      if Distinct(p) && forall i :: 0 <= i < |p| ==> p[i] !in active {
        forall i | 0 <= i < |p| - 1 ensures p[1..][i] !in active + {p[0]} { assert p[0] != p[i + 1]; }
      }
      if Simple(p, active) {
        forall i, j | 0 <= i < j < |p| ensures p[i] != p[j] {
          assert p[j] == p[1..][j - 1];
          if i > 0 { assert p[i] == p[1..][i - 1]; }
        }
        forall i | 0 <= i < |p| ensures p[i] !in active {
          if i > 0 { assert p[i] == p[1..][i - 1]; }
        }
      }
    }
  }
}

/** client/mcp_schema.go: a resolved schema says what following the references would. */
module SchemaMeaning {
  import opened Options
  import opened SchemaRefs

  /** The reference names a definition that is there. */
  ghost predicate Known(defs: Defs, ref: string) { ref in defs && defs[ref] != Nil }

  /** The schema n references further. */
  ghost function Head(defs: Defs, s: Schema, n: nat): Schema
    decreases n
  {
    if n == 0 || s.Nil? || !Known(defs, s.ref) then s else Head(defs, defs[s.ref], n - 1)
  }

  /** The description nearest to the first reference, over n references. */
  ghost function Described(defs: Defs, s: Schema, n: nat): string
    decreases n
  {
    if s.Nil? then ""
    else if s.description != "" || n == 0 || !Known(defs, s.ref) then s.description
    else Described(defs, defs[s.ref], n - 1)
  }

  ghost function Defaulted(defs: Defs, s: Schema, n: nat): Option<string>
    decreases n
  {
    if s.Nil? then None
    else if s.default.Some? || n == 0 || !Known(defs, s.ref) then s.default
    else Defaulted(defs, defs[s.ref], n - 1)
  }

  /** r carries what the schema n references from s does, and the nearest description and default. */
  ghost predicate Carries(defs: Defs, s: Schema, r: Schema, n: nat)
  {
    var h := Head(defs, s, n);
    && h.Node? && r.Node? && r.keywords == h.keywords && r.ref == h.ref
    && r.description == Described(defs, s, n) && r.default == Defaulted(defs, s, n)
  }

  /**
   * r is s with its references followed: at every node the keywords of the schema
   * they lead to, and below it the same of that schema's parts; down to nodes that
   * are cut and named after the definition they refer to.
   */
  ghost predicate Means(defs: Defs, s: Schema, r: Schema)
    decreases Size(r), 2
  {
    if s.Nil? then r.Nil? else r.Node? && exists n: nat :: Carries(defs, s, r, n) && Continues(defs, Head(defs, s, n), r)
  }

  /** r is cut, or its parts are those of h. */
  ghost predicate Continues(defs: Defs, h: Schema, r: Schema)
    requires r.Node?
    decreases Size(r), 1
  {
    if Known(defs, r.ref) then r.cut == Some(LastName(r.ref))
    else h.Node? && h.cut == r.cut && KidsMean(defs, h.kids, r.kids)
  }

  ghost predicate KidsMean(defs: Defs, ks: Kids, rs: Kids)
    decreases KidsSize(rs), 3
  {
    if ks.NoKids? then rs.NoKids?
    else rs.Kid? && rs.slot == ks.slot && Means(defs, ks.s, rs.s) && KidsMean(defs, ks.more, rs.more)
  }

  lemma HeadMore(defs: Defs, s: Schema, n: nat)
    requires s.Node? && Resolvable(defs, s.ref)
    ensures Head(defs, s, n + 1) == Head(defs, defs[s.ref], n)
    ensures Described(defs, s, n + 1) == if s.description != "" then s.description else Described(defs, defs[s.ref], n)
    ensures Defaulted(defs, s, n + 1) == if s.default.Some? then s.default else Defaulted(defs, defs[s.ref], n)
  {
  }

  lemma InPlaceMeans(defs: Defs, s: Schema, d: Schema)
    requires s.Node? && Resolvable(defs, s.ref) && d.Node? && Means(defs, defs[s.ref], d)
    ensures Means(defs, s, InPlace(s, d))
  {
    var n: nat :| Carries(defs, defs[s.ref], d, n) && Continues(defs, Head(defs, defs[s.ref], n), d);
    HeadMore(defs, s, n);
    assert Carries(defs, s, InPlace(s, d), n + 1) && Continues(defs, Head(defs, s, n + 1), InPlace(s, d));
  }

  /** Whatever is active, resolution keeps the meaning. */
  lemma {:induction false} ExpandMeans(defs: Defs, active: set<string>, s: Schema)
    ensures Means(defs, s, Expand(defs, active, s))
    decreases |defs.Keys - active|, Size(s)
  {
    if s.Node? {
      if !Resolvable(defs, s.ref) {
        ExpandKidsMean(defs, active, s.kids);
        assert Carries(defs, s, Expand(defs, active, s), 0);
      } else if s.ref in active {
        assert Carries(defs, s, Cut(s), 0);
      } else {
        FewerLeft(defs, active, s.ref);
        ExpandMeans(defs, active + {s.ref}, defs[s.ref]);
        InPlaceMeans(defs, s, Expand(defs, active + {s.ref}, defs[s.ref]));
      }
    }
  }

  lemma {:induction false} ExpandKidsMean(defs: Defs, active: set<string>, ks: Kids)
    ensures KidsMean(defs, ks, ExpandKids(defs, active, ks))
    decreases |defs.Keys - active|, KidsSize(ks)
  {
    if ks.Kid? {
      ExpandMeans(defs, active, ks.s);
      ExpandKidsMean(defs, active, ks.more);
    }
  }

  /** The name of a reference is what follows its last slash, or all of it. */
  lemma {:induction false} LastNameIs(before: string, name: string)
    requires '/' !in name && (before == "" || before[|before| - 1] == '/')
    ensures LastName(before + name) == name
  {
    if name == "" {
      assert before + name == before;
    } else {
      var k := |name| - 1;
      assert (before + name)[..|before| + k] == before + name[..k] && (before + name)[|before| + k] == name[k];
      LastNameIs(before, name[..k]);
      assert name == name[..k] + [name[k]];
    }
  }
}

/** llm/citation_markers.go: the filter that carries groups across streamed deltas of many content blocks. */
module CitationStream {
  import opened Bytes
  import opened Citations

  datatype Key = Key(output: int, content: int)

  /** cmp.Compare on the output index, then on the content index. */
  predicate Before(a: Key, b: Key) { a.output < b.output || (a.output == b.output && a.content < b.content) }

  ghost predicate Ascending(ks: seq<Key>) { forall i, j :: 0 <= i < j < |ks| ==> Before(ks[i], ks[j]) }

  type Filters = map<Key, Inline>

  ghost function FilterOf(m: Filters, k: Key): Inline { if k in m then m[k] else Fresh }

  /** Only filters inside a group are kept. */
  ghost predicate FiltersOk(m: Filters) { forall k :: k in m ==> m[k].inGroup && InlineOk(m[k]) }

  datatype Event = Delta(k: Key, text: seq<Rune>) | Done(k: Key) | AllDone

  ghost function After(m: Filters, e: Event): Filters
  {
    match e
    case Delta(k, text) => var f := Feed(FilterOf(m, k), text).f; if f.inGroup then m[k := f] else m - {k}
    case Done(k) => m - {k}
    case AllDone => map[]
  }

  /** What an event makes the filter emit for block k. */
  ghost function Emits(m: Filters, e: Event, k: Key): seq<Rune>
  {
    match e
    case Delta(k', text) => if k' == k then Feed(FilterOf(m, k), text).out else []
    case Done(k') => if k' == k then Flush(FilterOf(m, k)) else []
    case AllDone => Flush(FilterOf(m, k))
  }

  // The class

  datatype StreamDelta = StreamDelta(text: seq<Rune>, index: int)

  ghost function Deltas(m: Filters, ks: seq<Key>): seq<StreamDelta>
  {
    if ks == [] then []
    else
      var k := ks[|ks| - 1];
      Deltas(m, ks[..|ks| - 1])
      + if Flush(FilterOf(m, k)) == [] then [] else [StreamDelta(Flush(FilterOf(m, k)), k.content)]
  }

  /** The keys among ks whose held group comes out as some text. */
  ghost function Speaking(m: Filters, ks: seq<Key>): seq<Key>
  {
    if ks == [] then []
    else
      var before, k := Speaking(m, ks[..|ks| - 1]), ks[|ks| - 1];
      if Emits(m, AllDone, k) == [] then before else before + [k]
  }

  /** One delta for each key that holds some text to show, in index order. */
  ghost predicate FinishesWith(m: Filters, deltas: seq<StreamDelta>, qs: seq<Key>)
  {
    && (forall i, j :: 0 <= i < j < |qs| ==>
        qs[i].output < qs[j].output || (qs[i].output == qs[j].output && qs[i].content < qs[j].content))
    && (forall k :: k in qs <==> k in m && Emits(m, AllDone, k) != [])
    && |deltas| == |qs|
    && forall i :: 0 <= i < |qs| ==> deltas[i].text == Emits(m, AllDone, qs[i]) && deltas[i].index == qs[i].content
  }

  lemma {:induction false} DeltasSpeak(m: Filters, ks: seq<Key>)
    requires Ascending(ks)
    ensures var qs, ds := Speaking(m, ks), Deltas(m, ks);
      && Ascending(qs) && (forall k :: k in qs <==> k in ks && Emits(m, AllDone, k) != [])
      && |ds| == |qs| && forall i :: 0 <= i < |qs| ==> ds[i].text == Emits(m, AllDone, qs[i]) && ds[i].index == qs[i].content
    decreases |ks|
  {
    if ks != [] {
      var before, last := ks[..|ks| - 1], ks[|ks| - 1];
      DeltasSpeak(m, before);
      assert ks == before + [last];
      forall k | k in Speaking(m, before) ensures Before(k, last) {
        var i :| 0 <= i < |before| && before[i] == k;
        assert ks[i] == k;
      }
    }
  }

  lemma InsertAscending(ks: seq<Key>, n: nat, k: Key)
    requires Ascending(ks) && n <= |ks| && k !in ks
    requires (forall i :: 0 <= i < n ==> Before(ks[i], k)) && (n < |ks| ==> !Before(ks[n], k))
    ensures Ascending(ks[..n] + [k] + ks[n..])
    ensures forall x :: x in ks[..n] + [k] + ks[n..] <==> x in ks || x == k
  {
    forall i | n <= i < |ks| ensures Before(k, ks[i]) {
      assert ks[n] in ks && Before(k, ks[n]);
      assert i > n ==> Before(ks[n], ks[i]);
    }
    assert ks == ks[..n] + ks[n..];
  }

  ghost function Without(m: Filters, ks: seq<Key>): Filters
  {
    if ks == [] then m else Without(m, ks[..|ks| - 1]) - {ks[|ks| - 1]}
  }

  lemma {:induction false} WithoutKeeps(m: Filters, ks: seq<Key>, k: Key)
    ensures k in Without(m, ks) <==> k in m && k !in ks
    ensures k !in ks ==> FilterOf(Without(m, ks), k) == FilterOf(m, k)
  {
    if ks != [] {
      WithoutKeeps(m, ks[..|ks| - 1], k);
      assert ks == ks[..|ks| - 1] + [ks[|ks| - 1]];
    }
  }

  lemma WithoutAll(m: Filters, ks: seq<Key>)
    requires forall k :: k in m ==> k in ks
    ensures Without(m, ks) == map[]
  {
    forall k ensures k !in Without(m, ks) { WithoutKeeps(m, ks, k); }
  }

  method SortedKeys(keys: set<Key>) returns (ks: seq<Key>)
    ensures Ascending(ks) && forall k :: k in ks <==> k in keys
  {
    ks := [];
    var rest := keys;
    while rest != {}
      invariant Ascending(ks) && rest <= keys
      invariant forall k :: k in ks <==> k in keys - rest
      decreases rest
    {
      var k :| k in rest;
      var n := 0;
      while n < |ks| && Before(ks[n], k)
        invariant n <= |ks| && forall i :: 0 <= i < n ==> Before(ks[i], k)
      {
        n := n + 1;
      }
      InsertAscending(ks, n, k);
      ks, rest := ks[..n] + [k] + ks[n..], rest - {k};
    }
  }

  /** The filters are held by value: the source never shares one between two keys. */
  class StreamFilter {
    var filters: Filters

    ghost predicate Valid() reads this { FiltersOk(filters) }

    constructor ()
      ensures Valid() && filters == map[]
    {
      filters := map[];
    }

    method Filter(k: Key, delta: seq<Rune>) returns (out: seq<Rune>)
      requires Valid()
      modifies this
      ensures Valid()
      ensures filters == After(old(filters), Delta(k, delta)) && out == Emits(old(filters), Delta(k, delta), k)
    {
      FeedOk(FilterOf(filters, k), delta);
      if k !in filters {
        var marked := HasInlineCitationMarker(delta);
        if !marked {
          FeedPlain(Fresh, delta);
          assert filters - {k} == filters;
          return delta;
        }
      }
      var filter := new InlineFilter(if k in filters then filters[k] else Fresh);
      out := filter.Filter(delta);
      filters := if filter.inGroup then filters[k := filter.View()] else filters - {k};
    }

    method Finish(k: Key) returns (out: seq<Rune>)
      requires Valid()
      modifies this
      ensures Valid()
      ensures filters == After(old(filters), Done(k)) && out == Emits(old(filters), Done(k), k)
    {
      if k !in filters {
        assert filters == filters - {k};
        return [];
      }
      var filter := new InlineFilter(filters[k]);
      filters := filters - {k};
      out := filter.Finish();
    }

    /** Every held group is emitted once, in index order. */
    method FinishAll() returns (deltas: seq<StreamDelta>)
      requires Valid()
      modifies this
      ensures Valid() && filters == After(old(filters), AllDone)
      ensures exists qs :: FinishesWith(old(filters), deltas, qs)
    {
      var ks := SortedKeys(filters.Keys);
      ghost var m := filters;
      deltas := [];
      for i := 0 to |ks|
        invariant Valid()
        invariant filters == Without(m, ks[..i])
        invariant deltas == Deltas(m, ks[..i])
      {
        assert ks[..i + 1][..i] == ks[..i];
        WithoutKeeps(m, ks[..i], ks[i]);
        var s := Finish(ks[i]);
        if s != [] { deltas := deltas + [StreamDelta(s, ks[i].content)]; }
      }
      assert ks[..|ks|] == ks;
      WithoutAll(m, ks);
      DeltasSpeak(m, ks);
      assert FinishesWith(m, deltas, Speaking(m, ks));
    }
  }

  // Whole streams

  ghost function Run(es: seq<Event>): Filters
  {
    if es == [] then map[] else After(Run(es[..|es| - 1]), es[|es| - 1])
  }

  /** Everything emitted for block k by a stream of events. */
  ghost function Emitted(es: seq<Event>, k: Key): seq<Rune>
  {
    if es == [] then []
    else Emitted(es[..|es| - 1], k) + Emits(Run(es[..|es| - 1]), es[|es| - 1], k)
  }

  /** The text block k has received since it was last finished ... */
  ghost function OpenText(es: seq<Event>, k: Key): seq<Rune>
  {
    if es == [] then []
    else
      match es[|es| - 1]
      case Delta(k', text) => OpenText(es[..|es| - 1], k) + if k' == k then text else []
      case Done(k') => if k' == k then [] else OpenText(es[..|es| - 1], k)
      case AllDone => []
  }

  /** ... and what its finished texts come to, each stripped as a whole. */
  ghost function FinishedText(es: seq<Event>, k: Key): seq<Rune>
  {
    if es == [] then []
    else
      var before := es[..|es| - 1];
      var e := es[|es| - 1];
      FinishedText(before, k) + if e == Done(k) || e.AllDone? then Strip(OpenText(before, k)) else []
  }

  lemma {:induction false} RunOk(es: seq<Event>)
    ensures FiltersOk(Run(es))
  {
    if es != [] {
      var before, e := es[..|es| - 1], es[|es| - 1];
      RunOk(before);
      if e.Delta? { FeedOk(FilterOf(Run(before), e.k), e.text); }
    }
  }

  /** One event, seen from block k. */
  lemma EventState(m: Filters, e: Event, k: Key, open: seq<Rune>)
    requires FiltersOk(m) && FilterOf(m, k) == Feed(Fresh, open).f
    ensures e.Delta? && e.k == k ==>
      FilterOf(After(m, e), k) == Feed(Fresh, open + e.text).f
      && Feed(Fresh, open).out + Emits(m, e, k) == Feed(Fresh, open + e.text).out
    ensures e == Done(k) || e.AllDone? ==>
      FilterOf(After(m, e), k) == Fresh && Feed(Fresh, open).out + Emits(m, e, k) == Strip(open)
    ensures (e.Delta? || e.Done?) && e.k != k ==> FilterOf(After(m, e), k) == FilterOf(m, k) && Emits(m, e, k) == []
  {
    if e.Delta? && e.k == k {
      FeedConcat(Fresh, open, e.text);
      FeedOk(FilterOf(m, k), e.text);
    }
  }

  lemma {:induction false} StreamState(es: seq<Event>, k: Key)
    ensures FilterOf(Run(es), k) == Feed(Fresh, OpenText(es, k)).f
    ensures Emitted(es, k) == FinishedText(es, k) + Feed(Fresh, OpenText(es, k)).out
  {
    if es != [] {
      var before, e := es[..|es| - 1], es[|es| - 1];
      StreamState(before, k);
      RunOk(before);
      var open := OpenText(before, k);
      EventState(Run(before), e, k, open);
      ConcatAssoc(FinishedText(before, k), Feed(Fresh, open).out, Emits(Run(before), e, k));
      assert open + [] == open && FinishedText(before, k) + [] == FinishedText(before, k);
      assert FinishedText(es, k) + [] == FinishedText(es, k);
    }
  }

  /**
   * However a text is cut into deltas and interleaved with other blocks, what is
   * emitted for it and then flushed is what stripping it as a whole gives.
   */
  lemma StreamEqualsWhole(es: seq<Event>, k: Key)
    ensures Emitted(es, k) + Flush(FilterOf(Run(es), k)) == FinishedText(es, k) + Strip(OpenText(es, k))
  {
    StreamState(es, k);
    var g := Feed(Fresh, OpenText(es, k));
    ConcatAssoc(FinishedText(es, k), g.out, Flush(g.f));
  }

  /** Between deltas a block holds at most the group limit, and nothing it has finished with. */
  lemma HeldIsBounded(es: seq<Event>, k: Key)
    ensures Size(FilterOf(Run(es), k).pending) <= 4096
    ensures k in Run(es) ==> OpenText(es, k) != []
  {
    StreamState(es, k);
    RunOk(es);
  }
}

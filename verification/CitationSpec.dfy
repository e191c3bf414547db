/** What stripping means, said of the whole text: which positions survive. */
module CitationSpec {
  import opened Bytes
  import opened Citations

  /** s[i..=j] is START payload END: no nested delimiter, and a payload within the limit. */
  ghost predicate Group(s: seq<Rune>, i: nat, j: nat)
  {
    && i < j < |s| && s[i] == Start && s[j] == End
    && (forall k :: i < k < j ==> s[k] != Start && s[k] != End)
    && Size(s[i + 1..j]) <= 4096
  }

  ghost predicate Covered(s: seq<Rune>, p: nat) { exists i: nat, j: nat :: Group(s, i, j) && i <= p <= j }

  ghost function Coverage(s: seq<Rune>): (cov: seq<bool>)
    ensures |cov| == |s|
  {
    seq(|s|, p requires 0 <= p < |s| => Covered(s, p))
  }

  /** The runes among the first p of s that are neither covered nor markers, in order. */
  ghost function Kept(s: seq<Rune>, cov: seq<bool>, p: nat): seq<Rune>
    requires p <= |s| == |cov|
  {
    if p == 0 then [] else Kept(s, cov, p - 1) + if cov[p - 1] then [] else Shown(s[p - 1])
  }

  ghost predicate All(cov: seq<bool>, i: nat, p: nat, covered: bool)
  {
    i <= p <= |cov| && forall q :: i <= q < p ==> cov[q] == covered
  }

  lemma KeptMarker(s: seq<Rune>, cov: seq<bool>, i: nat)
    requires i < |s| == |cov| && IsMarker(s[i])
    ensures Kept(s, cov, i + 1) == Kept(s, cov, i)
  {
  }

  /** Outside every group, all but the markers stays. */
  lemma {:induction false} KeptBare(s: seq<Rune>, cov: seq<bool>, i: nat, p: nat)
    requires |s| == |cov| && All(cov, i, p, false)
    ensures Kept(s, cov, p) == Kept(s, cov, i) + Bare(s[i..p])
    decreases p
  {
    if p == i {
      assert s[i..p] == [];
    } else {
      KeptBare(s, cov, i, p - 1);
      BareMore(s, i, p - 1);
      ConcatAssoc(Kept(s, cov, i), Bare(s[i..p - 1]), Shown(s[p - 1]));
    }
  }

  lemma BareMore(s: seq<Rune>, i: nat, q: nat)
    requires i <= q < |s|
    ensures Bare(s[i..q + 1]) == Bare(s[i..q]) + Shown(s[q])
  {
    BareSnoc(s[i..q], s[q]);
    assert s[i..q + 1] == s[i..q] + [s[q]];
  }

  lemma {:induction false} KeptCovered(s: seq<Rune>, cov: seq<bool>, i: nat, p: nat)
    requires |s| == |cov| && All(cov, i, p, true)
    ensures Kept(s, cov, p) == Kept(s, cov, i)
    decreases p
  {
    if p > i { KeptCovered(s, cov, i, p - 1); }
  }

  /** An unfinished group: START at i and no delimiter between it and p. */
  ghost predicate Open(s: seq<Rune>, i: nat, p: nat)
  {
    i < p <= |s| && s[i] == Start && forall k :: i < k < p ==> s[k] != Start && s[k] != End
  }

  lemma OnlyOpener(s: seq<Rune>, i: nat, p: nat, i': nat, j': nat)
    requires Open(s, i, p) && Group(s, i', j') && i' < p && i < j'
    ensures i' == i && p <= j'
  {
  }

  ghost predicate Unspanned(s: seq<Rune>, p: nat) { forall i: nat, j: nat :: Group(s, i, j) ==> !(i < p <= j) }

  /** The opener at i never closes in time. */
  ghost predicate NeverCloses(s: seq<Rune>, i: nat) { forall j: nat :: !Group(s, i, j) }

  lemma FailedGroupUncovered(s: seq<Rune>, i: nat, p: nat)
    requires Open(s, i, p) && NeverCloses(s, i)
    ensures All(Coverage(s), i + 1, p, false)
  {
    forall q | i + 1 <= q < p ensures !Coverage(s)[q] {
      if i': nat, j': nat :| Group(s, i', j') && i' <= q <= j' { OnlyOpener(s, i, p, i', j'); }
    }
  }

  lemma FailedGroupKept(s: seq<Rune>, i: nat, p: nat)
    requires Open(s, i, p) && NeverCloses(s, i)
    ensures Kept(s, Coverage(s), p) == Kept(s, Coverage(s), i) + Bare(s[i + 1..p])
  {
    FailedGroupUncovered(s, i, p);
    KeptMarker(s, Coverage(s), i);
    KeptBare(s, Coverage(s), i + 1, p);
  }

  lemma GroupCovers(s: seq<Rune>, i: nat, j: nat)
    requires Group(s, i, j)
    ensures All(Coverage(s), i, j + 1, true)
  {
    forall q | i <= q < j + 1 ensures Coverage(s)[q] { assert Covered(s, q); }
  }

  lemma GroupsEndApart(s: seq<Rune>, i: nat, j: nat)
    requires Group(s, i, j)
    ensures Unspanned(s, j + 1)
  {
    forall a: nat, b: nat | Group(s, a, b) && a < j && i < b ensures a == i && j <= b { OnlyOpener(s, i, j, a, b); }
  }

  lemma OverflowNeverCloses(s: seq<Rune>, i: nat, p: nat)
    requires Open(s, i, p) && Size(s[i + 1..p]) > MaxGroupBytes
    ensures NeverCloses(s, i) && Unspanned(s, p)
  {
    forall j: nat ensures !Group(s, i, j) {
      if Group(s, i, j) {
        assert s[i + 1..p] <= s[i + 1..j];
        SizeMono(s[i + 1..p], s[i + 1..j]);
      }
    }
    forall a: nat, b: nat | Group(s, a, b) && a < p && i < b ensures a == i { OnlyOpener(s, i, p, a, b); }
  }

  /** Where the automaton stands after p runes of s. */
  ghost predicate Tracks(s: seq<Rune>, p: nat, g: Fed, i: nat)
    requires p <= |s|
  {
    if g.f.inGroup then
      && Open(s, i, p) && g.f.pending == s[i + 1..p] && Size(g.f.pending) <= MaxGroupBytes
      && g.out == Kept(s, Coverage(s), i)
    else g.f.pending == [] && Unspanned(s, p) && g.out == Kept(s, Coverage(s), p)
  }

  lemma TracksOutside(s: seq<Rune>, p: nat, g: Fed) returns (i: nat)
    requires p < |s| && Tracks(s, p, g, 0) && !g.f.inGroup
    ensures Tracks(s, p + 1, Then(g, Next(g.f, s[p])), i)
  {
    i := p;
    if s[p] == Start {
      assert s[p + 1..p + 1] == [];
      assert g.out + [] == g.out;
    } else {
      assert !Covered(s, p);
    }
  }

  lemma TracksEnd(s: seq<Rune>, p: nat, g: Fed, i: nat)
    requires p < |s| && Tracks(s, p, g, i) && g.f.inGroup && s[p] == End
    ensures Tracks(s, p + 1, Then(g, Next(g.f, s[p])), i)
  {
    assert Group(s, i, p);
    GroupCovers(s, i, p);
    KeptCovered(s, Coverage(s), i, p + 1);
    GroupsEndApart(s, i, p);
    assert g.out + [] == g.out;
  }

  lemma TracksStart(s: seq<Rune>, p: nat, g: Fed, i: nat)
    requires p < |s| && Tracks(s, p, g, i) && g.f.inGroup && s[p] == Start
    ensures Tracks(s, p + 1, Then(g, Next(g.f, s[p])), p)
  {
    assert s[p + 1..p + 1] == [];
    FailedGroupKept(s, i, p);
  }

  lemma TracksOverflow(s: seq<Rune>, p: nat, g: Fed, i: nat)
    requires p < |s| && Tracks(s, p, g, i) && g.f.inGroup && s[p] != Start && s[p] != End
    requires g.f.pending + [s[p]] == s[i + 1..p + 1] && Size(g.f.pending + [s[p]]) > MaxGroupBytes
    ensures Tracks(s, p + 1, Then(g, Next(g.f, s[p])), i)
  {
    OverflowNeverCloses(s, i, p + 1);
    FailedGroupKept(s, i, p + 1);
  }

  lemma TracksPayload(s: seq<Rune>, p: nat, g: Fed, i: nat)
    requires p < |s| && Tracks(s, p, g, i) && g.f.inGroup && s[p] != Start && s[p] != End
    ensures Tracks(s, p + 1, Then(g, Next(g.f, s[p])), i)
  {
    assert s[i + 1..p] + [s[p]] == s[i + 1..p + 1];
    if Size(g.f.pending + [s[p]]) > MaxGroupBytes {
      TracksOverflow(s, p, g, i);
    } else {
      assert g.out + [] == g.out;
    }
  }

  lemma TracksNext(s: seq<Rune>, p: nat, g: Fed, i: nat) returns (i': nat)
    requires p < |s| && Tracks(s, p, g, i)
    ensures Tracks(s, p + 1, Then(g, Next(g.f, s[p])), i')
  {
    i' := i;
    if !g.f.inGroup {
      i' := TracksOutside(s, p, g);
    } else if s[p] == End {
      TracksEnd(s, p, g, i);
    } else if s[p] == Start {
      TracksStart(s, p, g, i);
      i' := p;
    } else {
      TracksPayload(s, p, g, i);
    }
  }

  lemma FeedOne(s: seq<Rune>, p: nat)
    requires p < |s|
    ensures Feed(Fresh, s[..p + 1]) == Then(Feed(Fresh, s[..p]), Next(Feed(Fresh, s[..p]).f, s[p]))
  {
    FeedSnoc(Fresh, s[..p], s[p]);
    assert s[..p + 1] == s[..p] + [s[p]];
  }

  lemma FeedTracksOne(s: seq<Rune>, p: nat, i: nat) returns (i': nat)
    requires p < |s| && Tracks(s, p, Feed(Fresh, s[..p]), i)
    ensures Tracks(s, p + 1, Feed(Fresh, s[..p + 1]), i')
  {
    i' := TracksNext(s, p, Feed(Fresh, s[..p]), i);
    FeedOne(s, p);
  }

  lemma {:induction false} FeedTracks(s: seq<Rune>, p: nat) returns (i: nat)
    requires p <= |s|
    ensures Tracks(s, p, Feed(Fresh, s[..p]), i)
    decreases p
  {
    i := 0;
    if p > 0 {
      i := FeedTracks(s, p - 1);
      i := FeedTracksOne(s, p - 1, i);
    }
  }

  /** Stripping deletes each complete group, then every remaining marker rune, and nothing else. */
  lemma StripIsKept(s: seq<Rune>)
    ensures Strip(s) == Kept(s, Coverage(s), |s|)
  {
    var i := FeedTracks(s, |s|);
    assert s[..|s|] == s;
    if Feed(Fresh, s).f.inGroup { FailedGroupKept(s, i, |s|); }
  }

  lemma {:induction false} KeptIsBare(s: seq<Rune>, cov: seq<bool>, p: nat)
    requires p <= |s| == |cov|
    ensures !HasMarker(Kept(s, cov, p))
    ensures (forall q :: 0 <= q < p ==> !cov[q]) ==> Kept(s, cov, p) == Bare(s[..p])
  {
    if p > 0 {
      KeptIsBare(s, cov, p - 1);
      BareSnoc(s[..p - 1], s[p - 1]);
      assert s[..p] == s[..p - 1] + [s[p - 1]];
    }
  }

  /** No marker rune is ever shown, and without a complete group no prose is hidden. */
  lemma StripShowsNoMarker(s: seq<Rune>)
    ensures !HasMarker(Strip(s))
    ensures (forall i: nat, j: nat :: !Group(s, i, j)) ==> Strip(s) == Bare(s)
  {
    StripIsKept(s);
    KeptIsBare(s, Coverage(s), |s|);
    assert s[..|s|] == s;
  }
}

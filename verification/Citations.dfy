/**
 * llm/citation_markers.go: inline citation markup is removed from assistant
 * text, whole or streamed.  Text is a sequence of code points; the group limit
 * counts their UTF-8 bytes.
 */
module Citations {
  import opened Bytes

  type Rune = r: int | 0 <= r < 0x110000

  const Start: Rune := 0xE200
  const End: Rune := 0xE201
  const MaxGroupBytes: nat := 4096

  predicate IsMarker(r: Rune) { 0xE200 <= r <= 0xE20F }

  // UTF-8

  function Width(r: Rune): nat
  {
    if r < 0x80 then 1 else if r < 0x800 then 2 else if r < 0x10000 then 3 else 4
  }

  /** The number of bytes a builder holds after writing s. */
  function Size(s: seq<Rune>): nat
  {
    if s == [] then 0 else Size(s[..|s| - 1]) + Width(s[|s| - 1])
  }

  lemma {:induction false} SizeMono(s: seq<Rune>, t: seq<Rune>)
    requires s <= t
    ensures Size(s) <= Size(t)
    decreases |t|
  {
    if |s| < |t| { SizeMono(s, t[..|t| - 1]); } else { assert s == t; }
  }

  function Utf8(r: Rune): (b: seq<byte>)
    ensures |b| == Width(r)
  {
    if r < 0x80 then [r]
    else if r < 0x800 then [0xC0 + r / 64, 0x80 + r % 64]
    else if r < 0x10000 then [0xE0 + r / 4096, 0x80 + r / 64 % 64, 0x80 + r % 64]
    else [0xF0 + r / 262144, 0x80 + r / 4096 % 64, 0x80 + r / 64 % 64, 0x80 + r % 64]
  }

  /** The code point in the bits that the lead and the continuation bytes leave free (RFC 3629, section 3). */
  ghost function FreeBits(b: seq<byte>): int
    requires 1 <= |b| <= 4
  {
    var b0: int, b1: int, b2: int, b3: int :=
      b[0], if |b| > 1 then b[1] else 0, if |b| > 2 then b[2] else 0, if |b| > 3 then b[3] else 0;
    if |b| == 1 then b0
    else if |b| == 2 then (b0 - 0xC0) * 64 + (b1 - 0x80)
    else if |b| == 3 then ((b0 - 0xE0) * 64 + (b1 - 0x80)) * 64 + (b2 - 0x80)
    else (((b0 - 0xF0) * 64 + (b1 - 0x80)) * 64 + (b2 - 0x80)) * 64 + (b3 - 0x80)
  }

  /** The bytes are a code point's UTF-8: the lead byte tells how many follow, and the free bits are the code point. */
  lemma Utf8Means(r: Rune)
    ensures var b := Utf8(r);
      && 1 <= |b| <= 4 && FreeBits(b) == r && (forall i :: 1 <= i < |b| ==> 0x80 <= b[i] < 0xC0)
      && (|b| == 1 <==> b[0] < 0x80) && (|b| == 2 <==> 0xC0 <= b[0] < 0xE0)
      && (|b| == 3 <==> 0xE0 <= b[0] < 0xF0) && (|b| == 4 <==> 0xF0 <= b[0] < 0xF8)
  {
    assert r / 64 / 64 == r / 4096 && r / 4096 / 64 == r / 262144;
  }

  function Encode(s: seq<Rune>): (b: seq<byte>)
    ensures |b| == Size(s)
  {
    if s == [] then [] else Encode(s[..|s| - 1]) + Utf8(s[|s| - 1])
  }

  lemma {:induction false} EncodePrefix(s: seq<Rune>, t: seq<Rune>)
    requires s <= t
    ensures Encode(s) <= Encode(t)
    decreases |t|
  {
    if |s| < |t| { EncodePrefix(s, t[..|t| - 1]); } else { assert s == t; }
  }

  predicate ContainsPrefix(b: seq<byte>)
  {
    exists i :: 0 <= i && i + 1 < |b| && b[i] == 0xEE && b[i + 1] == 0x88
  }

  ghost predicate HasMarker(s: seq<Rune>) { exists r <- s :: IsMarker(r) }

  lemma MarkerBytes(r: Rune)
    requires IsMarker(r)
    ensures Width(r) == 3 && Utf8(r)[0] == 0xEE && Utf8(r)[1] == 0x88
  {
    assert r / 4096 == 14 && r / 64 == 904;
  }

  /** The byte search rules out no text that holds a marker. */
  lemma PrefilterSound(s: seq<Rune>)
    requires HasMarker(s)
    ensures ContainsPrefix(Encode(s))
  {
    var i :| 0 <= i < |s| && IsMarker(s[i]);
    var t := s[..i + 1];
    EncodePrefix(t, s);
    MarkerBytes(s[i]);
    var at := Size(t[..i]);
    assert Encode(t) == Encode(t[..i]) + Utf8(s[i]);
    assert Encode(t)[at] == 0xEE && Encode(t)[at + 1] == 0x88;
    assert Encode(s)[at] == 0xEE && Encode(s)[at + 1] == 0x88;
  }

  method HasInlineCitationMarker(s: seq<Rune>) returns (b: bool)
    ensures b <==> HasMarker(s)
  {
    if !ContainsPrefix(Encode(s)) {
      if HasMarker(s) { PrefilterSound(s); }
      return false;
    }
    for i := 0 to |s|
      invariant forall j :: 0 <= j < i ==> !IsMarker(s[j])
    {
      if IsMarker(s[i]) { return true; }
    }
    return false;
  }

  // The filter as an automaton over runes

  function Shown(r: Rune): seq<Rune> { if IsMarker(r) then [] else [r] }

  /** s without its marker runes. */
  function Bare(s: seq<Rune>): (r: seq<Rune>)
    ensures !HasMarker(r)
  {
    if s == [] then [] else Bare(s[..|s| - 1]) + Shown(s[|s| - 1])
  }

  lemma BareSnoc(s: seq<Rune>, r: Rune)
    ensures Bare(s + [r]) == Bare(s) + Shown(r)
  {
    assert (s + [r])[..|s|] == s;
  }

  method WriteWithoutMarkers(b: seq<Rune>, s: seq<Rune>) returns (r: seq<Rune>)
    ensures r == b + Bare(s)
  {
    r := b;
    for i := 0 to |s|
      invariant r == b + Bare(s[..i])
    {
      assert s[..i + 1][..i] == s[..i];
      if !IsMarker(s[i]) { r := r + [s[i]]; }
    }
    assert s[..|s|] == s;
  }

  datatype Inline = Inline(pending: seq<Rune>, inGroup: bool)
  const Fresh: Inline := Inline([], false)

  /** Nothing is held outside a group, and never more than the limit inside one. */
  ghost predicate InlineOk(f: Inline)
  {
    && (!f.inGroup ==> f.pending == [])
    && Size(f.pending) <= MaxGroupBytes
    && Start !in f.pending && End !in f.pending
  }

  /** A filter after some input, and what that input made it emit. */
  datatype Fed = Fed(f: Inline, out: seq<Rune>)

  ghost function Next(f: Inline, r: Rune): Fed
  {
    if f.inGroup then
      if r == End then Fed(Fresh, [])
      else if r == Start then Fed(Inline([], true), Bare(f.pending))
      else if Size(f.pending + [r]) > MaxGroupBytes then Fed(Fresh, Bare(f.pending + [r]))
      else Fed(Inline(f.pending + [r], true), [])
    else if r == Start then Fed(Inline(f.pending, true), [])
    else Fed(f, Shown(r))
  }

  ghost function Feed(f: Inline, s: seq<Rune>): Fed
  {
    if s == [] then Fed(f, [])
    else
      var g := Feed(f, s[..|s| - 1]);
      var h := Next(g.f, s[|s| - 1]);
      Fed(h.f, g.out + h.out)
  }

  ghost function Flush(f: Inline): seq<Rune> { if f.inGroup then Bare(f.pending) else [] }

  ghost function Strip(s: seq<Rune>): seq<Rune>
  {
    var g := Feed(Fresh, s);
    g.out + Flush(g.f)
  }

  lemma {:induction false} FeedOk(f: Inline, s: seq<Rune>)
    requires InlineOk(f)
    ensures InlineOk(Feed(f, s).f)
  {
    if s != [] { FeedOk(f, s[..|s| - 1]); }
  }

  ghost function Then(g: Fed, h: Fed): Fed { Fed(h.f, g.out + h.out) }

  lemma FeedSnoc(f: Inline, s: seq<Rune>, r: Rune)
    ensures Feed(f, s + [r]) == Then(Feed(f, s), Next(Feed(f, s).f, r))
  {
    assert (s + [r])[..|s|] == s;
  }

  lemma FeedSnocAfter(f: Inline, s: seq<Rune>, t: seq<Rune>, r: Rune)
    ensures Feed(f, s + (t + [r])) == Then(Feed(f, s + t), Next(Feed(f, s + t).f, r))
  {
    assert s + (t + [r]) == (s + t) + [r];
    FeedSnoc(f, s + t, r);
  }

  lemma {:induction false} FeedConcat(f: Inline, s: seq<Rune>, t: seq<Rune>)
    ensures Feed(f, s + t) == Then(Feed(f, s), Feed(Feed(f, s).f, t))
  {
    var g := Feed(f, s);
    if t == [] {
      assert s + t == s;
      assert g.out + [] == g.out;
    } else {
      var t', r := t[..|t| - 1], t[|t| - 1];
      assert t == t' + [r];
      FeedConcat(f, s, t');
      FeedSnocAfter(f, s, t', r);
      ThenAssoc(g, Feed(g.f, t'), Next(Feed(g.f, t').f, r));
    }
  }

  lemma ThenAssoc(a: Fed, b: Fed, c: Fed)
    ensures Then(Then(a, b), c) == Then(a, Then(b, c))
  {
    assert (a.out + b.out) + c.out == a.out + (b.out + c.out);
  }

  lemma {:induction false} FeedPlain(f: Inline, s: seq<Rune>)
    requires !f.inGroup && !HasMarker(s)
    ensures Feed(f, s) == Fed(f, s)
  {
    if s != [] {
      FeedPlain(f, s[..|s| - 1]);
      assert s[|s| - 1] in s;
      assert s == s[..|s| - 1] + [s[|s| - 1]];
    }
  }

  // The imperative filter

  class InlineFilter {
    var pending: seq<Rune>
    var inGroup: bool

    function View(): Inline reads this { Inline(pending, inGroup) }

    constructor (f: Inline)
      ensures View() == f
    {
      pending, inGroup := f.pending, f.inGroup;
    }

    method Filter(s: seq<Rune>) returns (out: seq<Rune>)
      requires InlineOk(View())
      modifies this
      ensures Fed(View(), out) == Feed(old(View()), s) && InlineOk(View())
    {
      FeedOk(View(), s);
      if !inGroup {
        var marked := HasInlineCitationMarker(s);
        if !marked {
          FeedPlain(View(), s);
          return s;
        }
      }
      out := [];
      for i := 0 to |s|
        invariant Fed(View(), out) == Feed(old(View()), s[..i])
      {
        assert s[..i + 1][..i] == s[..i];
        assert out + [] == out;
        var r := s[i];
        if inGroup {
          if r == End {
            pending, inGroup := [], false;
          } else if r == Start {
            out := WriteWithoutMarkers(out, pending);
            pending := [];
          } else {
            pending := pending + [r];
            if Size(pending) > MaxGroupBytes {
              out := WriteWithoutMarkers(out, pending);
              pending, inGroup := [], false;
            }
          }
        } else if r == Start {
          inGroup := true;
        } else if !IsMarker(r) {
          out := out + [r];
        }
      }
      assert s[..|s|] == s;
    }

    method Finish() returns (out: seq<Rune>)
      modifies this
      ensures out == Flush(old(View())) && !inGroup
    {
      if !inGroup { return []; }
      out := WriteWithoutMarkers([], pending);
      pending, inGroup := [], false;
    }
  }

  method StripInlineCitationMarkers(s: seq<Rune>) returns (out: seq<Rune>)
    ensures out == Strip(s)
  {
    var marked := HasInlineCitationMarker(s);
    if !marked {
      FeedPlain(Fresh, s);
      return s;
    }
    var f := new InlineFilter(Fresh);
    out := f.Filter(s);
    var rest := f.Finish();
    out := out + rest;
  }
}

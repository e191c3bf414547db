/** claudetool/patch.go: what the four matching modes mean, character by character. */
module PatchModes {
  import opened Bytes
  import opened Text
  import opened PatchMatch

  // White space

  const WhiteSpace: set<char> := {
    '\t', '\n', '\U{0B}', '\U{0C}', '\r', ' ', '\U{85}', '\U{A0}', '\U{1680}',
    '\U{2000}', '\U{2001}', '\U{2002}', '\U{2003}', '\U{2004}', '\U{2005}', '\U{2006}', '\U{2007}', '\U{2008}',
    '\U{2009}', '\U{200A}', '\U{2028}', '\U{2029}', '\U{202F}', '\U{205F}', '\U{3000}' }

  lemma SpaceIsWhiteSpace(c: char)
    ensures IsSpace(c) <==> c in WhiteSpace
  {
  }

  ghost predicate Blank(s: string) { forall i :: 0 <= i < |s| ==> s[i] in WhiteSpace }

  lemma {:induction false} TrimRightIs(s: string)
    ensures |TrimRight(s)| <= |s| && s[..|TrimRight(s)|] == TrimRight(s) && Blank(s[|TrimRight(s)|..])
  {
    if s != [] && IsSpace(s[|s| - 1]) {
      var t := s[..|s| - 1];
      TrimRightIs(t);
      SpaceIsWhiteSpace(s[|s| - 1]);
      var n := |TrimRight(t)|;
      assert s[n..] == t[n..] + [s[|s| - 1]];
    }
  }

  lemma {:induction false} TrimLeftIs(s: string)
    ensures |TrimLeft(s)| <= |s| && s[|s| - |TrimLeft(s)|..] == TrimLeft(s) && Blank(s[..|s| - |TrimLeft(s)|])
  {
    if s != [] && IsSpace(s[0]) {
      var t := s[1..];
      TrimLeftIs(t);
      SpaceIsWhiteSpace(s[0]);
      var n := |t| - |TrimLeft(t)|;
      assert s[..n + 1] == [s[0]] + t[..n];
    }
  }

  lemma {:induction false} TrimRightPad(s: string, r: string)
    requires Blank(r)
    ensures TrimRight(s + r) == TrimRight(s)
    decreases |r|
  {
    if r == "" {
      assert s + r == s;
    } else {
      var t := s + r;
      assert t[|t| - 1] == r[|r| - 1] && t[..|t| - 1] == s + r[..|r| - 1];
      SpaceIsWhiteSpace(r[|r| - 1]);
      TrimRightPad(s, r[..|r| - 1]);
    }
  }

  lemma {:induction false} TrimLeftPad(l: string, s: string)
    requires Blank(l)
    ensures TrimLeft(l + s) == TrimLeft(s)
    decreases |l|
  {
    if l == "" {
      assert l + s == s;
    } else {
      assert (l + s)[0] == l[0] && (l + s)[1..] == l[1..] + s;
      SpaceIsWhiteSpace(l[0]);
      TrimLeftPad(l[1..], s);
    }
  }

  /** Trimming on the right does not look past ink. */
  lemma {:induction false} TrimRightAfter(l: string, s: string)
    requires TrimRight(s) != ""
    ensures TrimRight(l + s) == l + TrimRight(s)
    decreases |s|
  {
    assert s != "";
    var t := l + s;
    assert t[|t| - 1] == s[|s| - 1];
    if IsSpace(s[|s| - 1]) {
      assert t[..|t| - 1] == l + s[..|s| - 1];
      TrimRightAfter(l, s[..|s| - 1]);
    }
  }

  lemma {:induction false} TrimRightBlank(s: string)
    requires Blank(s)
    ensures TrimRight(s) == ""
  {
    TrimRightPad("", s);
    assert "" + s == s;
  }

  lemma TrimSpacePad(l: string, s: string, r: string)
    requires Blank(l) && Blank(r)
    ensures TrimSpace(l + s + r) == TrimSpace(s)
  {
    TrimRightPad(l + s, r);
    if TrimRight(s) != "" {
      TrimRightAfter(l, s);
      TrimLeftPad(l, TrimRight(s));
    } else {
      TrimRightIs(s);
      assert s[0..] == s;
      TrimRightBlank(l + s);
    }
  }

  /** The trimmed text and the white space around it. */
  lemma TrimSpaceParts(s: string) returns (l: string, r: string)
    ensures s == l + TrimSpace(s) + r && Blank(l) && Blank(r)
  {
    TrimRightIs(s);
    var t := TrimRight(s);
    TrimLeftIs(t);
    l, r := t[..|t| - |TrimLeft(t)|], s[|t|..];
    assert t == l + TrimLeft(t) && s == t + r;
  }

  // The modes

  ghost predicate TrailingAt(a: Line, b: Line, n: nat, m: nat)
  {
    n <= |a| && m <= |b| && a[..n] == b[..m] && Blank(a[n..]) && Blank(b[m..])
  }

  /** Equal but for white space at the end. */
  lemma TrailingMeans(a: Line, b: Line)
    ensures LineEqual(TrailingSpace, a, b) <==> exists n: nat, m: nat :: TrailingAt(a, b, n, m)
  {
    if LineEqual(TrailingSpace, a, b) {
      TrimRightIs(a);
      TrimRightIs(b);
      assert TrailingAt(a, b, |TrimRight(a)|, |TrimRight(b)|);
    }
    if n: nat, m: nat :| TrailingAt(a, b, n, m) {
      TrimRightPad(a[..n], a[n..]);
      TrimRightPad(b[..m], b[m..]);
      assert a == a[..n] + a[n..] && b == b[..m] + b[m..];
    }
  }

  /** s is core with white space around it. */
  ghost predicate Around(s: Line, core: string)
  {
    exists l, r :: Blank(l) && Blank(r) && s == l + core + r
  }

  lemma AroundTrim(s: Line)
    ensures Around(s, TrimSpace(s))
  {
    var l, r := TrimSpaceParts(s);
  }

  lemma AroundTrims(s: Line, core: string)
    requires Around(s, core)
    ensures TrimSpace(s) == TrimSpace(core)
  {
    var l, r :| Blank(l) && Blank(r) && s == l + core + r;
    TrimSpacePad(l, core, r);
  }

  /** Equal but for white space at both ends. */
  lemma SurroundingMeans(a: Line, b: Line)
    ensures LineEqual(SurroundingSpace, a, b) <==> exists core :: Around(a, core) && Around(b, core)
  {
    if LineEqual(SurroundingSpace, a, b) {
      AroundTrim(a);
      AroundTrim(b);
    }
    if core :| Around(a, core) && Around(b, core) {
      AroundTrims(a, core);
      AroundTrims(b, core);
    }
  }

  // Unicode classes

  const Dashes: set<char> :=
    { '-', '\U{2010}', '\U{2011}', '\U{2012}', '\U{2013}', '\U{2014}', '\U{2015}', '\U{2212}' }
  const SingleQuotes: set<char> := { '\'', '\U{2018}', '\U{2019}', '\U{201A}', '\U{201B}' }
  const DoubleQuotes: set<char> := { '"', '\U{201C}', '\U{201D}', '\U{201E}', '\U{201F}' }
  const Spaces: set<char> := {
    ' ', '\U{A0}', '\U{2002}', '\U{2003}', '\U{2004}', '\U{2005}', '\U{2006}', '\U{2007}', '\U{2008}', '\U{2009}',
    '\U{200A}', '\U{202F}', '\U{205F}', '\U{3000}' }

  ghost predicate Alike(c: char, d: char)
  {
    || c == d || (c in Dashes && d in Dashes) || (c in SingleQuotes && d in SingleQuotes)
    || (c in DoubleQuotes && d in DoubleQuotes) || (c in Spaces && d in Spaces)
  }

  ghost predicate AllAlike(s: string, t: string) { |s| == |t| && forall i :: 0 <= i < |s| ==> Alike(s[i], t[i]) }

  lemma NormalizeClass(c: char)
    ensures c in Dashes <==> NormalizeChar(c) == '-'
    ensures c in SingleQuotes <==> NormalizeChar(c) == '\''
    ensures c in DoubleQuotes <==> NormalizeChar(c) == '"'
    ensures c in Spaces <==> NormalizeChar(c) == ' '
    ensures c !in Dashes && c !in SingleQuotes && c !in DoubleQuotes && c !in Spaces ==> NormalizeChar(c) == c
  {
  }

  lemma NormalizeAlike(c: char, d: char)
    ensures NormalizeChar(c) == NormalizeChar(d) <==> Alike(c, d)
  {
    NormalizeClass(c);
    NormalizeClass(d);
  }

  lemma {:induction false} MapAlike(s: string, t: string)
    ensures MapChars(s) == MapChars(t) <==> AllAlike(s, t)
    decreases |s|
  {
    MapLength(s);
    MapLength(t);
    if s != "" && t != "" {
      MapAlike(s[1..], t[1..]);
      NormalizeAlike(s[0], t[0]);
      assert MapChars(s)[0] == NormalizeChar(s[0]) && MapChars(s)[1..] == MapChars(s[1..]);
      assert MapChars(t)[0] == NormalizeChar(t[0]) && MapChars(t)[1..] == MapChars(t[1..]);
      assert AllAlike(s, t) <==> Alike(s[0], t[0]) && AllAlike(s[1..], t[1..]) by {
        assert forall i :: 1 <= i < |s| ==> s[i] == s[1..][i - 1];
        assert forall i :: 1 <= i < |t| ==> t[i] == t[1..][i - 1];
      }
    }
  }

  lemma {:induction false} MapLength(s: string)
    ensures |MapChars(s)| == |s|
  {
    if s != "" { MapLength(s[1..]); }
  }

  lemma AlikeSpace(c: char, d: char)
    requires Alike(c, d)
    ensures IsSpace(c) <==> IsSpace(d)
  {
  }

  lemma {:induction false} TrimRightAlike(s: string, t: string)
    requires AllAlike(s, t)
    ensures AllAlike(TrimRight(s), TrimRight(t))
    decreases |s|
  {
    if s != "" {
      AlikeSpace(s[|s| - 1], t[|t| - 1]);
      TrimRightAlike(s[..|s| - 1], t[..|t| - 1]);
    }
  }

  lemma {:induction false} TrimLeftAlike(s: string, t: string)
    requires AllAlike(s, t)
    ensures AllAlike(TrimLeft(s), TrimLeft(t))
    decreases |s|
  {
    if s != "" {
      AlikeSpace(s[0], t[0]);
      TrimLeftAlike(s[1..], t[1..]);
    }
  }

  ghost predicate NormalizedCores(a: Line, b: Line, core: string, core': string)
  {
    Around(a, core) && Around(b, core') && AllAlike(core, core')
  }

  /** Equal but for white space at both ends and for kinds of dashes, quotes and spaces. */
  lemma NormalizedMeans(a: Line, b: Line)
    ensures LineEqual(UnicodeNormalized, a, b) <==> exists core, core' :: NormalizedCores(a, b, core, core')
  {
    MapAlike(TrimSpace(a), TrimSpace(b));
    if LineEqual(UnicodeNormalized, a, b) {
      AroundTrim(a);
      AroundTrim(b);
      assert NormalizedCores(a, b, TrimSpace(a), TrimSpace(b));
    }
    if core, core' :| NormalizedCores(a, b, core, core') {
      AroundTrims(a, core);
      AroundTrims(b, core');
      TrimRightAlike(core, core');
      TrimLeftAlike(TrimRight(core), TrimRight(core'));
    }
  }

  /** Exactly equal. */
  lemma ExactMeans(a: Line, b: Line)
    ensures LineEqual(Exact, a, b) <==> a == b
  {
  }
}

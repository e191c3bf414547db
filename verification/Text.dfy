/** The line and white-space functions of Go's strings package that the patch engine calls. */
module Text {

  type Line = string

  predicate Plain(l: Line) { '\n' !in l }

  ghost predicate AllPlain(ls: seq<Line>) { forall i :: 0 <= i < |ls| ==> Plain(ls[i]) }

  /** strings.Split(s, "\n") */
  function Split(s: string): (ls: seq<Line>)
    ensures |ls| >= 1 && AllPlain(ls)
  {
    if s == [] then [[]]
    else
      var rest := Split(s[1..]);
      if s[0] == '\n' then [[]] + rest else [[s[0]] + rest[0]] + rest[1..]
  }

  /** strings.Join(ls, "\n") */
  function Join(ls: seq<Line>): string
  {
    if |ls| == 0 then "" else if |ls| == 1 then ls[0] else ls[0] + "\n" + Join(ls[1..])
  }

  lemma {:induction false} JoinSplit(s: string)
    ensures Join(Split(s)) == s
  {
    if s != [] {
      var rest := Split(s[1..]);
      JoinSplit(s[1..]);
      if s[0] == '\n' {
        assert ([[]] + rest)[1..] == rest;
        assert [] + "\n" + Join(rest) == s;
      } else {
        var ls := [[s[0]] + rest[0]] + rest[1..];
        assert ls[1..] == rest[1..];
        if |rest| > 1 { assert [s[0]] + rest[0] + "\n" + Join(rest[1..]) == [s[0]] + Join(rest); }
        assert s == [s[0]] + s[1..];
      }
    }
  }

  lemma {:induction false} SplitPlain(l: Line)
    requires Plain(l)
    ensures Split(l) == [l]
  {
    if l != [] {
      SplitPlain(l[1..]);
      assert Split(l) == [[l[0]] + l[1..]] + [l[1..]][1..];
      assert [l[0]] + l[1..] == l;
    }
  }

  lemma {:induction false} SplitCons(l: Line, s: string)
    requires Plain(l)
    ensures Split(l + "\n" + s) == [l] + Split(s)
  {
    var t := l + "\n" + s;
    if l == [] {
      assert t[1..] == s;
    } else {
      SplitCons(l[1..], s);
      assert t[1..] == l[1..] + "\n" + s;
      assert ([l[1..]] + Split(s))[1..] == Split(s);
      assert [l[0]] + l[1..] == l;
    }
  }

  lemma {:induction false} SplitJoin(ls: seq<Line>)
    requires |ls| >= 1 && AllPlain(ls)
    ensures Split(Join(ls)) == ls
  {
    if |ls| == 1 {
      SplitPlain(ls[0]);
    } else {
      SplitJoin(ls[1..]);
      SplitCons(ls[0], Join(ls[1..]));
      assert ls == [ls[0]] + ls[1..];
    }
  }

  predicate HasPrefix(s: string, p: string) { p <= s }

  predicate HasSuffix(s: string, p: string) { |p| <= |s| && s[|s| - |p|..] == p }

  function TrimPrefix(s: string, p: string): string { if HasPrefix(s, p) then s[|p|..] else s }

  /** unicode.IsSpace */
  predicate IsSpace(c: char)
  {
    || '\t' <= c <= '\r'
    || c == ' ' || c == '\U{85}' || c == '\U{A0}' || c == '\U{1680}'
    || '\U{2000}' <= c <= '\U{200A}'
    || c == '\U{2028}' || c == '\U{2029}' || c == '\U{202F}' || c == '\U{205F}' || c == '\U{3000}'
  }

  /** strings.TrimRightFunc(s, unicode.IsSpace) */
  function TrimRight(s: string): string
  {
    if s != [] && IsSpace(s[|s| - 1]) then TrimRight(s[..|s| - 1]) else s
  }

  function TrimLeft(s: string): string
  {
    if s != [] && IsSpace(s[0]) then TrimLeft(s[1..]) else s
  }

  function TrimSpace(s: string): string { TrimLeft(TrimRight(s)) }
}

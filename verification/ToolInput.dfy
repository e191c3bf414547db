/** llm/tool_input.go: finding and removing repeated member names in a tool call's JSON input. */
module ToolInput {
  import opened Options

  /** A JSON text as RFC 8259 has it: members in order, names possibly repeated. */
  datatype Json = Atom(literal: string) | Text(s: string) | Array(items: Items) | Object(members: Members)
  datatype Items = NoItems | Item(head: Json, more: Items)
  datatype Members = NoMembers | Member(name: string, value: Json, rest: Members)

  // The token stream

  datatype Token = OpenObject | OpenArray | Close | AtomToken | TextToken(s: string)
  datatype Tokens = End | Next(first: Token, more: Tokens)

  /** The tokens of j, then rest. A member name and a string value look alike. */
  function Tokenize(j: Json, rest: Tokens): Tokens
  {
    match j
    case Atom(_) => Next(AtomToken, rest)
    case Text(s) => Next(TextToken(s), rest)
    case Array(items) => Next(OpenArray, TokenizeItems(items, Next(Close, rest)))
    case Object(members) => Next(OpenObject, TokenizeMembers(members, Next(Close, rest)))
  }

  function TokenizeItems(items: Items, rest: Tokens): Tokens
  {
    match items case NoItems => rest case Item(j, more) => Tokenize(j, TokenizeItems(more, rest))
  }

  function TokenizeMembers(ms: Members, rest: Tokens): Tokens
  {
    match ms
    case NoMembers => rest
    case Member(name, j, more) => Next(TextToken(name), Tokenize(j, TokenizeMembers(more, rest)))
  }

  // The names a walk of the tree finds repeated

  function Repeats(j: Json): seq<string>
  {
    match j
    case Array(items) => RepeatsInItems(items)
    case Object(members) => RepeatsInMembers(members, {})
    case _ => []
  }

  function RepeatsInItems(items: Items): seq<string>
  {
    match items case NoItems => [] case Item(j, more) => Repeats(j) + RepeatsInItems(more)
  }

  /** seen: the names of the members before these. */
  function RepeatsInMembers(ms: Members, seen: set<string>): seq<string>
  {
    match ms
    case NoMembers => []
    case Member(name, j, more) =>
      (if name in seen then [name] else []) + (Repeats(j) + RepeatsInMembers(more, seen + {name}))
  }

  // The automaton

  /** key: the next string token is a member name. */
  datatype Frame = InArray | InObject(names: set<string>, key: bool)

  datatype Stack = Empty | Push(top: Frame, under: Stack)

  /** A value begins or is complete: in an object, a name comes next. */
  function AfterValue(s: Stack): Stack
  {
    if s.Push? && s.top.InObject? then s.(top := s.top.(key := true)) else s
  }

  /** t.(string) would panic on a token that is not a string. */
  predicate Panics(s: Stack, t: Token) { s.Push? && s.top.InObject? && s.top.key && t.AtomToken? }

  /** One token: the new stack and the name it repeats, if any. */
  function Step(s: Stack, t: Token): (Stack, seq<string>)
  {
    match t
    case OpenObject => (Push(InObject({}, true), AfterValue(s)), [])
    case OpenArray => (Push(InArray, AfterValue(s)), [])
    case Close => (if s.Push? then s.under else s, [])
    case _ =>
      if s.Push? && s.top.InObject? && s.top.key && t.TextToken? then
        (Push(InObject(s.top.names + {t.s}, false), s.under), if t.s in s.top.names then [t.s] else [])
      else (AfterValue(s), [])
  }

  function Run(s: Stack, ts: Tokens): seq<string>
    decreases ts
  {
    if ts.End? then [] else Step(s, ts.first).1 + Run(Step(s, ts.first).0, ts.more)
  }

  ghost predicate NoPanic(s: Stack, ts: Tokens)
    decreases ts
  {
    ts.End? || (!Panics(s, ts.first) && NoPanic(Step(s, ts.first).0, ts.more))
  }

  /** A value may come next. */
  predicate AtValue(s: Stack) { s.Push? && s.top.InObject? ==> !s.top.key }

  ghost predicate Reads(s: Stack, ts: Tokens, found: seq<string>, s': Stack, rest: Tokens)
  {
    Run(s, ts) == found + Run(s', rest) && (NoPanic(s', rest) ==> NoPanic(s, ts))
  }

  lemma ReadsTwo(s: Stack, ts: Tokens, f: seq<string>, s1: Stack, ts1: Tokens, g: seq<string>, s2: Stack, ts2: Tokens)
    requires Reads(s, ts, f, s1, ts1) && Reads(s1, ts1, g, s2, ts2)
    ensures Reads(s, ts, f + g, s2, ts2)
  {
    assert f + (g + Run(s2, ts2)) == f + g + Run(s2, ts2);
  }

  lemma ReadsOne(s: Stack, t: Token, rest: Tokens)
    requires !Panics(s, t)
    ensures Reads(s, Next(t, rest), Step(s, t).1, Step(s, t).0, rest)
  {
  }

  lemma {:induction false} ReadsJson(j: Json, s: Stack, rest: Tokens)
    requires AtValue(s)
    ensures Reads(s, Tokenize(j, rest), Repeats(j), AfterValue(s), rest)
    decreases j, 1
  {
    match j {
      case Atom(_) => ReadsOne(s, AtomToken, rest);
      case Text(t) => ReadsOne(s, TextToken(t), rest);
      case Array(items) =>
        var body, inner := TokenizeItems(items, Next(Close, rest)), Push(InArray, AfterValue(s));
        ReadsOne(s, OpenArray, body);
        ReadsItems(items, inner, Next(Close, rest));
        ReadsOne(inner, Close, rest);
        Wrap(s, Tokenize(j, rest), inner, body, RepeatsInItems(items), inner, Next(Close, rest), AfterValue(s), rest);
      case Object(members) =>
        var body, inner := TokenizeMembers(members, Next(Close, rest)), Push(InObject({}, true), AfterValue(s));
        ReadsOne(s, OpenObject, body);
        var last := ReadsMembers(members, {}, AfterValue(s), Next(Close, rest));
        ReadsOne(last, Close, rest);
        Wrap(s, Tokenize(j, rest), inner, body, RepeatsInMembers(members, {}), last, Next(Close, rest), AfterValue(s), rest);
    }
  }

  /** An opening token, what it encloses, and the closing token. */
  lemma Wrap(s: Stack, ts: Tokens, s1: Stack, ts1: Tokens, found: seq<string>, s2: Stack, ts2: Tokens, s3: Stack, ts3: Tokens)
    requires Reads(s, ts, [], s1, ts1) && Reads(s1, ts1, found, s2, ts2) && Reads(s2, ts2, [], s3, ts3)
    ensures Reads(s, ts, found, s3, ts3)
  {
    ReadsTwo(s, ts, [], s1, ts1, found, s2, ts2);
    ReadsTwo(s, ts, [] + found, s2, ts2, [], s3, ts3);
    assert [] + found + [] == found;
  }

  lemma {:induction false} ReadsItems(items: Items, s: Stack, rest: Tokens)
    requires s.Push? && s.top.InArray?
    ensures Reads(s, TokenizeItems(items, rest), RepeatsInItems(items), s, rest)
    decreases items, 0
  {
    match items {
      case NoItems => assert [] + Run(s, rest) == Run(s, rest);
      case Item(j, more) =>
        ReadsJson(j, s, TokenizeItems(more, rest));
        ReadsItems(more, s, rest);
        ReadsTwo(s, TokenizeItems(items, rest), Repeats(j), s, TokenizeItems(more, rest), RepeatsInItems(more), s, rest);
    }
  }

  lemma {:induction false} ReadsMembers(ms: Members, seen: set<string>, under: Stack, rest: Tokens) returns (last: Stack)
    ensures last.Push? && last.under == under
    ensures Reads(Push(InObject(seen, true), under), TokenizeMembers(ms, rest), RepeatsInMembers(ms, seen), last, rest)
    decreases ms, 0
  {
    var s := Push(InObject(seen, true), under);
    match ms {
      case NoMembers =>
        last := s;
        assert [] + Run(s, rest) == Run(s, rest);
      case Member(name, j, more) =>
        var tail := TokenizeMembers(more, rest);
        var named, next := Push(InObject(seen + {name}, false), under), Push(InObject(seen + {name}, true), under);
        ReadsOne(s, TextToken(name), Tokenize(j, tail));
        ReadsJson(j, named, tail);
        last := ReadsMembers(more, seen + {name}, under, rest);
        ReadsTwo(named, Tokenize(j, tail), Repeats(j), next, tail, RepeatsInMembers(more, seen + {name}), last, rest);
        ReadsTwo(s, TokenizeMembers(ms, rest), if name in seen then [name] else [], named, Tokenize(j, tail),
                 Repeats(j) + RepeatsInMembers(more, seen + {name}), last, rest);
    }
  }

  /** The automaton finds, in document order, exactly what the walk finds, and never panics. */
  lemma AutomatonIsWalk(j: Json)
    ensures Run(Empty, Tokenize(j, End)) == Repeats(j) && NoPanic(Empty, Tokenize(j, End))
  {
    ReadsJson(j, Empty, End);
    assert Repeats(j) + [] == Repeats(j);
  }

  /** repeatedNames, on the tokens of a valid text. */
  method RepeatedNames(j: Json) returns (repeated: seq<string>)
    ensures repeated == Repeats(j)
  {
    var ts, stack := Tokenize(j, End), Empty;
    AutomatonIsWalk(j);
    repeated := [];
    while ts.Next?
      invariant repeated + Run(stack, ts) == Repeats(j) && NoPanic(stack, ts)
      decreases ts
    {
      var t := ts.first;
      ghost var found := Step(stack, t).1;
      assert repeated + (found + Run(Step(stack, t).0, ts.more)) == (repeated + found) + Run(Step(stack, t).0, ts.more);
      assert repeated + [] == repeated;
      ts := ts.more;
      match t {
        case OpenObject => stack := Push(InObject({}, true), AfterValue(stack));
        case OpenArray => stack := Push(InArray, AfterValue(stack));
        case Close => if stack.Push? { stack := stack.under; }
        case AtomToken => if stack.Push? && stack.top.InObject? { stack := stack.(top := stack.top.(key := true)); }
        case TextToken(name) =>
          if stack.Empty? || stack.top.InArray? { continue; }
          if stack.top.key {
            if name in stack.top.names { repeated := repeated + [name]; }
            stack := stack.(top := InObject(stack.top.names + {name}, false));
          } else {
            stack := stack.(top := stack.top.(key := true));
          }
      }
    }
    assert repeated + [] == repeated;
  }

  // The canonical text

  /** What encoding/json makes of a text: names map to their last values. */
  datatype Value = Leaf(j: Json) | List(vs: Values) | Map(m: map<string, Value>)
  datatype Values = NoValues | Values(head: Value, more: Values)

  ghost function Decode(j: Json): Value
  {
    match j
    case Array(items) => List(DecodeItems(items))
    case Object(ms) => Map(DecodeMembers(ms, map[]))
    case _ => Leaf(j)
  }

  ghost function DecodeItems(items: Items): Values
  {
    match items case NoItems => NoValues case Item(j, more) => Values(Decode(j), DecodeItems(more))
  }

  ghost function DecodeMembers(ms: Members, m: map<string, Value>): map<string, Value>
  {
    match ms case NoMembers => m case Member(name, j, rest) => DecodeMembers(rest, m[name := Decode(j)])
  }

  predicate Less(a: string, b: string)
  {
    b != "" && (a == "" || a[0] < b[0] || (a[0] == b[0] && Less(a[1..], b[1..])))
  }

  lemma {:induction false} LessTotal(a: string, b: string)
    ensures a == b || Less(a, b) || Less(b, a)
    ensures !Less(a, a)
  {
    if a != "" { LessTotal(a[1..], a[1..]); }
    if a != "" && b != "" && a[0] == b[0] {
      LessTotal(a[1..], b[1..]);
      assert a[1..] == b[1..] ==> a == [a[0]] + a[1..] == [b[0]] + b[1..] == b;
    }
  }

  lemma {:induction false} LessTrans(a: string, b: string, c: string)
    requires Less(a, b) && Less(b, c)
    ensures Less(a, c)
  {
    if a != "" && a[0] == b[0] == c[0] { LessTrans(a[1..], b[1..], c[1..]); }
  }

  /** Members are written in name order; a later value replaces an earlier one. */
  function Put(ms: Members, name: string, j: Json): Members
  {
    match ms
    case NoMembers => Member(name, j, NoMembers)
    case Member(n, v, rest) =>
      if name == n then Member(n, j, rest)
      else if Less(name, n) then Member(name, j, ms)
      else Member(n, v, Put(rest, name, j))
  }

  /** Decoded and written again. */
  function Canon(j: Json): Json
  {
    match j
    case Array(items) => Array(CanonItems(items))
    case Object(ms) => Object(CanonMembers(ms, NoMembers))
    case _ => j
  }

  function CanonItems(items: Items): Items
  {
    match items case NoItems => NoItems case Item(j, more) => Item(Canon(j), CanonItems(more))
  }

  function CanonMembers(ms: Members, acc: Members): Members
    decreases ms
  {
    match ms case NoMembers => acc case Member(name, j, rest) => CanonMembers(rest, Put(acc, name, Canon(j)))
  }

  ghost predicate Above(ms: Members, name: string) { ms.Member? ==> Less(name, ms.name) && Above(ms.rest, name) }

  ghost predicate Sorted(ms: Members) { ms.Member? ==> Above(ms.rest, ms.name) && Sorted(ms.rest) }

  lemma {:induction false} AboveTrans(ms: Members, a: string, b: string)
    requires Less(a, b) && Above(ms, b)
    ensures Above(ms, a)
  {
    if ms.Member? { LessTrans(a, b, ms.name); AboveTrans(ms.rest, a, b); }
  }

  lemma {:induction false} PutAbove(ms: Members, name: string, j: Json, low: string)
    requires Above(ms, low) && Less(low, name)
    ensures Above(Put(ms, name, j), low)
  {
    if ms.Member? && name != ms.name && !Less(name, ms.name) { PutAbove(ms.rest, name, j, low); }
  }

  lemma {:induction false} PutSorted(ms: Members, name: string, j: Json)
    requires Sorted(ms)
    ensures Sorted(Put(ms, name, j))
  {
    if ms.Member? && name != ms.name {
      LessTotal(name, ms.name);
      if Less(name, ms.name) {
        AboveTrans(ms.rest, name, ms.name);
      } else {
        PutSorted(ms.rest, name, j);
        PutAbove(ms.rest, name, j, ms.name);
      }
    }
  }

  /** A name below all of the members may be set before or after them. */
  lemma {:induction false} DecodeAbove(ms: Members, m: map<string, Value>, name: string, v: Value)
    requires Above(ms, name)
    ensures DecodeMembers(ms, m[name := v]) == DecodeMembers(ms, m)[name := v]
    decreases ms
  {
    if ms.Member? {
      LessTotal(name, name);
      DecodeAbove(ms.rest, m[ms.name := Decode(ms.value)], name, v);
      assert m[name := v][ms.name := Decode(ms.value)] == m[ms.name := Decode(ms.value)][name := v];
    }
  }

  lemma {:induction false} DecodePut(ms: Members, m: map<string, Value>, name: string, j: Json)
    requires Sorted(ms)
    ensures DecodeMembers(Put(ms, name, j), m) == DecodeMembers(ms, m)[name := Decode(j)]
    decreases ms
  {
    if ms.Member? {
      if name == ms.name {
        DecodeAbove(ms.rest, m, name, Decode(j));
        DecodeAbove(ms.rest, m, name, Decode(ms.value));
      } else if Less(name, ms.name) {
        AboveTrans(ms.rest, name, ms.name);
        DecodeAbove(ms, m, name, Decode(j));
      } else {
        DecodePut(ms.rest, m[ms.name := Decode(ms.value)], name, j);
      }
    }
  }

  /** The canonical text decodes to the same value. */
  lemma {:induction false} CanonDecodes(j: Json)
    ensures Decode(Canon(j)) == Decode(j)
    decreases j, 1
  {
    match j {
      case Array(items) => CanonDecodesItems(items);
      case Object(ms) => CanonDecodesMembers(ms, NoMembers);
      case _ =>
    }
  }

  lemma {:induction false} CanonDecodesItems(items: Items)
    ensures DecodeItems(CanonItems(items)) == DecodeItems(items)
    decreases items, 0
  {
    if items.Item? { CanonDecodes(items.head); CanonDecodesItems(items.more); }
  }

  lemma {:induction false} CanonDecodesMembers(ms: Members, acc: Members)
    requires Sorted(acc)
    ensures DecodeMembers(CanonMembers(ms, acc), map[]) == DecodeMembers(ms, DecodeMembers(acc, map[]))
    decreases ms, 0
  {
    if ms.Member? {
      CanonDecodes(ms.value);
      PutSorted(acc, ms.name, Canon(ms.value));
      DecodePut(acc, map[], ms.name, Canon(ms.value));
      CanonDecodesMembers(ms.rest, Put(acc, ms.name, Canon(ms.value)));
    }
  }

  // The canonical text repeats nothing

  ghost predicate CleanMembers(ms: Members)
  {
    ms.Member? ==> Repeats(ms.value) == [] && CleanMembers(ms.rest)
  }

  lemma {:induction false} SortedRepeatsNone(ms: Members, seen: set<string>)
    requires Sorted(ms) && CleanMembers(ms) && forall n :: n in seen ==> Above(ms, n)
    ensures RepeatsInMembers(ms, seen) == []
    decreases ms
  {
    if ms.Member? {
      LessTotal(ms.name, ms.name);
      forall n | n in seen + {ms.name} ensures Above(ms.rest, n) {}
      SortedRepeatsNone(ms.rest, seen + {ms.name});
    }
  }

  lemma {:induction false} PutClean(ms: Members, name: string, j: Json)
    requires CleanMembers(ms) && Repeats(j) == []
    ensures CleanMembers(Put(ms, name, j))
  {
    if ms.Member? && name != ms.name && !Less(name, ms.name) { PutClean(ms.rest, name, j); }
  }

  lemma {:induction false} CanonRepeatsNone(j: Json)
    ensures Repeats(Canon(j)) == []
    decreases j, 1
  {
    match j {
      case Array(items) => CanonItemsRepeatNone(items);
      case Object(ms) =>
        CanonMembersClean(ms, NoMembers);
        SortedRepeatsNone(CanonMembers(ms, NoMembers), {});
      case _ =>
    }
  }

  lemma {:induction false} CanonItemsRepeatNone(items: Items)
    ensures RepeatsInItems(CanonItems(items)) == []
    decreases items, 0
  {
    if items.Item? { CanonRepeatsNone(items.head); CanonItemsRepeatNone(items.more); }
  }

  lemma {:induction false} CanonMembersClean(ms: Members, acc: Members)
    requires Sorted(acc) && CleanMembers(acc)
    ensures Sorted(CanonMembers(ms, acc)) && CleanMembers(CanonMembers(ms, acc))
    decreases ms, 0
  {
    if ms.Member? {
      CanonRepeatsNone(ms.value);
      PutSorted(acc, ms.name, Canon(ms.value));
      PutClean(acc, ms.name, Canon(ms.value));
      CanonMembersClean(ms.rest, Put(acc, ms.name, Canon(ms.value)));
    }
  }

  // CanonicalToolInput

  /** json.Valid with the tree it finds, and json.Marshal. */
  datatype Codec = Codec(parse: string -> Option<Json>, marshal: Json -> string)

  ghost predicate Sound(c: Codec) { forall j {:trigger c.marshal(j)} :: c.parse(c.marshal(j)) == Some(j) }

  function Canonical(c: Codec, input: string): (string, seq<string>)
  {
    match c.parse(input)
    case None => (input, [])
    case Some(j) => if Repeats(j) == [] then (input, []) else (c.marshal(Canon(j)), Repeats(j))
  }

  method CanonicalToolInput(c: Codec, input: string) returns (output: string, repeated: seq<string>)
    ensures (output, repeated) == Canonical(c, input)
  {
    var j := c.parse(input);
    if j.None? { return input, []; }
    repeated := RepeatedNames(j.value);
    if repeated == [] { return input, []; }
    return c.marshal(Canon(j.value)), repeated;
  }

  /** The output repeats no name, decodes to the input's value, and is left alone from then on. */
  lemma CanonicalIsFixed(c: Codec, input: string)
    requires Sound(c) && c.parse(input).Some?
    ensures var out := Canonical(c, input).0;
      && c.parse(out).Some? && Repeats(c.parse(out).value) == []
      && Decode(c.parse(out).value) == Decode(c.parse(input).value)
      && Canonical(c, out) == (out, [])
    ensures Repeats(c.parse(input).value) == [] ==> Canonical(c, input).0 == input
  {
    var j := c.parse(input).value;
    CanonRepeatsNone(j);
    CanonDecodes(j);
    assert c.parse(c.marshal(Canon(j))) == Some(Canon(j));
  }

  // The walk and the decoding, said of names

  function Count(ms: Members, name: string): nat
  {
    match ms case NoMembers => 0 case Member(n, _, rest) => (if n == name then 1 else 0) + Count(rest, name)
  }

  /** Some object in j has two members of this name. */
  ghost predicate TwiceIn(j: Json, name: string)
  {
    match j
    case Array(items) => TwiceInItems(items, name)
    case Object(ms) => Count(ms, name) >= 2 || TwiceInValues(ms, name)
    case _ => false
  }

  ghost predicate TwiceInItems(items: Items, name: string)
  {
    items.Item? && (TwiceIn(items.head, name) || TwiceInItems(items.more, name))
  }

  ghost predicate TwiceInValues(ms: Members, name: string)
  {
    ms.Member? && (TwiceIn(ms.value, name) || TwiceInValues(ms.rest, name))
  }

  /** The walk reports a name exactly when some object has it twice. */
  lemma {:induction false} RepeatsIff(j: Json, name: string)
    ensures name in Repeats(j) <==> TwiceIn(j, name)
    decreases j, 1
  {
    match j {
      case Array(items) => ItemsRepeatIff(items, name);
      case Object(ms) => MembersRepeatIff(ms, {}, name);
      case _ =>
    }
  }

  lemma {:induction false} ItemsRepeatIff(items: Items, name: string)
    ensures name in RepeatsInItems(items) <==> TwiceInItems(items, name)
    decreases items, 0
  {
    if items.Item? {
      RepeatsIff(items.head, name);
      ItemsRepeatIff(items.more, name);
    }
  }

  lemma {:induction false} MembersRepeatIff(ms: Members, seen: set<string>, name: string)
    ensures name in RepeatsInMembers(ms, seen)
      <==> Count(ms, name) >= (if name in seen then 1 else 2) || TwiceInValues(ms, name)
    decreases ms, 0
  {
    if ms.Member? {
      RepeatsIff(ms.value, name);
      MembersRepeatIff(ms.rest, seen + {ms.name}, name);
    }
  }

  function LastValue(ms: Members, name: string): Option<Json>
  {
    match ms
    case NoMembers => None
    case Member(n, j, rest) => if LastValue(rest, name).Some? || n != name then LastValue(rest, name) else Some(j)
  }

  /** An object's names are decoded to their last values. */
  lemma {:induction false} DecodeKeepsLast(ms: Members, m: map<string, Value>, name: string)
    ensures var d := DecodeMembers(ms, m);
      if LastValue(ms, name).Some? then name in d && d[name] == Decode(LastValue(ms, name).value)
      else (name in d <==> name in m) && (name in m ==> d[name] == m[name])
    decreases ms
  {
    if ms.Member? { DecodeKeepsLast(ms.rest, m[ms.name := Decode(ms.value)], name); }
  }

  function NthItem(items: Items, i: nat): Option<Json>
    decreases items
  {
    if items.NoItems? then None else if i == 0 then Some(items.head) else NthItem(items.more, i - 1)
  }

  function NthValue(vs: Values, i: nat): Option<Value>
    decreases vs
  {
    if vs.NoValues? then None else if i == 0 then Some(vs.head) else NthValue(vs.more, i - 1)
  }

  ghost function DecodeSome(j: Option<Json>): Option<Value> { if j.Some? then Some(Decode(j.value)) else None }

  /** An array's items are decoded in place. */
  lemma {:induction false} DecodeKeepsItems(items: Items, i: nat)
    ensures NthValue(DecodeItems(items), i) == DecodeSome(NthItem(items, i))
    decreases items
  {
    if items.Item? && i > 0 { DecodeKeepsItems(items.more, i - 1); }
  }

  /** What is reported: nothing for a text that is not JSON, which is returned as it is; else exactly the repeated names. */
  lemma CanonicalReports(c: Codec, input: string)
    ensures c.parse(input).None? ==> Canonical(c, input) == (input, [])
    ensures c.parse(input).Some? ==>
      forall name :: name in Canonical(c, input).1 <==> TwiceIn(c.parse(input).value, name)
    ensures Canonical(c, input).1 == [] ==> Canonical(c, input).0 == input
  {
    if c.parse(input).Some? {
      forall name ensures name in Canonical(c, input).1 <==> TwiceIn(c.parse(input).value, name) {
        RepeatsIff(c.parse(input).value, name);
      }
    }
  }

  // The order of the names

  /** a is the start of b, or has the smaller character where they first differ. */
  ghost predicate Precedes(a: string, b: string)
  {
    || (|a| < |b| && b[..|a|] == a)
    || exists k: nat :: Differs(a, b, k)
  }

  ghost predicate Differs(a: string, b: string, k: nat)
  {
    k < |a| && k < |b| && a[..k] == b[..k] && a[k] < b[k]
  }

  lemma {:induction false} LessMeans(a: string, b: string)
    ensures Less(a, b) <==> Precedes(a, b)
  {
    if a != "" && b != "" {
      if a[0] == b[0] {
        LessMeans(a[1..], b[1..]);
        TailPrecedes(a, b);
      } else {
        HeadDecides(a, b);
      }
    }
  }

  lemma PrecedesHeads(a: string, b: string)
    requires a != "" && b != "" && Precedes(a, b)
    ensures a[0] <= b[0]
  {
    if |a| < |b| && b[..|a|] == a {
      assert b[0] == b[..|a|][0];
    } else {
      var k: nat :| Differs(a, b, k);
      if k > 0 { assert a[0] == a[..k][0] && b[0] == b[..k][0]; }
    }
  }

  lemma HeadDecides(a: string, b: string)
    requires a != "" && b != "" && a[0] != b[0]
    ensures Precedes(a, b) <==> a[0] < b[0]
  {
    if a[0] < b[0] { assert Differs(a, b, 0); }
    if Precedes(a, b) { PrecedesHeads(a, b); }
  }

  lemma TailPrecedes(a: string, b: string)
    requires a != "" && b != "" && a[0] == b[0]
    ensures Precedes(a, b) <==> Precedes(a[1..], b[1..])
  {
    assert a == [a[0]] + a[1..] && b == [b[0]] + b[1..];
    if |a| < |b| { assert b[..|a|] == [b[0]] + b[1..][..|a| - 1]; }
    if k: nat :| Differs(a, b, k) {
      assert a[1..][..k - 1] == a[..k][1..] && b[1..][..k - 1] == b[..k][1..];
      assert Differs(a[1..], b[1..], k - 1);
    }
    if k: nat :| Differs(a[1..], b[1..], k) {
      assert a[..k + 1] == [a[0]] + a[1..][..k] && b[..k + 1] == [b[0]] + b[1..][..k];
      assert Differs(a, b, k + 1);
    }
  }

  function Names(ms: Members): seq<string>
  {
    match ms case NoMembers => [] case Member(name, _, rest) => [name] + Names(rest)
  }

  lemma {:induction false} AboveAll(ms: Members, name: string, i: nat)
    requires Above(ms, name) && i < |Names(ms)|
    ensures Precedes(name, Names(ms)[i])
  {
    if i == 0 { LessMeans(name, ms.name); } else { AboveAll(ms.rest, name, i - 1); }
  }

  lemma {:induction false} SortedAscends(ms: Members, i: nat, j: nat)
    requires Sorted(ms) && i < j < |Names(ms)|
    ensures Precedes(Names(ms)[i], Names(ms)[j])
  {
    if i == 0 { AboveAll(ms.rest, ms.name, j - 1); } else { SortedAscends(ms.rest, i - 1, j - 1); }
  }

  lemma {:induction false} CanonMembersSorted(ms: Members, acc: Members)
    requires Sorted(acc)
    ensures Sorted(CanonMembers(ms, acc))
    decreases ms
  {
    if ms.Member? {
      PutSorted(acc, ms.name, Canon(ms.value));
      CanonMembersSorted(ms.rest, Put(acc, ms.name, Canon(ms.value)));
    }
  }

  /** The canonical text of an object has its names in ascending order. */
  lemma CanonAscends(ms: Members, i: nat, j: nat)
    requires i < j < |Names(CanonMembers(ms, NoMembers))|
    ensures Canon(Object(ms)).Object? && Canon(Object(ms)).members == CanonMembers(ms, NoMembers)
    ensures Precedes(Names(CanonMembers(ms, NoMembers))[i], Names(CanonMembers(ms, NoMembers))[j])
  {
    CanonMembersSorted(ms, NoMembers);
    SortedAscends(CanonMembers(ms, NoMembers), i, j);
  }
}

/** claudetool/patch.go: when a patch, validated as a whole, means its operations one after another. */
module PatchOrder {
  import opened Options
  import opened Text
  import opened PatchEdit
  import opened PatchApplies
  import opened PatchGrammar
  import opened PatchUnique
  import opened PatchCommit

  /** Each operation validated against what the ones before it leave. */
  ghost predicate OneByOne(files: Files, resolve: string -> Path, ops: seq<FileOp>, ms: seq<Mutation>)
  {
    |ms| == |ops| && forall i :: 0 <= i < |ops| ==> IsMutation(ApplyAll(files, ms[..i]), resolve, ops[i], ms[i])
  }

  ghost predicate StillCurrent(files: Files, ms: seq<Mutation>)
  {
    forall i :: 0 <= i < |ms| ==> Current(ApplyAll(files, ms[..i]), ms[i])
  }

  lemma OneByOneIsCurrent(files: Files, resolve: string -> Path, ops: seq<FileOp>, ms: seq<Mutation>)
    requires Snapshot(files, resolve, ops, ms)
    ensures OneByOne(files, resolve, ops, ms) <==> StillCurrent(files, ms)
  {
    forall i | 0 <= i < |ops|
      ensures IsMutation(ApplyAll(files, ms[..i]), resolve, ops[i], ms[i]) <==> Current(ApplyAll(files, ms[..i]), ms[i])
    {
      assert IsMutation(files, resolve, ops[i], ms[i]);
    }
  }

  // When a patch means its operations one after another

  /** What the mutation was validated against at a path it touches. */
  function Expects(m: Mutation, p: Path): Option<string>
    requires p in Touched(m)
  {
    match m
    case Create(_, _) => None
    case Erase(_, was) => Some(was)
    case Rewrite(_, was, _) => Some(was)
    case Move(path, was, _, _, overwrote) => if p == path then Some(was) else overwrote
  }

  /** What the mutation leaves at a path it touches. */
  function Leaves(m: Mutation, p: Path): Option<string>
    requires p in Touched(m)
  {
    match m
    case Create(_, now) => Some(now)
    case Erase(_, _) => None
    case Rewrite(_, _, now) => Some(now)
    case Move(path, _, now, _, _) => if p == path then None else Some(now)
  }

  lemma CurrentByPath(files: Files, m: Mutation)
    ensures Current(files, m)
      <==> (m.Move? ==> m.path != m.to) && forall p :: p in Touched(m) ==> Lookup(files, p) == Expects(m, p)
  {
    assert m.path in Touched(m);
    if m.Move? { assert m.to in Touched(m); }
  }

  lemma ApplyLeaves(files: Files, m: Mutation, p: Path)
    requires p in Touched(m)
    ensures Lookup(Apply(files, m), p) == Leaves(m, p)
  {
  }

  /** A path two mutations touch is left by the earlier one as it was found at the start. */
  ghost predicate NoClash(files: Files, ms: seq<Mutation>)
  {
    forall i, j, p :: 0 <= i < j < |ms| && p in Touched(ms[i]) && p in Touched(ms[j]) ==> Leaves(ms[i], p) == Lookup(files, p)
  }

  /** After mutation i, with no other before n that touches p, p holds what i left. */
  lemma {:induction false} LeftSince(files: Files, ms: seq<Mutation>, i: nat, n: nat, p: Path)
    requires i < n <= |ms| && p in Touched(ms[i]) && forall k :: i < k < n ==> p !in Touched(ms[k])
    ensures Lookup(ApplyAll(files, ms[..n]), p) == Leaves(ms[i], p)
    decreases n
  {
    assert ms[..n][..n - 1] == ms[..n - 1];
    if n == i + 1 {
      ApplyLeaves(ApplyAll(files, ms[..i]), ms[i], p);
    } else {
      LeftSince(files, ms, i, n - 1, p);
      ApplyTouches(ApplyAll(files, ms[..n - 1]), ms[n - 1]);
    }
  }

  /** The first mutation after i, up to j, that touches p. */
  ghost function NextTouch(ms: seq<Mutation>, i: nat, j: nat, p: Path): (k: nat)
    requires i < j < |ms| && p in Touched(ms[j])
    ensures i < k <= j && p in Touched(ms[k]) && forall l :: i < l < k ==> p !in Touched(ms[l])
    decreases j - i
  {
    if p in Touched(ms[i + 1]) then i + 1 else NextTouch(ms, i + 1, j, p)
  }

  lemma CurrentLeavesNoClash(files: Files, ms: seq<Mutation>, i: nat, j: nat, p: Path)
    requires AllCurrent(files, ms) && StillCurrent(files, ms) && i < j < |ms| && p in Touched(ms[i]) && p in Touched(ms[j])
    ensures Leaves(ms[i], p) == Lookup(files, p)
  {
    var k := NextTouch(ms, i, j, p);
    LeftSince(files, ms, i, k, p);
    CurrentByPath(files, ms[k]);
    CurrentByPath(ApplyAll(files, ms[..k]), ms[k]);
  }

  /** Without a clash, a path that some mutation from n on touches still holds what it held at the start. */
  lemma {:induction false} UnclashedLookup(files: Files, ms: seq<Mutation>, n: nat, j: nat, p: Path)
    requires NoClash(files, ms) && n <= j < |ms| && p in Touched(ms[j])
    ensures Lookup(ApplyAll(files, ms[..n]), p) == Lookup(files, p)
    decreases n
  {
    if n > 0 {
      assert ms[..n][..n - 1] == ms[..n - 1];
      if p in Touched(ms[n - 1]) {
        ApplyLeaves(ApplyAll(files, ms[..n - 1]), ms[n - 1], p);
      } else {
        UnclashedLookup(files, ms, n - 1, j, p);
        ApplyTouches(ApplyAll(files, ms[..n - 1]), ms[n - 1]);
      }
    }
  }

  lemma UnclashedCurrent(files: Files, ms: seq<Mutation>, j: nat)
    requires NoClash(files, ms) && j < |ms| && Current(files, ms[j])
    ensures Current(ApplyAll(files, ms[..j]), ms[j])
  {
    CurrentByPath(files, ms[j]);
    forall p | p in Touched(ms[j]) ensures Lookup(ApplyAll(files, ms[..j]), p) == Expects(ms[j], p) {
      UnclashedLookup(files, ms, j, j, p);
    }
    CurrentByPath(ApplyAll(files, ms[..j]), ms[j]);
  }

  lemma StillCurrentIffNoClash(files: Files, ms: seq<Mutation>)
    requires AllCurrent(files, ms)
    ensures StillCurrent(files, ms) <==> NoClash(files, ms)
  {
    if StillCurrent(files, ms) {
      forall i, j, p | 0 <= i < j < |ms| && p in Touched(ms[i]) && p in Touched(ms[j]) ensures Leaves(ms[i], p) == Lookup(files, p) {
        CurrentLeavesNoClash(files, ms, i, j, p);
      }
    }
    if NoClash(files, ms) {
      forall j | 0 <= j < |ms| ensures Current(ApplyAll(files, ms[..j]), ms[j]) { UnclashedCurrent(files, ms, j); }
    }
  }

  /**
   * A patch means its operations one after another exactly when every path named
   * again was left, by each operation that names it before, as it was at the start.
   */
  lemma OneByOneIffNoClash(files: Files, resolve: string -> Path, ops: seq<FileOp>, ms: seq<Mutation>)
    requires Snapshot(files, resolve, ops, ms)
    ensures OneByOne(files, resolve, ops, ms) <==> NoClash(files, ms)
  {
    forall i | 0 <= i < |ms| ensures Current(files, ms[i]) { assert IsMutation(files, resolve, ops[i], ms[i]); }
    OneByOneIsCurrent(files, resolve, ops, ms);
    StillCurrentIffNoClash(files, ms);
  }

  /** The mutation changes what it finds at each path it touches. */
  predicate Changes(m: Mutation) { forall p :: p in Touched(m) ==> Leaves(m, p) != Expects(m, p) }

  /** No path is named twice. */
  ghost predicate Apart(ms: seq<Mutation>)
  {
    forall i, j :: 0 <= i < j < |ms| ==> Touched(ms[i]) !! Touched(ms[j])
  }

  lemma ApartNeverClashes(files: Files, ms: seq<Mutation>)
    requires Apart(ms)
    ensures NoClash(files, ms)
  {
  }

  /** For operations that all change what they name, that is exactly when no path is named twice. */
  lemma OneByOneIffApart(files: Files, resolve: string -> Path, ops: seq<FileOp>, ms: seq<Mutation>)
    requires Snapshot(files, resolve, ops, ms) && forall i :: 0 <= i < |ms| ==> Changes(ms[i])
    ensures OneByOne(files, resolve, ops, ms) <==> Apart(ms)
  {
    OneByOneIffNoClash(files, resolve, ops, ms);
    if Apart(ms) { ApartNeverClashes(files, ms); }
    if NoClash(files, ms) {
      forall i, j | 0 <= i < j < |ms| ensures Touched(ms[i]) !! Touched(ms[j]) {
        assert IsMutation(files, resolve, ops[i], ms[i]) && Changes(ms[i]);
        CurrentByPath(files, ms[i]);
        forall p | p in Touched(ms[i]) ensures p !in Touched(ms[j]) {
          assert Leaves(ms[i], p) != Expects(ms[i], p);
        }
      }
    }
  }

  // When a patch leaves the files its operations leave one after another

  ghost predicate LastTouch(ms: seq<Mutation>, i: nat, p: Path)
  {
    i < |ms| && p in Touched(ms[i]) && forall k :: i < k < |ms| ==> p !in Touched(ms[k])
  }

  /** At every path, the last mutation that touches it leaves the same. */
  ghost predicate SameLast(ms: seq<Mutation>, ms': seq<Mutation>)
    requires SameTouched(ms, ms')
  {
    forall i: nat, p :: LastTouch(ms, i, p) ==> Leaves(ms[i], p) == Leaves(ms'[i], p)
  }

  ghost predicate SameTouched(ms: seq<Mutation>, ms': seq<Mutation>)
  {
    |ms| == |ms'| && forall i :: 0 <= i < |ms| ==> Touched(ms[i]) == Touched(ms'[i])
  }

  lemma OpTouches(files: Files, files': Files, resolve: string -> Path, op: FileOp, m: Mutation, m': Mutation)
    requires IsMutation(files, resolve, op, m) && IsMutation(files', resolve, op, m')
    ensures Touched(m) == Touched(m')
  {
  }

  lemma OpsTouch(files: Files, resolve: string -> Path, ops: seq<FileOp>, ms: seq<Mutation>, ms': seq<Mutation>)
    requires Snapshot(files, resolve, ops, ms) && OneByOne(files, resolve, ops, ms')
    ensures SameTouched(ms, ms')
  {
    forall i | 0 <= i < |ms| ensures Touched(ms[i]) == Touched(ms'[i]) {
      OpTouches(files, ApplyAll(files, ms'[..i]), resolve, ops[i], ms[i], ms'[i]);
    }
  }

  /** The last mutation among the first n that touches p. */
  ghost function LastAmong(ms: seq<Mutation>, n: nat, p: Path): (i: nat)
    requires n <= |ms| && exists k :: 0 <= k < n && p in Touched(ms[k])
    ensures i < n && p in Touched(ms[i]) && forall k :: i < k < n ==> p !in Touched(ms[k])
  {
    if p in Touched(ms[n - 1]) then n - 1 else LastAmong(ms, n - 1, p)
  }

  lemma {:induction false} Untouched(files: Files, ms: seq<Mutation>, n: nat, p: Path)
    requires n <= |ms| && forall k :: 0 <= k < n ==> p !in Touched(ms[k])
    ensures Lookup(ApplyAll(files, ms[..n]), p) == Lookup(files, p)
    decreases n
  {
    if n > 0 {
      assert ms[..n][..n - 1] == ms[..n - 1];
      Untouched(files, ms, n - 1, p);
      ApplyTouches(ApplyAll(files, ms[..n - 1]), ms[n - 1]);
    }
  }

  lemma FinalAt(files: Files, ms: seq<Mutation>, i: nat, p: Path)
    requires LastTouch(ms, i, p)
    ensures Lookup(ApplyAll(files, ms), p) == Leaves(ms[i], p)
  {
    LeftSince(files, ms, i, |ms|, p);
    assert ms[..|ms|] == ms;
  }

  lemma SameAtPath(files: Files, ms: seq<Mutation>, ms': seq<Mutation>, p: Path)
    requires SameTouched(ms, ms') && SameLast(ms, ms')
    ensures Lookup(ApplyAll(files, ms), p) == Lookup(ApplyAll(files, ms'), p)
  {
    if exists k :: 0 <= k < |ms| && p in Touched(ms[k]) {
      var i := LastAmong(ms, |ms|, p);
      assert LastTouch(ms, i, p);
      FinalAt(files, ms, i, p);
      LastTouchSame(ms, ms', i, p);
      FinalAt(files, ms', i, p);
    } else {
      forall k | 0 <= k < |ms| ensures p !in Touched(ms'[k]) { assert Touched(ms[k]) == Touched(ms'[k]); }
      Untouched(files, ms, |ms|, p);
      Untouched(files, ms', |ms|, p);
      assert ms[..|ms|] == ms && ms'[..|ms|] == ms';
    }
  }

  lemma LastTouchSame(ms: seq<Mutation>, ms': seq<Mutation>, i: nat, p: Path)
    requires SameTouched(ms, ms') && LastTouch(ms, i, p)
    ensures LastTouch(ms', i, p)
  {
    assert Touched(ms[i]) == Touched(ms'[i]);
    forall k | i < k < |ms'| ensures p !in Touched(ms'[k]) { assert Touched(ms[k]) == Touched(ms'[k]); }
  }

  lemma SameEffectByLast(files: Files, ms: seq<Mutation>, ms': seq<Mutation>)
    requires SameTouched(ms, ms')
    ensures ApplyAll(files, ms) == ApplyAll(files, ms') <==> SameLast(ms, ms')
  {
    if SameLast(ms, ms') {
      forall p: Path | p !in {} ensures Lookup(ApplyAll(files, ms), p) == Lookup(ApplyAll(files, ms'), p) {
        SameAtPath(files, ms, ms', p);
      }
      SameFiles(ApplyAll(files, ms), ApplyAll(files, ms'));
    }
    if ApplyAll(files, ms) == ApplyAll(files, ms') {
      forall i: nat, p | LastTouch(ms, i, p) ensures Leaves(ms[i], p) == Leaves(ms'[i], p) {
        FinalAt(files, ms, i, p);
        LastTouchSame(ms, ms', i, p);
        FinalAt(files, ms', i, p);
      }
    }
  }

  /**
   * A patch leaves the files its operations leave one after another exactly when,
   * at every path, the last operation that names it leaves the same in both.
   */
  lemma SameEffectIff(files: Files, resolve: string -> Path, ops: seq<FileOp>, ms: seq<Mutation>, ms': seq<Mutation>)
    requires Snapshot(files, resolve, ops, ms) && OneByOne(files, resolve, ops, ms')
    ensures SameTouched(ms, ms')
    ensures ApplyAll(files, ms) == ApplyAll(files, ms') <==> SameLast(ms, ms')
  {
    OpsTouch(files, resolve, ops, ms, ms');
    SameEffectByLast(files, ms, ms');
  }

  /** An operation on the same content leaves the same; only an update depends on it. */
  lemma LeavesDepends(files: Files, files': Files, resolve: string -> Path, op: FileOp, m: Mutation, m': Mutation, p: Path)
    requires IsMutation(files, resolve, op, m) && IsMutation(files', resolve, op, m') && p in Touched(m) && p in Touched(m')
    requires Leaves(m, p) != Leaves(m', p)
    ensures op.UpdateFile? && Lookup(files, resolve(op.path)) != Lookup(files', resolve(op.path))
    ensures m.Move? ==> p == m.to
  {
    if op.UpdateFile? && m.was == m'.was { ContentUnique(m.was, op.hunks, m.now, m'.now); }
  }

  /** The paths an operation names. */
  function NamedBy(resolve: string -> Path, op: FileOp): set<Path>
  {
    if op.UpdateFile? && op.movePath != "" then {resolve(op.path), resolve(op.movePath)} else {resolve(op.path)}
  }

  /** The i-th operation is an update of a file that an earlier one names. */
  predicate EditsAfter(resolve: string -> Path, ops: seq<FileOp>, i: nat)
  {
    i < |ops| && ops[i].UpdateFile? && exists j :: 0 <= j < i && resolve(ops[i].path) in NamedBy(resolve, ops[j])
  }

  /** The files can differ only where the last operation is an update of a file that an earlier operation names. */
  lemma DiffersOnlyAfterEdit(files: Files, resolve: string -> Path, ops: seq<FileOp>, ms: seq<Mutation>, ms': seq<Mutation>, i: nat, p: Path)
    requires Snapshot(files, resolve, ops, ms) && OneByOne(files, resolve, ops, ms') && LastTouch(ms, i, p)
    requires Lookup(ApplyAll(files, ms), p) != Lookup(ApplyAll(files, ms'), p)
    ensures EditsAfter(resolve, ops, i) && (ms[i].Move? ==> p == ms[i].to)
  {
    OpsTouch(files, resolve, ops, ms, ms');
    FinalAt(files, ms, i, p);
    LastTouchSame(ms, ms', i, p);
    FinalAt(files, ms', i, p);
    LeavesDepends(files, ApplyAll(files, ms'[..i]), resolve, ops[i], ms[i], ms'[i], p);
    var path := resolve(ops[i].path);
    if forall j :: 0 <= j < i ==> path !in NamedBy(resolve, ops[j]) {
      forall j | 0 <= j < i ensures path !in Touched(ms'[j]) {
        assert IsMutation(ApplyAll(files, ms'[..j]), resolve, ops[j], ms'[j]) && Touched(ms'[j]) <= NamedBy(resolve, ops[j]);
      }
      Untouched(files, ms', i, path);
    }
  }

  /** Without an update of a file that an earlier operation names, the patch leaves what its operations leave one after another. */
  lemma SameEffectIfFresh(files: Files, resolve: string -> Path, ops: seq<FileOp>, ms: seq<Mutation>, ms': seq<Mutation>)
    requires Snapshot(files, resolve, ops, ms) && OneByOne(files, resolve, ops, ms')
    requires forall i: nat :: !EditsAfter(resolve, ops, i)
    ensures ApplyAll(files, ms) == ApplyAll(files, ms')
  {
    OpsTouch(files, resolve, ops, ms, ms');
    forall i: nat, p | LastTouch(ms, i, p) ensures Leaves(ms[i], p) == Leaves(ms'[i], p) {
      FreshLeaves(files, resolve, ops, ms, ms', i, p);
    }
    SameEffectByLast(files, ms, ms');
  }

  lemma FreshLeaves(files: Files, resolve: string -> Path, ops: seq<FileOp>, ms: seq<Mutation>, ms': seq<Mutation>, i: nat, p: Path)
    requires Snapshot(files, resolve, ops, ms) && OneByOne(files, resolve, ops, ms') && SameTouched(ms, ms')
    requires LastTouch(ms, i, p) && !EditsAfter(resolve, ops, i)
    ensures Leaves(ms[i], p) == Leaves(ms'[i], p)
  {
    FinalAt(files, ms, i, p);
    LastTouchSame(ms, ms', i, p);
    FinalAt(files, ms', i, p);
    if Leaves(ms[i], p) != Leaves(ms'[i], p) { DiffersOnlyAfterEdit(files, resolve, ops, ms, ms', i, p); }
  }

  // A patch that updates one file twice

  function AppendHunk(text: string): Hunk { Hunk("", text, 0, [], false) }

  function Appended(c: string, text: string): string { c + Addition(c, text) }

  lemma AppendUpdates(c: string, text: string)
    ensures UpdatesTo(c, [AppendHunk(text)], Appended(c, text))
  {
    var next := Appended(c, text);
    var run := [Turned(Cursor(c, 0)), Turned(Cursor(next, |next|))];
    assert IsTurn(Cursor(c, 0), AppendHunk(text), run[1]);
    assert IsRun(c, [AppendHunk(text)], run) && EndsIn(run, next);
  }

  lemma AdditionSize(c: string, x: string)
    ensures |Addition(c, x)| == (if Complete(c) then 0 else 1) + |x| + (if Complete(x) then 0 else 1)
    ensures x != "" ==> Addition(c, x) != "" && Complete(Addition(c, x))
  {
    var a := if Complete(c) then x else "\n" + x;
    CompleteSuffix(c);
    CompleteSuffix(a);
    assert x != "" ==> a[|a| - 1] == x[|x| - 1];
  }

  lemma AppendedGrows(c: string, x: string, y: string)
    requires x != ""
    ensures |Appended(c, y)| < |Appended(Appended(c, x), y)|
  {
    var c1 := Appended(c, x);
    AdditionSize(c, x);
    assert c1[|c1| - 1] == Addition(c, x)[|Addition(c, x)| - 1];
    AdditionSize(c, y);
    AdditionSize(c1, y);
  }

  lemma ApplyTwo(files: Files, m: Mutation, n: Mutation)
    ensures ApplyAll(files, [m, n][..0]) == files && ApplyAll(files, [m, n][..1]) == Apply(files, m)
    ensures ApplyAll(files, [m, n]) == Apply(Apply(files, m), n)
  {
    var ms := [m, n];
    assert ms[..0] == [] && ms[..1] == [m] && [m][..0] == [];
    assert ApplyAll(files, []) == files && ApplyAll(files, [m]) == Apply(files, m);
  }

  lemma TwoSnapshot(files: Files, resolve: string -> Path, a: FileOp, b: FileOp, m: Mutation, n: Mutation)
    requires IsMutation(files, resolve, a, m) && IsMutation(files, resolve, b, n)
    ensures Snapshot(files, resolve, [a, b], [m, n])
  {
  }

  lemma TwoOneByOne(files: Files, resolve: string -> Path, a: FileOp, b: FileOp, m: Mutation, n: Mutation)
    requires IsMutation(files, resolve, a, m) && IsMutation(Apply(files, m), resolve, b, n)
    ensures OneByOne(files, resolve, [a, b], [m, n])
  {
    ApplyTwo(files, m, n);
  }

  function AppendOp(path: string, text: string): FileOp { UpdateFile(path, "", [AppendHunk(text)]) }

  lemma AppendIsRewrite(files: Files, resolve: string -> Path, path: string, text: string)
    requires resolve(path) in files
    ensures var p := resolve(path);
      IsMutation(files, resolve, AppendOp(path, text), AppendMutation(p, files[p], text))
  {
    AppendUpdates(files[resolve(path)], text);
  }

  function AppendMutation(p: Path, c: string, text: string): Mutation { Rewrite(p, c, Appended(c, text)) }

  lemma AppendsSnapshot(files: Files, resolve: string -> Path, path: string, x: string, y: string)
    requires resolve(path) in files
    ensures var p := resolve(path);
      Snapshot(files, resolve, [AppendOp(path, x), AppendOp(path, y)],
               [AppendMutation(p, files[p], x), AppendMutation(p, files[p], y)])
  {
    var p := resolve(path);
    AppendIsRewrite(files, resolve, path, x);
    AppendIsRewrite(files, resolve, path, y);
    TwoSnapshot(files, resolve, AppendOp(path, x), AppendOp(path, y),
                AppendMutation(p, files[p], x), AppendMutation(p, files[p], y));
  }

  lemma AppendsOneByOne(files: Files, resolve: string -> Path, path: string, x: string, y: string)
    requires resolve(path) in files
    ensures var p := resolve(path);
      OneByOne(files, resolve, [AppendOp(path, x), AppendOp(path, y)],
               [AppendMutation(p, files[p], x), AppendMutation(p, Appended(files[p], x), y)])
  {
    var p := resolve(path);
    AppendIsRewrite(files, resolve, path, x);
    AppendIsRewrite(files[p := Appended(files[p], x)], resolve, path, y);
    TwoOneByOne(files, resolve, AppendOp(path, x), AppendOp(path, y),
                AppendMutation(p, files[p], x), AppendMutation(p, Appended(files[p], x), y));
  }

  lemma AppendsDiffer(files: Files, p: Path, x: string, y: string)
    requires p in files && x != ""
    ensures var c := files[p];
      var snapshot := ApplyAll(files, [AppendMutation(p, c, x), AppendMutation(p, c, y)]);
      var sequential := ApplyAll(files, [AppendMutation(p, c, x), AppendMutation(p, Appended(c, x), y)]);
      && snapshot == files[p := Appended(c, y)] && sequential == files[p := Appended(Appended(c, x), y)]
      && snapshot != sequential
  {
    var c := files[p];
    ApplyTwo(files, AppendMutation(p, c, x), AppendMutation(p, c, y));
    ApplyTwo(files, AppendMutation(p, c, x), AppendMutation(p, Appended(c, x), y));
    AppendedGrows(c, x, y);
    assert files[p := Appended(c, y)][p] != files[p := Appended(Appended(c, x), y)][p];
  }

  /**
   * Two updates of one file, each appending a text: the patch leaves only the
   * second text, where the operations one after another leave both.
   */
  lemma SecondUpdateWins(files: Files, resolve: string -> Path, path: string, x: string, y: string)
    returns (snapshot: seq<Mutation>, sequential: seq<Mutation>)
    requires resolve(path) in files && x != ""
    ensures Snapshot(files, resolve, [AppendOp(path, x), AppendOp(path, y)], snapshot)
    ensures OneByOne(files, resolve, [AppendOp(path, x), AppendOp(path, y)], sequential)
    ensures var p := resolve(path); var c := files[p];
      && ApplyAll(files, snapshot) == files[p := Appended(c, y)]
      && ApplyAll(files, sequential) == files[p := Appended(Appended(c, x), y)]
      && ApplyAll(files, snapshot) != ApplyAll(files, sequential)
  {
    var p := resolve(path);
    snapshot := [AppendMutation(p, files[p], x), AppendMutation(p, files[p], y)];
    sequential := [AppendMutation(p, files[p], x), AppendMutation(p, Appended(files[p], x), y)];
    AppendsSnapshot(files, resolve, path, x, y);
    AppendsOneByOne(files, resolve, path, x, y);
    AppendsDiffer(files, p, x, y);
  }
}

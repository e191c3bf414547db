/** claudetool/patch.go: validating a multi-file patch, committing it, and rolling it back. */
module PatchCommit {
  import opened Options
  import opened Text
  import opened PatchEdit
  import opened PatchGrammar
  import opened PatchUnique

  type Path = string
  type Files = map<Path, string>

  function Lookup(files: Files, p: Path): Option<string> { if p in files then Some(files[p]) else None }

  /** Some(c): p holds c. None: there is no p. */
  function Set(files: Files, p: Path, c: Option<string>): Files
  {
    match c case Some(s) => files[p := s] case None => files - {p}
  }

  /** A validated operation, with what the paths it changes held when it was validated. */
  datatype Mutation =
    | Create(path: Path, now: string)
    | Erase(path: Path, was: string)
    | Rewrite(path: Path, was: string, now: string)
    | Move(path: Path, was: string, now: string, to: Path, overwrote: Option<string>)

  function Touched(m: Mutation): set<Path> { if m.Move? then {m.path, m.to} else {m.path} }

  function TouchedBy(ms: seq<Mutation>): set<Path>
  {
    if ms == [] then {} else TouchedBy(ms[..|ms| - 1]) + Touched(ms[|ms| - 1])
  }

  /** What the mutation remembers of the files is so. */
  predicate Current(files: Files, m: Mutation)
  {
    match m
    case Create(p, _) => p !in files
    case Erase(p, was) => Lookup(files, p) == Some(was)
    case Rewrite(p, was, _) => Lookup(files, p) == Some(was)
    case Move(p, was, _, to, overwrote) => p != to && Lookup(files, p) == Some(was) && Lookup(files, to) == overwrote
  }

  function Apply(files: Files, m: Mutation): Files
  {
    match m
    case Create(p, now) => files[p := now]
    case Erase(p, _) => files - {p}
    case Rewrite(p, _, now) => files[p := now]
    case Move(p, _, now, to, _) => files[to := now] - {p}
  }

  function ApplyAll(files: Files, ms: seq<Mutation>): Files
  {
    if ms == [] then files else Apply(ApplyAll(files, ms[..|ms| - 1]), ms[|ms| - 1])
  }

  /** rollbackApplyPatchMutation */
  function Undo(files: Files, m: Mutation): Files
  {
    match m
    case Create(p, _) => Set(files, p, None)
    case Erase(p, was) => Set(files, p, Some(was))
    case Rewrite(p, was, _) => Set(files, p, Some(was))
    case Move(p, was, _, to, overwrote) => Set(Set(files, p, Some(was)), to, overwrote)
  }

  // Rollback

  /** Outside ps the files are the same. */
  ghost predicate SameBut(a: Files, b: Files, ps: set<Path>)
  {
    forall p: Path :: p !in ps ==> Lookup(a, p) == Lookup(b, p)
  }

  lemma SameFiles(a: Files, b: Files)
    requires SameBut(a, b, {})
    ensures a == b
  {
    forall p: Path ensures (p in a <==> p in b) && (p in a ==> a[p] == b[p]) {
      assert Lookup(a, p) == Lookup(b, p);
    }
  }

  lemma ApplyTouches(files: Files, m: Mutation)
    ensures SameBut(files, Apply(files, m), Touched(m))
  {
  }

  /** Undoing a mutation puts its paths back to what they held when it was validated, whatever happened to them since. */
  lemma UndoRestores(initial: Files, files: Files, m: Mutation, ps: set<Path>)
    requires Current(initial, m) && SameBut(initial, files, ps + Touched(m))
    ensures SameBut(initial, Undo(files, m), ps)
  {
    forall p: Path | p !in ps ensures Lookup(initial, p) == Lookup(Undo(files, m), p) {
      if p !in Touched(m) { assert Lookup(initial, p) == Lookup(files, p); }
    }
  }

  lemma {:induction false} ApplyAllTouches(files: Files, ms: seq<Mutation>)
    ensures SameBut(files, ApplyAll(files, ms), TouchedBy(ms))
    decreases |ms|
  {
    if ms != [] {
      var before, m := ms[..|ms| - 1], ms[|ms| - 1];
      ApplyAllTouches(files, before);
      ApplyTouches(ApplyAll(files, before), m);
      forall p: Path | p !in TouchedBy(ms) ensures Lookup(files, p) == Lookup(ApplyAll(files, ms), p) {
        assert Lookup(files, p) == Lookup(ApplyAll(files, before), p);
      }
    }
  }

  ghost predicate AllCurrent(files: Files, ms: seq<Mutation>)
  {
    forall i :: 0 <= i < |ms| ==> Current(files, ms[i])
  }

  // Validated operations

  /** The mutation an operation comes to on these files. */
  ghost predicate IsMutation(files: Files, resolve: string -> Path, op: FileOp, m: Mutation)
  {
    && Current(files, m) && m.path == resolve(op.path)
    && match op
      case AddFile(_, content) => m.Create? && m.now == content
      case DeleteFile(_) => m.Erase?
      case UpdateFile(_, move, hunks) =>
        && (m.Rewrite? || m.Move?) && UpdatesTo(m.was, hunks, m.now)
        && (m.Move? <==> move != "" && resolve(move) != m.path)
        && (m.Move? ==> m.to == resolve(move))
  }

  /** All mutations validated against the same files. */
  ghost predicate Snapshot(files: Files, resolve: string -> Path, ops: seq<FileOp>, ms: seq<Mutation>)
  {
    |ms| == |ops| && forall i :: 0 <= i < |ops| ==> IsMutation(files, resolve, ops[i], ms[i])
  }

  /** No mutation is what the operation comes to on these files. */
  ghost predicate Hopeless(files: Files, resolve: string -> Path, op: FileOp)
  {
    forall m :: !IsMutation(files, resolve, op, m)
  }

  lemma StopIsHopeless(files: Files, resolve: string -> Path, op: FileOp, was: string, e: Error)
    requires op.UpdateFile? && Lookup(files, resolve(op.path)) == Some(was) && StopsWith(was, op.hunks, e)
    ensures Hopeless(files, resolve, op)
  {
    forall m ensures !IsMutation(files, resolve, op, m) {
      if IsMutation(files, resolve, op, m) { NotBoth(was, op.hunks, m.now, e); }
    }
  }

  // The tool's run

  datatype Outcome = Applied | Refused

  datatype Validated = Valid(m: Mutation) | Invalid

  /** What the files read come to: was at the operation's path, overwrote at a path it moves to. */
  method Judge(files: Files, op: FileOp, resolve: string -> Path, was: Option<string>, to: Path, overwrote: Option<string>)
    returns (v: Validated)
    requires was == Lookup(files, resolve(op.path))
    requires to == if op.UpdateFile? && op.movePath != "" then resolve(op.movePath) else resolve(op.path)
    requires to != resolve(op.path) ==> overwrote == Lookup(files, to)
    ensures v.Valid? ==> IsMutation(files, resolve, op, v.m)
    ensures v.Invalid? ==> Hopeless(files, resolve, op)
  {
    var path := resolve(op.path);
    match op {
      case AddFile(_, content) =>
        return if was.Some? then Invalid else Valid(Create(path, content));
      case DeleteFile(_) =>
        return if was.None? then Invalid else Valid(Erase(path, was.value));
      case UpdateFile(_, _, hunks) =>
        if was.None? { return Invalid; }
        var r := UpdateContent(was.value, hunks);
        if r.Err? {
          StopIsHopeless(files, resolve, op, was.value, r.error);
          return Invalid;
        }
        return Valid(if to == path then Rewrite(path, was.value, r.content) else Move(path, was.value, r.content, to, overwrote));
    }
  }

  /** A mutation that removes a path finds it there. */
  predicate FindsPath(files: Files, m: Mutation) { m.Erase? || m.Move? ==> m.path in files }

  /** Every mutation does, after the ones before it. */
  ghost predicate AllFind(files: Files, ms: seq<Mutation>)
  {
    forall i :: 0 <= i < |ms| ==> FindsPath(ApplyAll(files, ms[..i]), ms[i])
  }

  lemma FindsSnoc(files: Files, ms: seq<Mutation>, i: nat)
    requires i < |ms| && AllFind(files, ms[..i]) && FindsPath(ApplyAll(files, ms[..i]), ms[i])
    ensures AllFind(files, ms[..i + 1])
  {
    var next := ms[..i + 1];
    forall k | 0 <= k < |next| ensures FindsPath(ApplyAll(files, next[..k]), next[k]) {
      assert next[..k] == ms[..k];
      if k < i { assert ms[..i][..k] == ms[..k] && FindsPath(ApplyAll(files, ms[..i][..k]), ms[..i][k]); }
    }
  }

  /** faults(n): the n-th call to the file system fails for a reason of its own. */
  class Workspace {
    const faults: nat -> bool
    var files: Files
    var calls: nat

    constructor (initial: Files, faults: nat -> bool)
      ensures files == initial && this.faults == faults && calls == 0
    {
      this.faults, files, calls := faults, initial, 0;
    }

    /** A call from the number from on, and before the number to, fails so. */
    ghost predicate Faulty(from: nat, to: nat) { exists n: nat :: from <= n < to && faults(n) }

    /** os.ReadFile */
    method ReadFile(p: Path) returns (c: Option<string>, broken: bool)
      modifies this`calls
      ensures calls == old(calls) + 1 && broken == faults(old(calls))
      ensures !broken ==> c == Lookup(files, p)
    {
      broken := faults(calls);
      calls := calls + 1;
      c := if broken then None else Lookup(files, p);
    }

    /** os.WriteFile, all or nothing. */
    method WriteFile(p: Path, c: string) returns (ok: bool)
      modifies this
      ensures calls == old(calls) + 1 && ok == !faults(old(calls))
      ensures files == if ok then old(files)[p := c] else old(files)
    {
      ok := !faults(calls);
      calls := calls + 1;
      if ok { files := files[p := c]; }
    }

    /** os.Remove */
    method Remove(p: Path) returns (ok: bool)
      modifies this
      ensures calls == old(calls) + 1 && ok == (!faults(old(calls)) && p in old(files))
      ensures files == if ok then old(files) - {p} else old(files)
    {
      ok := !faults(calls) && p in files;
      calls := calls + 1;
      if ok { files := files - {p}; }
    }

    method Validate(op: FileOp, resolve: string -> Path) returns (v: Validated)
      modifies this`calls
      ensures calls >= old(calls)
      ensures v.Valid? ==> IsMutation(files, resolve, op, v.m)
      ensures v.Invalid? ==> Hopeless(files, resolve, op) || Faulty(old(calls), calls)
    {
      var path := resolve(op.path);
      var was, broken := ReadFile(path);
      var to, overwrote: Option<string> := path, None;
      if op.UpdateFile? && op.movePath != "" {
        to := resolve(op.movePath);
        if to != path {
          var unreadable;
          overwrote, unreadable := ReadFile(to);
          if unreadable { return Invalid; }
        }
      }
      if broken { return Invalid; }
      v := Judge(files, op, resolve, was, to, overwrote);
    }

    /** All operations against the same files. */
    method ValidateAll(ops: seq<FileOp>, resolve: string -> Path) returns (ok: bool, ms: seq<Mutation>)
      modifies this`calls
      ensures calls >= old(calls)
      ensures ok ==> Snapshot(files, resolve, ops, ms)
      ensures !ok ==> Faulty(old(calls), calls) || exists i :: 0 <= i < |ops| && Hopeless(files, resolve, ops[i])
    {
      ms := [];
      for i := 0 to |ops|
        invariant Snapshot(files, resolve, ops[..i], ms) && calls >= old(calls)
      {
        ghost var from := calls;
        var v := Validate(ops[i], resolve);
        if v.Invalid? {
          assert Faulty(from, calls) ==> Faulty(old(calls), calls);
          return false, ms;
        }
        ms := ms + [v.m];
        assert ops[..i + 1] == ops[..i] + [ops[i]];
      }
      assert ops[..|ops|] == ops;
      return true, ms;
    }

    /** One mutation; a move whose second half fails is undone on the spot. */
    method Commit(m: Mutation) returns (ok: bool)
      requires m.Move? ==> m.path != m.to
      modifies this
      ensures calls >= old(calls)
      ensures ok ==> files == Apply(old(files), m) && FindsPath(old(files), m)
      ensures !ok ==> files == old(files) || (m.Move? && files == Undo(old(files)[m.to := m.now], m))
      ensures !ok ==> Faulty(old(calls), calls) || !FindsPath(old(files), m)
    {
      match m {
        case Erase(p, _) => ok := Remove(p);
        case Move(p, _, now, to, _) =>
          ok := WriteFile(to, now);
          if ok {
            ok := Remove(p);
            if !ok { Rollback(m); }
          }
        case Create(p, now) => ok := WriteFile(p, now);
        case Rewrite(p, _, now) => ok := WriteFile(p, now);
      }
    }

    method Rollback(m: Mutation)
      modifies this`files
      ensures files == Undo(old(files), m)
    {
      match m {
        case Create(p, _) => files := files - {p};
        case Erase(p, was) => files := files[p := was];
        case Rewrite(p, was, _) => files := files[p := was];
        case Move(p, was, _, to, overwrote) =>
          files := files[p := was];
          if overwrote.Some? { files := files[to := overwrote.value]; } else { files := files - {to}; }
      }
    }

    method RollbackAll(ms: seq<Mutation>, ghost initial: Files)
      requires SameBut(initial, files, TouchedBy(ms))
      requires AllCurrent(initial, ms)
      modifies this`files
      ensures files == initial
    {
      var j := |ms|;
      assert ms[..j] == ms;
      while j > 0
        invariant 0 <= j <= |ms| && SameBut(initial, files, TouchedBy(ms[..j]))
      {
        j := j - 1;
        assert ms[..j + 1][..j] == ms[..j];
        UndoRestores(initial, files, ms[j], TouchedBy(ms[..j]));
        Rollback(ms[j]);
      }
      SameFiles(initial, files);
    }

    /** After the mutations ms, m has failed. */
    method Abandon(ms: seq<Mutation>, m: Mutation, ghost initial: Files, ghost before: Files)
      requires AllCurrent(initial, ms) && Current(initial, m) && before == ApplyAll(initial, ms)
      requires files == before || (m.Move? && files == Undo(before[m.to := m.now], m))
      modifies this`files
      ensures files == initial
    {
      ApplyAllTouches(initial, ms);
      FailedCommit(initial, before, files, m, TouchedBy(ms));
      RollbackAll(ms, initial);
    }

    method CommitAll(ms: seq<Mutation>) returns (r: Outcome)
      requires AllCurrent(files, ms)
      modifies this
      ensures calls >= old(calls)
      ensures files == if r.Applied? then ApplyAll(old(files), ms) else old(files)
      ensures r.Applied? ==> AllFind(old(files), ms)
      ensures r.Refused? ==> Faulty(old(calls), calls) || !AllFind(old(files), ms)
    {
      ghost var initial := files;
      for i := 0 to |ms|
        invariant files == ApplyAll(initial, ms[..i]) && calls >= old(calls) && AllFind(initial, ms[..i])
      {
        ghost var before, from := files, calls;
        var ok := Commit(ms[i]);
        if !ok {
          assert Faulty(from, calls) ==> Faulty(old(calls), calls);
          assert !FindsPath(before, ms[i]) ==> !AllFind(initial, ms);
          Abandon(ms[..i], ms[i], initial, before);
          return Refused;
        }
        FindsSnoc(initial, ms, i);
        assert ms[..i + 1][..i] == ms[..i];
      }
      assert ms[..|ms|] == ms;
      return Applied;
    }

    /**
     * runApplyPatch, from the parsed operations on: all of them, or no trace. Without
     * a fault, it refuses exactly a patch with a hopeless operation, or one that
     * removes a path an earlier operation removed.
     */
    method Run(ops: seq<FileOp>, resolve: string -> Path) returns (r: Outcome, ghost ms: seq<Mutation>)
      modifies this
      ensures calls >= old(calls)
      ensures r.Refused? ==> files == old(files)
      ensures r.Applied? ==> Snapshot(old(files), resolve, ops, ms) && AllFind(old(files), ms) && files == ApplyAll(old(files), ms)
      ensures r.Refused? ==>
        || Faulty(old(calls), calls)
        || (exists i :: 0 <= i < |ops| && Hopeless(old(files), resolve, ops[i]))
        || (Snapshot(old(files), resolve, ops, ms) && !AllFind(old(files), ms))
    {
      var ok, mutations := ValidateAll(ops, resolve);
      ms := mutations;
      if !ok { return Refused, ms; }
      assert forall i :: 0 <= i < |ops| ==> IsMutation(files, resolve, ops[i], ms[i]);
      ghost var from := calls;
      r := CommitAll(mutations);
      assert Faulty(from, calls) ==> Faulty(old(calls), calls);
    }
  }

  /** A mutation that fails leaves nothing the rollback of its predecessors will not restore. */
  lemma FailedCommit(initial: Files, before: Files, files: Files, m: Mutation, ps: set<Path>)
    requires SameBut(initial, before, ps) && Current(initial, m)
    requires files == before || (m.Move? && files == Undo(before[m.to := m.now], m))
    ensures SameBut(initial, files, ps)
  {
    if files != before {
      forall p: Path | p !in ps + Touched(m) ensures Lookup(initial, p) == Lookup(before[m.to := m.now], p) {
        assert Lookup(initial, p) == Lookup(before, p);
      }
      UndoRestores(initial, before[m.to := m.now], m, ps);
    }
  }
}

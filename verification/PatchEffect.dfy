/** claudetool/patch.go: which operations can be done on the files as they are, and what each does. */
module PatchEffect {
  import opened Options
  import opened PatchEdit
  import opened PatchGrammar
  import opened PatchCommit

  /** A file is added exactly where there is none. */
  lemma AddIffAbsent(files: Files, resolve: string -> Path, name: string, content: string)
    ensures Hopeless(files, resolve, AddFile(name, content)) <==> resolve(name) in files
  {
    var op := AddFile(name, content);
    if resolve(name) !in files { assert IsMutation(files, resolve, op, Create(resolve(name), content)); }
  }

  /** A file is deleted exactly where there is one. */
  lemma DeleteIffPresent(files: Files, resolve: string -> Path, name: string)
    ensures Hopeless(files, resolve, DeleteFile(name)) <==> resolve(name) !in files
  {
    var op, p := DeleteFile(name), resolve(name);
    if p in files { assert IsMutation(files, resolve, op, Erase(p, files[p])); }
  }

  ghost predicate Leads(was: string, hunks: seq<Hunk>) { exists now :: UpdatesTo(was, hunks, now) }

  lemma UpdateIs(files: Files, resolve: string -> Path, name: string, move: string, hunks: seq<Hunk>, m: Mutation)
    requires IsMutation(files, resolve, UpdateFile(name, move, hunks), m)
    ensures resolve(name) in files && UpdatesTo(files[resolve(name)], hunks, m.now)
  {
  }

  lemma UpdateHas(files: Files, resolve: string -> Path, name: string, move: string, hunks: seq<Hunk>, now: string)
    returns (m: Mutation)
    requires resolve(name) in files && UpdatesTo(files[resolve(name)], hunks, now)
    ensures IsMutation(files, resolve, UpdateFile(name, move, hunks), m)
  {
    var p, to := resolve(name), resolve(move);
    m := if move == "" || to == p then Rewrite(p, files[p], now) else Move(p, files[p], now, to, Lookup(files, to));
  }

  /** A file is updated exactly where there is one that the hunks lead through; whether a move overwrites makes no difference. */
  lemma UpdateIffLeads(files: Files, resolve: string -> Path, name: string, move: string, hunks: seq<Hunk>)
    ensures Hopeless(files, resolve, UpdateFile(name, move, hunks))
      <==> !(resolve(name) in files && Leads(files[resolve(name)], hunks))
  {
    var op, p := UpdateFile(name, move, hunks), resolve(name);
    if p in files && Leads(files[p], hunks) {
      var now :| UpdatesTo(files[p], hunks, now);
      var m := UpdateHas(files, resolve, name, move, hunks, now);
    }
    forall m | IsMutation(files, resolve, op, m) ensures p in files && Leads(files[p], hunks) {
      UpdateIs(files, resolve, name, move, hunks, m);
    }
  }

  // What is done

  /** The path an operation leaves its content at. */
  ghost function Target(resolve: string -> Path, op: FileOp): Path
  {
    if op.UpdateFile? && op.movePath != "" then resolve(op.movePath) else resolve(op.path)
  }

  /** An operation leaves nothing at its path, its content at its target, and every other path alone. */
  lemma OpDoes(files: Files, resolve: string -> Path, op: FileOp, m: Mutation, p: Path)
    requires IsMutation(files, resolve, op, m)
    ensures var after, target := Lookup(Apply(files, m), p), Target(resolve, op);
      if op.DeleteFile? && p == resolve(op.path) then after == None
      else if p == target then
        after.Some? && if op.AddFile? then after.value == op.content
                       else UpdatesTo(files[resolve(op.path)], op.hunks, after.value)
      else if p == resolve(op.path) then after == None
      else after == Lookup(files, p)
  {
    if op.UpdateFile? { UpdateIs(files, resolve, op.path, op.movePath, op.hunks, m); }
  }
}

/**
 * commitnotes/commitnotes.go: concurrent writers adding notes to one shared
 * ref, each through a private copy that may be deleted under its feet.
 */
module CommitNotes {
  import opened Options

  type Key = string
  type Notes = map<Key, string>

  /** A commit is its whole history: two refs with one hash have one history. */
  datatype Commit = Commit(parent: Option<Commit>, notes: Notes, stamp: int)

  type Ref = Option<Commit>

  function NotesIn(r: Ref): Notes { if r.Some? then r.value.notes else map[] }

  /** git merge-base --is-ancestor a c */
  predicate IsAncestor(a: Commit, c: Commit)
  {
    a == c || (c.parent.Some? && IsAncestor(a, c.parent.value))
  }

  datatype Update = Update(key: Key, note: string)

  function Put(notes: Notes, u: Update): Notes { notes[u.key := u.note] }

  /** git notes add -f: a new commit on top of the ref, or a root commit when there is no ref. */
  function AddNote(base: Ref, u: Update, stamp: int): Commit { Commit(base, Put(NotesIn(base), u), stamp) }

  // One writer's call of updateNotes

  /** Where the call is in tryUpdateNotes: the git command it runs next. */
  datatype Pc =
    | Reading
    | Copying(base: Ref)
    | Adding(base: Ref)
    | Resolving(base: Ref)
    | Checking(base: Ref, updated: Commit)
    | Swapping(base: Ref, updated: Commit)
    | Returned(ok: bool)

  /** tmp: the private ref of the current attempt. seen: how many updates had been swapped in when it was based. */
  datatype Writer = Writer(update: Update, pc: Pc, tmp: Ref, seen: nat)

  datatype Choice = Go(stamp: int) | Fail(retry: bool)

  /** An attempt ends in an error: the call is over, or starts a new attempt. */
  function Failed(w: Writer, retry: bool): Writer
  {
    if retry then w.(pc := Reading, tmp := None) else w.(pc := Returned(false))
  }

  function Advance(w: Writer, shared: Ref, swaps: nat, stamp: int): Writer
  {
    match w.pc
    case Reading => w.(pc := Copying(shared), tmp := None, seen := swaps)
    case Copying(base) => w.(pc := Adding(base), tmp := if base.Some? then base else w.tmp)
    case Adding(base) => w.(pc := Resolving(base), tmp := Some(AddNote(w.tmp, w.update, stamp)))
    case Resolving(base) => if w.tmp.Some? then w.(pc := Checking(base, w.tmp.value)) else Failed(w, false)
    case Checking(base, updated) =>
      if base.Some? && !IsAncestor(base.value, updated) then Failed(w, false) else w.(pc := Swapping(base, updated))
    case Swapping(base, _) => if shared == base then w.(pc := Returned(true)) else Failed(w, true)
    case Returned(_) => w
  }

  predicate Swaps(w: Writer, shared: Ref) { w.pc.Swapping? && shared == w.pc.base }

  // All writers

  datatype Entry = Entry(writer: nat, update: Update)

  /** swapped: the updates whose compare-and-swap succeeded, in that order. */
  datatype State = State(shared: Ref, writers: seq<Writer>, swapped: seq<Entry>)

  datatype Action =
    | Call(update: Update)
    | Step(writer: nat, choice: Choice)
    | DeletePrivate(writer: nat)

  function Init(shared: Ref): State { State(shared, [], []) }

  function StepWriter(s: State, i: nat, c: Choice): State
    requires i < |s.writers|
  {
    var w := s.writers[i];
    match c
    case Fail(retry) => if w.pc.Returned? then s else s.(writers := s.writers[i := Failed(w, retry)])
    case Go(stamp) =>
      var next := s.(writers := s.writers[i := Advance(w, s.shared, |s.swapped|, stamp)]);
      if Swaps(w, s.shared) then next.(shared := Some(w.pc.updated), swapped := s.swapped + [Entry(i, w.update)]) else next
  }

  function Act(s: State, a: Action): State
  {
    match a
    case Call(u) => s.(writers := s.writers + [Writer(u, Reading, None, 0)])
    case Step(i, c) => if i < |s.writers| then StepWriter(s, i, c) else s
    case DeletePrivate(i) => if i < |s.writers| then s.(writers := s.writers[i := s.writers[i].(tmp := None)]) else s
  }

  function Exec(s: State, run: seq<Action>): State
  {
    if run == [] then s else Act(Exec(s, run[..|run| - 1]), run[|run| - 1])
  }

  // What a writer holds

  /** The commit carries the update on top of base, or on top of nothing. */
  ghost predicate Carries(c: Commit, base: Ref, u: Update)
  {
    (c.parent == base || c.parent.None?) && c.notes == Put(NotesIn(c.parent), u)
  }

  ghost predicate Holds(w: Writer)
  {
    match w.pc
    case Copying(_) => w.tmp.None?
    case Adding(base) => w.tmp.None? || w.tmp == base
    case Resolving(base) => w.tmp.Some? ==> Carries(w.tmp.value, base, w.update)
    case Checking(base, updated) => Carries(updated, base, w.update)
    case Swapping(base, updated) => updated.notes == Put(NotesIn(base), w.update)
    case _ => true
  }

  /** With no swap since, the shared ref is still what the attempt was based on. */
  ghost predicate Fresh(w: Writer, shared: Ref, swaps: nat)
  {
    w.seen <= swaps && (w.seen == swaps && !w.pc.Reading? && !w.pc.Returned? ==> shared == w.pc.base)
  }

  /** The ancestor test tells whether the private copy was still there when the note was added. */
  lemma AncestorKeepsBase(base: Commit, c: Commit, u: Update)
    requires Carries(c, Some(base), u)
    ensures IsAncestor(base, c) ==> c.notes == Put(base.notes, u)
    ensures IsAncestor(base, c) <==> c.parent == Some(base) || c == base
  {
    if c.parent == Some(base) {
      assert IsAncestor(base, c.parent.value);
    }
  }

  /** A commit the test rejects would drop every note under another key. */
  lemma LostBaseDropsNotes(base: Commit, c: Commit, u: Update)
    requires Carries(c, Some(base), u) && !IsAncestor(base, c)
    ensures c.notes == map[u.key := u.note]
  {
    AncestorKeepsBase(base, c, u);
  }

  lemma AdvanceHolds(w: Writer, shared: Ref, swaps: nat, stamp: int)
    requires Holds(w)
    ensures Holds(Advance(w, shared, swaps, stamp))
  {
    if w.pc.Checking? && w.pc.base.Some? { AncestorKeepsBase(w.pc.base.value, w.pc.updated, w.update); }
  }

  lemma AdvanceFresh(w: Writer, shared: Ref, swaps: nat, stamp: int)
    requires Fresh(w, shared, swaps)
    ensures var w' := Advance(w, shared, swaps, stamp); w'.update == w.update && Fresh(w', shared, swaps)
  {
  }

  // The invariant

  /** The updates applied one after another. */
  function Replay(notes: Notes, es: seq<Entry>): Notes
  {
    if es == [] then notes else Put(Replay(notes, es[..|es| - 1]), es[|es| - 1].update)
  }

  function Count(es: seq<Entry>, i: nat): nat
  {
    if es == [] then 0 else Count(es[..|es| - 1], i) + if es[|es| - 1].writer == i then 1 else 0
  }

  lemma CountSnoc(es: seq<Entry>, e: Entry, i: nat)
    ensures Count(es + [e], i) == Count(es, i) + if e.writer == i then 1 else 0
  {
    assert (es + [e])[..|es|] == es;
  }

  lemma ReplaySnoc(notes: Notes, es: seq<Entry>, e: Entry)
    ensures Replay(notes, es + [e]) == Put(Replay(notes, es), e.update)
  {
    assert (es + [e])[..|es|] == es;
  }

  ghost predicate WriterOk(s: State, i: nat)
    requires i < |s.writers|
  {
    var w := s.writers[i];
    && Holds(w) && Fresh(w, s.shared, |s.swapped|)
    && Count(s.swapped, i) == if w.pc == Returned(true) then 1 else 0
  }

  ghost predicate EntriesOk(s: State)
  {
    forall k :: 0 <= k < |s.swapped| ==>
      s.swapped[k].writer < |s.writers| && s.swapped[k].update == s.writers[s.swapped[k].writer].update
  }

  ghost predicate Inv(s: State, initial: Ref)
  {
    && NotesIn(s.shared) == Replay(NotesIn(initial), s.swapped)
    && EntriesOk(s)
    && forall i :: 0 <= i < |s.writers| ==> WriterOk(s, i)
  }

  lemma CountNone(s: State, i: nat, n: nat)
    requires EntriesOk(s) && |s.writers| <= i && n <= |s.swapped|
    ensures Count(s.swapped[..n], i) == 0
    decreases n
  {
    if n > 0 {
      CountNone(s, i, n - 1);
      assert s.swapped[..n][..n - 1] == s.swapped[..n - 1];
      assert s.swapped[..n][n - 1] == s.swapped[n - 1];
    }
  }

  lemma CallKeepsInv(s: State, initial: Ref, u: Update)
    requires Inv(s, initial)
    ensures Inv(Act(s, Call(u)), initial)
  {
    var t := Act(s, Call(u));
    forall i | 0 <= i < |t.writers| ensures WriterOk(t, i) {
      if i < |s.writers| {
        assert WriterOk(s, i);
      } else {
        CountNone(s, i, |s.swapped|);
        assert s.swapped[..|s.swapped|] == s.swapped;
      }
    }
  }

  /** A step of writer i that changes only that writer. */
  lemma LocalKeepsInv(s: State, initial: Ref, i: nat, w: Writer)
    requires Inv(s, initial) && i < |s.writers| && w.update == s.writers[i].update
    requires Holds(w) && Fresh(w, s.shared, |s.swapped|)
    requires (w.pc == Returned(true)) == (s.writers[i].pc == Returned(true))
    ensures Inv(s.(writers := s.writers[i := w]), initial)
  {
    var t := s.(writers := s.writers[i := w]);
    assert WriterOk(s, i);
    forall j | 0 <= j < |t.writers| ensures WriterOk(t, j) {
      assert WriterOk(s, j);
    }
  }

  lemma SwapKeepsInv(s: State, initial: Ref, i: nat, stamp: int)
    requires Inv(s, initial) && i < |s.writers| && Swaps(s.writers[i], s.shared)
    ensures Inv(StepWriter(s, i, Go(stamp)), initial)
  {
    var w, t := s.writers[i], StepWriter(s, i, Go(stamp));
    var e := Entry(i, w.update);
    assert WriterOk(s, i);
    ReplaySnoc(NotesIn(initial), s.swapped, e);
    forall j | 0 <= j < |t.writers| ensures WriterOk(t, j) {
      CountSnoc(s.swapped, e, j);
      assert WriterOk(s, j);
    }
  }

  lemma StepKeepsInv(s: State, initial: Ref, i: nat, c: Choice)
    requires Inv(s, initial) && i < |s.writers|
    ensures Inv(StepWriter(s, i, c), initial)
  {
    var w := s.writers[i];
    assert WriterOk(s, i);
    match c {
      case Fail(retry) => if !w.pc.Returned? { LocalKeepsInv(s, initial, i, Failed(w, retry)); }
      case Go(stamp) =>
        if Swaps(w, s.shared) {
          SwapKeepsInv(s, initial, i, stamp);
        } else {
          AdvanceHolds(w, s.shared, |s.swapped|, stamp);
          AdvanceFresh(w, s.shared, |s.swapped|, stamp);
          LocalKeepsInv(s, initial, i, Advance(w, s.shared, |s.swapped|, stamp));
        }
    }
  }

  lemma ActKeepsInv(s: State, initial: Ref, a: Action)
    requires Inv(s, initial)
    ensures Inv(Act(s, a), initial)
  {
    match a {
      case Call(u) => CallKeepsInv(s, initial, u);
      case Step(i, c) => if i < |s.writers| { StepKeepsInv(s, initial, i, c); }
      case DeletePrivate(i) =>
        if i < |s.writers| {
          assert WriterOk(s, i);
          LocalKeepsInv(s, initial, i, s.writers[i].(tmp := None));
        }
    }
  }

  lemma {:induction false} Reachable(initial: Ref, run: seq<Action>)
    ensures Inv(Exec(Init(initial), run), initial)
  {
    if run != [] {
      Reachable(initial, run[..|run| - 1]);
      ActKeepsInv(Exec(Init(initial), run[..|run| - 1]), initial, run[|run| - 1]);
    }
  }

  // The theorems

  /** The shared notes are always the swapped updates, applied in swap order. */
  lemma NotesAreReplay(initial: Ref, run: seq<Action>)
    ensures var s := Exec(Init(initial), run); NotesIn(s.shared) == Replay(NotesIn(initial), s.swapped)
  {
    Reachable(initial, run);
  }

  /** A call that returned success is among them exactly once, with its own update; any other call not at all. */
  lemma SuccessIsOneSwap(initial: Ref, run: seq<Action>, i: nat)
    requires i < |Exec(Init(initial), run).writers|
    ensures var s := Exec(Init(initial), run);
      && Count(s.swapped, i) == (if s.writers[i].pc == Returned(true) then 1 else 0)
      && forall k :: 0 <= k < |s.swapped| && s.swapped[k].writer == i ==> s.swapped[k].update == s.writers[i].update
  {
    Reachable(initial, run);
    assert WriterOk(Exec(Init(initial), run), i);
  }

  /** A compare-and-swap loses only to an update that was swapped in since the attempt began. */
  lemma LosesOnlyToProgress(initial: Ref, run: seq<Action>, i: nat)
    requires i < |Exec(Init(initial), run).writers|
    ensures var s := Exec(Init(initial), run);
      s.writers[i].pc.Swapping? && !Swaps(s.writers[i], s.shared) ==> s.writers[i].seen < |s.swapped|
  {
    Reachable(initial, run);
    assert WriterOk(Exec(Init(initial), run), i);
  }

  /** What a key holds: the last update made to it, else what it held at first. */
  lemma {:induction false} ReplayKeeps(notes: Notes, es: seq<Entry>, k: nat, key: Key)
    requires k <= |es| && forall j :: k <= j < |es| ==> es[j].update.key != key
    ensures k == 0 ==> (key in Replay(notes, es) <==> key in notes) && (key in notes ==> Replay(notes, es)[key] == notes[key])
    ensures k > 0 && es[k - 1].update.key == key ==> key in Replay(notes, es) && Replay(notes, es)[key] == es[k - 1].update.note
    decreases |es|
  {
    if k < |es| {
      var before := es[..|es| - 1];
      forall j | k <= j < |before| ensures before[j].update.key != key { assert before[j] == es[j]; }
      ReplayKeeps(notes, before, k, key);
      assert es[|es| - 1].update.key != key;
    }
  }

  /** No writer loses another's note: it stays until somebody writes under the same key. */
  lemma NoNoteLost(initial: Ref, run: seq<Action>, k: nat)
    requires k < |Exec(Init(initial), run).swapped|
    requires var es := Exec(Init(initial), run).swapped; forall j :: k < j < |es| ==> es[j].update.key != es[k].update.key
    ensures var s := Exec(Init(initial), run); var u := s.swapped[k].update;
      u.key in NotesIn(s.shared) && NotesIn(s.shared)[u.key] == u.note
  {
    var s := Exec(Init(initial), run);
    NotesAreReplay(initial, run);
    ReplayKeeps(NotesIn(initial), s.swapped, k + 1, s.swapped[k].update.key);
  }
}

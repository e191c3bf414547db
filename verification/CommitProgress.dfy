/** commitnotes/commitnotes.go: a call that nobody disturbs does write its note. */
module CommitProgress {
  import opened Options
  import opened CommitNotes

  /** How many of the attempt's six git commands have succeeded. */
  function Done(pc: Pc): nat
  {
    match pc
    case Reading => 0
    case Copying(_) => 1
    case Adding(_) => 2
    case Resolving(_) => 3
    case Checking(_, _) => 4
    case Swapping(_, _) => 5
    case Returned(ok) => if ok then 6 else 0
  }

  /** The commit is the base with the update on top. */
  ghost predicate OnTop(c: Commit, base: Ref, u: Update) { c.parent == base && c.notes == Put(NotesIn(base), u) }

  /** The attempt is based on what the shared ref still is, and its private copy is right. */
  ghost predicate OnTrack(w: Writer, shared: Ref)
  {
    match w.pc
    case Reading => true
    case Copying(base) => base == shared && w.tmp.None?
    case Adding(base) => base == shared && w.tmp == base
    case Resolving(base) => base == shared && w.tmp.Some? && OnTop(w.tmp.value, base, w.update)
    case Checking(base, updated) => base == shared && OnTop(updated, base, w.update)
    case Swapping(base, updated) => base == shared && OnTop(updated, base, w.update)
    case Returned(ok) => ok
  }

  lemma AdvanceOnTrack(w: Writer, shared: Ref, swaps: nat, stamp: int)
    requires OnTrack(w, shared) && !w.pc.Swapping? && !w.pc.Returned?
    ensures var w' := Advance(w, shared, swaps, stamp); OnTrack(w', shared) && Done(w'.pc) == Done(w.pc) + 1
  {
    if w.pc.Checking? && w.pc.base.Some? { assert IsAncestor(w.pc.base.value, w.pc.updated.parent.value); }
  }

  /** The last action does not disturb writer i: no error of its own, no private ref deleted in use, nobody else's swap. */
  ghost predicate Quiet(s: State, a: Action, i: nat)
  {
    && i < |s.writers|
    && (a.Step? && a.writer == i ==> a.choice.Go?)
    && (a == DeletePrivate(i) ==> !s.writers[i].pc.Adding? && !s.writers[i].pc.Resolving?)
    && (s.writers[i].pc != Returned(true) && !(a.Step? && a.writer == i) ==> Act(s, a).swapped == s.swapped)
  }

  ghost predicate Undisturbed(s: State, run: seq<Action>, i: nat)
  {
    run == [] || (Undisturbed(s, run[..|run| - 1], i) && Quiet(Exec(s, run[..|run| - 1]), run[|run| - 1], i))
  }

  /** How many commands of writer i the run carries out. */
  function Steps(run: seq<Action>, i: nat): nat
  {
    if run == [] then 0
    else
      var a := run[|run| - 1];
      Steps(run[..|run| - 1], i) + if a.Step? && a.writer == i then 1 else 0
  }

  ghost predicate Underway(s: State, t: State, i: nat, steps: nat)
  {
    && |s.writers| <= |t.writers| && i < |s.writers| && t.writers[i].update == s.writers[i].update
    && OnTrack(t.writers[i], t.shared)
    && Done(t.writers[i].pc) == (if steps < 6 then steps else 6)
    && (steps < 6 ==> t.shared == s.shared && t.swapped == s.swapped)
    && (steps >= 6 ==> Wrote(s, t, i))
  }

  /** The call's update is the next one swapped in, on top of what was there. */
  ghost predicate Wrote(s: State, t: State, i: nat)
    requires i < |s.writers|
  {
    |s.swapped| < |t.swapped| && t.swapped[..|s.swapped|] == s.swapped
    && t.swapped[|s.swapped|] == Entry(i, s.writers[i].update)
  }

  lemma OtherUnchanged(t: State, a: Action, i: nat)
    requires i < |t.writers| && !(a.Step? && a.writer == i) && a != DeletePrivate(i)
    ensures var t' := Act(t, a); i < |t'.writers| && t'.writers[i] == t.writers[i] && |t.writers| <= |t'.writers|
    ensures Act(t, a).swapped == t.swapped ==> Act(t, a).shared == t.shared
    ensures t.swapped <= Act(t, a).swapped
  {
  }

  lemma OwnStep(s: State, t: State, i: nat, steps: nat, stamp: int)
    requires Underway(s, t, i, steps)
    ensures Underway(s, Act(t, Step(i, Go(stamp))), i, steps + 1)
  {
    var w := t.writers[i];
    if steps < 5 { AdvanceOnTrack(w, t.shared, |t.swapped|, stamp); }
  }

  lemma QuietStep(s: State, t: State, a: Action, i: nat, steps: nat)
    requires Underway(s, t, i, steps) && Quiet(t, a, i)
    ensures Underway(s, Act(t, a), i, if a.Step? && a.writer == i then steps + 1 else steps)
  {
    if a.Step? && a.writer == i {
      OwnStep(s, t, i, steps, a.choice.stamp);
    } else if a != DeletePrivate(i) {
      OtherUnchanged(t, a, i);
    }
  }

  lemma {:induction false} UndisturbedGoesOn(s: State, run: seq<Action>, i: nat)
    requires i < |s.writers| && s.writers[i].pc.Reading? && Undisturbed(s, run, i)
    ensures Underway(s, Exec(s, run), i, Steps(run, i))
    decreases |run|
  {
    if run != [] {
      UndisturbedGoesOn(s, run[..|run| - 1], i);
      QuietStep(s, Exec(s, run[..|run| - 1]), run[|run| - 1], i, Steps(run[..|run| - 1], i));
    }
  }

  /**
   * Whatever the other writers do meanwhile, short of a swap, a call whose private
   * copy is left alone succeeds with its sixth command and its update is the next
   * one swapped in.
   */
  lemma UndisturbedSucceeds(s: State, run: seq<Action>, i: nat)
    requires i < |s.writers| && s.writers[i].pc.Reading? && Undisturbed(s, run, i) && Steps(run, i) >= 6
    ensures var t := Exec(s, run); i < |t.writers| && t.writers[i].pc == Returned(true) && Wrote(s, t, i)
  {
    UndisturbedGoesOn(s, run, i);
  }

  lemma QuietSnoc(s: State, run: seq<Action>, i: nat)
    requires i < |Exec(s, run).writers| && Undisturbed(s, run, i)
    ensures Undisturbed(s, run + [Step(i, Go(0))], i) && Steps(run + [Step(i, Go(0))], i) == Steps(run, i) + 1
    ensures |Exec(s, run).writers| == |Exec(s, run + [Step(i, Go(0))]).writers|
  {
    assert (run + [Step(i, Go(0))])[..|run|] == run;
  }

  lemma {:induction false} RepeatQuiet(s: State, i: nat, n: nat) returns (run: seq<Action>)
    requires i < |s.writers|
    ensures Undisturbed(s, run, i) && Steps(run, i) == n && |Exec(s, run).writers| == |s.writers|
    ensures |run| == n && forall k :: 0 <= k < n ==> run[k] == Step(i, Go(0))
  {
    run := [];
    if n > 0 {
      run := RepeatQuiet(s, i, n - 1);
      QuietSnoc(s, run, i);
      run := run + [Step(i, Go(0))];
    }
  }

  /** Alone, the call's six commands write exactly its note, whatever notes there were. */
  lemma AloneWrites(s: State, i: nat) returns (run: seq<Action>)
    requires i < |s.writers| && s.writers[i].pc.Reading?
    ensures |run| == 6 && forall k :: 0 <= k < 6 ==> run[k] == Step(i, Go(0))
    ensures var t := Exec(s, run); var u := s.writers[i].update;
      && i < |t.writers| && t.writers[i].pc == Returned(true)
      && t.swapped == s.swapped + [Entry(i, u)]
      && NotesIn(t.shared) == NotesIn(s.shared)[u.key := u.note]
  {
    run := RepeatQuiet(s, i, 5);
    UndisturbedGoesOn(s, run, i);
    var t := Exec(s, run);
    assert (run + [Step(i, Go(0))])[..5] == run;
    assert Exec(s, run + [Step(i, Go(0))]) == Act(t, Step(i, Go(0)));
    run := run + [Step(i, Go(0))];
  }

  /** An attempt that loses its swap changes nothing and starts over with the same update; alone from then on, it succeeds. */
  lemma LostSwapStartsOver(s: State, i: nat, stamp: int) returns (run: seq<Action>)
    requires i < |s.writers| && s.writers[i].pc.Swapping? && s.shared != s.writers[i].pc.base
    ensures var t := Act(s, Step(i, Go(stamp)));
      && t.shared == s.shared && t.swapped == s.swapped && i < |t.writers|
      && t.writers[i].pc.Reading? && t.writers[i].update == s.writers[i].update
      && var u, v := s.writers[i].update, Exec(t, run);
        i < |v.writers| && v.writers[i].pc == Returned(true) && NotesIn(v.shared) == NotesIn(s.shared)[u.key := u.note]
  {
    run := AloneWrites(Act(s, Step(i, Go(stamp))), i);
  }

  /** An attempt whose new commit has lost its base changes nothing and gives up. */
  lemma LostBaseGivesUp(s: State, i: nat, stamp: int)
    requires i < |s.writers| && s.writers[i].pc.Checking? && s.writers[i].pc.base.Some?
    requires !IsAncestor(s.writers[i].pc.base.value, s.writers[i].pc.updated)
    ensures var t := Act(s, Step(i, Go(stamp)));
      t.shared == s.shared && t.swapped == s.swapped && i < |t.writers| && t.writers[i].pc == Returned(false)
  {
  }
}

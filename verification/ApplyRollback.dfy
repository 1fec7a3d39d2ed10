/** What a rollback leaves behind: an item it passes without an error is back, whatever was edited before. */
module ApplyRollback {
  import opened Rows
  import opened ApplyProtocol

  /** The installed value is where the rollback looks for it: taken aside already, or live. */
  function Taken(sl: Slots): Option<Digest> { if sl.installed.Some? then sl.installed else sl.live }

  /** How the places of a begun item at home relate, before and after the rollback passed it. */
  predicate PutBack(it: Item, phase: Phase, before: Slots, after: Slots) {
    if it.metadataOnly then
      after.live == it.original && (before.live == it.original || before.live == it.expected)
    else if before.previous.None? && phase == Grouped && before.value.Some? then
      after == before && before.value == it.expected && before.live.Some?
    else if before.previous.None? && it.original.Some? then
      after == before && before.live == it.original
    else
      && Inspected(it, before) && after.previous.None? && after.installed.None? && after.value == before.value
      && after.live == (if before.previous.Some? then before.previous else Left(before))
  }

  /** The rollback has to move something of the item, or to look whether it has. */
  predicate Moves(it: Item, phase: Phase, before: Slots) {
    !it.metadataOnly && (before.previous.Some? || (it.original.None? && (phase != Grouped || before.value.None?)))
  }

  /** What lies aside has been looked at: it is the installed value. */
  predicate Inspected(it: Item, before: Slots) { Taken(before).Some? ==> Taken(before) == it.expected }

  /** Live after the installed value was taken aside. */
  function Left(before: Slots): Option<Digest> { if before.installed.Some? then before.live else None }

  /** Between `Undo(i + 1)` and `Undo(i)`. */
  predicate Midway(it: Item, pc: Pc, i: nat, before: Slots, now: Slots) {
    && now.value == before.value && now.installed == Taken(before)
    && match pc
       case UndoCheck(k) => k == i && now.installed.Some? && now.previous == before.previous && now.live == Left(before)
       case UndoReturn(k) => k == i
       case UndoRestore(k) => k == i && before.previous.Some? && Inspected(it, before)
         && now.previous == before.previous && now.live == Left(before)
       case UndoDrop(k) => k == i && Inspected(it, before) && now.previous.None?
         && now.live == (if before.previous.Some? then before.previous else Left(before))
       case _ => false
  }

  predicate Passing(s: State, u: State, i: nat) {
    && WellFormed(u) && u.plan == s.plan && !u.failed
    && var it, phase := ItemAt(s, i), PhaseAt(s.mem, i);
       if u.pc == Undo(i) then PutBack(it, phase, Now(s, i), Now(u, i))
       else Moves(it, phase, Now(s, i)) && Midway(it, u.pc, i, Now(s, i), Now(u, i))
  }

  predicate Begins(s: State, i: nat) {
    WellFormed(s) && s.pc == Undo(i + 1) && i < |s.plan.items| && !s.failed && PhaseAt(s.mem, i) != Prepared
  }

  lemma PassBegins(s: State, i: nat)
    requires Begins(s, i) && !UndoAct(s).failed
    ensures AtHome(s, i) && Passing(s, UndoAct(s), i)
  {
  }

  lemma PassGoesOn(s: State, u: State, i: nat)
    requires Begins(s, i) && Passing(s, u, i) && u.pc != Undo(i) && !UndoAct(u).failed
    ensures Passing(s, UndoAct(u), i)
  {
  }

  /** The rollback left to itself until it comes to the items before `i`; none if an error is recorded first. */
  function Passed(u: State, i: nat, n: nat): Option<State>
    decreases n
  {
    if u.failed then None else if u.pc == Undo(i) then Some(u) else if n == 0 then None
    else Passed(Step(u, Go), i, n - 1)
  }

  lemma {:induction false} PassedFrom(s: State, u: State, i: nat, n: nat)
    requires Begins(s, i) && Passing(s, u, i) && Passed(u, i, n).Some?
    ensures PutBack(ItemAt(s, i), PhaseAt(s.mem, i), Now(s, i), Now(Passed(u, i, n).value, i))
    decreases n
  {
    if u.pc != Undo(i) {
      assert !Step(u, Go).failed;
      PassGoesOn(s, u, i);
      PassedFrom(s, Step(u, Go), i, n - 1);
    }
  }

  /** Whatever was edited before: an item that a rollback passes without an error lies in its recorded
      directory and is back.  A touched content item has what was backed up at its live path again, and only a
      value equal to the installed one was taken away; an untouched one is as it was and holds its original,
      or in a group whatever was live; a directory has its original mode. */
  lemma PassedItemIsBack(s: State, i: nat, n: nat)
    requires Begins(s, i) && Passed(s, i, n).Some?
    ensures AtHome(s, i) && PutBack(ItemAt(s, i), PhaseAt(s.mem, i), Now(s, i), Now(Passed(s, i, n).value, i))
  {
    var u := UndoAct(s);
    assert Step(s, Go) == u && Passed(s, i, n) == Passed(u, i, n - 1) && !u.failed;
    PassBegins(s, i);
    PassedFrom(s, u, i, n - 1);
  }
}

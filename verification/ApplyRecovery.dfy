/** Whole runs without outside edits: an application ends with every original and none of the
    directories it made, or with a committed journal and every expected value; never with a mix.
    Recovery removes the transaction exactly if no earlier rollback had begun to remove directories. */
module ApplyRecovery {
  import opened Rows
  import opened ApplyProtocol
  import opened ApplyNoLoss
  import opened ApplyAtomic
  import opened ApplyParents
  import opened ApplyHomes

  predicate Sound(s: State) { Calm(s) && Tidy(s) && Homed(s) }

  lemma StartCalm(plan: Plan, dirs: seq<Dir>)
    requires ValidStart(plan, dirs)
    ensures Calm(Start(plan, dirs))
  {
    var s := Start(plan, dirs);
    StartWellFormed(plan, dirs);
    forall i | 0 <= i < |plan.items| ensures ValidItem(plan, dirs, plan.items[i]) {}
    forall i | 0 <= i < |s.cells| ensures ShapedCell(plan.items[i], Prepared, false, s.cells[i]) {}
  }

  lemma StartTidy(plan: Plan, dirs: seq<Dir>)
    requires ValidStart(plan, dirs)
    ensures Tidy(Start(plan, dirs))
  {
    forall i, k | 0 <= i < |plan.items| && 0 <= k < |plan.items[i].parents|
      ensures plan.items[i].parents[k] < |dirs|
      ensures plan.above[plan.items[i].parents[k]] == plan.items[i].parents[..k]
      ensures !dirs[plan.items[i].parents[k]].Foreign? ==> plan.items[i].original.None?
    {
      assert ValidItem(plan, dirs, plan.items[i]);
    }
    assert Consistent(plan, dirs);
  }

  lemma StartHomed(plan: Plan, dirs: seq<Dir>)
    requires ValidStart(plan, dirs)
    ensures Homed(Start(plan, dirs))
  {
  }

  // ---- Directories that are not ours stay ----

  predicate SameForeign(a: seq<Dir>, b: seq<Dir>) {
    |a| == |b| && forall d :: 0 <= d < |a| ==> (a[d].Foreign? || b[d].Foreign? ==> a[d] == b[d])
  }

  lemma ActForeign(s: State)
    requires WellFormed(s)
    ensures SameForeign(s.dirs, Act(s).dirs)
  {
    if Backward(s.pc) { UndoForeign(s); } else if Preparing(s.pc) { PrepareForeign(s); } else { InstallForeign(s); }
  }

  lemma UndoForeign(s: State)
    requires WellFormed(s) && Backward(s.pc)
    ensures SameForeign(s.dirs, UndoAct(s).dirs)
  {
    if s.pc.UndoParents? && s.pc.k > 0 { UndoParentsCases(s, s.pc.k - 1); }
  }

  lemma PrepareForeign(s: State)
    requires WellFormed(s) && Preparing(s.pc)
    ensures SameForeign(s.dirs, PrepareAct(s).dirs)
  {
  }

  lemma InstallForeign(s: State)
    requires WellFormed(s)
    ensures InstallAct(s).dirs == s.dirs
  {
  }

  lemma StepForeign(s: State, e: Event)
    requires WellFormed(s) && !e.Outside? && !e.OutsideDir?
    ensures SameForeign(s.dirs, Step(s, e).dirs)
  {
    if e.Go? || e.Late? { ActForeign(s); }
    if e.Late? { ReactForeign(s, Act(s)); } else if e.Fail? { ReactForeign(s, Unwritten(s)); }
  }

  lemma ReactForeign(s: State, t: State)
    requires WellFormed(s) && Follows(s, t) && (s.pc.UndoParents? ==> t.mem == s.mem)
    ensures React(s, t).dirs == t.dirs && Unwritten(s).dirs == s.dirs
  {
  }

  /** With none of ours left, the directories are those of the start. */
  lemma ForeignOnly(start: seq<Dir>, dirs: seq<Dir>)
    requires SameForeign(start, dirs) && ClearFrom(dirs, 0)
    requires forall d :: 0 <= d < |start| ==> !start[d].Made?
    ensures dirs == start
  {
    forall d | 0 <= d < |start| ensures dirs[d] == start[d] {
      assert !dirs[d].Made? && !start[d].Made?;
    }
  }

  // ---- Runs ----

  lemma StepSound(s: State, e: Event)
    requires Sound(s) && Orderly(s, e)
    ensures Sound(Step(s, e)) && SameForeign(s.dirs, Step(s, e).dirs)
  {
    StepCalm(s, e);
    StepTidy(s, e);
    StepHomed(s, e);
    StepForeign(s, e);
  }

  lemma {:induction false} RunSound(s: State, events: seq<Event>)
    requires Sound(s) && OrderlyRun(s, events)
    ensures Sound(Run(s, events)) && SameForeign(s.dirs, Run(s, events).dirs)
    decreases |events|
  {
    if events != [] {
      StepSound(s, events[0]);
      RunSound(Step(s, events[0]), events[1..]);
    }
  }

  lemma Reachable(plan: Plan, dirs: seq<Dir>, events: seq<Event>)
    requires ValidStart(plan, dirs)
    requires WellFormed(Start(plan, dirs)) && OrderlyRun(Start(plan, dirs), events)
    ensures Sound(Run(Start(plan, dirs), events)) && SameForeign(dirs, Run(Start(plan, dirs), events).dirs)
  {
    StartCalm(plan, dirs);
    StartTidy(plan, dirs);
    StartHomed(plan, dirs);
    RunSound(Start(plan, dirs), events);
  }

  // ---- An undisturbed rollback ends ----

  predicate UndoesItems(pc: Pc) { pc.Undo? || pc.UndoCheck? || pc.UndoRestore? || pc.UndoDrop? }

  /** Rolling back without an error so far, every begun item in its recorded directory. */
  predicate Rolling(s: State) {
    && Sound(s) && Backward(s.pc) && s.pc != Discard(true) && (s.pc.Discard? || !s.failed)
    && (UndoesItems(s.pc) ==> InPlace(s.plan.items, s.mem, s.dirs))
  }

  /** Operations still to come. */
  function Remaining(pc: Pc, created: nat): nat {
    match pc
    case Undo(i) => created + 3 + 5 * i
    case UndoCheck(i) => created + 7 + 5 * i
    case UndoRestore(i) => created + 6 + 5 * i
    case UndoDrop(i) => created + 5 + 5 * i
    case UndoParents(k) => k + 2
    case Discard(_) => 1
    case _ => 0
  }

  predicate Shrinks(s: State, t: State) {
    !t.failed && t.mem == s.mem && t.dirs == s.dirs && Backward(t.pc) && !t.pc.Discard? &&
        Remaining(t.pc, |t.mem.created|) < Remaining(s.pc, |s.mem.created|)
  }

  lemma UndoShrinks(s: State)
    requires Rolling(s) && s.pc.Undo?
    ensures Shrinks(s, UndoStep(s, s.pc.i))
  {
    UndoKeepsOn(s);
    UndoGoesDown(s);
  }

  lemma UndoKeepsOn(s: State)
    requires Rolling(s) && s.pc.Undo?
    ensures !UndoStep(s, s.pc.i).failed
  {
    UndoCalm(s);
    if s.pc.i > 0 { NotAway(s, s.pc.i - 1); }
  }

  lemma NotAway(s: State, j: nat)
    requires WellFormed(s) && InPlace(s.plan.items, s.mem, s.dirs) && j < |s.plan.items|
    ensures !Away(s, j)
  {
  }

  lemma UndoGoesDown(s: State)
    requires WellFormed(s) && s.pc.Undo?
    ensures var t, i := UndoStep(s, s.pc.i), s.pc.i;
      && t.mem == s.mem && t.dirs == s.dirs && t.disk == s.disk
      && if i == 0 then t.pc == if s.failed then Idle else UndoParents(|s.mem.created|)
         else t.pc == Undo(i - 1) || t.pc == UndoCheck(i - 1) || t.pc == UndoRestore(i - 1)
  {
  }

  lemma UndoItemShrinks(s: State)
    requires Rolling(s) && (s.pc.UndoCheck? || s.pc.UndoRestore? || s.pc.UndoDrop?)
    ensures Shrinks(s, UndoAct(s))
  {
    UndoItemCalm(s);
    UndoItemGoes(s);
  }

  /** The rest of an item's rollback stays at the item or goes on to the one before. */
  lemma UndoItemGoes(s: State)
    requires WellFormed(s) && (s.pc.UndoCheck? || s.pc.UndoRestore? || s.pc.UndoDrop?)
    ensures var t, i := UndoAct(s), s.pc.i;
      && t.plan == s.plan && t.mem == s.mem && t.dirs == s.dirs && t.disk == s.disk
      && (t.pc == Undo(i) || t.pc == UndoReturn(i) || ((t.pc == UndoRestore(i) || t.pc == UndoDrop(i)) &&
            Remaining(t.pc, |t.mem.created|) < Remaining(s.pc, |s.mem.created|)))
  {
  }

  /** The directory made last of those left holds no other. */
  lemma NothingInside(plan: Plan, dirs: seq<Dir>, d: nat, e: nat, c: nat)
    requires Consistent(plan, dirs) && Nested(plan, dirs) && ClearFrom(dirs, c + 1)
    requires d < |dirs| && e < |dirs| && dirs[d] == Made(c) && d in plan.above[e]
    ensures dirs[e] == Absent
  {
    var k :| 0 <= k < |plan.above[e]| && plan.above[e][k] == d;
  }

  /** Every directory we made is empty by the time it is removed. */
  lemma ParentRemovable(s: State, c: nat)
    requires Rolling(s) && s.pc == UndoParents(c + 1) && c < |s.mem.created|
    requires c !in s.staged && DirAt(s.dirs, s.mem.created[c]) != Absent
    ensures DirAt(s.dirs, s.mem.created[c]) == Made(c) && Empty(s.plan, s.cells, s.dirs, s.mem.created[c])
  {
    var d := s.mem.created[c];
    assert Listed(s.disk)[s.dirs[d].c] == d;
    forall i | 0 <= i < |s.cells| && d in s.plan.items[i].parents ensures s.cells[i].Now().live.None? {
      var k :| 0 <= k < |s.plan.items[i].parents| && s.plan.items[i].parents[k] == d;
      assert Back(s.plan.items[i], s.cells[i].Now());
    }
    forall e | 0 <= e < |s.dirs| && d in s.plan.above[e] ensures s.dirs[e] == Absent {
      NothingInside(s.plan, s.dirs, d, e, c);
    }
  }

  lemma UndoParentShrinks(s: State)
    requires Rolling(s) && s.pc.UndoParents?
    ensures UndoParentsStep(s, s.pc.k).pc == if s.pc.k == 0 then Discard(false) else UndoParents(s.pc.k - 1)
    ensures !UndoParentsStep(s, s.pc.k).failed
  {
    if s.pc.k > 0 {
      var c := s.pc.k - 1;
      if c !in s.staged && DirAt(s.dirs, s.mem.created[c]) != Absent { ParentRemovable(s, c); }
    }
  }

  /** One operation of a rollback in progress removes the transaction or comes nearer to that. */
  predicate RollsTo(s: State, t: State) {
    && SameForeign(s.dirs, t.dirs)
    && if s.pc.Discard? then Sound(t) && t.pc == Done(false) && t.disk.None?
       else Rolling(t) && Remaining(t.pc, |t.mem.created|) < Remaining(s.pc, |s.mem.created|)
  }

  lemma RollingStep(s: State)
    requires Rolling(s)
    ensures RollsTo(s, Step(s, Go))
  {
    StepSound(s, Go);
    if s.pc.UndoParents? {
      UndoParentShrinks(s);
    } else if !s.pc.Discard? {
      RollingShrinks(s);
    }
  }

  lemma RollingShrinks(s: State)
    requires Rolling(s) && UndoesItems(s.pc)
    ensures Shrinks(s, UndoAct(s))
  {
    if s.pc.Undo? { UndoShrinks(s); } else { UndoItemShrinks(s); }
  }

  function Gos(n: nat): seq<Event> { seq(n, _ => Go) }

  /** Removed with everything back where it was. */
  predicate RolledBack(s: State) {
    s.pc == Done(false) && s.disk.None? && AllLive(s.plan.items, s.cells, false) && ClearFrom(s.dirs, 0)
  }

  lemma RemovedIsBack(s: State)
    requires Sound(s) && s.pc == Done(false) && s.disk.None?
    ensures RolledBack(s)
  {
  }

  lemma SameForeignChains(a: seq<Dir>, b: seq<Dir>, c: seq<Dir>)
    requires SameForeign(a, b) && SameForeign(b, c)
    ensures SameForeign(a, c)
  {
  }

  lemma {:induction false} RollbackEnds(s: State, n: nat)
    requires Rolling(s) && Remaining(s.pc, |s.mem.created|) <= n
    ensures RolledBack(Run(s, Gos(n))) && SameForeign(s.dirs, Run(s, Gos(n)).dirs)
    decreases n, 1
  {
    RollingStep(s);
    NextGo(s, n);
    RollbackGoesOn(s, Step(s, Go), n);
  }

  lemma {:induction false} RollbackGoesOn(s: State, t: State, n: nat)
    requires RollsTo(s, t) && Remaining(s.pc, |s.mem.created|) <= n && n > 0
    ensures RolledBack(Run(t, Gos(n - 1))) && SameForeign(s.dirs, Run(t, Gos(n - 1)).dirs)
    decreases n, 0
  {
    if s.pc.Discard? {
      RemovedIsBack(t);
      DoneStays(t, n - 1);
    } else {
      RollbackEnds(t, n - 1);
      SameForeignChains(s.dirs, t.dirs, Run(t, Gos(n - 1)).dirs);
    }
  }

  lemma {:induction false} DoneStays(s: State, n: nat)
    requires s.pc.Done?
    ensures Run(s, Gos(n)) == s
    decreases n
  {
    if n > 0 {
      NextGo(s, n);
      DoneStays(s, n - 1);
    }
  }

  lemma NextGo(s: State, n: nat)
    requires n > 0
    ensures Run(s, Gos(n)) == Run(Step(s, Go), Gos(n - 1))
  {
    assert Gos(n)[0] == Go && Gos(n)[1..] == Gos(n - 1);
  }

  lemma {:induction false} RunConcat(s: State, a: seq<Event>, b: seq<Event>)
    requires WellFormed(s)
    ensures Run(s, a + b) == Run(Run(s, a), b)
    decreases |a|
  {
    if a == [] {
      assert a + b == b;
    } else {
      assert (a + b)[0] == a[0] && (a + b)[1..] == a[1..] + b;
      RunConcat(Step(s, a[0]), a[1..], b);
    }
  }

  // ---- The theorems ----

  /** Under a committed journal every item has its expected value, whichever unsynchronized renames
      are lost; a removed transaction has left all expected values, or all originals and directories. */
  lemma CrashAtomicity(plan: Plan, dirs: seq<Dir>, events: seq<Event>)
    requires ValidStart(plan, dirs)
    requires WellFormed(Start(plan, dirs)) && OrderlyRun(Start(plan, dirs), events)
    ensures var s := Run(Start(plan, dirs), events);
      && (!s.pc.Done? && Committed(s.disk) ==>
            forall i, keep :: 0 <= i < |s.cells| ==> Survivor(s.cells[i], keep).live == plan.items[i].expected)
      && (s.pc == Done(true) ==> forall i :: 0 <= i < |s.cells| ==> Now(s, i).live == plan.items[i].expected)
      && (s.pc == Done(false) ==> s.dirs == dirs && forall i :: 0 <= i < |s.cells| ==>
          Now(s, i).live == plan.items[i].original)
  {
    Reachable(plan, dirs, events);
    var s := Run(Start(plan, dirs), events);
    if s.pc == Done(false) { ForeignOnly(dirs, s.dirs); }
    if !s.pc.Done? && Committed(s.disk) { CommittedSurvives(s); }
  }

  lemma CommittedSurvives(s: State)
    requires Calm(s) && !s.pc.Done? && Committed(s.disk)
    ensures forall i, keep :: 0 <= i < |s.cells| ==> Survivor(s.cells[i], keep).live == s.plan.items[i].expected
  {
    forall i, keep | 0 <= i < |s.cells| ensures Survivor(s.cells[i], keep).live == s.plan.items[i].expected {
      assert ShapedCell(s.plan.items[i], PhaseIn(s.disk, i), true, s.cells[i]);
      SurvivorIsOneOf(s.cells[i], keep);
    }
  }

  /** Nothing that a power failure can leave shows a changed item without its backup. */
  lemma BackupOutlivesReplacement(plan: Plan, dirs: seq<Dir>, events: seq<Event>, i: nat, keep: set<nat>)
    requires ValidStart(plan, dirs)
    requires WellFormed(Start(plan, dirs)) && OrderlyRun(Start(plan, dirs), events)
    requires i < |plan.items| && !plan.items[i].metadataOnly && !Run(Start(plan, dirs), events).pc.Done?
    ensures var left := Survivor(Run(Start(plan, dirs), events).cells[i], keep);
      left.live != plan.items[i].original ==> left.previous == plan.items[i].original
  {
    Reachable(plan, dirs, events);
    var s := Run(Start(plan, dirs), events);
    SurvivorIsOneOf(s.cells[i], keep);
    assert ShapedCell(plan.items[i], PhaseIn(s.disk, i), Committed(s.disk), s.cells[i]);
  }

  /** Bound on the operations of a recovery. */
  function RecoveryLength(s: State): nat {
    |Listed(s.disk)| + 3 + 5 * |s.plan.items|
  }

  // ---- A rollback that cannot end ----

  /** How many items are still to be rolled back. */
  function UpTo(pc: Pc): nat {
    match pc
    case Undo(i) => i
    case UndoCheck(i) => i
    case UndoReturn(i) => i
    case UndoRestore(i) => i
    case UndoDrop(i) => i
    case _ => 0
  }

  predicate SomeAway(s: State, n: nat)
    requires WellFormed(s) && n <= |s.plan.items|
  { exists j :: 0 <= j < n && Away(s, j) }

  /** Rolling back items; an error has struck, or an item still to come has lost its directory. */
  predicate Doomed(s: State) {
    && WellFormed(s) && (UndoesItems(s.pc) || s.pc.UndoReturn?) && UpTo(s.pc) <= |s.plan.items|
    && (s.failed || SomeAway(s, UpTo(s.pc)))
  }

  /** The operations left of a rollback of items, whatever happens to each. */
  function Left(pc: Pc): nat {
    match pc
    case Undo(i) => 1 + 5 * i
    case UndoCheck(i) => 5 + 5 * i
    case UndoReturn(i) => 2 + 5 * i
    case UndoRestore(i) => 3 + 5 * i
    case UndoDrop(i) => 2 + 5 * i
    case _ => 0
  }

  /** Only the items and the position change, and errors are not forgotten. */
  predicate Descends(s: State, t: State) {
    && WellFormed(t) && t.plan == s.plan && t.mem == s.mem && t.dirs == s.dirs && t.disk == s.disk
    && (s.failed ==> t.failed) && (UndoesItems(t.pc) || t.pc.UndoReturn?) && Left(t.pc) < Left(s.pc)
  }

  lemma UndoDescends(s: State)
    requires WellFormed(s) && s.pc.Undo? && s.pc.i > 0
    ensures var t, j := UndoStep(s, s.pc.i), s.pc.i - 1;
      Descends(s, t) && UpTo(t.pc) == j && (Away(s, j) ==> t.failed)
  {
  }

  lemma ItemDescends(s: State)
    requires WellFormed(s) && (s.pc.UndoCheck? || s.pc.UndoReturn? || s.pc.UndoRestore? || s.pc.UndoDrop?)
    ensures Descends(s, UndoAct(s)) && UpTo(UndoAct(s).pc) == s.pc.i
  {
  }

  /** An item that was away and did not fail just now is still to come. */
  lemma StillAway(s: State, t: State, n: nat)
    requires WellFormed(s) && Descends(s, t) && n <= |s.plan.items| && UpTo(t.pc) <= n && SomeAway(s, n)
    requires forall j :: UpTo(t.pc) <= j < n && Away(s, j) ==> t.failed
    ensures t.failed || SomeAway(t, UpTo(t.pc))
  {
    var j :| 0 <= j < n && Away(s, j);
    if !t.failed { assert j < UpTo(t.pc) && Away(t, j); }
  }

  lemma DoomedStep(s: State)
    requires Doomed(s) && s.pc != Undo(0)
    ensures var t := Step(s, Go); Doomed(t) && Descends(s, t)
  {
    if s.pc.Undo? { UndoDescends(s); } else { ItemDescends(s); }
    if !s.failed { StillAway(s, Step(s, Go), UpTo(s.pc)); }
  }

  lemma {:induction false} IdleStays(s: State, n: nat)
    requires WellFormed(s) && s.pc.Idle?
    ensures Run(s, Gos(n)) == s
    decreases n
  {
    if n > 0 {
      NextGo(s, n);
      IdleStays(s, n - 1);
    }
  }

  lemma {:induction false} DoomedEnds(s: State, n: nat)
    requires Doomed(s) && Left(s.pc) <= n
    ensures var t := Run(s, Gos(n)); t.pc.Idle? && t.disk == s.disk && t.dirs == s.dirs && t.plan == s.plan
    decreases n
  {
    NextGo(s, n);
    if s.pc == Undo(0) {
      assert s.failed && Step(s, Go) == s.(pc := Idle);
      IdleStays(s.(pc := Idle), n - 1);
    } else {
      DoomedStep(s);
      DoomedEnds(Step(s, Go), n - 1);
    }
  }

  lemma {:induction false} GosOrderly(s: State, n: nat)
    requires WellFormed(s)
    ensures OrderlyRun(s, Gos(n))
    decreases n
  {
    if n > 0 {
      assert Gos(n)[0] == Go && Gos(n)[1..] == Gos(n - 1);
      GosOrderly(Step(s, Go), n - 1);
    }
  }

  // ---- Recovery from any stop ----

  lemma RecoverEnters(s: State, kept: seq<set<nat>>)
    requires WellFormed(s) && !s.pc.Done? && !Committed(s.disk)
    ensures var b := Step(Step(s, Crash(kept)), Recover);
      && b.plan == s.plan && b.disk == s.disk && b.dirs == s.dirs && (s.disk.Some? ==> b.mem == s.disk.value)
      && b.pc == (if s.disk.None? then Discard(false) else Undo(|s.plan.items|)) && (s.disk.Some? ==> !b.failed)
      && Remaining(b.pc, |b.mem.created|) <= RecoveryLength(s)
  {
  }

  lemma RecoverSound(s: State, kept: seq<set<nat>>)
    requires Sound(s) && !s.pc.Done? && !Committed(s.disk)
    ensures var b := Step(Step(s, Crash(kept)), Recover); Sound(b) && SameForeign(s.dirs, b.dirs)
  {
    StepSound(s, Crash(kept));
    StepSound(Step(s, Crash(kept)), Recover);
  }

  lemma RecoveryRemoves(s: State, kept: seq<set<nat>>, n: nat)
    requires Sound(s) && !s.pc.Done? && !Committed(s.disk) && n >= RecoveryLength(s) && Housed(s)
    ensures var t := Run(s, [Crash(kept), Recover] + Gos(n)); RolledBack(t) && SameForeign(s.dirs, t.dirs)
  {
    RecoverSound(s, kept);
    RecoverEnters(s, kept);
    RollbackEnds(Step(Step(s, Crash(kept)), Recover), n);
    TwoThenRun(s, Crash(kept), Recover, Gos(n));
  }

  lemma RecoveryStays(s: State, kept: seq<set<nat>>, n: nat)
    requires Sound(s) && !s.pc.Done? && !Committed(s.disk) && n >= RecoveryLength(s) && !Housed(s)
    ensures var t := Run(s, [Crash(kept), Recover] + Gos(n));
      t.pc.Idle? && t.disk == s.disk && AllBack(t.plan.items, t.cells) && !Housed(t)
  {
    var b := Step(Step(s, Crash(kept)), Recover);
    RecoverSound(s, kept);
    RecoverEnters(s, kept);
    LostHome(b);
    DoomedEnds(b, n);
    GosOrderly(b, n);
    RunSound(b, Gos(n));
    TwoThenRun(s, Crash(kept), Recover, Gos(n));
    UnhousedIsBack(Run(b, Gos(n)));
  }

  lemma UnhousedIsBack(s: State)
    requires Homed(s) && !s.pc.Done? && !Housed(s)
    ensures AllBack(s.plan.items, s.cells)
  {
  }

  /** An unhoused journal dooms the rollback that starts from it. */
  lemma LostHome(s: State)
    requires WellFormed(s) && Homed(s) && s.pc == Undo(|s.plan.items|) && s.disk.Some? && s.mem == s.disk.value
    requires !Housed(s)
    ensures Doomed(s)
  {
    assert GivenBack(s);
    var i :| 0 <= i < |s.plan.items| && s.mem.phases[i] != Prepared
      && !(HomeOf(s.plan.items[i], s.dirs) == s.mem.homes[i] && s.mem.homes[i] != Absent);
    assert Away(s, i);
  }

  /** Stop an uncommitted application at any step, losing any unsynchronized renames, and recover.
      The transaction is removed exactly if every begun item still lies in the directory recorded for
      it; then every original is live again and the created directories are gone.  Otherwise an earlier
      rollback had restored every original and begun to remove directories, and the transaction stays. */
  lemma RecoveryRestores(plan: Plan, dirs: seq<Dir>, events: seq<Event>, kept: seq<set<nat>>, n: nat)
    requires ValidStart(plan, dirs)
    requires WellFormed(Start(plan, dirs)) && OrderlyRun(Start(plan, dirs), events)
    requires var s := Run(Start(plan, dirs), events); !s.pc.Done? && !Committed(s.disk) && n >= RecoveryLength(s)
    ensures var t := Run(Run(Start(plan, dirs), events), [Crash(kept), Recover] + Gos(n));
      && (t.pc == Done(false) <==> Housed(Run(Start(plan, dirs), events)))
      && (t.pc == Done(false) ==> t.disk.None? && t.dirs == dirs)
      && (t.pc != Done(false) ==> t.pc.Idle? && t.disk == Run(Start(plan, dirs), events).disk)
      && forall i :: 0 <= i < |t.cells| ==> Now(t, i).live == plan.items[i].original
  {
    Reachable(plan, dirs, events);
    var s := Run(Start(plan, dirs), events);
    if Housed(s) {
      RecoveryRemoves(s, kept, n);
      ForeignOnly(dirs, Run(s, [Crash(kept), Recover] + Gos(n)).dirs);
    } else {
      RecoveryStays(s, kept, n);
    }
  }

  lemma TwoThenRun(s: State, e: Event, f: Event, rest: seq<Event>)
    requires WellFormed(s)
    ensures Run(s, [e, f] + rest) == Run(Step(Step(s, e), f), rest)
  {
    RunConcat(s, [e, f], rest);
    assert [e, f][1..] == [f] && [f][1..] == [];
    assert Run(Step(s, e), [f]) == Run(Step(Step(s, e), f), []);
  }

  /** A committed application can always be completed: the commit validates and removes the transaction. */
  lemma CommitCompletes(plan: Plan, dirs: seq<Dir>, events: seq<Event>)
    requires ValidStart(plan, dirs)
    requires WellFormed(Start(plan, dirs)) && OrderlyRun(Start(plan, dirs), events)
    requires var s := Run(Start(plan, dirs), events); s.pc.Idle? && Committed(s.disk)
    ensures var t := Run(Run(Start(plan, dirs), events), [Commit, Go]);
      && t.pc == Done(true) && t.disk.None?
      && forall i :: 0 <= i < |t.cells| ==> Now(t, i).live == plan.items[i].expected
  {
    Reachable(plan, dirs, events);
    CommitEnds(Run(Start(plan, dirs), events));
  }

  lemma CommitRemoves(s: State)
    requires Sound(s) && s.pc == Discard(true)
    ensures var t := Step(s, Go); t.pc == Done(true) && t.disk.None? && AllLive(t.plan.items, t.cells, true)
  {
    StepSound(s, Go);
  }

  lemma CommitEnds(s: State)
    requires Sound(s) && s.pc.Idle? && Committed(s.disk)
    ensures var t := Run(s, [Commit, Go]); t.pc == Done(true) && t.disk.None? && AllLive(t.plan.items, t.cells, true)
  {
    forall i | 0 <= i < |s.cells| ensures Replaced(s.plan.items[i], s.cells[i].Now()) {
      assert ShapedCell(s.plan.items[i], PhaseIn(s.disk, i), true, s.cells[i]);
    }
    assert Step(s, Commit) == s.(pc := Discard(true));
    StepSound(s, Commit);
    CommitRemoves(s.(pc := Discard(true)));
    assert [Commit, Go] == [Commit, Go] + [];
    TwoThenRun(s, Commit, Go, []);
  }
}

/** The parent directories that a rollback relies on: those recorded with the intents are in place
    until the rollback itself, with every original restored, begins to remove the ones it made. */
module ApplyHomes {
  import opened Rows
  import opened ApplyProtocol
  import opened ApplyNoLoss
  import opened ApplyAtomic
  import opened ApplyParents

  /** Every begun item lies in the directory recorded for it. */
  predicate InPlace(items: seq<Item>, j: Journal, dirs: seq<Dir>) {
    forall i :: 0 <= i < |items| && i < |j.phases| && i < |j.homes| && j.phases[i] != Prepared ==>
      HomeOf(items[i], dirs) == j.homes[i] && j.homes[i] != Absent
  }

  /** The condition under which a rollback of the published journal can succeed. */
  predicate Housed(s: State) { s.disk.Some? ==> InPlace(s.plan.items, s.disk.value, s.dirs) }

  /** Every item is back, with nothing unsynchronized. */
  predicate AllBack(items: seq<Item>, cells: seq<Cell>) {
    |cells| == |items| && forall i :: 0 <= i < |cells| ==> cells[i].ops == [] && Back(items[i], cells[i].Now())
  }

  predicate PendingBacked(cells: seq<Cell>) {
    forall i :: 0 <= i < |cells| && cells[i].ops != [] ==> cells[i].Now().previous.Some?
  }

  /** Before any intent the homes are those of the planning. */
  predicate Planned(s: State) {
    |s.mem.homes| == |s.plan.items| &&
    (s.pc.Publish? || s.pc.Stage? || s.pc.GroupIntend? ==>
      forall i :: 0 <= i < |s.plan.items| ==> s.mem.homes[i] == HomeOf(s.plan.items[i], s.dirs))
  }

  predicate Settled(s: State) { Housed(s) && (Running(s.pc) ==> InPlace(s.plan.items, s.mem, s.dirs)) }

  /** A journal names a directory for every item it begins. */
  predicate NamesHomes(j: Journal) {
    forall i :: 0 <= i < |j.phases| && i < |j.homes| && j.phases[i] != Prepared ==> j.homes[i] != Absent
  }

  predicate BothName(s: State) { (s.disk.Some? ==> NamesHomes(s.disk.value)) && (Running(s.pc) ==> NamesHomes(s.mem)) }

  predicate GivenBack(s: State) {
    AllBack(s.plan.items, s.cells) && !Committed(s.disk) && (Backward(s.pc) || s.pc.Idle?) && BothName(s)
  }

  predicate Homed(s: State) {
    !s.pc.Done? ==> PendingBacked(s.cells) && Planned(s) && (Settled(s) || GivenBack(s))
  }

  /** Fit for the error path from anywhere. */
  predicate Anchored(s: State) {
    && PendingBacked(s.cells) && |s.mem.homes| == |s.plan.items|
    && ((Housed(s) && InPlace(s.plan.items, s.mem, s.dirs)) || (AllBack(s.plan.items, s.cells) && !Committed(s.disk) &&
          (s.disk.Some? ==> NamesHomes(s.disk.value)) && NamesHomes(s.mem)))
  }

  predicate HomedOn(t: State) { Homed(t) && Anchored(t) }

  // ---- Journals and directories ----

  /** A journal that begins no further item. */
  lemma InPlaceSame(items: seq<Item>, j: Journal, k: Journal, dirs: seq<Dir>)
    requires InPlace(items, j, dirs) && k.homes == j.homes && |k.phases| == |j.phases|
    requires forall i :: 0 <= i < |k.phases| && k.phases[i] != Prepared ==> j.phases[i] != Prepared
    ensures InPlace(items, k, dirs)
  {
  }

  lemma InPlaceIntent(items: seq<Item>, j: Journal, i: nat, dirs: seq<Dir>)
    requires InPlace(items, j, dirs) && i < |items| == |j.phases| == |j.homes| && HomeOf(items[i], dirs) != Absent
    ensures InPlace(items, WithIntent(j, i, HomeOf(items[i], dirs)), dirs)
  {
  }

  /** A directory that was missing is nobody's recorded home. */
  lemma InPlaceMade(items: seq<Item>, j: Journal, dirs: seq<Dir>, d: nat, c: nat)
    requires InPlace(items, j, dirs) && d < |dirs| && dirs[d] == Absent
    ensures InPlace(items, j, dirs[d := Made(c)])
  {
    forall i | 0 <= i < |items| && i < |j.phases| && i < |j.homes| && j.phases[i] != Prepared
      ensures HomeOf(items[i], dirs[d := Made(c)]) == j.homes[i]
    {
      assert HomeOf(items[i], dirs) != Absent;
    }
  }

  /** The whole group is housed where it was planned. */
  lemma GroupHoused(s: State)
    requires Calm(s) && Tidy(s) && s.pc.GroupIntend? && Planned(s)
    ensures InPlace(s.plan.items, AllPhases(s.mem, Grouped), s.dirs)
  {
    forall i | 0 <= i < |s.plan.items| ensures HomeOf(s.plan.items[i], s.dirs) != Absent {
      var it := s.plan.items[i];
      if it.parents != [] { assert s.dirs[it.parents[|it.parents| - 1]].Foreign?; }
    }
  }

  // ---- The application ----

  lemma Prepares(s: State, t: State)
    requires Homed(s) && Running(s.pc) && !Backward(s.pc) && !t.pc.Done? && t.plan == s.plan
    requires t.dirs == s.dirs && PendingBacked(t.cells) && Planned(t)
    requires InPlace(s.plan.items, t.mem, s.dirs) && (t.disk == s.disk || t.disk == Some(t.mem))
    ensures HomedOn(t)
  {
  }

  lemma BeginHomed(s: State)
    requires Calm(s) && Tidy(s) && Homed(s) && (s.pc.Publish? || s.pc.Stage? || s.pc.GroupIntend? || s.pc.Check?)
    ensures HomedOn(PrepareAct(s))
  {
    var t := PrepareAct(s);
    if s.pc.GroupIntend? {
      GroupHoused(s);
    } else {
      assert t.mem == s.mem;
    }
    assert t.cells == s.cells ||
        (s.pc.Stage? && s.pc.i < |s.cells| && t.cells == s.cells[s.pc.i := Cell(t.cells[s.pc.i].durable, [])]);
    Prepares(s, t);
  }

  lemma ApproachHomed(s: State)
    requires Calm(s) && Homed(s) && (s.pc.Parents? || s.pc.ParentJournal?)
    ensures HomedOn(PrepareAct(s))
  {
    ApproachGoes(s);
    InPlaceSame(s.plan.items, s.mem, PrepareAct(s).mem, s.dirs);
    Prepares(s, PrepareAct(s));
  }

  /** Listing a missing ancestor touches neither items nor directories. */
  lemma ApproachGoes(s: State)
    requires WellFormed(s) && (s.pc.Parents? || s.pc.ParentJournal?)
    ensures var t := PrepareAct(s);
      && t.cells == s.cells && t.dirs == s.dirs && t.plan == s.plan
      && t.mem.phases == s.mem.phases && t.mem.homes == s.mem.homes && (t.disk == s.disk || t.disk == Some(t.mem))
      && (t.pc.Undo? || t.pc.Parents? || t.pc.ParentJournal? || t.pc.ParentRename? || t.pc.Intend?)
  {
  }

  lemma IntendHomed(s: State)
    requires Calm(s) && Tidy(s) && Homed(s) && s.pc.Intend?
    ensures HomedOn(IntendStep(s, s.pc.i))
  {
    if HomeOf(s.plan.items[s.pc.i], s.dirs) != Absent { InPlaceIntent(s.plan.items, s.mem, s.pc.i, s.dirs); }
    Prepares(s, IntendStep(s, s.pc.i));
  }

  lemma ParentRenameHomed(s: State)
    requires Calm(s) && Tidy(s) && Homed(s) && s.pc.ParentRename?
    ensures HomedOn(PrepareAct(s))
  {
    var last := |s.mem.created| - 1;
    var d := s.mem.created[last];
    InPlaceMade(s.plan.items, s.mem, s.dirs, d, last);
    if s.disk.Some? { InPlaceMade(s.plan.items, s.disk.value, s.dirs, d, last); }
    assert PrepareAct(s) == s.(dirs := s.dirs[d := Made(last)], staged := s.staged - {last},
        pc := Parents(s.pc.i, s.pc.k + 1));
  }

  lemma ItemHomed(s: State)
    requires Calm(s) && Homed(s) && (s.pc.Backup? || s.pc.BackupSync? || s.pc.Install?)
    ensures HomedOn(InstallAct(s))
  {
    ItemGoes(s);
    ItemBacked(s);
    Prepares(s, InstallAct(s));
  }

  /** Backing up and installing touch the item alone. */
  lemma ItemGoes(s: State)
    requires WellFormed(s) && (s.pc.Backup? || s.pc.BackupSync? || s.pc.Install?)
    ensures var t := InstallAct(s);
      t == s.(cells := t.cells, pc := t.pc, failed := t.failed)
      && (t.pc.Undo? || t.pc.BackupSync? || t.pc.Install? || t.pc.Settle?)
  {
  }

  lemma ItemBacked(s: State)
    requires Calm(s) && Homed(s) && (s.pc.Backup? || s.pc.BackupSync? || s.pc.Install?)
    ensures PendingBacked(InstallAct(s).cells)
  {
    var i := s.pc.i;
    if s.pc.Backup? {
      MovedNow(s.cells[i], s.plan.grouped, ToBackup);
    } else if s.pc.Install? {
      MovedNow(s.cells[i], s.plan.grouped, ToLive);
    }
  }

  lemma SettleHomed(s: State)
    requires Calm(s) && Homed(s) && s.pc.Settle?
    ensures HomedOn(SettleStep(s, s.pc.i))
  {
    var t := SettleStep(s, s.pc.i);
    InPlaceSame(s.plan.items, s.mem, t.mem, s.dirs);
    Prepares(s, t);
  }

  lemma GroupSyncHomed(s: State)
    requires Calm(s) && Homed(s) && s.pc.GroupSync?
    ensures HomedOn(GroupSyncStep(s))
  {
    var t := GroupSyncStep(s);
    InPlaceSame(s.plan.items, s.mem, t.mem, s.dirs);
    assert PendingBacked(t.cells);
    Prepares(s, t);
  }

  lemma FinishHomed(s: State)
    requires Calm(s) && Homed(s)
    requires s.pc.ValidateBackups? || s.pc.ValidateInstalled? || s.pc.CommitWrite? || s.pc.Confirm?
    ensures HomedOn(InstallAct(s))
  {
    FinishGoes(s);
    InPlaceSame(s.plan.items, s.mem, InstallAct(s).mem, s.dirs);
    Prepares(s, InstallAct(s));
  }

  /** Validation and commit touch the journal alone. */
  lemma FinishGoes(s: State)
    requires WellFormed(s)
    requires s.pc.ValidateBackups? || s.pc.ValidateInstalled? || s.pc.CommitWrite? || s.pc.Confirm?
    ensures var t := InstallAct(s);
      && t.cells == s.cells && t.dirs == s.dirs && t.plan == s.plan
      && t.mem.phases == s.mem.phases && t.mem.homes == s.mem.homes && (t.disk == s.disk || t.disk == Some(t.mem))
      && (t.pc.Undo? || t.pc.Idle? || t.pc.ValidateInstalled? || t.pc.CommitWrite? || t.pc.Confirm?)
  {
  }

  // ---- The rollback ----

  /** An item that is back stays so. */
  lemma UndoStepBack(s: State)
    requires Calm(s) && s.pc.Undo? && AllBack(s.plan.items, s.cells)
    ensures UndoStep(s, s.pc.i).cells == s.cells
  {
    if s.pc.i > 0 {
      var j := s.pc.i - 1;
      assert Back(s.plan.items[j], s.cells[j].Now());
    }
  }

  lemma UndoDropBack(s: State)
    requires Calm(s) && s.pc.UndoDrop? && AllBack(s.plan.items, s.cells)
    ensures AllBack(s.plan.items, UndoDropStep(s, s.pc.i).cells)
  {
    var i := s.pc.i;
    var sl := s.cells[i].Now();
    assert UndoDropStep(s, i).cells == s.cells[i := Cell(sl.(installed := None), [])];
  }

  /** A directory is removed only when every item is back. */
  lemma UndoParentsHomed(s: State)
    requires Calm(s) && Tidy(s) && Homed(s) && s.pc.UndoParents?
    ensures HomedOn(UndoParentsStep(s, s.pc.k))
  {
    var t := UndoParentsStep(s, s.pc.k);
    if s.pc.k > 0 { UndoParentsCases(s, s.pc.k - 1); }
    assert AllBack(s.plan.items, s.cells) by {
      forall i | 0 <= i < |s.cells| ensures s.cells[i].ops == [] && Back(s.plan.items[i], s.cells[i].Now()) {
        assert Back(s.plan.items[i], s.cells[i].Now());
      }
    }
    assert GivenBack(t);
  }


  /** In a state where every item is back, nothing is left to restore. */
  lemma NothingToRestore(s: State)
    requires Calm(s) && s.pc.UndoRestore?
    ensures !AllBack(s.plan.items, s.cells)
  {
    assert !Back(s.plan.items[s.pc.i], s.cells[s.pc.i].Now());
  }

  lemma RollsOn(s: State, t: State)
    requires Homed(s) && Backward(s.pc) && Running(s.pc) && t.plan == s.plan && t.dirs == s.dirs && t.mem == s.mem
    requires t.disk == s.disk
    requires PendingBacked(t.cells) && (AllBack(s.plan.items, s.cells) ==> AllBack(s.plan.items, t.cells))
    requires Backward(t.pc) || t.pc.Idle?
    ensures HomedOn(t)
  {
  }

  lemma UndoItemHomed(s: State)
    requires Calm(s) && Homed(s) && s.pc.Undo?
    ensures HomedOn(UndoStep(s, s.pc.i))
  {
    var t := UndoStep(s, s.pc.i);
    if AllBack(s.plan.items, s.cells) { UndoStepBack(s); }
    UndoStepGoes(s);
    assert PendingBacked(t.cells);
    RollsOn(s, t);
  }

  lemma UndoRestHomed(s: State)
    requires Calm(s) && Homed(s) && (s.pc.UndoCheck? || s.pc.UndoRestore? || s.pc.UndoDrop?)
    ensures HomedOn(UndoAct(s))
  {
    var t, i := UndoAct(s), s.pc.i;
    if s.pc.UndoRestore? { NothingToRestore(s); }
    if s.pc.UndoDrop? && AllBack(s.plan.items, s.cells) { UndoDropBack(s); }
    assert t.cells == s.cells || t.cells == s.cells[i := Cell(t.cells[i].durable, [])];
    RollsOn(s, t);
  }

  lemma UndoHomed(s: State)
    requires Calm(s) && Tidy(s) && Homed(s) && Backward(s.pc)
    ensures Homed(UndoAct(s)) && (!s.pc.Discard? ==> Anchored(UndoAct(s)))
  {
    if s.pc.Undo? {
      UndoItemHomed(s);
    } else if s.pc.UndoParents? {
      UndoParentsHomed(s);
    } else if !s.pc.Discard? {
      assert !s.pc.UndoReturn?;
      UndoRestHomed(s);
    }
  }

  // ---- Every event ----

  lemma PrepareHomed(s: State)
    requires Calm(s) && Tidy(s) && Homed(s) && Preparing(s.pc)
    ensures HomedOn(PrepareAct(s))
  {
    if s.pc.ParentRename? {
      ParentRenameHomed(s);
    } else if s.pc.Intend? {
      IntendHomed(s);
    } else if s.pc.Parents? || s.pc.ParentJournal? {
      ApproachHomed(s);
    } else {
      BeginHomed(s);
    }
  }

  lemma InstallHomed(s: State)
    requires Calm(s) && Tidy(s) && Homed(s) && Running(s.pc) && !Preparing(s.pc) && !Backward(s.pc)
    ensures HomedOn(InstallAct(s))
  {
    if s.pc.Backup? || s.pc.BackupSync? || s.pc.Install? {
      ItemHomed(s);
    } else if s.pc.Settle? {
      SettleHomed(s);
    } else if s.pc.GroupSync? {
      GroupSyncHomed(s);
    } else {
      FinishHomed(s);
    }
  }

  lemma ActHomed(s: State)
    requires Calm(s) && Tidy(s) && Homed(s)
    ensures Homed(Act(s)) && (Running(s.pc) ==> Anchored(Act(s)))
  {
    if Backward(s.pc) {
      UndoHomed(s);
    } else if Preparing(s.pc) {
      PrepareHomed(s);
    } else if Running(s.pc) {
      InstallHomed(s);
    }
  }

  /** An error leads to the rollback, or to a stop. */
  lemma ReactHomed(s: State, t: State)
    requires WellFormed(s) && Follows(s, t) && (s.pc.UndoParents? ==> t.mem == s.mem) && Running(s.pc) && Anchored(t)
    ensures Homed(React(s, t))
  {
    ReactGoes(s, t);
  }

  lemma UnwrittenHomed(s: State)
    requires Calm(s) && Tidy(s) && Homed(s) && Running(s.pc) && Orderly(s, Fail)
    ensures Homed(React(s, Unwritten(s)))
  {
    UnwrittenAnchored(s);
    ReactHomed(s, Unwritten(s));
  }

  lemma UnwrittenAnchored(s: State)
    requires Calm(s) && Tidy(s) && Homed(s) && Running(s.pc) && Orderly(s, Fail)
    ensures Anchored(Unwritten(s))
  {
    if Backward(s.pc) {
      assert Unwritten(s) == s;
    } else if s.pc.Intend? && HomeOf(s.plan.items[s.pc.i], s.dirs) != Absent {
      InPlaceIntent(s.plan.items, s.mem, s.pc.i, s.dirs);
    } else if s.pc.GroupIntend? {
      GroupHoused(s);
    } else {
      InPlaceSame(s.plan.items, s.mem, Unwritten(s).mem, s.dirs);
    }
  }

  lemma LateHomed(s: State)
    requires Calm(s) && Tidy(s) && Homed(s) && Running(s.pc) && Orderly(s, Late)
    ensures Homed(React(s, Act(s)))
  {
    ActHomed(s);
    ReactHomed(s, Act(s));
  }

  lemma CrashHomed(s: State, kept: seq<set<nat>>)
    requires Calm(s) && Homed(s) && !s.pc.Done?
    ensures Homed(CrashStep(s, kept))
  {
    var t := CrashStep(s, kept);
    if GivenBack(s) {
      forall i | 0 <= i < |s.cells| ensures t.cells[i].ops == [] && Back(s.plan.items[i], t.cells[i].Now()) {
        assert Back(s.plan.items[i], s.cells[i].Now());
        SurvivorIsOneOf(s.cells[i], if i < |kept| then kept[i] else {});
      }
    }
  }

  lemma RecoverHomed(s: State)
    requires Calm(s) && Homed(s)
    ensures Homed(RecoverStep(s))
  {
  }

  lemma StepHomed(s: State, e: Event)
    requires Calm(s) && Tidy(s) && Homed(s) && Orderly(s, e)
    ensures Homed(Step(s, e))
  {
    if e.Crash? {
      if !s.pc.Done? { CrashHomed(s, e.kept); }
    } else if e.Recover? {
      RecoverHomed(s);
    } else if e.Commit? {
      CommitHomed(s);
    } else if e.Go? {
      ActHomed(s);
    } else if Running(s.pc) {
      if e.Fail? { UnwrittenHomed(s); } else if e.Late? { LateHomed(s); }
    } else {
      StoppedHomed(s, e);
    }
  }

  lemma StoppedHomed(s: State, e: Event)
    requires Calm(s) && Homed(s) && !Running(s.pc) && (e.Fail? || e.Late?)
    ensures Homed(Step(s, e))
  {
    if s.pc.Discard? {
      assert Step(s, e).pc.Done? || Step(s, e) == s.(pc := Idle);
    } else {
      assert Step(s, e) == s;
    }
  }

  lemma CommitHomed(s: State)
    requires Calm(s) && Homed(s)
    ensures Homed(CommitStep(s))
  {
  }
}

/** Crash atomicity without outside edits: whatever fails and whichever unsynchronized renames are
    lost, an application is rolled back to every original or committed with every expected value. */
module ApplyAtomic {
  import opened Rows
  import opened ApplyProtocol
  import opened ApplyNoLoss

  // ---- The shapes one item can have ----

  function StagedValue(it: Item): Option<Digest> { if it.metadataOnly then None else it.expected }

  predicate NotStarted(it: Item, sl: Slots) {
    sl.live == it.original && sl.previous.None? && sl.installed.None? && (sl.value.None? || sl.value == StagedValue(it))
  }

  predicate Ready(it: Item, sl: Slots) { sl == Slots(it.original, StagedValue(it), None, None) }

  predicate BackedUp(it: Item, sl: Slots) { !it.metadataOnly && sl == Slots(None, it.expected, it.original, None) }

  predicate Replaced(it: Item, sl: Slots) {
    sl == Slots(it.expected, None, if it.metadataOnly then None else it.original, None)
  }

  predicate Quarantined(it: Item, sl: Slots) { !it.metadataOnly && sl == Slots(None, None, it.original, it.expected) }

  predicate Restored(it: Item, sl: Slots) { !it.metadataOnly && sl == Slots(it.original, None, None, it.expected) }

  predicate Recoverable(it: Item, sl: Slots) {
    NotStarted(it, sl) || BackedUp(it, sl) || Replaced(it, sl) || Quarantined(it, sl) || Restored(it, sl)
  }

  /** The shapes a published journal admits. */
  predicate Shape(it: Item, phase: Phase, committed: bool, sl: Slots) {
    if committed then Replaced(it, sl) else if phase == Prepared then NotStarted(it, sl) else Recoverable(it, sl)
  }

  predicate ShapedCell(it: Item, phase: Phase, committed: bool, c: Cell) {
    |c.ops| <= 1 && Shape(it, phase, committed, c.durable) && Shape(it, phase, committed, c.Now())
  }

  predicate Shaped(items: seq<Item>, disk: Option<Journal>, cells: seq<Cell>) {
    |cells| == |items| &&
    forall i :: 0 <= i < |cells| ==> ShapedCell(items[i], PhaseIn(disk, i), Committed(disk), cells[i])
  }

  // ---- Where each item stands at each point of the protocol ----

  predicate AllReplaced(items: seq<Item>, cells: seq<Cell>, upTo: nat) {
    forall j :: 0 <= j < upTo && j < |cells| && j < |items| ==> Replaced(items[j], cells[j].Now())
  }

  predicate AllReady(items: seq<Item>, cells: seq<Cell>, from: nat) {
    forall j :: from <= j < |cells| && j < |items| ==>
        cells[j] == Cell(Slots(items[j].original, StagedValue(items[j]), None, None), [])
  }

  predicate StagedUpTo(items: seq<Item>, cells: seq<Cell>, upTo: nat) {
    forall j :: 0 <= j < |cells| && j < |items| ==>
      cells[j] == Cell(Slots(items[j].original, if j < upTo then StagedValue(items[j]) else None, None, None), [])
  }

  /** Rolled back: the original is live and its backup is gone. */
  predicate Back(it: Item, sl: Slots) { sl.live == it.original && sl.previous.None? }

  predicate BackFrom(items: seq<Item>, cells: seq<Cell>, from: nat) {
    forall j :: from <= j < |cells| && j < |items| ==> Back(items[j], cells[j].Now())
  }

  predicate MemAhead(phases: seq<Phase>, disk: Option<Journal>) {
    forall i :: 0 <= i < |phases| && phases[i] == Prepared ==> PhaseIn(disk, i) == Prepared
  }

  predicate Going(v: View) {
    !Committed(v.disk) && !v.committing && if v.plan.grouped then Intended(v.disk, |v.cells|) else Synced(v.cells, 0)
  }

  /** Items before `i` are replaced, items from `from` on are untouched. */
  predicate Between(v: View, i: nat, from: nat) {
    Going(v) && AllReplaced(v.plan.items, v.cells, i) && AllReady(v.plan.items, v.cells, from)
  }

  predicate Busy(v: View, i: nat) {
    Between(v, i, i + 1) && PhaseIn(v.disk, i) != Prepared && i < |v.cells| == |v.plan.items|
  }

  predicate Finished(v: View) { Going(v) && AllReplaced(v.plan.items, v.cells, |v.cells|) && Synced(v.cells, 0) }

  predicate ApplyPlace(pc: Pc, v: View) {
    match pc
    case Publish => Unstarted(v.disk, v.phases, |v.cells|) && StagedUpTo(v.plan.items, v.cells, 0) &&
        !Committed(v.disk) && !v.committing
    case Stage(i) => Unstarted(v.disk, v.phases, |v.cells|) && StagedUpTo(v.plan.items, v.cells, i) &&
        !Committed(v.disk) && !v.committing
    case GroupIntend => AllReady(v.plan.items, v.cells, 0) && !Committed(v.disk) && !v.committing && v.plan.grouped
    case Check(i) => Between(v, i, i)
    case Parents(i, _) => Between(v, i, i)
    case ParentJournal(i, _) => Between(v, i, i)
    case ParentRename(i, _) => Between(v, i, i)
    case Intend(i) => Between(v, i, i)
    case Backup(i) => Between(v, i, i) && PhaseIn(v.disk, i) != Prepared
    case BackupSync(i) => Busy(v, i) && BackedUp(v.plan.items[i], v.cells[i].Now()) && v.plan.items[i].original.Some?
    case Install(i) => Busy(v, i) && BackedUp(v.plan.items[i], v.cells[i].Now()) && v.cells[i].ops == []
    case Settle(i) => Busy(v, i) && Replaced(v.plan.items[i], v.cells[i].Now())
    case GroupSync => Going(v) && AllReplaced(v.plan.items, v.cells, |v.cells|) && v.plan.grouped
    case ValidateBackups => Finished(v)
    case ValidateInstalled(_) => Finished(v)
    case CommitWrite => Finished(v)
    case Confirm(_) => Committed(v.disk)
    case _ => true
  }

  predicate Undone(v: View, i: nat) { !Committed(v.disk) && (!v.failed ==> BackFrom(v.plan.items, v.cells, i)) }

  predicate UndoneItem(v: View, i: nat) {
    Undone(v, i + 1) && PhaseIn(v.disk, i) != Prepared && i < |v.cells| == |v.plan.items|
  }

  predicate UndoPlace(pc: Pc, v: View) {
    match pc
    case Undo(i) => Undone(v, i)
    case UndoCheck(i) => UndoneItem(v, i) && Quarantined(v.plan.items[i], v.cells[i].Now()) &&
        v.plan.items[i].expected.Some?
    case UndoReturn(_) => false
    case UndoRestore(i) => UndoneItem(v, i) && v.plan.items[i].original.Some?
      && (BackedUp(v.plan.items[i], v.cells[i].Now()) || Quarantined(v.plan.items[i], v.cells[i].Now()))
    case UndoDrop(i) => UndoneItem(v, i) && Restored(v.plan.items[i], v.cells[i].Now())
    case UndoParents(_) => !Committed(v.disk) && BackFrom(v.plan.items, v.cells, 0)
    case Discard(committed) =>
      if committed then Committed(v.disk) else !Committed(v.disk) && BackFrom(v.plan.items, v.cells, 0)
    case _ => true
  }

  predicate Place(pc: Pc, v: View) { if Backward(pc) then UndoPlace(pc, v) else ApplyPlace(pc, v) }

  predicate AllLive(items: seq<Item>, cells: seq<Cell>, committed: bool) {
    |cells| == |items| && forall i :: 0 <= i < |cells| ==>
      cells[i].Now().live == if committed then items[i].expected else items[i].original
  }

  predicate Steady(v: View) {
    && GroupReplaces(v.plan)
    && Shaped(v.plan.items, v.disk, v.cells)
    && GroupPresent(v.plan.items, v.phases) && (v.disk.Some? ==> GroupPresent(v.plan.items, v.disk.value.phases))
  }

  /** The invariant of every run without outside edits. */
  predicate Calm(s: State) {
    && WellFormed(s)
    && if s.pc.Done? then AllLive(s.plan.items, s.cells, s.pc.committed)
       else Steady(Seen(s)) && Place(s.pc, Seen(s)) && (Running(s.pc) ==> MemAhead(s.mem.phases, s.disk))
  }

  /** No outside edit, and no error at or after the publication of the committed journal. */
  predicate Orderly(s: State, e: Event) {
    && !e.Outside? && !e.OutsideDir?
    && !(s.pc.CommitWrite? && e.Late?) && !(s.pc.Confirm? && (e.Fail? || e.Late?))
  }

  predicate OrderlyRun(s: State, events: seq<Event>)
    requires WellFormed(s)
    decreases |events|
  {
    events == [] || (Orderly(s, events[0]) && OrderlyRun(Step(s, events[0]), events[1..]))
  }

  // ---- Changing one cell ----

  lemma ReshapeCell(items: seq<Item>, disk: Option<Journal>, cells: seq<Cell>, i: nat, c: Cell)
    requires Shaped(items, disk, cells) && i < |cells|
    requires ShapedCell(items[i], PhaseIn(disk, i), Committed(disk), c)
    ensures Shaped(items, disk, cells[i := c])
  {
  }

  lemma BetweenCell(items: seq<Item>, cells: seq<Cell>, i: nat, c: Cell)
    requires AllReplaced(items, cells, i) && AllReady(items, cells, i + 1) && i < |cells| == |items|
    ensures AllReplaced(items, cells[i := c], i) && AllReady(items, cells[i := c], i + 1)
    ensures Replaced(items[i], c.Now()) ==> AllReplaced(items, cells[i := c], i + 1)
  {
  }

  lemma BackCell(items: seq<Item>, cells: seq<Cell>, i: nat, c: Cell)
    requires BackFrom(items, cells, i + 1) && i < |cells| == |items|
    ensures BackFrom(items, cells[i := c], i + 1)
    ensures Back(items[i], c.Now()) ==> BackFrom(items, cells[i := c], i)
  {
  }

  lemma ShapeAdvance(items: seq<Item>, disk: Option<Journal>, cells: seq<Cell>, j: Journal)
    requires Shaped(items, disk, cells) && |j.phases| == |items| && !Committed(disk)
    requires MemAhead(j.phases, disk)
    requires j.committed ==> AllReplaced(items, cells, |cells|) && Synced(cells, 0)
    ensures Shaped(items, Some(j), cells)
  {
    forall i | 0 <= i < |cells| ensures ShapedCell(items[i], PhaseIn(Some(j), i), j.committed, cells[i]) {
      assert ShapedCell(items[i], PhaseIn(disk, i), false, cells[i]);
      assert j.committed ==> Replaced(items[i], cells[i].Now()) && cells[i].ops == [];
    }
  }

  // ---- Every successful operation keeps the state calm, and fit for a rollback ----

  predicate Retractable(s: State) {
    WellFormed(s) && Steady(Seen(s)) && MemAhead(s.mem.phases, s.disk) && !Committed(s.disk)
  }

  predicate Onward(t: State) { Calm(t) && Retractable(t) }

  lemma AbortCalm(s: State)
    requires Retractable(s)
    ensures Onward(Abort(s))
  {
  }

  lemma SkipCalm(s: State, i: nat)
    requires Retractable(s) && i < |s.cells|
    ensures Onward(SkipItem(s, i))
  {
  }

  lemma PublishCalm(s: State)
    requires Calm(s) && s.pc.Publish?
    ensures Onward(PublishStep(s))
  {
    ShapeAdvance(s.plan.items, s.disk, s.cells, s.mem);
  }

  lemma StageCalm(s: State)
    requires Calm(s) && s.pc.Stage?
    ensures Onward(StageStep(s, s.pc.i))
  {
    var i := s.pc.i;
    if i < |s.cells| {
      var c := Cell(Now(s, i).(value := StagedValue(s.plan.items[i])), []);
      assert StageStep(s, i) == s.(cells := s.cells[i := c], pc := Stage(i + 1));
      ReshapeCell(s.plan.items, s.disk, s.cells, i, c);
    } else {
      assert AllReady(s.plan.items, s.cells, 0);
      assert StageStep(s, i) == s.(pc := if s.plan.grouped then GroupIntend else Check(0));
    }
  }

  lemma GroupIntendCalm(s: State)
    requires Calm(s) && s.pc.GroupIntend?
    ensures Onward(GroupIntendStep(s))
  {
    ShapeAdvance(s.plan.items, s.disk, s.cells, AllPhases(s.mem, Grouped));
  }

  lemma CheckCalm(s: State)
    requires Calm(s) && s.pc.Check?
    ensures Onward(CheckStep(s, s.pc.i))
  {
    var i := s.pc.i;
    if i == |s.cells| {
      assert CheckStep(s, i) == s.(pc := if s.plan.grouped then GroupSync else ValidateBackups);
    } else if Now(s, i).live != s.plan.items[i].original {
      AbortCalm(s);
    } else {
      assert CheckStep(s, i) == s.(pc := if s.plan.grouped then Backup(i) else Parents(i, 0));
    }
  }

  lemma ParentsCalm(s: State)
    requires Calm(s) && s.pc.Parents?
    ensures Onward(ParentsStep(s, s.pc.i, s.pc.k))
  {
    var t, i := ParentsStep(s, s.pc.i, s.pc.k), s.pc.i;
    assert t.pc == Intend(i) || t.pc == Parents(i, s.pc.k + 1) || t.pc == ParentJournal(i, s.pc.k);
    SameView(s, t, i);
  }

  /** Listing or making a parent changes nothing the items depend on. */
  lemma SameView(s: State, t: State, i: nat)
    requires Calm(s) && WellFormed(t) && Seen(t) == Seen(s) && Between(Seen(s), i, i) && Running(s.pc) && !s.pc.Done?
    requires t.pc == Intend(i) || (t.pc.Parents? && t.pc.i == i) || (t.pc.ParentJournal? && t.pc.i == i)
    ensures Onward(t)
  {
  }

  lemma ParentJournalCalm(s: State)
    requires Calm(s) && s.pc.ParentJournal?
    ensures Onward(ParentJournalStep(s, s.pc.i, s.pc.k))
  {
    AbortCalm(s);
    ShapeAdvance(s.plan.items, s.disk, s.cells, s.mem);
  }

  lemma ParentRenameCalm(s: State)
    requires Calm(s) && s.pc.ParentRename?
    ensures Onward(ParentRenameStep(s, s.pc.i, s.pc.k))
  {
    var t := ParentRenameStep(s, s.pc.i, s.pc.k);
    assert Seen(t) == Seen(s) && t.pc == Parents(s.pc.i, s.pc.k + 1);
  }

  lemma IntendCalm(s: State)
    requires Calm(s) && s.pc.Intend?
    ensures Onward(IntendStep(s, s.pc.i))
  {
    var home := HomeOf(s.plan.items[s.pc.i], s.dirs);
    if home == Absent {
      AbortCalm(s);
    } else {
      ShapeAdvance(s.plan.items, s.disk, s.cells, WithIntent(s.mem, s.pc.i, home));
    }
  }

  lemma BackupCalm(s: State)
    requires Calm(s) && s.pc.Backup?
    ensures Onward(BackupStep(s, s.pc.i))
  {
    var i := s.pc.i;
    var it, sl := s.plan.items[i], Now(s, i);
    assert s.cells[i] == Cell(Slots(it.original, StagedValue(it), None, None), []);
    if it.metadataOnly {
      var c := Cell(sl.(live := it.expected), []);
      BetweenCell(s.plan.items, s.cells, i, c);
      ReshapeCell(s.plan.items, s.disk, s.cells, i, c);
      assert BackupStep(s, i) == s.(cells := s.cells[i := c], pc := Settle(i));
    } else if sl.live.Some? {
      BackupRenameCalm(s);
    } else {
      assert BackupStep(s, i) == s.(pc := Install(i));
    }
  }

  lemma BackupRenameCalm(s: State)
    requires Calm(s) && s.pc.Backup? && !s.plan.items[s.pc.i].metadataOnly && Now(s, s.pc.i).live.Some?
    ensures Onward(BackupStep(s, s.pc.i))
  {
    var i := s.pc.i;
    assert s.cells[i] == Cell(Slots(s.plan.items[i].original, s.plan.items[i].expected, None, None), []);
    var c := Moved(s.cells[i], s.plan.grouped, ToBackup);
    MovedNow(s.cells[i], s.plan.grouped, ToBackup);
    BetweenCell(s.plan.items, s.cells, i, c);
    ReshapeCell(s.plan.items, s.disk, s.cells, i, c);
    assert BackupStep(s, i) == s.(cells := s.cells[i := c], pc := BackupSync(i));
  }

  lemma BackupSyncCalm(s: State)
    requires Calm(s) && s.pc.BackupSync?
    ensures Onward(BackupSyncStep(s, s.pc.i))
  {
    var i := s.pc.i;
    var c := Cell(Now(s, i), []);
    BetweenCell(s.plan.items, s.cells, i, c);
    ReshapeCell(s.plan.items, s.disk, s.cells, i, c);
    assert BackupSyncStep(s, i) == s.(cells := s.cells[i := c], pc := Install(i));
  }

  lemma InstallCalm(s: State)
    requires Calm(s) && s.pc.Install?
    ensures Onward(InstallStep(s, s.pc.i))
  {
    var i := s.pc.i;
    var it := s.plan.items[i];
    if it.expected.None? {
      assert InstallStep(s, i) == s.(pc := Settle(i));
    } else {
      var c := Moved(s.cells[i], s.plan.grouped, ToLive);
      MovedNow(s.cells[i], s.plan.grouped, ToLive);
      BetweenCell(s.plan.items, s.cells, i, c);
      ReshapeCell(s.plan.items, s.disk, s.cells, i, c);
      assert InstallStep(s, i) == s.(cells := s.cells[i := c], pc := Settle(i));
    }
  }

  lemma SettleCalm(s: State)
    requires Calm(s) && s.pc.Settle?
    ensures Onward(SettleStep(s, s.pc.i))
  {
    var i := s.pc.i;
    assert AllReplaced(s.plan.items, s.cells, i + 1);
    if !s.plan.grouped { ShapeAdvance(s.plan.items, s.disk, s.cells, WithPhase(s.mem, i, Installed)); }
  }

  lemma GroupSyncCalm(s: State)
    requires Calm(s) && s.pc.GroupSync?
    ensures Onward(GroupSyncStep(s))
  {
    var t := GroupSyncStep(s);
    forall i | 0 <= i < |t.cells|
      ensures ShapedCell(s.plan.items[i], PhaseIn(s.disk, i), false, t.cells[i])
      ensures t.cells[i].ops == [] && Replaced(s.plan.items[i], t.cells[i].Now())
    {
      assert ShapedCell(s.plan.items[i], PhaseIn(s.disk, i), false, s.cells[i]);
      assert Replaced(s.plan.items[i], s.cells[i].Now());
    }
  }

  lemma ValidateCalm(s: State)
    requires Calm(s) && (s.pc.ValidateBackups? || s.pc.ValidateInstalled?)
    ensures Onward(InstallAct(s))
  {
    if s.pc.ValidateBackups? {
      forall i | 0 <= i < |s.cells| ensures Replaced(s.plan.items[i], s.cells[i].Now()) {}
      assert InstallAct(s) == s.(pc := ValidateInstalled(0));
    } else if s.pc.i < |s.cells| {
      assert Replaced(s.plan.items[s.pc.i], s.cells[s.pc.i].Now());
      assert InstallAct(s) == s.(pc := ValidateInstalled(s.pc.i + 1));
    } else {
      assert InstallAct(s) == s.(pc := CommitWrite);
    }
  }

  lemma CommitCalm(s: State)
    requires Calm(s) && (s.pc.CommitWrite? || s.pc.Confirm?)
    ensures Calm(InstallAct(s))
  {
    if s.pc.CommitWrite? { CommitWriteCalm(s); } else { ConfirmCalm(s); }
  }

  lemma CommitWriteCalm(s: State)
    requires Calm(s) && s.pc.CommitWrite?
    ensures Calm(InstallAct(s))
  {
    ShapeAdvance(s.plan.items, s.disk, s.cells, s.mem.(committed := true));
  }

  lemma ConfirmCalm(s: State)
    requires Calm(s) && s.pc.Confirm?
    ensures Calm(InstallAct(s))
  {
    if s.pc.i < |s.cells| {
      assert ShapedCell(s.plan.items[s.pc.i], PhaseIn(s.disk, s.pc.i), true, s.cells[s.pc.i]);
      assert InstallAct(s) == s.(pc := Confirm(s.pc.i + 1));
    } else {
      assert InstallAct(s) == s.(pc := Idle);
    }
  }

  // ---- Rolling back ----

  /** An item the rollback passes over is already back. */
  lemma PassCalm(s: State, i: nat)
    requires Calm(s) && s.pc == Undo(i + 1) && i < |s.cells| && Back(s.plan.items[i], Now(s, i))
    ensures Onward(s.(pc := Undo(i)))
  {
  }

  /** Changing an item under rollback. */
  lemma UndoCell(s: State, i: nat, sl: Slots)
    requires Retractable(s) && i < |s.cells| && Undone(Seen(s), i + 1)
    requires Shape(s.plan.items[i], PhaseIn(s.disk, i), false, sl)
    ensures var t := Put(s, i, sl).(pc := Idle);
      && Retractable(t) && Undone(Seen(t), i + 1) && Now(t, i) == sl
      && (Back(s.plan.items[i], sl) ==> Undone(Seen(t), i))
  {
    ReshapeCell(s.plan.items, s.disk, s.cells, i, Cell(sl, []));
    if !s.failed { BackCell(s.plan.items, s.cells, i, Cell(sl, [])); }
  }

  lemma UndoMetadataCalm(s: State, j: nat)
    requires Calm(s) && s.pc == Undo(j + 1) && j < |s.cells|
    requires s.mem.phases[j] != Prepared && s.plan.items[j].metadataOnly
    ensures Onward(UndoAtHome(s, j)) && UndoAtHome(s, j).failed == s.failed
  {
    var it, sl := s.plan.items[j], Now(s, j);
    assert ShapedCell(it, PhaseIn(s.disk, j), false, s.cells[j]);
    if sl.live == it.original {
      PassCalm(s, j);
    } else {
      UndoCell(s, j, sl.(live := it.original));
      assert UndoAtHome(s, j) == Put(s, j, sl.(live := it.original)).(pc := Undo(j));
    }
  }

  lemma UndoContentCalm(s: State, j: nat)
    requires Calm(s) && s.pc == Undo(j + 1) && j < |s.cells|
    requires s.mem.phases[j] != Prepared && !s.plan.items[j].metadataOnly
    ensures Onward(UndoAtHome(s, j)) && UndoAtHome(s, j).failed == s.failed
  {
    var it, sl := s.plan.items[j], Now(s, j);
    if Back(it, sl) && (sl.installed.None? || it.original.Some?) {
      UndoPassCalm(s, j);
    } else {
      UndoQuarantineCalm(s, j);
    }
  }

  lemma UndoPassCalm(s: State, j: nat)
    requires Calm(s) && s.pc == Undo(j + 1) && j < |s.cells| && s.mem.phases[j] != Prepared
    requires !s.plan.items[j].metadataOnly
    requires Back(s.plan.items[j], Now(s, j)) && (Now(s, j).installed.None? || s.plan.items[j].original.Some?)
    ensures UndoAtHome(s, j) == s.(pc := Undo(j)) && Onward(s.(pc := Undo(j)))
  {
    assert ShapedCell(s.plan.items[j], PhaseIn(s.disk, j), false, s.cells[j]);
    PassCalm(s, j);
  }

  lemma UndoQuarantineCalm(s: State, j: nat)
    requires Calm(s) && s.pc == Undo(j + 1) && j < |s.cells| && s.mem.phases[j] != Prepared
    requires !s.plan.items[j].metadataOnly
    requires !Back(s.plan.items[j], Now(s, j)) || (Now(s, j).installed.Some? && s.plan.items[j].original.None?)
    ensures Onward(UndoAtHome(s, j)) && UndoAtHome(s, j).failed == s.failed
  {
    var it, sl := s.plan.items[j], Now(s, j);
    assert ShapedCell(it, PhaseIn(s.disk, j), false, s.cells[j]);
    assert s.mem.phases[j] == Grouped ==> it.original.Some?;
    if sl.installed.Some? {
      assert UndoAtHome(s, j) == s.(pc := UndoCheck(j));
    } else if sl.live.Some? {
      UndoReplacedCalm(s, j);
    } else {
      UndoBackedUpCalm(s, j);
    }
  }

  lemma UndoBackedUpCalm(s: State, j: nat)
    requires Calm(s) && s.pc == Undo(j + 1) && j < |s.cells| && s.mem.phases[j] != Prepared
    requires !s.plan.items[j].metadataOnly && !Back(s.plan.items[j], Now(s, j))
    requires Now(s, j).installed.None? && Now(s, j).live.None?
    ensures Onward(UndoAtHome(s, j)) && UndoAtHome(s, j).failed == s.failed
  {
    assert ShapedCell(s.plan.items[j], PhaseIn(s.disk, j), false, s.cells[j]);
    assert BackedUp(s.plan.items[j], Now(s, j));
    assert UndoAtHome(s, j) == s.(pc := UndoRestore(j));
  }

  lemma UndoReplacedCalm(s: State, j: nat)
    requires Calm(s) && s.pc == Undo(j + 1) && j < |s.cells| && s.mem.phases[j] != Prepared
    requires !s.plan.items[j].metadataOnly
    requires !Back(s.plan.items[j], Now(s, j)) && Now(s, j).live.Some? && Now(s, j).installed.None?
    ensures Onward(UndoAtHome(s, j)) && UndoAtHome(s, j).failed == s.failed
  {
    var it, sl := s.plan.items[j], Now(s, j);
    assert ShapedCell(it, PhaseIn(s.disk, j), false, s.cells[j]);
    assert Replaced(it, sl);
    assert s.mem.phases[j] == Grouped ==> it.original.Some?;
    UndoCell(s, j, sl.(installed := sl.live, live := None));
    assert UndoAtHome(s, j) == Put(s, j, sl.(installed := sl.live, live := None)).(pc := UndoCheck(j));
  }

  lemma UndoPreparedCalm(s: State, j: nat)
    requires Calm(s) && s.pc == Undo(j + 1) && j < |s.cells| && s.mem.phases[j] == Prepared
    ensures UndoStep(s, j + 1) == s.(pc := Undo(j)) && Onward(s.(pc := Undo(j)))
  {
    assert ShapedCell(s.plan.items[j], Prepared, false, s.cells[j]);
    PassCalm(s, j);
  }

  lemma UndoEndCalm(s: State)
    requires Calm(s) && s.pc == Undo(0)
    ensures Onward(UndoStep(s, 0)) && UndoStep(s, 0).failed == s.failed
  {
    assert UndoStep(s, 0) == s.(pc := if s.failed then Idle else UndoParents(|s.mem.created|));
  }

  /** The rollback fails for an item exactly if its parent directory is not the recorded one. */
  lemma UndoCalm(s: State)
    requires Calm(s) && s.pc.Undo?
    ensures Onward(UndoStep(s, s.pc.i))
    ensures UndoStep(s, s.pc.i).failed <==> s.failed || (s.pc.i > 0 && Away(s, s.pc.i - 1))
  {
    if s.pc.i == 0 { UndoEndCalm(s); } else { UndoOneCalm(s, s.pc.i - 1, UndoStep(s, s.pc.i)); }
  }

  lemma UndoOneCalm(s: State, j: nat, t: State)
    requires Calm(s) && s.pc == Undo(j + 1) && j < |s.cells| && t == UndoStep(s, j + 1)
    ensures Onward(t) && (t.failed <==> s.failed || Away(s, j))
  {
    if s.mem.phases[j] == Prepared {
      UndoPreparedCalm(s, j);
    } else if AtHome(s, j) {
      UndoAtHomeCalm(s, j);
      assert t == UndoAtHome(s, j);
    } else {
      SkipCalm(s, j);
      assert t == SkipItem(s, j);
    }
  }

  /** A begun item whose parent directory is not the one recorded. */
  predicate Away(s: State, i: nat)
    requires WellFormed(s) && i < |s.plan.items|
  { s.mem.phases[i] != Prepared && !AtHome(s, i) }

  lemma UndoAtHomeCalm(s: State, j: nat)
    requires Calm(s) && s.pc == Undo(j + 1) && j < |s.cells| && s.mem.phases[j] != Prepared
    ensures Onward(UndoAtHome(s, j)) && UndoAtHome(s, j).failed == s.failed
  {
    if s.plan.items[j].metadataOnly { UndoMetadataCalm(s, j); } else { UndoContentCalm(s, j); }
  }

  lemma UndoCheckCalm(s: State)
    requires Calm(s) && s.pc.UndoCheck?
    ensures Onward(UndoCheckStep(s, s.pc.i)) && UndoCheckStep(s, s.pc.i).failed == s.failed
  {
    var i := s.pc.i;
    if Now(s, i).previous.Some? {
      assert UndoCheckStep(s, i) == s.(pc := UndoRestore(i));
    } else {
      assert UndoCheckStep(s, i) == s.(pc := UndoDrop(i));
    }
  }

  lemma UndoRestoreCalm(s: State)
    requires Calm(s) && s.pc.UndoRestore?
    ensures Onward(UndoRestoreStep(s, s.pc.i)) && UndoRestoreStep(s, s.pc.i).failed == s.failed
  {
    if Now(s, s.pc.i).installed.Some? { RestoreQuarantined(s); } else { RestoreBackedUp(s); }
  }

  lemma RestoreQuarantined(s: State)
    requires Calm(s) && s.pc.UndoRestore? && Now(s, s.pc.i).installed.Some?
    ensures Onward(UndoRestoreStep(s, s.pc.i)) && UndoRestoreStep(s, s.pc.i).failed == s.failed
  {
    var i, it := s.pc.i, s.plan.items[s.pc.i];
    var sl := Slots(it.original, None, None, it.expected);
    UndoCell(s, i, sl);
    assert UndoRestoreStep(s, i) == Put(s, i, sl).(pc := UndoDrop(i));
  }

  lemma RestoreBackedUp(s: State)
    requires Calm(s) && s.pc.UndoRestore? && Now(s, s.pc.i).installed.None?
    ensures Onward(UndoRestoreStep(s, s.pc.i)) && UndoRestoreStep(s, s.pc.i).failed == s.failed
  {
    var i, it := s.pc.i, s.plan.items[s.pc.i];
    var sl := Slots(it.original, Now(s, i).value, None, None);
    UndoCell(s, i, sl);
    assert UndoRestoreStep(s, i) == Put(s, i, sl).(pc := Undo(i));
  }

  lemma UndoDropCalm(s: State)
    requires Calm(s) && s.pc.UndoDrop?
    ensures Onward(UndoDropStep(s, s.pc.i)) && UndoDropStep(s, s.pc.i).failed == s.failed
  {
    var i, sl := s.pc.i, Now(s, s.pc.i);
    UndoCell(s, i, sl.(installed := None));
  }

  lemma UndoParentsCalm(s: State)
    requires Calm(s) && s.pc.UndoParents?
    ensures Onward(UndoParentsStep(s, s.pc.k))
  {
    var t := UndoParentsStep(s, s.pc.k);
    assert Seen(t).(failed := s.failed) == Seen(s);
  }

  lemma DiscardCalm(s: State)
    requires Calm(s) && s.pc.Discard?
    ensures Calm(DiscardStep(s, s.pc.committed))
  {
    forall i | 0 <= i < |s.cells|
      ensures Now(s, i).live == if s.pc.committed then s.plan.items[i].expected else s.plan.items[i].original
    {
      assert ShapedCell(s.plan.items[i], PhaseIn(s.disk, i), Committed(s.disk), s.cells[i]);
      assert !s.pc.committed ==> Back(s.plan.items[i], s.cells[i].Now());
    }
  }

  lemma UndoItemCalm(s: State)
    requires Calm(s) && (s.pc.UndoCheck? || s.pc.UndoRestore? || s.pc.UndoDrop?)
    ensures Onward(UndoAct(s)) && UndoAct(s).failed == s.failed
  {
    if s.pc.UndoCheck? { UndoCheckCalm(s); } else if s.pc.UndoRestore? { UndoRestoreCalm(s); } else { UndoDropCalm(s); }
  }

  lemma UndoOnward(s: State)
    requires Calm(s) && Backward(s.pc) && !s.pc.Discard?
    ensures Onward(UndoAct(s))
  {
    if s.pc.Undo? {
      UndoCalm(s);
    } else if s.pc.UndoParents? {
      UndoParentsCalm(s);
    } else {
      UndoItemCalm(s);
    }
  }

  lemma UndoActCalm(s: State)
    requires Calm(s) && Backward(s.pc)
    ensures Calm(UndoAct(s)) && (!s.pc.Discard? ==> Onward(UndoAct(s)))
  {
    if s.pc.Discard? { DiscardCalm(s); } else { UndoOnward(s); }
  }

  // ---- Every event ----

  lemma BeginActCalm(s: State)
    requires Calm(s) && (s.pc.Publish? || s.pc.Stage? || s.pc.GroupIntend? || s.pc.Check?)
    ensures Onward(PrepareAct(s))
  {
    if s.pc.Publish? {
      PublishCalm(s);
    } else if s.pc.Stage? {
      StageCalm(s);
    } else if s.pc.GroupIntend? {
      GroupIntendCalm(s);
    } else {
      CheckCalm(s);
    }
  }

  lemma PrepareActCalm(s: State)
    requires Calm(s) && Preparing(s.pc)
    ensures Onward(PrepareAct(s))
  {
    if s.pc.Parents? {
      ParentsCalm(s);
    } else if s.pc.ParentJournal? {
      ParentJournalCalm(s);
    } else if s.pc.ParentRename? {
      ParentRenameCalm(s);
    } else if s.pc.Intend? {
      IntendCalm(s);
    } else {
      BeginActCalm(s);
    }
  }

  lemma InstallItemCalm(s: State)
    requires Calm(s) && (s.pc.Backup? || s.pc.BackupSync? || s.pc.Install? || s.pc.Settle?)
    ensures Onward(InstallAct(s))
  {
    if s.pc.Backup? {
      BackupCalm(s);
    } else if s.pc.BackupSync? {
      BackupSyncCalm(s);
    } else if s.pc.Install? {
      InstallCalm(s);
    } else {
      SettleCalm(s);
    }
  }

  lemma InstallActCalm(s: State)
    requires Calm(s) && !Preparing(s.pc) && !Backward(s.pc)
    ensures Calm(InstallAct(s))
    ensures Running(s.pc) && !s.pc.CommitWrite? && !s.pc.Confirm? ==> Onward(InstallAct(s))
  {
    if s.pc.CommitWrite? || s.pc.Confirm? {
      CommitCalm(s);
    } else if s.pc.GroupSync? {
      GroupSyncCalm(s);
    } else if s.pc.ValidateBackups? || s.pc.ValidateInstalled? {
      ValidateCalm(s);
    } else if Running(s.pc) {
      InstallItemCalm(s);
    }
  }

  lemma ActCalm(s: State)
    requires Calm(s)
    ensures Calm(Act(s))
  {
    if Backward(s.pc) { UndoActCalm(s); } else if Preparing(s.pc) { PrepareActCalm(s); } else { InstallActCalm(s); }
  }

  lemma ReactUndoCalm(s: State, t: State)
    requires WellFormed(s) && Backward(s.pc) && !s.pc.Discard? && Follows(s, t) && Retractable(t)
    requires s.pc.UndoParents? ==> t.mem == s.mem && BackFrom(t.plan.items, t.cells, 0)
    ensures Calm(UndoReact(s, t))
  {
    if s.pc.UndoParents? {
      assert Seen(UndoReact(s, t)).(failed := t.failed) == Seen(t);
    } else if s.pc != Undo(0) {
      SkipCalm(t, SkipTo(s.pc));
    }
  }

  lemma ReactApplyCalm(s: State, t: State)
    requires WellFormed(s) && !Backward(s.pc) && Running(s.pc) && Follows(s, t) && Retractable(t)
    requires s.pc.Publish? || s.pc.Stage? ==> BackFrom(t.plan.items, t.cells, 0)
    ensures Calm(React(s, t))
  {
    if s.pc.Publish? || s.pc.Stage? { assert React(s, t) == t.(pc := Discard(false)); } else { AbortCalm(t); }
  }

  lemma UnwrittenRetractable(s: State)
    requires Calm(s) && Orderly(s, Fail) && Running(s.pc) && !Backward(s.pc)
    ensures Retractable(Unwritten(s))
  {
  }

  lemma FailUndoCalm(s: State)
    requires Calm(s) && Backward(s.pc)
    ensures Calm(UndoReact(s, s))
  {
    if !s.pc.Discard? { ReactUndoCalm(s, s); }
  }

  lemma FailApplyCalm(s: State)
    requires Calm(s) && Orderly(s, Fail) && Running(s.pc) && !Backward(s.pc)
    ensures Calm(React(s, Unwritten(s)))
  {
    UnwrittenRetractable(s);
    if s.pc.Publish? || s.pc.Stage? { assert BackFrom(s.plan.items, Unwritten(s).cells, 0); }
    ReactApplyCalm(s, Unwritten(s));
  }

  lemma LateUndoCalm(s: State)
    requires Calm(s) && Backward(s.pc)
    ensures Calm(UndoReact(s, UndoAct(s)))
  {
    UndoActCalm(s);
    if s.pc.UndoParents? { assert UndoAct(s).cells == s.cells; }
    if !s.pc.Discard? { ReactUndoCalm(s, UndoAct(s)); }
  }

  lemma LatePrepareCalm(s: State)
    requires Calm(s) && Preparing(s.pc)
    ensures Calm(React(s, PrepareAct(s)))
  {
    PrepareActCalm(s);
    if s.pc.Publish? || s.pc.Stage? { LateStaged(s); }
    LateBeginCalm(s, PrepareAct(s));
  }

  lemma LateBeginCalm(s: State, t: State)
    requires WellFormed(s) && Preparing(s.pc) && Follows(s, t) && Onward(t)
    requires s.pc.Publish? || s.pc.Stage? ==> BackFrom(t.plan.items, t.cells, 0)
    ensures Calm(React(s, t))
  {
    ReactApplyCalm(s, t);
  }

  lemma LateInstallCalm(s: State)
    requires Calm(s) && Orderly(s, Late) && Running(s.pc) && !Preparing(s.pc) && !Backward(s.pc)
    ensures Calm(React(s, InstallAct(s)))
  {
    InstallActCalm(s);
    ReactApplyCalm(s, InstallAct(s));
  }

  lemma FailCalm(s: State)
    requires Calm(s) && Orderly(s, Fail)
    ensures Calm(React(s, Unwritten(s)))
  {
    if Backward(s.pc) {
      FailUndoCalm(s);
      assert React(s, Unwritten(s)) == UndoReact(s, s);
    } else if Running(s.pc) {
      FailApplyCalm(s);
    } else {
      assert React(s, Unwritten(s)) == s;
    }
  }

  lemma LateCalm(s: State)
    requires Calm(s) && Orderly(s, Late)
    ensures Calm(React(s, Act(s)))
  {
    if Backward(s.pc) {
      LateUndoCalm(s);
    } else if Preparing(s.pc) {
      LatePrepareCalm(s);
    } else if Running(s.pc) {
      LateInstallCalm(s);
    }
  }

  lemma LateStaged(s: State)
    requires Calm(s) && (s.pc.Publish? || s.pc.Stage?)
    ensures BackFrom(s.plan.items, PrepareAct(s).cells, 0)
  {
  }

  lemma CrashCalm(s: State, kept: seq<set<nat>>)
    requires Calm(s)
    ensures Calm(CrashStep(s, kept))
  {
    if !s.pc.Done? {
      var t := Lose(s, kept);
      forall i | 0 <= i < |s.cells|
        ensures ShapedCell(s.plan.items[i], PhaseIn(s.disk, i), Committed(s.disk), t.cells[i])
      {
        SurvivorIsOneOf(s.cells[i], if i < |kept| then kept[i] else {});
        assert ShapedCell(s.plan.items[i], PhaseIn(s.disk, i), Committed(s.disk), s.cells[i]);
      }
    }
  }

  lemma RecoverCalm(s: State)
    requires Calm(s)
    ensures Calm(RecoverStep(s))
  {
    if s.pc.Idle? && !Committed(s.disk) {
      if s.disk.None? {
        forall i | 0 <= i < |s.cells| ensures Back(s.plan.items[i], s.cells[i].Now()) {
          assert ShapedCell(s.plan.items[i], Prepared, false, s.cells[i]);
        }
      } else {
        AbortCalm(s.(mem := s.disk.value));
      }
    }
  }

  lemma StepCalm(s: State, e: Event)
    requires Calm(s) && Orderly(s, e)
    ensures Calm(Step(s, e))
  {
    match e
    case Go => ActCalm(s);
    case Fail => FailCalm(s);
    case Late => LateCalm(s);
    case Crash(kept) => CrashCalm(s, kept);
    case Recover => RecoverCalm(s);
    case Commit =>
  }
}

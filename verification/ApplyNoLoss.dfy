/** No content is lost: whatever is edited between any two steps, the protocol deletes only
    content it installed itself or, after a validated commit, the backup of the original. */
module ApplyNoLoss {
  import opened Rows
  import opened ApplyProtocol

  // ---- What holds of every item, whichever unsynchronized renames survive ----

  predicate SafeSlots(it: Item, phase: Phase, committed: bool, sl: Slots) {
    && (sl.value.Some? ==> sl.value == it.expected)
    && (phase == Prepared ==> sl.previous.None? && sl.installed.None?)
    && (it.original.Some? && sl.previous.None? && sl.installed.Some? ==> sl.installed == it.expected)
    && (committed ==> sl.installed.None?)
    && (it.metadataOnly ==> sl.value.None? && sl.previous.None? && sl.installed.None?)
  }

  predicate SafeCell(it: Item, phase: Phase, committed: bool, c: Cell) {
    && OnlyEdits(c.ops, 1) && SafeSlots(it, phase, committed, c.durable)
    && SafeSlots(it, phase, committed, c.Renamed()) && SafeSlots(it, phase, committed, c.Now())
  }

  predicate SafeCells(items: seq<Item>, disk: Option<Journal>, cells: seq<Cell>) {
    |cells| == |items| &&
    forall i :: 0 <= i < |cells| ==> SafeCell(items[i], PhaseIn(disk, i), Committed(disk), cells[i])
  }

  /** A deletion may remove installed content, or after a commit the original's backup. */
  predicate Allowed(items: seq<Item>, d: Deletion) {
    d.item < |items| &&
      (items[d.item].expected == Some(d.content) || (d.committed && items[d.item].original == Some(d.content)))
  }

  predicate AllAllowed(items: seq<Item>, deleted: seq<Deletion>) {
    forall k :: 0 <= k < |deleted| ==> Allowed(items, deleted[k])
  }

  /** The rollback touches only items whose installation the published journal shows, except
      originally present ones, which it then only inspects. */
  predicate JournalsAgree(items: seq<Item>, phases: seq<Phase>, disk: Option<Journal>) {
    forall i :: 0 <= i < |items| && i < |phases| ==>
      && (phases[i] == Prepared ==> PhaseIn(disk, i) == Prepared)
      && (phases[i] != Prepared && PhaseIn(disk, i) == Prepared ==> items[i].original.Some?)
  }

  // ---- What holds at each point of the protocol ----

  /** Nothing that discarding the transaction would lose. */
  predicate Clean(it: Item, sl: Slots) {
    sl.previous.None? && (sl.installed.Some? ==> sl.installed == it.expected)
  }

  predicate CleanFrom(items: seq<Item>, cells: seq<Cell>, from: nat) {
    forall j :: from <= j < |cells| && j < |items| ==> Clean(items[j], cells[j].Now())
  }

  predicate NoQuarantine(cells: seq<Cell>) {
    forall i :: 0 <= i < |cells| ==> cells[i].durable.installed.None? && cells[i].Now().installed.None?
  }

  predicate Synced(cells: seq<Cell>, from: nat) { forall j :: from <= j < |cells| ==> cells[j].ops == [] }

  predicate Intended(disk: Option<Journal>, n: nat) { forall i :: 0 <= i < n ==> PhaseIn(disk, i) != Prepared }

  predicate Unstarted(disk: Option<Journal>, phases: seq<Phase>, n: nat) {
    forall i :: 0 <= i < n && i < |phases| ==> PhaseIn(disk, i) == Prepared && phases[i] == Prepared
  }

  predicate BackupsHeld(items: seq<Item>, cells: seq<Cell>) {
    forall i :: 0 <= i < |cells| && i < |items| ==>
      cells[i].Now().previous.None? || cells[i].Now().previous == items[i].original
  }

  /** The part of the state the argument is about. */
  datatype View = View(plan: Plan, cells: seq<Cell>, disk: Option<Journal>, phases: seq<Phase>, committing: bool,
      failed: bool)

  function Seen(s: State): View {
    View(s.plan, s.cells, s.disk, s.mem.phases, s.mem.committed, s.failed)
  }

  /** Not committed, no quarantine yet, and from item `from` on no rename is pending. */
  predicate Forward(v: View, from: nat) {
    && NoQuarantine(v.cells) && Synced(v.cells, if v.plan.grouped then from else 0)
    && !Committed(v.disk) && !v.committing
  }

  predicate Starting(v: View) { Forward(v, 0) && Unstarted(v.disk, v.phases, |v.cells|) }

  predicate Applying(v: View, from: nat) {
    Forward(v, from) && (v.plan.grouped ==> Intended(v.disk, |v.cells|))
  }

  predicate Working(v: View, i: nat, from: nat) { Applying(v, from) && PhaseIn(v.disk, i) != Prepared }

  predicate Undoing(v: View, i: nat) {
    !Committed(v.disk) && (!v.failed ==> CleanFrom(v.plan.items, v.cells, i))
  }

  predicate UndoingItem(v: View, i: nat) {
    Undoing(v, i + 1) && PhaseIn(v.disk, i) != Prepared && i < |v.cells| == |v.plan.items|
  }

  predicate ApplyFacts(pc: Pc, v: View) {
    match pc
    case Publish => Starting(v)
    case Stage(_) => Starting(v)
    case GroupIntend => Starting(v) && v.plan.grouped
    case Check(i) => Applying(v, i)
    case Parents(i, _) => Applying(v, i)
    case ParentJournal(i, _) => Applying(v, i)
    case ParentRename(i, _) => Applying(v, i)
    case Intend(i) => Applying(v, i)
    case Backup(i) => Working(v, i, i)
    case BackupSync(i) => Working(v, i, i + 1)
    case Install(i) => Working(v, i, i)
    case Settle(i) => Working(v, i, i + 1)
    case GroupSync => Applying(v, |v.cells|) && v.plan.grouped
    case ValidateBackups => Applying(v, 0)
    case ValidateInstalled(_) => Applying(v, 0)
    case CommitWrite => Applying(v, 0)
    case Confirm(_) => Committed(v.disk)
    case _ => true
  }

  predicate UndoFacts(pc: Pc, v: View) {
    match pc
    case Undo(i) => Undoing(v, i)
    case UndoCheck(i) => UndoingItem(v, i) && v.cells[i].Now().installed.Some?
    case UndoReturn(i) => UndoingItem(v, i)
    case UndoRestore(i) => UndoingItem(v, i)
      && (v.cells[i].Now().installed.Some? ==> v.cells[i].Now().installed == v.plan.items[i].expected)
    case UndoDrop(i) => UndoingItem(v, i) && Clean(v.plan.items[i], v.cells[i].Now())
    case UndoParents(_) => !Committed(v.disk) && CleanFrom(v.plan.items, v.cells, 0)
    case Discard(committed) =>
      if committed then Committed(v.disk) && BackupsHeld(v.plan.items, v.cells)
      else !Committed(v.disk) && CleanFrom(v.plan.items, v.cells, 0)
    case _ => true
  }

  predicate PcFacts(pc: Pc, v: View) {
    if Backward(pc) then UndoFacts(pc, v) else ApplyFacts(pc, v)
  }

  /** The grouped installer only replaces existing content. */
  predicate GroupReplaces(plan: Plan) {
    plan.grouped ==> forall i :: 0 <= i < |plan.items| ==>
      plan.items[i].original.Some? && plan.items[i].expected.Some? && !plan.items[i].metadataOnly
  }

  predicate GroupPresent(items: seq<Item>, phases: seq<Phase>) {
    forall i :: 0 <= i < |items| && i < |phases| && phases[i] == Grouped ==> items[i].original.Some?
  }

  /** A process that may still have to roll back. */
  predicate Running(pc: Pc) { !pc.Idle? && !pc.Done? && !pc.Discard? }

  /** What holds whatever the program counter. */
  predicate Core(v: View) {
    && GroupReplaces(v.plan)
    && SafeCells(v.plan.items, v.disk, v.cells)
    && GroupPresent(v.plan.items, v.phases) && (v.disk.Some? ==> GroupPresent(v.plan.items, v.disk.value.phases))
  }

  predicate Agreed(v: View) { JournalsAgree(v.plan.items, v.phases, v.disk) }

  predicate Safe(s: State) {
    && WellFormed(s)
    && AllAllowed(s.plan.items, s.deleted)
    && Core(Seen(s)) && PcFacts(s.pc, Seen(s))
    && (Running(s.pc) ==> Agreed(Seen(s)))
  }

  /** What an operation, complete or not, leaves behind for the error path. */
  predicate Abortable(v: View) { Core(v) && Agreed(v) && !Committed(v.disk) }

  // ---- The two ways in which an error leaves the rollback ahead of the journal ----

  /** The error does not strike (a) while recording the intent to install an originally missing
      item, or (b) at or after the publication of the committed journal. */
  predicate Sheltered(s: State, e: Event)
    requires WellFormed(s)
  {
    && !(s.pc.Intend? && e.Fail? && s.plan.items[s.pc.i].original.None?)
    && !(s.pc.CommitWrite? && e.Late?)
    && !(s.pc.Confirm? && (e.Fail? || e.Late?))
    && !(s.pc.Confirm? && e.Go? && s.pc.i < |s.cells| && Now(s, s.pc.i).live != s.plan.items[s.pc.i].expected)
  }

  predicate ShelteredRun(s: State, events: seq<Event>)
    requires WellFormed(s)
    decreases |events|
  {
    events == [] || (Sheltered(s, events[0]) && ShelteredRun(Step(s, events[0]), events[1..]))
  }

  // ---- Changing one cell ----

  lemma UpdateCell(items: seq<Item>, disk: Option<Journal>, cells: seq<Cell>, i: nat, c: Cell)
    requires SafeCells(items, disk, cells) && i < |cells|
    requires SafeCell(items[i], PhaseIn(disk, i), Committed(disk), c)
    ensures SafeCells(items, disk, cells[i := c])
  {
  }

  lemma UpdateForward(cells: seq<Cell>, i: nat, c: Cell, from: nat)
    requires NoQuarantine(cells) && Synced(cells, from) && i < |cells|
    requires c.durable.installed.None? && c.Now().installed.None? && (i < from || c.ops == [])
    ensures NoQuarantine(cells[i := c]) && Synced(cells[i := c], from)
  {
  }

  lemma UpdateClean(items: seq<Item>, cells: seq<Cell>, i: nat, c: Cell, from: nat)
    requires CleanFrom(items, cells, from) && i < |cells| == |items|
    ensures i < from ==> CleanFrom(items, cells[i := c], from)
    ensures i + 1 == from && Clean(items[i], c.Now()) ==> CleanFrom(items, cells[i := c], i)
  {
  }

  lemma PhaseAdvance(items: seq<Item>, disk: Option<Journal>, cells: seq<Cell>, j: Journal)
    requires SafeCells(items, disk, cells) && |j.phases| == |items|
    requires forall i :: 0 <= i < |items| && j.phases[i] == Prepared ==> PhaseIn(disk, i) == Prepared
    requires j.committed ==> NoQuarantine(cells)
    ensures SafeCells(items, Some(j), cells)
  {
    forall i | 0 <= i < |cells| ensures SafeCell(items[i], PhaseIn(Some(j), i), j.committed, cells[i]) {
      assert SafeCell(items[i], PhaseIn(disk, i), Committed(disk), cells[i]);
    }
  }

  lemma AbortSafe(s: State)
    requires WellFormed(s) && AllAllowed(s.plan.items, s.deleted) && Abortable(Seen(s))
    ensures Safe(Abort(s))
  {
  }

  lemma SkipSafe(s: State, i: nat)
    requires WellFormed(s) && AllAllowed(s.plan.items, s.deleted) && Abortable(Seen(s)) && i < |s.cells|
    ensures Safe(SkipItem(s, i))
  {
  }

  /** The applying process moves on, or gives up. */
  lemma ApplyCarries(s: State, t: State, from: nat)
    requires Safe(s) && Running(s.pc) && Applying(Seen(s), from)
    requires WellFormed(t) && t.deleted == s.deleted && Seen(t).(failed := s.failed) == Seen(s)
    requires match t.pc
      case Check(i) => i == from
      case Parents(i, _) => i == from
      case ParentJournal(i, _) => i == from
      case Intend(i) => i == from
      case Backup(i) => i == from && PhaseIn(s.disk, i) != Prepared
      case Install(i) => i == from && PhaseIn(s.disk, i) != Prepared
      case ValidateBackups => from == 0 || !s.plan.grouped
      case GroupSync => from == |s.cells| && s.plan.grouped
      case ValidateInstalled(_) => from == 0
      case CommitWrite => from == 0
      case Undo(i) => i == |s.cells|
      case _ => false
    ensures Safe(t)
  {
    assert Applying(Seen(t), from);
  }

  /** The rollback moves on without touching a file. */
  lemma UndoCarries(s: State, t: State)
    requires AllAllowed(s.plan.items, s.deleted) && Abortable(Seen(s))
    requires WellFormed(t) && t.deleted == s.deleted && Seen(t).(failed := s.failed) == Seen(s)
    requires t.pc.Idle? || (t.pc.Undo? && t.failed) ||
      ((t.pc.UndoParents? || (t.pc.Discard? && !t.pc.committed)) && CleanFrom(s.plan.items, s.cells, 0))
    ensures Safe(t)
  {
  }

  // ---- Every successful operation keeps the state safe ----

  lemma PublishSafe(s: State)
    requires Safe(s) && s.pc.Publish?
    ensures Safe(PublishStep(s))
    ensures Abortable(Seen(PublishStep(s)))
  {
    PhaseAdvance(s.plan.items, s.disk, s.cells, s.mem);
  }

  lemma GroupIntendSafe(s: State)
    requires Safe(s) && s.pc.GroupIntend?
    ensures Safe(GroupIntendStep(s))
    ensures Abortable(Seen(GroupIntendStep(s)))
  {
    PhaseAdvance(s.plan.items, s.disk, s.cells, AllPhases(s.mem, Grouped));
  }

  lemma StageSafe(s: State)
    requires Safe(s) && s.pc.Stage?
    ensures Safe(StageStep(s, s.pc.i))
    ensures Abortable(Seen(StageStep(s, s.pc.i)))
  {
    var i := s.pc.i;
    if i < |s.cells| {
      var it := s.plan.items[i];
      var c := Cell(Now(s, i).(value := if it.metadataOnly then None else it.expected), []);
      UpdateCell(s.plan.items, s.disk, s.cells, i, c);
      UpdateForward(s.cells, i, c, 0);
    }
  }

  lemma CheckSafe(s: State)
    requires Safe(s) && s.pc.Check?
    ensures Safe(CheckStep(s, s.pc.i))
    ensures Abortable(Seen(CheckStep(s, s.pc.i)))
  {
    ApplyCarries(s, CheckStep(s, s.pc.i), s.pc.i);
  }

  lemma ParentsSafe(s: State)
    requires Safe(s) && s.pc.Parents?
    ensures Safe(ParentsStep(s, s.pc.i, s.pc.k))
    ensures Abortable(Seen(ParentsStep(s, s.pc.i, s.pc.k)))
  {
    ApplyCarries(s, ParentsStep(s, s.pc.i, s.pc.k), s.pc.i);
  }

  lemma ParentJournalSafe(s: State)
    requires Safe(s) && s.pc.ParentJournal?
    ensures Safe(ParentJournalStep(s, s.pc.i, s.pc.k))
    ensures Abortable(Seen(ParentJournalStep(s, s.pc.i, s.pc.k)))
  {
    AbortSafe(s);
    PhaseAdvance(s.plan.items, s.disk, s.cells, s.mem);
  }

  lemma ParentRenameSafe(s: State)
    requires Safe(s) && s.pc.ParentRename?
    ensures Safe(ParentRenameStep(s, s.pc.i, s.pc.k))
    ensures Abortable(Seen(ParentRenameStep(s, s.pc.i, s.pc.k)))
  {
    ApplyCarries(s, ParentRenameStep(s, s.pc.i, s.pc.k), s.pc.i);
  }

  lemma IntendSafe(s: State)
    requires Safe(s) && s.pc.Intend?
    ensures Safe(IntendStep(s, s.pc.i))
    ensures Abortable(Seen(IntendStep(s, s.pc.i)))
  {
    var i, home := s.pc.i, HomeOf(s.plan.items[s.pc.i], s.dirs);
    if home == Absent {
      AbortSafe(s);
    } else {
      PhaseAdvance(s.plan.items, s.disk, s.cells, WithIntent(s.mem, i, home));
      assert IntendStep(s, i) == Write(s, WithIntent(s.mem, i, home)).(pc := Backup(i));
    }
  }

  lemma BackupSafe(s: State)
    requires Safe(s) && s.pc.Backup?
    ensures Safe(BackupStep(s, s.pc.i))
    ensures Abortable(Seen(BackupStep(s, s.pc.i)))
  {
    BackupCell(s);
    var i := s.pc.i;
    var it, sl := s.plan.items[i], Now(s, i);
    var t := BackupStep(s, i);
    if it.metadataOnly && sl.live == it.original {
      assert t == Put(s, i, sl.(live := it.expected)).(pc := Settle(i));
    } else if !it.metadataOnly && sl.live.Some? && sl.previous.None? {
      assert t == Move(s, i, ToBackup).(pc := BackupSync(i));
    } else if !it.metadataOnly && sl.live.None? && it.original.None? {
      assert t == s.(pc := Install(i));
    } else {
      AbortSafe(s);
    }
  }

  lemma BackupCell(s: State)
    requires Safe(s) && s.pc.Backup?
    ensures var (i, it) := (s.pc.i, s.plan.items[s.pc.i]);
      var v := Seen(if it.metadataOnly then Put(s, i, Now(s, i).(live := it.expected)) else Move(s, i, ToBackup));
      Abortable(v) && Working(v, i, i + 1)
  {
    var i := s.pc.i;
    var it, sl := s.plan.items[i], Now(s, i);
    assert SafeCell(it, PhaseIn(s.disk, i), false, s.cells[i]);
    var c := if it.metadataOnly then
        Cell(sl.(live := it.expected), []) else Moved(s.cells[i], s.plan.grouped, ToBackup);
    MovedNow(s.cells[i], s.plan.grouped, ToBackup);
    UpdateForward(s.cells, i, c, if s.plan.grouped then i + 1 else 0);
    UpdateCell(s.plan.items, s.disk, s.cells, i, c);
  }

  lemma BackupSyncSafe(s: State)
    requires Safe(s) && s.pc.BackupSync?
    ensures Safe(BackupSyncStep(s, s.pc.i))
    ensures Abortable(Seen(BackupSyncStep(s, s.pc.i)))
  {
    var i := s.pc.i;
    var c := Cell(Now(s, i), []);
    UpdateForward(s.cells, i, c, if s.plan.grouped then i + 1 else 0);
    UpdateCell(s.plan.items, s.disk, s.cells, i, c);
    AbortSafe(Sync(s, i));
  }

  lemma InstallSafe(s: State)
    requires Safe(s) && s.pc.Install?
    ensures Safe(InstallStep(s, s.pc.i))
    ensures Abortable(Seen(InstallStep(s, s.pc.i)))
  {
    var i := s.pc.i;
    var it, sl := s.plan.items[i], Now(s, i);
    if it.expected.None? {
      assert InstallStep(s, i) == s.(pc := Settle(i));
    } else if sl.live.Some? || sl.value.None? {
      AbortSafe(s);
    } else {
      InstallCell(s);
      assert InstallStep(s, i) == Move(s, i, ToLive).(pc := Settle(i));
    }
  }

  lemma InstallCell(s: State)
    requires Safe(s) && s.pc.Install?
    ensures var v := Seen(Move(s, s.pc.i, ToLive)); Abortable(v) && Working(v, s.pc.i, s.pc.i + 1)
  {
    var i := s.pc.i;
    assert SafeCell(s.plan.items[i], PhaseIn(s.disk, i), false, s.cells[i]);
    var c := Moved(s.cells[i], s.plan.grouped, ToLive);
    MovedNow(s.cells[i], s.plan.grouped, ToLive);
    UpdateForward(s.cells, i, c, if s.plan.grouped then i + 1 else 0);
    UpdateCell(s.plan.items, s.disk, s.cells, i, c);
  }

  lemma SettleSafe(s: State)
    requires Safe(s) && s.pc.Settle?
    ensures Safe(SettleStep(s, s.pc.i))
    ensures Abortable(Seen(SettleStep(s, s.pc.i)))
  {
    PhaseAdvance(s.plan.items, s.disk, s.cells, WithPhase(s.mem, s.pc.i, Installed));
  }

  lemma GroupSyncSafe(s: State)
    requires Safe(s) && s.pc.GroupSync?
    ensures Safe(GroupSyncStep(s))
    ensures Abortable(Seen(GroupSyncStep(s)))
  {
    var t := GroupSyncStep(s);
    forall i | 0 <= i < |t.cells|
      ensures SafeCell(s.plan.items[i], PhaseIn(s.disk, i), false, t.cells[i])
      ensures t.cells[i].ops == [] && t.cells[i].durable.installed.None? && t.cells[i].Now().installed.None?
    {
      assert SafeCell(s.plan.items[i], PhaseIn(s.disk, i), false, s.cells[i]);
      assert s.cells[i].Now().installed.None?;
    }
  }

  lemma ValidateSafe(s: State)
    requires Safe(s) && s.pc.ValidateInstalled?
    ensures Safe(ValidateStep(s, s.pc.i))
    ensures Abortable(Seen(ValidateStep(s, s.pc.i)))
  {
    ApplyCarries(s, ValidateStep(s, s.pc.i), 0);
  }

  lemma ValidateBackupsSafe(s: State)
    requires Safe(s) && s.pc.ValidateBackups?
    ensures Safe(ValidateBackupsStep(s))
    ensures Abortable(Seen(ValidateBackupsStep(s)))
  {
    ApplyCarries(s, ValidateBackupsStep(s), 0);
  }

  lemma CommitWriteSafe(s: State)
    requires Safe(s) && s.pc.CommitWrite?
    ensures Safe(CommitWriteStep(s))
  {
    PhaseAdvance(s.plan.items, s.disk, s.cells, s.mem.(committed := true));
  }

  lemma ConfirmSafe(s: State)
    requires Safe(s) && s.pc.Confirm? && Sheltered(s, Go)
    ensures Safe(ConfirmStep(s, s.pc.i))
  {
  }

  /** An item that the rollback passes over is clean. */
  lemma PassedClean(s: State, i: nat)
    requires Safe(s) && s.pc == Undo(i + 1) && i < |s.cells|
    requires s.mem.phases[i] == Prepared || s.plan.items[i].metadataOnly
      || (Now(s, i).previous.None? && (s.plan.items[i].original.Some? || Now(s, i).installed.None?))
    ensures Clean(s.plan.items[i], Now(s, i))
    ensures Safe(s.(pc := Undo(i)))
  {
    assert SafeCell(s.plan.items[i], PhaseIn(s.disk, i), Committed(s.disk), s.cells[i]);
  }

  /** Changing an item under rollback. */
  lemma UndoPut(s: State, i: nat, sl: Slots)
    requires WellFormed(s) && Abortable(Seen(s)) && i < |s.cells| && Undoing(Seen(s), i + 1)
    requires SafeSlots(s.plan.items[i], PhaseIn(s.disk, i), false, sl)
    ensures var v := Seen(Put(s, i, sl));
      && Abortable(v) && Undoing(v, i + 1)
      && (Clean(s.plan.items[i], sl) ==> Undoing(v, i))
      && v.cells[i].Now() == sl
  {
    UpdateCell(s.plan.items, s.disk, s.cells, i, Cell(sl, []));
    if !s.failed { UpdateClean(s.plan.items, s.cells, i, Cell(sl, []), i + 1); }
  }

  lemma UndoSafe(s: State)
    requires Safe(s) && s.pc.Undo?
    ensures Safe(UndoStep(s, s.pc.i))
    ensures Abortable(Seen(UndoStep(s, s.pc.i)))
  {
    if s.pc.i == 0 {
      UndoEnd(s);
    } else if s.mem.phases[s.pc.i - 1] == Prepared {
      UndoPrepared(s, s.pc.i - 1);
    } else if !AtHome(s, s.pc.i - 1) {
      SkipSafe(s, s.pc.i - 1);
    } else {
      UndoAtHomeSafe(s, s.pc.i - 1);
    }
  }

  lemma UndoAtHomeSafe(s: State, j: nat)
    requires Safe(s) && s.pc == Undo(j + 1) && j < |s.cells| && s.mem.phases[j] != Prepared
    ensures Safe(UndoAtHome(s, j)) && Abortable(Seen(UndoAtHome(s, j)))
  {
    if s.plan.items[j].metadataOnly {
      UndoMetadata(s, j);
    } else if Now(s, j).previous.None? && s.plan.items[j].original.Some? {
      UndoPresent(s, j);
    } else {
      UndoQuarantine(s, j);
    }
  }

  lemma UndoEnd(s: State)
    requires Safe(s) && s.pc == Undo(0)
    ensures Safe(UndoStep(s, 0)) && Abortable(Seen(UndoStep(s, 0)))
  {
    UndoCarries(s, UndoStep(s, 0));
  }

  lemma UndoPrepared(s: State, j: nat)
    requires Safe(s) && s.pc == Undo(j + 1) && j < |s.cells| && s.mem.phases[j] == Prepared
    ensures Safe(UndoStep(s, j + 1)) && Abortable(Seen(UndoStep(s, j + 1)))
  {
    PassedClean(s, j);
  }

  lemma UndoMetadata(s: State, j: nat)
    requires Safe(s) && s.pc == Undo(j + 1) && j < |s.cells|
    requires s.mem.phases[j] != Prepared && s.plan.items[j].metadataOnly
    ensures Safe(UndoAtHome(s, j)) && Abortable(Seen(UndoAtHome(s, j)))
  {
    var it, sl := s.plan.items[j], Now(s, j);
    assert SafeCell(it, PhaseIn(s.disk, j), false, s.cells[j]);
    if sl.live == it.original {
      PassedClean(s, j);
    } else if sl.live == it.expected {
      UndoPut(s, j, sl.(live := it.original));
    } else {
      SkipSafe(s, j);
    }
  }

  lemma UndoPresent(s: State, j: nat)
    requires Safe(s) && s.pc == Undo(j + 1) && j < |s.cells|
    requires s.mem.phases[j] != Prepared && !s.plan.items[j].metadataOnly
    requires Now(s, j).previous.None? && s.plan.items[j].original.Some?
    ensures Safe(UndoAtHome(s, j)) && Abortable(Seen(UndoAtHome(s, j)))
  {
    PassedClean(s, j);
    SkipSafe(s, j);
    assert UndoAtHome(s, j) == s.(pc := Undo(j)) || UndoAtHome(s, j) == SkipItem(s, j);
  }

  lemma UndoQuarantine(s: State, j: nat)
    requires Safe(s) && s.pc == Undo(j + 1) && j < |s.cells|
    requires s.mem.phases[j] != Prepared && !s.plan.items[j].metadataOnly
    requires Now(s, j).previous.Some? || s.plan.items[j].original.None?
    ensures Safe(UndoAtHome(s, j)) && Abortable(Seen(UndoAtHome(s, j)))
  {
    var it, sl := s.plan.items[j], Now(s, j);
    assert SafeCell(it, PhaseIn(s.disk, j), false, s.cells[j]);
    assert s.mem.phases[j] == Grouped ==> it.original.Some?;
    if sl.installed.Some? {
      assert UndoAtHome(s, j) == s.(pc := UndoCheck(j));
    } else if sl.live.Some? {
      UndoQuarantineLive(s, j);
    } else if sl.previous.Some? {
      assert UndoAtHome(s, j) == s.(pc := UndoRestore(j));
    } else {
      PassedClean(s, j);
    }
  }

  lemma UndoQuarantineLive(s: State, j: nat)
    requires Safe(s) && s.pc == Undo(j + 1) && j < |s.cells|
    requires s.mem.phases[j] != Prepared && !s.plan.items[j].metadataOnly
    requires Now(s, j).previous.Some? || s.plan.items[j].original.None?
    requires Now(s, j).installed.None? && Now(s, j).live.Some?
    ensures Safe(UndoAtHome(s, j)) && Abortable(Seen(UndoAtHome(s, j)))
  {
    var it, sl := s.plan.items[j], Now(s, j);
    assert SafeCell(it, PhaseIn(s.disk, j), false, s.cells[j]);
    assert s.mem.phases[j] == Grouped ==> it.original.Some?;
    UndoPut(s, j, sl.(installed := sl.live, live := None));
    assert UndoAtHome(s, j) == Put(s, j, sl.(installed := sl.live, live := None)).(pc := UndoCheck(j));
  }

  lemma UndoCheckSafe(s: State)
    requires Safe(s) && s.pc.UndoCheck?
    ensures Safe(UndoCheckStep(s, s.pc.i))
    ensures Abortable(Seen(UndoCheckStep(s, s.pc.i)))
  {
  }

  lemma UndoReturnSafe(s: State)
    requires Safe(s) && s.pc.UndoReturn?
    ensures Safe(UndoReturnStep(s, s.pc.i))
    ensures Abortable(Seen(UndoReturnStep(s, s.pc.i)))
  {
    var i, sl := s.pc.i, Now(s, s.pc.i);
    assert SafeCell(s.plan.items[i], PhaseIn(s.disk, i), false, s.cells[i]);
    UndoPut(s, i, sl.(live := sl.installed, installed := None));
    SkipSafe(s, i);
    SkipSafe(Put(s, i, sl.(live := sl.installed, installed := None)), i);
  }

  lemma UndoRestoreSafe(s: State)
    requires Safe(s) && s.pc.UndoRestore?
    ensures Safe(UndoRestoreStep(s, s.pc.i))
    ensures Abortable(Seen(UndoRestoreStep(s, s.pc.i)))
  {
    var i, sl := s.pc.i, Now(s, s.pc.i);
    assert SafeCell(s.plan.items[i], PhaseIn(s.disk, i), false, s.cells[i]);
    UndoPut(s, i, sl.(live := sl.previous, previous := None));
    SkipSafe(s, i);
  }

  lemma UndoDropSafe(s: State)
    requires Safe(s) && s.pc.UndoDrop?
    ensures Safe(UndoDropStep(s, s.pc.i))
    ensures Abortable(Seen(UndoDropStep(s, s.pc.i)))
  {
    var i, sl := s.pc.i, Now(s, s.pc.i);
    assert SafeCell(s.plan.items[i], PhaseIn(s.disk, i), false, s.cells[i]);
    UndoPut(s, i, sl.(installed := None));
  }

  lemma UndoParentsSafe(s: State)
    requires Safe(s) && s.pc.UndoParents?
    ensures Safe(UndoParentsStep(s, s.pc.k))
    ensures Abortable(Seen(UndoParentsStep(s, s.pc.k)))
  {
    UndoCarries(s, UndoParentsStep(s, s.pc.k));
  }

  /** Removing the transaction deletes only allowed content. */
  lemma {:induction false} DeletionsAllowed(items: seq<Item>, cells: seq<Cell>, committed: bool)
    requires |cells| <= |items|
    requires forall i :: 0 <= i < |cells| ==> SlotsDeletable(items[i], cells[i].Now(), committed)
    ensures AllAllowed(items, AllDeletions(cells, committed))
  {
    if cells != [] { DeletionsAllowed(items, cells[..|cells|-1], committed); }
  }

  predicate SlotsDeletable(it: Item, sl: Slots, committed: bool) {
    && (sl.value.Some? ==> sl.value == it.expected)
    && (sl.previous.Some? ==> committed && sl.previous == it.original)
    && (sl.installed.Some? ==> sl.installed == it.expected)
  }

  lemma DiscardDeletable(s: State)
    requires Safe(s) && s.pc.Discard?
    ensures AllAllowed(s.plan.items, AllDeletions(s.cells, s.pc.committed))
  {
    forall i | 0 <= i < |s.cells| ensures SlotsDeletable(s.plan.items[i], s.cells[i].Now(), s.pc.committed) {
      assert SafeCell(s.plan.items[i], PhaseIn(s.disk, i), Committed(s.disk), s.cells[i]);
      assert !s.pc.committed ==> Clean(s.plan.items[i], s.cells[i].Now());
    }
    DeletionsAllowed(s.plan.items, s.cells, s.pc.committed);
  }

  lemma EmptiedSafe(items: seq<Item>, cells: seq<Cell>)
    requires |cells| == |items|
    requires forall i :: 0 <= i < |cells| ==>
      cells[i].ops == [] && cells[i].durable == Slots(cells[i].durable.live, None, None, None)
    ensures SafeCells(items, None, cells)
  {
  }

  lemma DiscardSafe(s: State)
    requires Safe(s) && s.pc.Discard?
    ensures Safe(DiscardStep(s, s.pc.committed))
  {
    DiscardDeletable(s);
    EmptiedSafe(s.plan.items, DiscardStep(s, s.pc.committed).cells);
  }

  // ---- Every event keeps the state safe ----

  lemma PrepareActSafe(s: State)
    requires Safe(s) && Preparing(s.pc)
    ensures Safe(PrepareAct(s))
    ensures Abortable(Seen(PrepareAct(s)))
  {
    if s.pc.Publish? || s.pc.Stage? || s.pc.GroupIntend? || s.pc.Check? { BeginSafe(s); } else { ApproachSafe(s); }
  }

  lemma BeginSafe(s: State)
    requires Safe(s) && (s.pc.Publish? || s.pc.Stage? || s.pc.GroupIntend? || s.pc.Check?)
    ensures Safe(PrepareAct(s)) && Abortable(Seen(PrepareAct(s)))
  {
    if s.pc.Publish? {
      PublishSafe(s);
    } else if s.pc.Stage? {
      StageSafe(s);
    } else if s.pc.GroupIntend? {
      GroupIntendSafe(s);
    } else {
      CheckSafe(s);
    }
  }

  lemma ApproachSafe(s: State)
    requires Safe(s) && (s.pc.Parents? || s.pc.ParentJournal? || s.pc.ParentRename? || s.pc.Intend?)
    ensures Safe(PrepareAct(s)) && Abortable(Seen(PrepareAct(s)))
  {
    if s.pc.Parents? {
      ParentsSafe(s);
    } else if s.pc.ParentJournal? {
      ParentJournalSafe(s);
    } else if s.pc.ParentRename? {
      ParentRenameSafe(s);
    } else {
      IntendSafe(s);
    }
  }

  lemma InstallItemSafe(s: State)
    requires Safe(s) && (s.pc.Backup? || s.pc.BackupSync? || s.pc.Install? || s.pc.Settle?)
    ensures Safe(InstallAct(s)) && Abortable(Seen(InstallAct(s)))
  {
    if s.pc.Backup? {
      BackupSafe(s);
    } else if s.pc.BackupSync? {
      BackupSyncSafe(s);
    } else if s.pc.Install? {
      InstallSafe(s);
    } else {
      SettleSafe(s);
    }
  }

  lemma ValidationSafe(s: State)
    requires Safe(s) && (s.pc.GroupSync? || s.pc.ValidateBackups? || s.pc.ValidateInstalled?)
    ensures Safe(InstallAct(s)) && Abortable(Seen(InstallAct(s)))
  {
    if s.pc.GroupSync? {
      GroupSyncSafe(s);
    } else if s.pc.ValidateBackups? {
      ValidateBackupsSafe(s);
    } else {
      ValidateSafe(s);
    }
  }

  lemma InstallActSafe(s: State)
    requires Safe(s) && Sheltered(s, Go) && !Backward(s.pc) && !Preparing(s.pc)
    ensures Safe(InstallAct(s))
    ensures Running(s.pc) && !s.pc.CommitWrite? && !s.pc.Confirm? ==> Abortable(Seen(InstallAct(s)))
  {
    if s.pc.CommitWrite? {
      CommitWriteSafe(s);
    } else if s.pc.Confirm? {
      ConfirmSafe(s);
    } else if s.pc.Backup? || s.pc.BackupSync? || s.pc.Install? || s.pc.Settle? {
      InstallItemSafe(s);
    } else if Running(s.pc) {
      ValidationSafe(s);
    }
  }

  lemma UndoItemSafe(s: State)
    requires Safe(s) && (s.pc.UndoCheck? || s.pc.UndoReturn? || s.pc.UndoRestore? || s.pc.UndoDrop?)
    ensures Safe(UndoAct(s)) && Abortable(Seen(UndoAct(s)))
  {
    if s.pc.UndoCheck? {
      UndoCheckSafe(s);
    } else if s.pc.UndoReturn? {
      UndoReturnSafe(s);
    } else {
      UndoRestSafe(s);
    }
  }

  lemma UndoRestSafe(s: State)
    requires Safe(s) && (s.pc.UndoRestore? || s.pc.UndoDrop?)
    ensures Safe(UndoAct(s)) && Abortable(Seen(UndoAct(s)))
  {
    if s.pc.UndoRestore? { UndoRestoreSafe(s); } else { UndoDropSafe(s); }
  }

  lemma UndoActSafe(s: State)
    requires Safe(s) && Backward(s.pc)
    ensures Safe(UndoAct(s))
    ensures !s.pc.Discard? ==> Abortable(Seen(UndoAct(s)))
  {
    if s.pc.Undo? {
      UndoSafe(s);
    } else if s.pc.UndoParents? {
      UndoParentsSafe(s);
    } else if s.pc.Discard? {
      DiscardSafe(s);
    } else {
      UndoItemSafe(s);
    }
  }

  lemma ActSafe(s: State)
    requires Safe(s) && Sheltered(s, Go)
    ensures Safe(Act(s))
  {
    if Backward(s.pc) { UndoActSafe(s); } else if Preparing(s.pc) { PrepareActSafe(s); } else { InstallActSafe(s); }
  }

  lemma ReactApplySafe(s: State, t: State)
    requires Safe(s) && !Backward(s.pc) && Running(s.pc) && Follows(s, t) && AllAllowed(t.plan.items, t.deleted)
    requires Abortable(Seen(t))
    requires s.pc.Publish? || s.pc.Stage? ==> CleanFrom(t.plan.items, t.cells, 0)
    ensures Safe(React(s, t))
  {
    if s.pc.Publish? || s.pc.Stage? { UndoCarries(t, t.(pc := Discard(false))); } else { AbortSafe(t); }
  }

  lemma ReactUndoSafe(s: State, t: State)
    requires Backward(s.pc) && !s.pc.Discard? && WellFormed(s) && Follows(s, t)
    requires AllAllowed(t.plan.items, t.deleted) && Abortable(Seen(t))
    requires s.pc.UndoParents? ==> t.mem == s.mem && CleanFrom(t.plan.items, t.cells, 0)
    ensures Safe(UndoReact(s, t))
  {
    if s.pc.UndoParents? {
      UndoCarries(t, if s.pc.k == 0 then t.(pc := Idle) else t.(pc := UndoParents(s.pc.k - 1), failed := true));
    } else if s.pc == Undo(0) {
      UndoCarries(t, t.(pc := Idle));
    } else {
      SkipSafe(t, SkipTo(s.pc));
    }
  }

  // ---- Errors ----

  lemma FailUndoSafe(s: State)
    requires Safe(s) && Backward(s.pc)
    ensures Safe(UndoReact(s, s))
  {
    if !s.pc.Discard? { ReactUndoSafe(s, s); }
  }

  lemma UnwrittenAbortable(s: State)
    requires Safe(s) && Sheltered(s, Fail) && Running(s.pc) && !Backward(s.pc)
    ensures Abortable(Seen(Unwritten(s)))
    ensures s.pc.Publish? || s.pc.Stage? ==> CleanFrom(s.plan.items, s.cells, 0)
  {
    if s.pc.GroupIntend? || s.pc.Intend? {
      UnwrittenIntent(s);
    } else if s.pc.Settle? || s.pc.CommitWrite? {
      UnwrittenProgress(s);
    } else {
      assert Unwritten(s) == s;
    }
  }

  lemma UnwrittenIntent(s: State)
    requires Safe(s) && Sheltered(s, Fail) && (s.pc.GroupIntend? || s.pc.Intend?)
    ensures Abortable(Seen(Unwritten(s)))
  {
  }

  lemma UnwrittenProgress(s: State)
    requires Safe(s) && Sheltered(s, Fail) && (s.pc.Settle? || s.pc.CommitWrite?)
    ensures Abortable(Seen(Unwritten(s)))
  {
  }

  lemma FailSafe(s: State)
    requires Safe(s) && Sheltered(s, Fail)
    ensures Safe(React(s, Unwritten(s)))
  {
    if Backward(s.pc) {
      FailUndoSafe(s);
      assert React(s, Unwritten(s)) == UndoReact(s, s);
    } else if Running(s.pc) {
      FailApplySafe(s);
    } else {
      assert React(s, Unwritten(s)) == s;
    }
  }

  lemma FailApplySafe(s: State)
    requires Safe(s) && Sheltered(s, Fail) && Running(s.pc) && !Backward(s.pc)
    ensures Safe(React(s, Unwritten(s)))
  {
    UnwrittenAbortable(s);
    ReactApplySafe(s, Unwritten(s));
  }

  lemma LateUndoSafe(s: State)
    requires Safe(s) && Backward(s.pc)
    ensures Safe(UndoReact(s, UndoAct(s)))
  {
    UndoActSafe(s);
    if !s.pc.Discard? { ReactUndoSafe(s, UndoAct(s)); }
  }

  lemma LateSafe(s: State)
    requires Safe(s) && Sheltered(s, Late)
    ensures Safe(React(s, Act(s)))
  {
    if Backward(s.pc) {
      LateUndoSafe(s);
    } else if Preparing(s.pc) {
      LatePrepareSafe(s);
    } else if Running(s.pc) {
      InstallActSafe(s);
      ReactApplySafe(s, Act(s));
    }
  }

  lemma LatePrepareSafe(s: State)
    requires Safe(s) && Sheltered(s, Late) && Preparing(s.pc)
    ensures Safe(React(s, PrepareAct(s)))
  {
    PrepareActSafe(s);
    if s.pc.Publish? || s.pc.Stage? { LateStage(s); }
    ReactApplySafe(s, PrepareAct(s));
  }

  lemma LateStage(s: State)
    requires Safe(s) && (s.pc.Publish? || s.pc.Stage?)
    ensures CleanFrom(s.plan.items, PrepareAct(s).cells, 0)
  {
  }

  // ---- Failures, recovery, commit and outside edits ----

  lemma CrashSafe(s: State, kept: seq<set<nat>>)
    requires Safe(s)
    ensures Safe(CrashStep(s, kept))
  {
    var t := Lose(s, kept);
    forall i | 0 <= i < |s.cells|
      ensures SafeCell(s.plan.items[i], PhaseIn(s.disk, i), Committed(s.disk), t.cells[i])
    {
      SurvivorSlots(s.cells[i], if i < |kept| then kept[i] else {});
      assert SafeCell(s.plan.items[i], PhaseIn(s.disk, i), Committed(s.disk), s.cells[i]);
    }
  }

  lemma RecoverSafe(s: State)
    requires Safe(s)
    ensures Safe(RecoverStep(s))
  {
    if s.pc.Idle? && !Committed(s.disk) {
      if s.disk.None? {
        forall i | 0 <= i < |s.cells| ensures Clean(s.plan.items[i], s.cells[i].Now()) {
          assert SafeCell(s.plan.items[i], Prepared, false, s.cells[i]);
        }
      } else {
        AbortSafe(s.(mem := s.disk.value));
      }
    }
  }

  lemma CommitSafe(s: State)
    requires Safe(s)
    ensures Safe(CommitStep(s))
  {
    if CommitStep(s) != s {
      forall i | 0 <= i < |s.cells|
        ensures s.cells[i].Now().previous.None? || s.cells[i].Now().previous == s.plan.items[i].original
      {
        assert SafeCell(s.plan.items[i], PhaseIn(s.disk, i), true, s.cells[i]);
      }
    }
  }

  lemma OutsideSafe(s: State, i: nat, live: Option<Digest>)
    requires Safe(s)
    ensures Safe(OutsideStep(s, i, live))
  {
    if i < |s.cells| {
      var c := OutsideCell(s.cells[i], live);
      OutsideCellNow(s.cells[i], live);
      assert SafeCell(s.plan.items[i], PhaseIn(s.disk, i), Committed(s.disk), s.cells[i]);
      UpdateCell(s.plan.items, s.disk, s.cells, i, c);
      if Backward(s.pc) { OutsideUndo(s, i, live); } else { OutsideApply(s, i, live); }
    }
  }

  lemma OutsideApply(s: State, i: nat, live: Option<Digest>)
    requires Safe(s) && !Backward(s.pc) && i < |s.cells|
    ensures ApplyFacts(s.pc, Seen(OutsideStep(s, i, live)))
  {
    OutsideFrames(s.plan.items, s.cells, i, live);
  }

  lemma OutsideUndo(s: State, i: nat, live: Option<Digest>)
    requires Safe(s) && Backward(s.pc) && i < |s.cells|
    ensures UndoFacts(s.pc, Seen(OutsideStep(s, i, live)))
  {
    OutsideFrames(s.plan.items, s.cells, i, live);
    OutsideCellNow(s.cells[i], live);
  }

  /** An outside edit changes neither private slots nor what is pending elsewhere. */
  lemma OutsideFrames(items: seq<Item>, cells: seq<Cell>, i: nat, live: Option<Digest>)
    requires i < |cells| == |items|
    ensures var cells' := cells[i := OutsideCell(cells[i], live)];
      && (NoQuarantine(cells) ==> NoQuarantine(cells'))
      && (forall from :: Synced(cells, from) ==> Synced(cells', from))
      && (forall from :: CleanFrom(items, cells, from) ==> CleanFrom(items, cells', from))
      && (BackupsHeld(items, cells) ==> BackupsHeld(items, cells'))
  {
    OutsideCellNow(cells[i], live);
  }

  lemma StepSafe(s: State, e: Event)
    requires Safe(s) && Sheltered(s, e)
    ensures Safe(Step(s, e))
  {
    match e
    case Go => ActSafe(s);
    case Fail => FailSafe(s);
    case Late => LateSafe(s);
    case Crash(kept) => CrashSafe(s, kept);
    case Recover => RecoverSafe(s);
    case Commit => CommitSafe(s);
    case Outside(i, live) => OutsideSafe(s, i, live);
    case OutsideDir(_, _) => OutsideDirSafe(s, e);
  }

  // ---- The theorem ----

  /** A fresh transaction is safe. */
  lemma StartSafe(plan: Plan, dirs: seq<Dir>)
    requires ValidStart(plan, dirs)
    ensures Safe(Start(plan, dirs))
  {
    forall i | 0 <= i < |plan.items| ensures ValidItem(plan, dirs, plan.items[i]) {}
  }

  lemma {:induction false} RunSafe(s: State, events: seq<Event>)
    requires Safe(s) && ShelteredRun(s, events)
    ensures Safe(Run(s, events))
    decreases |events|
  {
    if events != [] {
      StepSafe(s, events[0]);
      RunSafe(Step(s, events[0]), events[1..]);
    }
  }

  /** For every interleaving of outside edits, failures, recoveries and commits with the steps of
      the protocol, every deleted content was installed by it or, after a validated commit, is the
      original's backup; and when a rollback discards the transaction no backup is left in it. */
  lemma NoContentLost(plan: Plan, dirs: seq<Dir>, events: seq<Event>)
    requires ValidStart(plan, dirs)
    requires WellFormed(Start(plan, dirs)) && ShelteredRun(Start(plan, dirs), events)
    ensures var s := Run(Start(plan, dirs), events);
      && AllAllowed(plan.items, s.deleted)
      && (s.pc == Discard(false) ==> forall i :: 0 <= i < |s.cells| ==> Now(s, i).previous.None?)
  {
    StartSafe(plan, dirs);
    RunSafe(Start(plan, dirs), events);
    SafeKeeps(Run(Start(plan, dirs), events));
  }

  lemma SafeKeeps(s: State)
    requires Safe(s)
    ensures AllAllowed(s.plan.items, s.deleted)
    ensures s.pc == Discard(false) ==> forall i :: 0 <= i < |s.cells| ==> Now(s, i).previous.None?
  {
    if s.pc == Discard(false) {
      forall i | 0 <= i < |s.cells| ensures Now(s, i).previous.None? {
        assert Clean(s.plan.items[i], s.cells[i].Now());
      }
    }
  }

  lemma OutsideDirSafe(s: State, e: Event)
    requires Safe(s) && e.OutsideDir?
    ensures Safe(Step(s, e))
  {
    assert Seen(Step(s, e)) == Seen(s);
  }
}

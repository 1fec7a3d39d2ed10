/** Journaled application of merged changes to a workspace, as a step machine.
    Each `Go` is one filesystem operation of the process that applies, rolls back or commits;
    errors, process or power failures and outside edits may fall between any two of them. */
module ApplyProtocol {
  import opened Rows

  /** Content is known by its baseline digest; for a metadata item the digest stands for the
      directory's identity and mode together. */
  type Digest = string

  /** One change root.  `parents` are its ancestor directories, outermost first. */
  datatype Item = Item(original: Option<Digest>, expected: Option<Digest>, metadataOnly: bool, parents: seq<nat>)

  /** `above[d]` are the ancestors of directory `d`, outermost first. */
  datatype Plan = Plan(items: seq<Item>, above: seq<seq<nat>>, grouped: bool)

  datatype Phase = Prepared | Installing | Grouped | Installed

  /** `homes[i]` is the identity of item i's parent directory, recorded when its installation begins. */
  datatype Journal = Journal(committed: bool, phases: seq<Phase>, created: seq<nat>, homes: seq<Dir>)

  /** An ancestor directory: missing, made by this transaction as its c-th parent, or someone else's. */
  datatype Dir = Absent | Made(c: nat) | Foreign(id: nat)

  function DirAt(dirs: seq<Dir>, d: nat): Dir { if d < |dirs| then dirs[d] else Absent }

  function SetDir(dirs: seq<Dir>, d: nat, dir: Dir): seq<Dir> { if d < |dirs| then dirs[d := dir] else dirs }

  /** The directory an item lies in; the workspace itself is always there. */
  function HomeOf(it: Item, dirs: seq<Dir>): Dir {
    if it.parents == [] then Foreign(0) else DirAt(dirs, it.parents[|it.parents| - 1])
  }

  /** The live path of an item and its three private slots in the transaction directory. */
  datatype Slots = Slots(live: Option<Digest>, value: Option<Digest>, previous: Option<Digest>,
      installed: Option<Digest>)

  /** The renames that the grouped installer leaves unsynchronized for a while, and edits made over them. */
  datatype LiveOp = ToBackup | ToLive | EditLive(live: Option<Digest>)

  /** What storage is sure to hold, and the changes it may still lose. */
  datatype Cell = Cell(durable: Slots, ops: seq<LiveOp>) {
    function Now(): Slots { Replay(durable, ops) }

    /** After the pending rename alone, without the edits made over it. */
    function Renamed(): Slots { if ops == [] then durable else Perform(durable, ops[0]) }
  }

  function Perform(s: Slots, r: LiveOp): Slots {
    match r
    case ToBackup => s.(previous := s.live, live := None)
    case ToLive => s.(live := s.value, value := None)
    case EditLive(live) => s.(live := live)
  }

  function Replay(s: Slots, ops: seq<LiveOp>): Slots
    decreases ops
  {
    if ops == [] then s else Replay(Perform(s, ops[0]), ops[1..])
  }

  /** The changes whose positions survive, in order. */
  function Kept(ops: seq<LiveOp>, keep: set<nat>, from: nat): seq<LiveOp> {
    if ops == [] then [] else (if from in keep then [ops[0]] else []) + Kept(ops[1..], keep, from + 1)
  }

  function Survivor(c: Cell, keep: set<nat>): Slots { Replay(c.durable, Kept(c.ops, keep, 0)) }

  /** With at most one pending rename, a failure leaves the state before or after it. */
  lemma SurvivorIsOneOf(c: Cell, keep: set<nat>)
    requires |c.ops| <= 1
    ensures Survivor(c, keep) == c.durable || Survivor(c, keep) == c.Now()
  {
    if |c.ops| == 1 {
      assert c.ops[1..] == [] && c.ops == [c.ops[0]];
      assert Kept(c.ops[1..], keep, 1) == [];
      assert Kept(c.ops, keep, 0) == if 0 in keep then [c.ops[0]] else [];
    }
  }

  /** Only edits come after the first pending change. */
  predicate OnlyEdits(ops: seq<LiveOp>, from: nat) { forall k :: from <= k < |ops| ==> ops[k].EditLive? }

  /** Edits touch the live path alone. */
  lemma {:induction false} EditsKeepSlots(s: Slots, ops: seq<LiveOp>)
    requires OnlyEdits(ops, 0)
    ensures Replay(s, ops) == s.(live := Replay(s, ops).live)
    decreases |ops|
  {
    if ops != [] { EditsKeepSlots(Perform(s, ops[0]), ops[1..]); }
  }

  lemma {:induction false} KeptEdits(ops: seq<LiveOp>, keep: set<nat>, from: nat)
    requires OnlyEdits(ops, 0)
    ensures OnlyEdits(Kept(ops, keep, from), 0)
    decreases |ops|
  {
    if ops != [] { KeptEdits(ops[1..], keep, from + 1); }
  }

  /** Whichever changes survive, the private slots are those before or after the pending rename. */
  lemma SurvivorSlots(c: Cell, keep: set<nat>)
    requires OnlyEdits(c.ops, 1)
    ensures var left := Survivor(c, keep);
      left == c.durable.(live := left.live) || left == c.Renamed().(live := left.live)
  {
    if c.ops != [] {
      var rest := Kept(c.ops[1..], keep, 1);
      KeptEdits(c.ops[1..], keep, 1);
      if 0 in keep {
        assert ([c.ops[0]] + rest)[1..] == rest;
        EditsKeepSlots(c.Renamed(), rest);
      } else {
        assert [] + rest == rest;
        EditsKeepSlots(c.durable, rest);
      }
    }
  }

  lemma {:induction false} ReplaySnoc(s: Slots, ops: seq<LiveOp>, r: LiveOp)
    ensures Replay(s, ops + [r]) == Perform(Replay(s, ops), r)
    decreases |ops|
  {
    if ops == [] {
      assert ops + [r] == [r] && [r][1..] == [];
      assert Replay(s, [r]) == Replay(Perform(s, r), []);
    } else {
      assert (ops + [r])[1..] == ops[1..] + [r];
      ReplaySnoc(Perform(s, ops[0]), ops[1..], r);
    }
  }

  datatype Deletion = Deletion(item: nat, content: Digest, committed: bool)

  datatype Pc =
    | Publish
    | Stage(i: nat)
    | GroupIntend
    | Check(i: nat)
    | Parents(i: nat, k: nat)
    | ParentJournal(i: nat, k: nat)
    | ParentRename(i: nat, k: nat)
    | Intend(i: nat)
    | Backup(i: nat)
    | BackupSync(i: nat)
    | Install(i: nat)
    | Settle(i: nat)
    | GroupSync
    | ValidateBackups
    | ValidateInstalled(i: nat)
    | CommitWrite
    | Confirm(i: nat)
    | Undo(i: nat)
    | UndoCheck(i: nat)
    | UndoReturn(i: nat)
    | UndoRestore(i: nat)
    | UndoDrop(i: nat)
    | UndoParents(k: nat)
    | Discard(committed: bool)
    | Idle
    | Done(committed: bool)

  datatype State = State(
    plan: Plan,
    cells: seq<Cell>,
    dirs: seq<Dir>,
    staged: set<nat>,        // parents made in the transaction directory, not yet installed
    disk: Option<Journal>,   // the published journal
    mem: Journal,            // the running process's journal
    pc: Pc,
    failed: bool,            // the running rollback has met an error
    deleted: seq<Deletion>)  // every content the protocol has deleted

  datatype Event =
    | Go                                        // the operation succeeds
    | Fail                                      // the operation has no effect and reports an error
    | Late                                      // the operation takes effect and then reports an error
    | Crash(kept: seq<set<nat>>)                // the process stops; of each item only the kept changes survive
    | Recover
    | Commit
    | Outside(item: nat, live: Option<Digest>)  // someone else edits a live path
    | OutsideDir(dir: nat, found: Option<nat>)  // someone else removes, makes or replaces a directory

  // ---- Accessors and updates ----

  function ItemAt(s: State, i: nat): Item {
    if i < |s.plan.items| then s.plan.items[i] else Item(None, None, false, [])
  }

  function CellAt(s: State, i: nat): Cell {
    if i < |s.cells| then s.cells[i] else Cell(Slots(None, None, None, None), [])
  }

  function Now(s: State, i: nat): Slots { CellAt(s, i).Now() }

  function PhaseAt(j: Journal, i: nat): Phase { if i < |j.phases| then j.phases[i] else Prepared }

  function CreatedAt(j: Journal, c: nat): nat { if c < |j.created| then j.created[c] else 0 }

  function HomeAt(j: Journal, i: nat): Dir { if i < |j.homes| then j.homes[i] else Absent }

  function SetCell(s: State, i: nat, c: Cell): State { if i < |s.cells| then s.(cells := s.cells[i := c]) else s }

  function Put(s: State, i: nat, slots: Slots): State { SetCell(s, i, Cell(slots, [])) }

  /** A rename: the grouped installer leaves it to a later barrier, all others synchronize at once. */
  function Moved(c: Cell, grouped: bool, r: LiveOp): Cell {
    if grouped then Cell(c.durable, c.ops + [r]) else Cell(Perform(c.Now(), r), [])
  }

  function Move(s: State, i: nat, r: LiveOp): State { SetCell(s, i, Moved(CellAt(s, i), s.plan.grouped, r)) }

  lemma MovedNow(c: Cell, grouped: bool, r: LiveOp)
    requires c.ops == []
    ensures var m := Moved(c, grouped, r);
      && m.Now() == m.Renamed() == Perform(c.durable, r) && m.durable == (if grouped then c.durable else m.Now())
      && |m.ops| <= 1 && (!grouped ==> m.ops == [])
  {
    if grouped {
      assert c.ops + [r] == [r] && [r][1..] == [];
      assert Replay(c.durable, [r]) == Replay(Perform(c.durable, r), []);
    }
  }

  function Sync(s: State, i: nat): State { Put(s, i, Now(s, i)) }

  function SyncAll(s: State): State {
    s.(cells := seq(|s.cells|, i requires 0 <= i < |s.cells| => Cell(s.cells[i].Now(), [])))
  }

  function Lose(s: State, kept: seq<set<nat>>): State {
    s.(cells := seq(|s.cells|, i requires 0 <= i < |s.cells| =>
      Cell(Survivor(s.cells[i], if i < |kept| then kept[i] else {}), [])))
  }

  /** An item's phase in the published journal; before publication nothing has begun. */
  function PhaseIn(disk: Option<Journal>, i: nat): Phase {
    if disk.Some? && i < |disk.value.phases| then disk.value.phases[i] else Prepared
  }

  predicate Committed(disk: Option<Journal>) { disk.Some? && disk.value.committed }

  function WithPhase(j: Journal, i: nat, p: Phase): Journal {
    if i < |j.phases| then j.(phases := j.phases[i := p]) else j
  }

  function AllPhases(j: Journal, p: Phase): Journal {
    j.(phases := seq(|j.phases|, _ => p))
  }

  /** The intent to install an item, with the directory it lies in. */
  function WithIntent(j: Journal, i: nat, home: Dir): Journal {
    if i < |j.phases| && i < |j.homes| then j.(phases := j.phases[i := Installing], homes := j.homes[i := home]) else j
  }

  /** `writeApplyJournalAtRoot`: the journal in memory becomes the journal on disk. */
  function Write(s: State, j: Journal): State { s.(mem := j, disk := Some(j)) }

  function Abort(s: State): State { s.(pc := Undo(|s.plan.items|), failed := false) }

  /** Record an error for this item and go on with the one before it. */
  function SkipItem(s: State, i: nat): State { s.(pc := Undo(i), failed := true) }

  predicate JournalFits(j: Option<Journal>, items: nat) {
    j.Some? ==> |j.value.phases| == |j.value.homes| == items
  }

  predicate WellFormed(s: State) {
    && |s.cells| == |s.plan.items| && |s.dirs| == |s.plan.above|
    && JournalFits(Some(s.mem), |s.plan.items|)
    && JournalFits(s.disk, |s.plan.items|)
    && PcInRange(s)
  }

  predicate PcInRange(s: State) {
    var n := |s.plan.items|;
    match s.pc
    case Stage(i) => i <= n
    case Check(i) => i <= n
    case Parents(i, k) => i < n && k <= |s.plan.items[i].parents|
    case ParentJournal(i, k) => i < n && k < |s.plan.items[i].parents| && |s.mem.created| > 0
    case ParentRename(i, k) => i < n && k < |s.plan.items[i].parents| && |s.mem.created| > 0
    case Intend(i) => i < n
    case Backup(i) => i < n
    case BackupSync(i) => i < n
    case Install(i) => i < n
    case Settle(i) => i < n
    case ValidateInstalled(i) => i <= n
    case Confirm(i) => i <= n
    case Undo(i) => i <= n
    case UndoCheck(i) => i < n
    case UndoReturn(i) => i < n
    case UndoRestore(i) => i < n
    case UndoDrop(i) => i < n
    case UndoParents(k) => k <= |s.mem.created|
    case _ => true
  }

  predicate Follows(s: State, t: State) { WellFormed(t) && t.plan == s.plan }

  // ---- The applying process ----

  function PublishStep(s: State): (t: State)
    ensures WellFormed(s) ==> Follows(s, t)
  { Write(s, s.mem).(pc := Stage(0)) }

  function StageStep(s: State, i: nat): (t: State)
    ensures WellFormed(s) && i <= |s.plan.items| ==> Follows(s, t)
  {
    if i == |s.plan.items| then s.(pc := if s.plan.grouped then GroupIntend else Check(0))
    else
      var it := ItemAt(s, i);
      Put(s, i, Now(s, i).(value := if it.metadataOnly then None else it.expected)).(pc := Stage(i + 1))
  }

  /** One write binds every item of the group before any of them is touched. */
  function GroupIntendStep(s: State): (t: State)
    ensures WellFormed(s) ==> Follows(s, t)
  { Write(s, AllPhases(s.mem, Grouped)).(pc := Check(0)) }

  /** The live path must still hold what the merge started from. */
  function CheckStep(s: State, i: nat): (t: State)
    ensures WellFormed(s) && i <= |s.plan.items| ==> Follows(s, t)
  {
    if i == |s.plan.items| then s.(pc := if s.plan.grouped then GroupSync else ValidateBackups)
    else if Now(s, i).live != ItemAt(s, i).original then Abort(s)
    else s.(pc := if s.plan.grouped then Backup(i) else Parents(i, 0))
  }

  function ParentsStep(s: State, i: nat, k: nat): (t: State)
    ensures WellFormed(s) && i < |s.plan.items| && k <= |ItemAt(s, i).parents| ==> Follows(s, t)
  {
    var parents := ItemAt(s, i).parents;
    if k >= |parents| then s.(pc := Intend(i))
    else if DirAt(s.dirs, parents[k]) != Absent then s.(pc := Parents(i, k + 1))
    else s.(mem := s.mem.(created := s.mem.created + [parents[k]]),
            staged := s.staged + {|s.mem.created|}, pc := ParentJournal(i, k))
  }

  function ParentJournalStep(s: State, i: nat, k: nat): (t: State)
    ensures WellFormed(s) && i < |s.plan.items| && k < |ItemAt(s, i).parents| && |s.mem.created| > 0 ==> Follows(s, t)
  {
    var last := |s.mem.created| - 1;
    if last < 0 || s.mem.created[last] in s.mem.created[..last] then Abort(s)
    else Write(s, s.mem).(pc := ParentRename(i, k))
  }

  function ParentRenameStep(s: State, i: nat, k: nat): (t: State)
    ensures WellFormed(s) && i < |s.plan.items| && k < |ItemAt(s, i).parents| && |s.mem.created| > 0 ==> Follows(s, t)
  {
    var last := |s.mem.created| - 1;
    if last >= 0 && DirAt(s.dirs, s.mem.created[last]) == Absent then
      s.(dirs := SetDir(s.dirs, s.mem.created[last], Made(last)), staged := s.staged - {last}, pc := Parents(i, k + 1))
    else s.(pc := Parents(i, k + 1))
  }

  function IntendStep(s: State, i: nat): (t: State)
    ensures WellFormed(s) && i < |s.plan.items| ==> Follows(s, t)
  {
    var home := HomeOf(ItemAt(s, i), s.dirs);
    if home == Absent then Abort(s) else Write(s, WithIntent(s.mem, i, home)).(pc := Backup(i))
  }

  function BackupStep(s: State, i: nat): (t: State)
    ensures WellFormed(s) && i < |s.plan.items| ==> Follows(s, t)
  {
    var it, sl := ItemAt(s, i), Now(s, i);
    if it.metadataOnly then
      if sl.live == it.original then Put(s, i, sl.(live := it.expected)).(pc := Settle(i)) else Abort(s)
    else if sl.live.None? then
      if it.original.None? then s.(pc := Install(i)) else Abort(s)
    else if sl.previous.Some? then Abort(s)
    else Move(s, i, ToBackup).(pc := BackupSync(i))
  }

  function BackupSyncStep(s: State, i: nat): (t: State)
    ensures WellFormed(s) && i < |s.plan.items| ==> Follows(s, t)
  {
    var t := Sync(s, i);
    if Now(s, i).previous == ItemAt(s, i).original then t.(pc := Install(i)) else Abort(t)
  }

  function InstallStep(s: State, i: nat): (t: State)
    ensures WellFormed(s) && i < |s.plan.items| ==> Follows(s, t)
  {
    var it, sl := ItemAt(s, i), Now(s, i);
    if it.expected.None? then s.(pc := Settle(i))
    else if sl.live.Some? || sl.value.None? then Abort(s)
    else Move(s, i, ToLive).(pc := Settle(i))
  }

  function SettleStep(s: State, i: nat): (t: State)
    ensures WellFormed(s) && i < |s.plan.items| ==> Follows(s, t)
  {
    if s.plan.grouped then s.(pc := Check(i + 1))
    else Write(s, WithPhase(s.mem, i, Installed)).(pc := Check(i + 1))
  }

  predicate BackupsValid(items: seq<Item>, cells: seq<Cell>, j: Journal)
  {
    forall i :: 0 <= i < |items| && i < |cells| ==>
      PhaseAt(j, i) == Prepared || items[i].metadataOnly || cells[i].Now().previous == items[i].original
  }

  predicate LiveExpected(items: seq<Item>, cells: seq<Cell>)
  {
    forall i :: 0 <= i < |items| && i < |cells| ==> cells[i].Now().live == items[i].expected
  }

  /** The parents' barrier makes every installation durable; only the commit records it. */
  function GroupSyncStep(s: State): (t: State)
    ensures WellFormed(s) ==> Follows(s, t)
  { SyncAll(s).(mem := AllPhases(s.mem, Installed), pc := ValidateBackups) }

  function ValidateBackupsStep(s: State): (t: State)
    ensures WellFormed(s) ==> Follows(s, t)
  { if BackupsValid(s.plan.items, s.cells, s.mem) then s.(pc := ValidateInstalled(0)) else Abort(s) }

  function ValidateStep(s: State, i: nat): (t: State)
    ensures WellFormed(s) && i <= |s.plan.items| ==> Follows(s, t)
  {
    if i == |s.plan.items| then s.(pc := CommitWrite)
    else if Now(s, i).live == ItemAt(s, i).expected then s.(pc := ValidateInstalled(i + 1))
    else Abort(s)
  }

  function CommitWriteStep(s: State): (t: State)
    ensures WellFormed(s) ==> Follows(s, t)
  { Write(s, s.mem.(committed := true)).(pc := Confirm(0)) }

  function ConfirmStep(s: State, i: nat): (t: State)
    ensures WellFormed(s) && i <= |s.plan.items| ==> Follows(s, t)
  {
    if i == |s.plan.items| then s.(pc := Idle)
    else if Now(s, i).live == ItemAt(s, i).expected then s.(pc := Confirm(i + 1))
    else Abort(s)
  }

  // ---- The process that rolls back ----

  /** Start on item `i - 1`; the items from `i` on are finished.  Nothing is done for an item whose
      parent directory is not the one recorded. */
  function UndoStep(s: State, i: nat): (t: State)
    ensures WellFormed(s) && i <= |s.plan.items| ==> Follows(s, t)
  {
    if i == 0 then s.(pc := if s.failed then Idle else UndoParents(|s.mem.created|))
    else if PhaseAt(s.mem, i - 1) == Prepared then s.(pc := Undo(i - 1))
    else if !AtHome(s, i - 1) then SkipItem(s, i - 1)
    else UndoAtHome(s, i - 1)
  }

  predicate AtHome(s: State, i: nat)
  { HomeOf(ItemAt(s, i), s.dirs) == HomeAt(s.mem, i) }

  function UndoAtHome(s: State, j: nat): (t: State)
    ensures WellFormed(s) && j < |s.plan.items| ==> Follows(s, t)
  {
    var it, sl := ItemAt(s, j), Now(s, j);
    if it.metadataOnly then
      if sl.live == it.original then s.(pc := Undo(j))
      else if sl.live == it.expected then Put(s, j, sl.(live := it.original)).(pc := Undo(j))
      else SkipItem(s, j)
    else if sl.previous.None? && PhaseAt(s.mem, j) == Grouped && sl.value.Some? then
      if sl.value == it.expected && sl.live.Some? then s.(pc := Undo(j)) else SkipItem(s, j)
    else if sl.previous.Some? || it.original.None? then
      if sl.installed.Some? then s.(pc := UndoCheck(j))
      else if sl.live.Some? then Put(s, j, sl.(installed := sl.live, live := None)).(pc := UndoCheck(j))
      else s.(pc := if sl.previous.Some? then UndoRestore(j) else Undo(j))
    else if sl.live == it.original then s.(pc := Undo(j))
    else SkipItem(s, j)
  }

  function UndoCheckStep(s: State, i: nat): (t: State)
    ensures WellFormed(s) && i < |s.plan.items| ==> Follows(s, t)
  {
    var sl := Now(s, i);
    if sl.installed != ItemAt(s, i).expected then s.(pc := UndoReturn(i))
    else s.(pc := if sl.previous.Some? then UndoRestore(i) else UndoDrop(i))
  }

  function UndoReturnStep(s: State, i: nat): (t: State)
    ensures WellFormed(s) && i < |s.plan.items| ==> Follows(s, t)
  {
    var sl := Now(s, i);
    if sl.live.None? then SkipItem(Put(s, i, sl.(live := sl.installed, installed := None)), i) else SkipItem(s, i)
  }

  function UndoRestoreStep(s: State, i: nat): (t: State)
    ensures WellFormed(s) && i < |s.plan.items| ==> Follows(s, t)
  {
    var sl := Now(s, i);
    if sl.live.Some? || sl.previous.None? then SkipItem(s, i)
    else
      var next := if sl.installed.Some? then UndoDrop(i) else Undo(i);
      Put(s, i, sl.(live := sl.previous, previous := None)).(pc := next)
  }

  function Logged(i: nat, content: Option<Digest>, committed: bool): seq<Deletion> {
    if content.None? then [] else [Deletion(i, content.value, committed)]
  }

  function UndoDropStep(s: State, i: nat): (t: State)
    ensures WellFormed(s) && i < |s.plan.items| ==> Follows(s, t)
  {
    var sl := Now(s, i);
    Put(s, i, sl.(installed := None)).(deleted := s.deleted + Logged(i, sl.installed, false), pc := Undo(i))
  }

  /** A directory is empty when no item and no directory below it is present. */
  predicate Empty(plan: Plan, cells: seq<Cell>, dirs: seq<Dir>, d: nat)
  {
    && (forall i :: 0 <= i < |cells| && i < |plan.items| && d in plan.items[i].parents ==> cells[i].Now().live.None?)
    && (forall e :: 0 <= e < |dirs| && e < |plan.above| && d in plan.above[e] ==> dirs[e] == Absent)
  }

  function UndoParentsStep(s: State, k: nat): (t: State)
    ensures WellFormed(s) && k <= |s.mem.created| ==> Follows(s, t)
  {
    if k == 0 then s.(pc := if s.failed then Idle else Discard(false))
    else
      var c := k - 1;
      var d := CreatedAt(s.mem, c);
      if c in s.staged || DirAt(s.dirs, d) == Absent then s.(pc := UndoParents(c))
      else if DirAt(s.dirs, d) == Made(c) && Empty(s.plan, s.cells, s.dirs, d) then
        s.(dirs := SetDir(s.dirs, d, Absent), pc := UndoParents(c))
      else s.(pc := UndoParents(c), failed := true)
  }

  function SlotDeletions(i: nat, sl: Slots, committed: bool): seq<Deletion> {
    Logged(i, sl.value, committed) + Logged(i, sl.previous, committed) + Logged(i, sl.installed, committed)
  }

  function AllDeletions(cells: seq<Cell>, committed: bool): seq<Deletion> {
    if cells == [] then []
    else AllDeletions(cells[..|cells|-1], committed) + SlotDeletions(|cells| - 1, cells[|cells|-1].Now(), committed)
  }

  /** The whole transaction directory goes: every slot, every staged parent, the journal. */
  function DiscardStep(s: State, committed: bool): (t: State)
    ensures WellFormed(s) ==> Follows(s, t)
  {
    s.(cells := seq(|s.cells|, i requires 0 <= i < |s.cells| => Cell(Slots(Now(s, i).live, None, None, None), [])),
       staged := {}, disk := None, pc := Done(committed),
       deleted := s.deleted + AllDeletions(s.cells, committed))
  }

  // ---- Events ----

  function PrepareAct(s: State): (t: State)
    ensures WellFormed(s) ==> Follows(s, t)
  {
    match s.pc
    case Publish => PublishStep(s)
    case Stage(i) => StageStep(s, i)
    case GroupIntend => GroupIntendStep(s)
    case Check(i) => CheckStep(s, i)
    case Parents(i, k) => ParentsStep(s, i, k)
    case ParentJournal(i, k) => ParentJournalStep(s, i, k)
    case ParentRename(i, k) => ParentRenameStep(s, i, k)
    case Intend(i) => IntendStep(s, i)
    case _ => s
  }

  function InstallAct(s: State): (t: State)
    ensures WellFormed(s) ==> Follows(s, t)
  {
    match s.pc
    case Backup(i) => BackupStep(s, i)
    case BackupSync(i) => BackupSyncStep(s, i)
    case Install(i) => InstallStep(s, i)
    case Settle(i) => SettleStep(s, i)
    case GroupSync => GroupSyncStep(s)
    case ValidateBackups => ValidateBackupsStep(s)
    case ValidateInstalled(i) => ValidateStep(s, i)
    case CommitWrite => CommitWriteStep(s)
    case Confirm(i) => ConfirmStep(s, i)
    case _ => s
  }

  function UndoAct(s: State): (t: State)
    ensures WellFormed(s) ==> Follows(s, t)
    ensures s.pc.UndoParents? ==> t.mem == s.mem
  {
    match s.pc
    case Undo(i) => UndoStep(s, i)
    case UndoCheck(i) => UndoCheckStep(s, i)
    case UndoReturn(i) => UndoReturnStep(s, i)
    case UndoRestore(i) => UndoRestoreStep(s, i)
    case UndoDrop(i) => UndoDropStep(s, i)
    case UndoParents(k) => UndoParentsStep(s, k)
    case Discard(committed) => DiscardStep(s, committed)
    case _ => s
  }

  /** Rolling back or removing the transaction. */
  predicate Backward(pc: Pc) {
    pc.Undo? || pc.UndoCheck? || pc.UndoReturn? || pc.UndoRestore? || pc.UndoDrop? || pc.UndoParents? || pc.Discard?
  }

  /** Up to the journaled intent to install an item. */
  predicate Preparing(pc: Pc) {
    pc.Publish? || pc.Stage? || pc.GroupIntend? || pc.Check? || pc.Parents? || pc.ParentJournal? || pc.ParentRename?
    || pc.Intend?
  }

  /** The next operation of the running process, succeeding. */
  function Act(s: State): (t: State)
    ensures WellFormed(s) ==> Follows(s, t)
    ensures s.pc.UndoParents? ==> t.mem == s.mem
  {
    if Backward(s.pc) then UndoAct(s) else if Preparing(s.pc) then PrepareAct(s) else InstallAct(s)
  }

  /** How the running process continues after an error, from state `t`. */
  function React(s: State, t: State): (r: State)
    ensures WellFormed(s) && Follows(s, t) && (s.pc.UndoParents? ==> t.mem == s.mem) ==> Follows(s, r)
  {
    match s.pc
    case Publish => t.(pc := Discard(false))
    case Stage(_) => t.(pc := Discard(false))
    case Idle => t
    case Done(_) => t
    case _ => if Backward(s.pc) then UndoReact(s, t) else Abort(t)
  }

  function UndoReact(s: State, t: State): (r: State)
    ensures WellFormed(s) && Follows(s, t) && (s.pc.UndoParents? ==> t.mem == s.mem) ==> Follows(s, r)
  {
    match s.pc
    case UndoParents(k) => if k == 0 then t.(pc := Idle) else t.(pc := UndoParents(k - 1), failed := true)
    case Discard(_) => if t.pc.Done? then t else t.(pc := Idle)
    case _ => if s.pc == Undo(0) || !Backward(s.pc) then t.(pc := Idle) else SkipItem(t, SkipTo(s.pc))
  }

  /** An error ends the work on the current item. */
  function SkipTo(pc: Pc): nat {
    match pc
    case Undo(i) => if i == 0 then 0 else i - 1
    case UndoCheck(i) => i
    case UndoReturn(i) => i
    case UndoRestore(i) => i
    case UndoDrop(i) => i
    case _ => 0
  }

  /** The journal the process holds in memory when its write fails. */
  function Unwritten(s: State): (t: State)
    ensures WellFormed(s) ==> Follows(s, t)
    ensures s.pc.UndoParents? ==> t.mem == s.mem
  {
    match s.pc
    case GroupIntend => s.(mem := AllPhases(s.mem, Grouped))
    case Intend(i) =>
      var home := HomeOf(ItemAt(s, i), s.dirs);
      if home == Absent then s else s.(mem := WithIntent(s.mem, i, home))
    case Settle(i) => if s.plan.grouped then s else s.(mem := WithPhase(s.mem, i, Installed))
    case CommitWrite => s.(mem := s.mem.(committed := true))
    case _ => s
  }

  /** A published transaction that has not been removed can be recovered at any time. */
  function RecoverStep(s: State): (t: State)
    ensures WellFormed(s) ==> Follows(s, t)
  {
    if !s.pc.Idle? || Committed(s.disk) then s
    else if s.disk.None? then s.(pc := Discard(false))
    else Abort(s.(mem := s.disk.value))
  }

  function CommitStep(s: State): (t: State)
    ensures WellFormed(s) ==> Follows(s, t)
  {
    if s.pc.Idle? && Committed(s.disk) && BackupsValid(s.plan.items, s.cells, s.disk.value) &&
        LiveExpected(s.plan.items, s.cells)
    then s.(pc := Discard(true)) else s
  }

  function CrashStep(s: State, kept: seq<set<nat>>): (t: State)
    ensures WellFormed(s) ==> Follows(s, t)
  { if s.pc.Done? then s else Lose(s, kept).(pc := Idle) }

  /** An edit over a rename that is not synchronized yet stays pending beside it. */
  function OutsideCell(c: Cell, live: Option<Digest>): Cell {
    if c.ops == [] then Cell(c.durable.(live := live), []) else Cell(c.durable, c.ops + [EditLive(live)])
  }

  lemma OutsideCellNow(c: Cell, live: Option<Digest>)
    ensures var c' := OutsideCell(c, live);
      && c'.Now() == c.Now().(live := live) && (c'.ops == [] <==> c.ops == [])
      && (c.ops != [] ==> c'.durable == c.durable && c'.Renamed() == c.Renamed())
      && (OnlyEdits(c.ops, 1) ==> OnlyEdits(c'.ops, 1))
  {
    if c.ops != [] { ReplaySnoc(c.durable, c.ops, EditLive(live)); }
  }

  function OutsideStep(s: State, i: nat, live: Option<Digest>): (t: State)
    ensures WellFormed(s) ==> Follows(s, t)
  {
    if i < |s.cells| then s.(cells := s.cells[i := OutsideCell(s.cells[i], live)]) else s
  }

  function OutsideDirStep(s: State, d: nat, found: Option<nat>): (t: State)
    ensures WellFormed(s) ==> Follows(s, t)
  {
    s.(dirs := SetDir(s.dirs, d, if found.Some? then Foreign(found.value) else Absent))
  }

  function Step(s: State, e: Event): (t: State)
    ensures WellFormed(s) ==> Follows(s, t)
  {
    match e
    case Go => Act(s)
    case Fail => React(s, Unwritten(s))
    case Late => React(s, Act(s))
    case Crash(kept) => CrashStep(s, kept)
    case Recover => RecoverStep(s)
    case Commit => CommitStep(s)
    case Outside(i, live) => OutsideStep(s, i, live)
    case OutsideDir(d, found) => OutsideDirStep(s, d, found)
  }

  function Run(s: State, events: seq<Event>): (t: State)
    ensures WellFormed(s) ==> Follows(s, t)
    decreases |events|
  {
    if events == [] then s
    else Run(Step(s, events[0]), events[1..])
  }

  /** Starting on an item changes at most that item's cell, the position and the error flag. */
  lemma UndoStepGoes(s: State)
    requires WellFormed(s) && s.pc.Undo?
    ensures var t, i := UndoStep(s, s.pc.i), s.pc.i;
      && t == s.(cells := t.cells, pc := t.pc, failed := t.failed)
      && (i == 0 ==> t.cells == s.cells && t.pc == if s.failed then Idle else UndoParents(|s.mem.created|))
      && (i > 0 ==> t.pc == Undo(i - 1) || t.pc == UndoCheck(i - 1) || t.pc == UndoRestore(i - 1))
      && (i > 0 ==> t.cells == s.cells || t.cells == s.cells[i - 1 := Cell(t.cells[i - 1].durable, [])])
  {
  }

  // ---- Starting states ----

  /** Directories and items agree: what lies in a missing directory is missing. */
  predicate ValidStart(plan: Plan, dirs: seq<Dir>) {
    && |dirs| == |plan.above|
    && (forall d :: 0 <= d < |dirs| ==> !dirs[d].Made?)
    && (forall d, k :: 0 <= d < |dirs| && 0 <= k < |plan.above[d]| ==>
          plan.above[d][k] < |dirs| && (dirs[d].Foreign? ==> dirs[plan.above[d][k]].Foreign?))
    && (forall i :: 0 <= i < |plan.items| ==> ValidItem(plan, dirs, plan.items[i]))
  }

  predicate ValidItem(plan: Plan, dirs: seq<Dir>, it: Item)
    requires |dirs| == |plan.above|
  {
    && (it.metadataOnly ==> it.original.Some? && it.expected.Some?)
    && (plan.grouped ==> !it.metadataOnly && it.original.Some? && it.expected.Some?)
    && (forall k :: 0 <= k < |it.parents| ==>
          && it.parents[k] < |dirs|
          && plan.above[it.parents[k]] == it.parents[..k]
          && (dirs[it.parents[k]] == Absent ==> it.original.None?))
  }

  function Start(plan: Plan, dirs: seq<Dir>): State {
    State(plan,
      seq(|plan.items|, i requires 0 <= i < |plan.items| => Cell(Slots(plan.items[i].original, None, None, None), [])),
      dirs, {}, None,
      Journal(false, seq(|plan.items|, _ => Prepared), [],
        seq(|plan.items|, i requires 0 <= i < |plan.items| => HomeOf(plan.items[i], dirs))),
      Publish, false, [])
  }

  lemma StartWellFormed(plan: Plan, dirs: seq<Dir>)
    requires ValidStart(plan, dirs)
    ensures WellFormed(Start(plan, dirs))
  {
  }
}

/** The ancestor directories an application creates: the published journal knows each of them, and
    a completed rollback has removed them all. */
module ApplyParents {
  import opened Rows
  import opened ApplyProtocol
  import opened ApplyNoLoss
  import opened ApplyAtomic

  /** The directories, and the lists of created ones in memory and in the published journal. */
  datatype Tree = Tree(plan: Plan, dirs: seq<Dir>, staged: set<nat>, mem: seq<nat>, disk: seq<nat>)

  function Listed(disk: Option<Journal>): seq<nat> { if disk.Some? then disk.value.created else [] }

  function TreeOf(s: State): Tree { Tree(s.plan, s.dirs, s.staged, s.mem.created, Listed(s.disk)) }

  // ---- Invariants ----

  /** What lies in a directory that is not ours to keep was missing; foreign directories lie in foreign ones. */
  predicate Consistent(plan: Plan, dirs: seq<Dir>) {
    && |dirs| == |plan.above|
    && (forall i, k :: 0 <= i < |plan.items| && 0 <= k < |plan.items[i].parents| ==>
          && plan.items[i].parents[k] < |dirs|
          && plan.above[plan.items[i].parents[k]] == plan.items[i].parents[..k]
          && (!dirs[plan.items[i].parents[k]].Foreign? ==> plan.items[i].original.None?))
    && (forall e, k :: 0 <= e < |dirs| && 0 <= k < |plan.above[e]| ==>
          plan.above[e][k] < |dirs| && (dirs[e].Foreign? ==> dirs[plan.above[e][k]].Foreign?))
  }

  /** Every directory we made is on the published list and no longer staged. */
  predicate Known(dirs: seq<Dir>, staged: set<nat>, disk: seq<nat>) {
    forall d :: 0 <= d < |dirs| && dirs[d].Made? ==>
      dirs[d].c < |disk| && disk[dirs[d].c] == d && dirs[d].c !in staged
  }

  /** Outer directories are present and were made before the ones inside them. */
  predicate Nested(plan: Plan, dirs: seq<Dir>) {
    |dirs| == |plan.above| &&
    forall e, k :: 0 <= e < |dirs| && 0 <= k < |plan.above[e]| && plan.above[e][k] < |dirs| && dirs[e].Made? ==>
      var outer := dirs[plan.above[e][k]];
      outer != Absent && (outer.Made? ==> outer.c < dirs[e].c)
  }

  predicate Ours(dirs: seq<Dir>, created: seq<nat>) {
    && (forall c :: 0 <= c < |created| ==> created[c] < |dirs| && !dirs[created[c]].Foreign?)
    && (forall b, c :: 0 <= b < c < |created| ==> created[b] != created[c])
  }

  predicate Base(v: Tree) {
    Consistent(v.plan, v.dirs) && Known(v.dirs, v.staged, v.disk) && Nested(v.plan, v.dirs) && Ours(v.dirs, v.disk)
  }

  /** All the directories listed up to `n` stand where they were made. */
  predicate Standing(dirs: seq<Dir>, created: seq<nat>, n: nat) {
    forall c :: 0 <= c < n && c < |created| ==> created[c] < |dirs| && dirs[created[c]] == Made(c)
  }

  predicate ClearFrom(dirs: seq<Dir>, k: nat) {
    forall d :: 0 <= d < |dirs| && dirs[d].Made? ==> dirs[d].c < k
  }

  predicate Reached(v: Tree, i: nat, k: nat) {
    i < |v.plan.items| && k <= |v.plan.items[i].parents| &&
    forall b :: 0 <= b < k ==> v.plan.items[i].parents[b] < |v.dirs| && v.dirs[v.plan.items[i].parents[b]] != Absent
  }

  /** The last listed directory is staged and not yet renamed into place. */
  predicate Pending(v: Tree, i: nat, k: nat) {
    && Reached(v, i, k) && k < |v.plan.items[i].parents| && |v.mem| > 0
    && var last := |v.mem| - 1;
       && Standing(v.dirs, v.mem, last) && last in v.staged
       && v.mem[last] == v.plan.items[i].parents[k] && v.mem[last] < |v.dirs| && v.dirs[v.mem[last]] == Absent
  }

  predicate Roomy(pc: Pc, failed: bool, v: Tree) {
    match pc
    case Publish => v.mem == [] && ClearFrom(v.dirs, 0)
    case Stage(_) => v.mem == [] && ClearFrom(v.dirs, 0)
    case Parents(i, k) => Standing(v.dirs, v.mem, |v.mem|) && Reached(v, i, k)
    case ParentJournal(i, k) => Pending(v, i, k)
    case ParentRename(i, k) => Pending(v, i, k) && v.disk == v.mem
    case Intend(i) => Standing(v.dirs, v.mem, |v.mem|) && i < |v.plan.items| && Reached(v, i, |v.plan.items[i].parents|)
    case UndoParents(k) => !failed ==> ClearFrom(v.dirs, k)
    case Discard(committed) => !committed ==> ClearFrom(v.dirs, 0)
    case Done(committed) => !committed ==> ClearFrom(v.dirs, 0)
    case _ => Backward(pc) || !Running(pc) || Standing(v.dirs, v.mem, |v.mem|)
  }

  predicate Tidy(s: State) {
    && (!s.pc.Done? ==> Base(TreeOf(s)))
    && (Running(s.pc) ==> Listed(s.disk) <= s.mem.created && Ours(s.dirs, s.mem.created))
    && Roomy(s.pc, s.failed, TreeOf(s))
  }

  // ---- Operations that leave the directories alone ----

  predicate SameTree(s: State, t: State) {
    && t.plan == s.plan && t.dirs == s.dirs && t.staged == s.staged && t.mem.created == s.mem.created
    && (Listed(t.disk) == Listed(s.disk) || Listed(t.disk) == s.mem.created)
  }

  lemma KnownLonger(dirs: seq<Dir>, staged: set<nat>, disk: seq<nat>, mem: seq<nat>)
    requires Known(dirs, staged, disk) && disk <= mem
    ensures Known(dirs, staged, mem)
  {
  }

  /** The application or the rollback of items goes on, or ends. */
  lemma TreeCarries(s: State, t: State)
    requires Tidy(s) && Running(s.pc) && SameTree(s, t)
    requires match t.pc
      case Publish => false
      case Stage(_) => t.mem.created == [] && ClearFrom(s.dirs, 0)
      case Parents(_, k) => k == 0 && t.pc.i < |s.plan.items| && Standing(s.dirs, s.mem.created, |s.mem.created|)
      case ParentJournal(_, _) => false
      case ParentRename(_, _) => false
      case Intend(i) => i < |s.plan.items| && Standing(s.dirs, s.mem.created, |s.mem.created|)
        && Reached(TreeOf(s), i, |s.plan.items[i].parents|)
      case UndoParents(k) => k == |s.mem.created|
      case Discard(committed) => ClearFrom(s.dirs, 0)
      case Done(_) => false
      case _ => Backward(t.pc) || t.pc.Idle? || Standing(s.dirs, s.mem.created, |s.mem.created|)
    ensures Tidy(t)
  {
    KnownLonger(s.dirs, s.staged, Listed(s.disk), s.mem.created);
  }

  lemma PrepareTidy(s: State)
    requires WellFormed(s) && Tidy(s)
    requires (s.pc.Publish? || s.pc.Stage? || s.pc.GroupIntend? || s.pc.Check? || s.pc.Intend?)
    ensures Tidy(PrepareAct(s)) && SameTree(s, PrepareAct(s))
  {
    TreeCarries(s, PrepareAct(s));
  }

  lemma BackupTidy(s: State)
    requires WellFormed(s) && Tidy(s) && s.pc.Backup?
    ensures Tidy(BackupStep(s, s.pc.i)) && SameTree(s, BackupStep(s, s.pc.i))
  {
    TreeCarries(s, BackupStep(s, s.pc.i));
  }

  lemma BackupSyncTidy(s: State)
    requires WellFormed(s) && Tidy(s) && s.pc.BackupSync?
    ensures Tidy(BackupSyncStep(s, s.pc.i)) && SameTree(s, BackupSyncStep(s, s.pc.i))
  {
    TreeCarries(s, BackupSyncStep(s, s.pc.i));
  }

  lemma ValidationTidy(s: State)
    requires WellFormed(s) && Tidy(s)
    requires s.pc.GroupSync? || s.pc.ValidateBackups? || s.pc.ValidateInstalled? || s.pc.CommitWrite? || s.pc.Confirm?
    ensures Tidy(InstallAct(s)) && SameTree(s, InstallAct(s))
  {
    TreeCarries(s, InstallAct(s));
  }

  lemma InstallItemTidy(s: State)
    requires WellFormed(s) && Tidy(s) && (s.pc.Install? || s.pc.Settle?)
    ensures Tidy(InstallAct(s)) && SameTree(s, InstallAct(s))
  {
    TreeCarries(s, InstallAct(s));
  }

  lemma InstallTidy(s: State)
    requires WellFormed(s) && Tidy(s) && !Preparing(s.pc) && !Backward(s.pc) && Running(s.pc)
    ensures Tidy(InstallAct(s)) && SameTree(s, InstallAct(s))
  {
    if s.pc.Backup? {
      BackupTidy(s);
    } else if s.pc.BackupSync? {
      BackupSyncTidy(s);
    } else if s.pc.Install? || s.pc.Settle? {
      InstallItemTidy(s);
    } else {
      ValidationTidy(s);
    }
  }

  lemma UndoItemTidy(s: State)
    requires WellFormed(s) && Tidy(s) && s.pc.Undo?
    ensures Tidy(UndoStep(s, s.pc.i)) && SameTree(s, UndoStep(s, s.pc.i))
  {
    UndoStepGoes(s);
    UndoCarriesTree(s, UndoStep(s, s.pc.i));
  }

  lemma UndoCarriesTree(s: State, t: State)
    requires Tidy(s) && s.pc.Undo? && t == s.(cells := t.cells, pc := t.pc, failed := t.failed)
    requires t.pc.Idle? || t.pc.Undo? || t.pc.UndoCheck? || t.pc.UndoRestore? || t.pc == UndoParents(|s.mem.created|)
    ensures Tidy(t) && SameTree(s, t)
  {
    TreeCarries(s, t);
  }

  lemma UndoTidy(s: State)
    requires WellFormed(s) && Tidy(s) && Backward(s.pc) && !s.pc.UndoParents? && !s.pc.Discard?
    ensures Tidy(UndoAct(s)) && SameTree(s, UndoAct(s))
  {
    if s.pc.Undo? { UndoItemTidy(s); } else { UndoRestTidy(s, UndoAct(s)); }
  }

  lemma UndoRestTidy(s: State, t: State)
    requires WellFormed(s) && Tidy(s) && (s.pc.UndoCheck? || s.pc.UndoReturn? || s.pc.UndoRestore? || s.pc.UndoDrop?)
    requires t == UndoAct(s)
    ensures Tidy(t) && SameTree(s, t)
  {
    assert t.pc.Undo? || t.pc.UndoReturn? || t.pc.UndoRestore? || t.pc.UndoDrop?;
    TreeCarries(s, t);
  }

  // ---- Making parents ----

  /** A missing ancestor is listed and staged. */
  lemma ListTidy(s: State, i: nat, k: nat)
    requires WellFormed(s) && Tidy(s) && s.pc == Parents(i, k) && k < |s.plan.items[i].parents|
    requires DirAt(s.dirs, s.plan.items[i].parents[k]) == Absent
    ensures Tidy(ParentsStep(s, i, k))
  {
    var d := s.plan.items[i].parents[k];
    var t := ParentsStep(s, i, k);
    assert t.mem.created == s.mem.created + [d];
    forall c | 0 <= c < |s.mem.created| ensures s.mem.created[c] != d {
      assert s.dirs[s.mem.created[c]] == Made(c);
    }
  }

  lemma ParentsTidy(s: State)
    requires WellFormed(s) && Tidy(s) && s.pc.Parents?
    ensures Tidy(ParentsStep(s, s.pc.i, s.pc.k))
  {
    var i, k := s.pc.i, s.pc.k;
    var parents := s.plan.items[i].parents;
    if k == |parents| {
      TreeCarries(s, ParentsStep(s, i, k));
    } else if DirAt(s.dirs, parents[k]) == Absent {
      ListTidy(s, i, k);
    } else {
      assert Reached(TreeOf(s), i, k + 1);
      assert TreeOf(ParentsStep(s, i, k)) == TreeOf(s);
    }
  }

  /** Publishing the list of created directories keeps the account of them. */
  lemma PublishedTree(v: Tree, i: nat, k: nat)
    requires Base(v) && v.disk <= v.mem && Ours(v.dirs, v.mem) && Pending(v, i, k)
    ensures Base(v.(disk := v.mem)) && Pending(v.(disk := v.mem), i, k)
  {
    KnownLonger(v.dirs, v.staged, v.disk, v.mem);
  }

  lemma ParentJournalTidy(s: State)
    requires WellFormed(s) && Tidy(s) && s.pc.ParentJournal?
    ensures Tidy(ParentJournalStep(s, s.pc.i, s.pc.k))
  {
    var last := |s.mem.created| - 1;
    var t := Write(s, s.mem).(pc := ParentRename(s.pc.i, s.pc.k));
    assert s.mem.created[last] !in s.mem.created[..last];
    assert ParentJournalStep(s, s.pc.i, s.pc.k) == t;
    PublishedTree(TreeOf(s), s.pc.i, s.pc.k);
    assert TreeOf(t) == TreeOf(s).(disk := s.mem.created);
  }

  lemma ParentRenameTidy(s: State)
    requires WellFormed(s) && Tidy(s) && s.pc.ParentRename?
    ensures Tidy(ParentRenameStep(s, s.pc.i, s.pc.k))
  {
    var i, k := s.pc.i, s.pc.k;
    var last := |s.mem.created| - 1;
    var d := s.mem.created[last];
    var dirs' := s.dirs[d := Made(last)];
    assert d == s.plan.items[i].parents[k] && s.plan.above[d] == s.plan.items[i].parents[..k];
    MadeNested(s.plan, s.dirs, s.staged, s.mem.created, d);
    MadeStanding(s.dirs, s.mem.created, d);
    assert ParentRenameStep(s, i, k) == s.(dirs := dirs', staged := s.staged - {last}, pc := Parents(i, k + 1));
    assert forall b :: 0 <= b < k + 1 ==> dirs'[s.plan.items[i].parents[b]] != Absent;
  }

  lemma MadeStanding(dirs: seq<Dir>, created: seq<nat>, d: nat)
    requires |created| > 0 && created[|created|-1] == d < |dirs| && Standing(dirs, created, |created| - 1)
    requires dirs[d] == Absent
    ensures Standing(dirs[d := Made(|created| - 1)], created, |created|)
  {
  }

  /** Putting the last listed directory in place keeps the nesting. */
  lemma MadeNested(plan: Plan, dirs: seq<Dir>, staged: set<nat>, created: seq<nat>, d: nat)
    requires Consistent(plan, dirs) && Known(dirs, staged, created) && Nested(plan, dirs) && Ours(dirs, created)
    requires |created| > 0 && created[|created|-1] == d < |dirs| && dirs[d] == Absent
    requires forall k :: 0 <= k < |plan.above[d]| ==> dirs[plan.above[d][k]] != Absent
    ensures var dirs' := dirs[d := Made(|created| - 1)];
      Consistent(plan, dirs') && Known(dirs', staged - {|created| - 1}, created) && Nested(plan, dirs') &&
          Ours(dirs', created)
  {
    var last := |created| - 1;
    var dirs' := dirs[d := Made(last)];
    forall e, k | 0 <= e < |dirs| && 0 <= k < |plan.above[e]| && plan.above[e][k] < |dirs| && dirs'[e].Made?
      ensures var outer := dirs'[plan.above[e][k]]; outer != Absent && (outer.Made? ==> outer.c < dirs'[e].c)
    {
      if e != d { assert plan.above[e][k] != d; }
    }
  }

  // ---- Removing them ----

  lemma RemoveTidy(s: State, c: nat)
    requires WellFormed(s) && Tidy(s) && s.pc == UndoParents(c + 1) && c < |s.mem.created|
    requires c !in s.staged && DirAt(s.dirs, s.mem.created[c]) == Made(c)
    requires Empty(s.plan, s.cells, s.dirs, s.mem.created[c])
    ensures Tidy(s.(dirs := s.dirs[s.mem.created[c] := Absent], pc := UndoParents(c)))
  {
    var d := s.mem.created[c];
    var dirs' := s.dirs[d := Absent];
    forall e, k | 0 <= e < |dirs'| && 0 <= k < |s.plan.above[e]| && s.plan.above[e][k] < |dirs'| && dirs'[e].Made?
      ensures var outer := dirs'[s.plan.above[e][k]]; outer != Absent && (outer.Made? ==> outer.c < dirs'[e].c)
    {
      assert s.plan.above[e][k] in s.plan.above[e];
    }
    forall e | 0 <= e < |dirs'| && dirs'[e].Made? && !s.failed ensures dirs'[e].c < c {
      assert s.dirs[e].c < c + 1 && Listed(s.disk)[s.dirs[e].c] == e && Listed(s.disk)[c] == d;
    }
  }

  /** A listed directory that is staged or missing has nothing to remove. */
  lemma PassedParent(s: State, c: nat)
    requires Tidy(s) && s.pc == UndoParents(c + 1) && c < |s.mem.created| && s.mem.created[c] < |s.dirs|
    requires c in s.staged || DirAt(s.dirs, s.mem.created[c]) == Absent
    ensures Tidy(s.(pc := UndoParents(c)))
  {
    forall e | 0 <= e < |s.dirs| && s.dirs[e].Made? && !s.failed ensures s.dirs[e].c < c {
      var b := s.dirs[e].c;
      assert b < c + 1 && Listed(s.disk)[b] == e == s.mem.created[b];
    }
  }

  lemma KeptParent(s: State, c: nat)
    requires Tidy(s) && s.pc == UndoParents(c + 1)
    ensures Tidy(s.(pc := UndoParents(c), failed := true))
  {
  }

  lemma LastParent(s: State)
    requires Tidy(s) && s.pc == UndoParents(0)
    ensures Tidy(s.(pc := if s.failed then Idle else Discard(false)))
  {
  }

  /** What one step of the removal of created parents does. */
  lemma UndoParentsCases(s: State, c: nat)
    requires WellFormed(s) && s.pc == UndoParents(c + 1)
    ensures c < |s.mem.created|
    ensures var d, t := s.mem.created[c], UndoParentsStep(s, c + 1);
      if c in s.staged || DirAt(s.dirs, d) == Absent then t == s.(pc := UndoParents(c))
      else || t == s.(pc := UndoParents(c), failed := true)
           || (DirAt(s.dirs, d) == Made(c) && Empty(s.plan, s.cells, s.dirs, d) &&
               t == s.(dirs := SetDir(s.dirs, d, Absent), pc := UndoParents(c)))
  {
  }

  lemma UndoParentTidy(s: State, t: State, c: nat)
    requires WellFormed(s) && Tidy(s) && s.pc == UndoParents(c + 1) && t == UndoParentsStep(s, c + 1)
    ensures Tidy(t)
  {
    UndoParentsCases(s, c);
    if t == s.(pc := UndoParents(c), failed := true) {
      KeptParent(s, c);
    } else if c in s.staged || DirAt(s.dirs, s.mem.created[c]) == Absent {
      PassedParent(s, c);
    } else {
      RemoveTidy(s, c);
    }
  }

  lemma UndoParentsTidy(s: State)
    requires WellFormed(s) && Tidy(s) && s.pc.UndoParents?
    ensures Tidy(UndoParentsStep(s, s.pc.k))
  {
    if s.pc.k == 0 {
      LastParent(s);
    } else {
      UndoParentTidy(s, UndoParentsStep(s, s.pc.k), s.pc.k - 1);
    }
  }

  lemma DiscardTidy(s: State)
    requires WellFormed(s) && Tidy(s) && s.pc.Discard?
    ensures Tidy(DiscardStep(s, s.pc.committed))
  {
  }

  // ---- Every event ----

  lemma ActTidy(s: State)
    requires WellFormed(s) && Tidy(s)
    ensures Tidy(Act(s))
  {
    if s.pc.Parents? {
      ParentsTidy(s);
    } else if s.pc.ParentJournal? {
      ParentJournalTidy(s);
    } else if s.pc.ParentRename? {
      ParentRenameTidy(s);
    } else if s.pc.UndoParents? {
      UndoParentsTidy(s);
    } else if s.pc.Discard? {
      DiscardTidy(s);
    } else if Backward(s.pc) {
      UndoTidy(s);
    } else if Preparing(s.pc) {
      PrepareTidy(s);
    } else if Running(s.pc) {
      InstallTidy(s);
    }
  }

  /** Ready for the error path. */
  predicate Loose(s: State) {
    Base(TreeOf(s)) && Listed(s.disk) <= s.mem.created && Ours(s.dirs, s.mem.created)
  }

  lemma ReactTidy(s: State, t: State)
    requires WellFormed(s) && Follows(s, t) && (s.pc.UndoParents? ==> t.mem == s.mem)
    requires Running(s.pc) && Loose(t)
    requires s.pc.Publish? || s.pc.Stage? ==> ClearFrom(t.dirs, 0)
    ensures Tidy(React(s, t))
  {
    ReactGoes(s, t);
  }

  /** An error leads to the rollback, further along it, or to a stop; the directories stay. */
  lemma ReactGoes(s: State, t: State)
    requires WellFormed(s) && Follows(s, t) && (s.pc.UndoParents? ==> t.mem == s.mem) && Running(s.pc)
    ensures var r := React(s, t);
      && r == t.(pc := r.pc, failed := r.failed)
      && (r.pc.Idle? || r.pc.Undo? || (r.pc.UndoParents? && r.failed) ||
          ((s.pc.Publish? || s.pc.Stage?) && r.pc == Discard(false)))
  {
  }

  lemma ActLoose(s: State)
    requires WellFormed(s) && Tidy(s) && Running(s.pc)
    ensures Loose(Act(s))
  {
    if s.pc.UndoParents? {
      UndoParentsTidy(s);
      UndoParentsLoose(s);
    } else if Backward(s.pc) {
      UndoTidy(s);
      SameLoose(s, UndoAct(s));
    } else if s.pc.Parents? || s.pc.ParentJournal? || s.pc.ParentRename? {
      MakingLoose(s);
    } else if Preparing(s.pc) {
      PrepareTidy(s);
      SameLoose(s, PrepareAct(s));
    } else {
      InstallTidy(s);
      SameLoose(s, InstallAct(s));
    }
  }

  lemma SameLoose(s: State, t: State)
    requires Tidy(s) && Running(s.pc) && SameTree(s, t)
    ensures Loose(t)
  {
    KnownLonger(s.dirs, s.staged, Listed(s.disk), s.mem.created);
  }

  lemma MakingLoose(s: State)
    requires WellFormed(s) && Tidy(s) && (s.pc.Parents? || s.pc.ParentJournal? || s.pc.ParentRename?)
    ensures Loose(PrepareAct(s))
  {
    if s.pc.Parents? {
      ParentsTidy(s);
    } else if s.pc.ParentJournal? {
      ParentJournalTidy(s);
    } else {
      ParentRenameTidy(s);
    }
  }

  lemma UndoParentsLoose(s: State)
    requires WellFormed(s) && Tidy(s) && s.pc.UndoParents? && Tidy(UndoParentsStep(s, s.pc.k))
    ensures Loose(UndoParentsStep(s, s.pc.k))
  {
  }

  lemma UnwrittenTidy(s: State)
    requires WellFormed(s) && Tidy(s) && Running(s.pc)
    ensures Tidy(React(s, Unwritten(s)))
  {
    assert SameTree(s, Unwritten(s));
    SameLoose(s, Unwritten(s));
    ReactTidy(s, Unwritten(s));
  }

  lemma LateTidy(s: State)
    requires WellFormed(s) && Tidy(s) && Running(s.pc)
    ensures Tidy(React(s, Act(s)))
  {
    ActLoose(s);
    if s.pc.Publish? || s.pc.Stage? { PrepareTidy(s); }
    ReactTidy(s, Act(s));
  }

  lemma RecoverTidy(s: State)
    requires WellFormed(s) && Tidy(s)
    ensures Tidy(RecoverStep(s))
  {
    if s.pc.Idle? && !Committed(s.disk) && s.disk.Some? {
      assert TreeOf(RecoverStep(s)) == TreeOf(s).(mem := Listed(s.disk));
    }
  }

  lemma StoppedTidy(s: State, e: Event)
    requires WellFormed(s) && Tidy(s) && (e.Crash? || e.Commit? || !Running(s.pc)) && !e.Outside? && !e.OutsideDir?
    ensures Tidy(Step(s, e))
  {
    match e
    case Go => ActTidy(s);
    case Late => ActTidy(s);
    case Recover => RecoverTidy(s);
    case _ =>
  }

  lemma StepTidy(s: State, e: Event)
    requires WellFormed(s) && Tidy(s) && !e.Outside? && !e.OutsideDir?
    ensures Tidy(Step(s, e))
  {
    if e.Crash? || e.Commit? || !Running(s.pc) {
      StoppedTidy(s, e);
    } else {
      match e
      case Go => ActTidy(s);
      case Fail => UnwrittenTidy(s);
      case Late => LateTidy(s);
      case Recover => RecoverTidy(s);
    }
  }
}

/** An application that nothing disturbs runs to its committed journal. */
module ApplySuccess {
  import opened Rows
  import opened ApplyProtocol
  import opened ApplyNoLoss
  import opened ApplyAtomic
  import opened ApplyParents
  import opened ApplyRecovery

  /** Applying, nothing gone wrong so far. */
  predicate Driving(s: State) { Sound(s) && Running(s.pc) && !Backward(s.pc) }

  /** How far the application is from its end: the part it is in, the items left in it, the
      operation on the item, the ancestors left. */
  function Part(pc: Pc): nat {
    match pc
    case Publish => 9
    case Stage(_) => 8
    case GroupIntend => 7
    case GroupSync => 5
    case ValidateBackups => 4
    case ValidateInstalled(_) => 3
    case CommitWrite => 2
    case Confirm(_) => 1
    case Idle => 0
    case _ => 6
  }

  function ItemOf(pc: Pc): nat {
    match pc
    case Stage(i) => i
    case Check(i) => i
    case Parents(i, _) => i
    case ParentJournal(i, _) => i
    case ParentRename(i, _) => i
    case Intend(i) => i
    case Backup(i) => i
    case BackupSync(i) => i
    case Install(i) => i
    case Settle(i) => i
    case ValidateInstalled(i) => i
    case Confirm(i) => i
    case _ => 0
  }

  function Operation(pc: Pc): nat {
    match pc
    case Check(_) => 6
    case Parents(_, _) => 5
    case ParentJournal(_, _) => 5
    case ParentRename(_, _) => 5
    case Intend(_) => 4
    case Backup(_) => 3
    case BackupSync(_) => 2
    case Install(_) => 1
    case _ => 0
  }

  function AncestorWork(items: seq<Item>, pc: Pc): int {
    if ItemOf(pc) >= |items| then 0 else
      var n := |items[ItemOf(pc)].parents|;
      match pc
      case Parents(_, k) => 3 * (n - k) + 2
      case ParentJournal(_, k) => 3 * (n - k) + 1
      case ParentRename(_, k) => 3 * (n - k)
      case _ => 0
  }

  predicate Closer(items: seq<Item>, to: Pc, from: Pc) {
    || Part(to) < Part(from)
    || (Part(to) == Part(from) && ItemOf(to) > ItemOf(from))
    || (Part(to) == Part(from) && ItemOf(to) == ItemOf(from) && Operation(to) < Operation(from))
    || (Part(to) == Part(from) && ItemOf(to) == ItemOf(from) && Operation(to) == Operation(from)
        && AncestorWork(items, to) < AncestorWork(items, from))
  }

  predicate Advances(s: State, t: State) { !Backward(t.pc) && !t.pc.Done? && Closer(s.plan.items, t.pc, s.pc) }

  lemma BeginAdvances(s: State)
    requires WellFormed(s) && (s.pc.Publish? || s.pc.Stage? || s.pc.GroupIntend?)
    ensures Advances(s, PrepareAct(s))
  {
  }

  /** By the time of the intent every ancestor is there. */
  lemma IntendAdvances(s: State)
    requires Driving(s) && s.pc.Intend?
    ensures Advances(s, IntendStep(s, s.pc.i))
  {
    var it := s.plan.items[s.pc.i];
    if it.parents != [] { assert s.dirs[it.parents[|it.parents| - 1]] != Absent; }
  }

  lemma CheckAdvances(s: State)
    requires Driving(s) && s.pc.Check?
    ensures Advances(s, CheckStep(s, s.pc.i))
  {
    if s.pc.i < |s.cells| {
      assert AllReady(s.plan.items, s.cells, s.pc.i);
      assert Now(s, s.pc.i).live == s.plan.items[s.pc.i].original;
    }
  }

  lemma ParentsAdvances(s: State)
    requires Driving(s) && (s.pc.Parents? || s.pc.ParentJournal? || s.pc.ParentRename?)
    ensures Advances(s, PrepareAct(s))
  {
    if s.pc.ParentJournal? { NeverListedTwice(s); } else { ParentAdvances(s); }
  }

  lemma ParentAdvances(s: State)
    requires WellFormed(s) && (s.pc.Parents? || s.pc.ParentRename?)
    ensures Advances(s, PrepareAct(s))
  {
  }

  lemma NeverListedTwice(s: State)
    requires Driving(s) && s.pc.ParentJournal?
    ensures Advances(s, ParentJournalStep(s, s.pc.i, s.pc.k))
  {
    var last := |s.mem.created| - 1;
    assert Ours(s.dirs, s.mem.created);
    assert s.mem.created[last] !in s.mem.created[..last];
  }

  lemma BackupAdvances(s: State)
    requires Driving(s) && s.pc.Backup?
    ensures Advances(s, BackupStep(s, s.pc.i))
  {
    var i := s.pc.i;
    assert s.cells[i] == Cell(Slots(s.plan.items[i].original, StagedValue(s.plan.items[i]), None, None), []);
  }

  lemma BackupSyncAdvances(s: State)
    requires Driving(s) && s.pc.BackupSync?
    ensures Advances(s, BackupSyncStep(s, s.pc.i))
  {
    assert BackupSyncStep(s, s.pc.i) == Sync(s, s.pc.i).(pc := Install(s.pc.i));
  }

  lemma InstallAdvances(s: State)
    requires Driving(s) && s.pc.Install?
    ensures Advances(s, InstallStep(s, s.pc.i))
  {
    assert InstallStep(s, s.pc.i).pc == Settle(s.pc.i);
  }

  lemma SettleAdvances(s: State)
    requires WellFormed(s) && s.pc.Settle?
    ensures Advances(s, SettleStep(s, s.pc.i))
  {
  }

  lemma FinishAdvances(s: State)
    requires Driving(s) && (s.pc.GroupSync? || s.pc.CommitWrite?)
    ensures Advances(s, InstallAct(s))
  {
  }

  lemma ValidateAdvances(s: State)
    requires Driving(s) && (s.pc.ValidateBackups? || s.pc.ValidateInstalled?)
    ensures Advances(s, InstallAct(s))
  {
    forall i | 0 <= i < |s.cells| ensures Replaced(s.plan.items[i], s.cells[i].Now()) {}
    if s.pc.ValidateBackups? {
      assert InstallAct(s) == s.(pc := ValidateInstalled(0));
    } else if s.pc.i < |s.cells| {
      assert InstallAct(s) == s.(pc := ValidateInstalled(s.pc.i + 1));
    }
  }

  lemma ConfirmAdvances(s: State)
    requires Driving(s) && s.pc.Confirm?
    ensures Advances(s, ConfirmStep(s, s.pc.i)) && ConfirmStep(s, s.pc.i).disk == s.disk
  {
    if s.pc.i < |s.cells| {
      assert ShapedCell(s.plan.items[s.pc.i], PhaseIn(s.disk, s.pc.i), true, s.cells[s.pc.i]);
    }
  }

  lemma PrepareAdvances(s: State)
    requires Driving(s) && Preparing(s.pc)
    ensures Advances(s, PrepareAct(s))
  {
    if s.pc.Parents? || s.pc.ParentJournal? || s.pc.ParentRename? {
      ParentsAdvances(s);
    } else if s.pc.Check? {
      CheckAdvances(s);
    } else if s.pc.Intend? {
      IntendAdvances(s);
    } else {
      BeginAdvances(s);
    }
  }

  lemma FurtherAdvances(s: State)
    requires Driving(s) && !Preparing(s.pc)
    ensures Advances(s, InstallAct(s)) && (s.pc.Confirm? ==> InstallAct(s).disk == s.disk)
  {
    if s.pc.Backup? {
      BackupAdvances(s);
    } else if s.pc.Confirm? {
      ConfirmAdvances(s);
    } else if s.pc.BackupSync? {
      BackupSyncAdvances(s);
    } else if s.pc.Install? {
      InstallAdvances(s);
    } else if s.pc.Settle? {
      SettleAdvances(s);
    } else if s.pc.ValidateBackups? || s.pc.ValidateInstalled? {
      ValidateAdvances(s);
    } else {
      FinishAdvances(s);
    }
  }

  lemma DrivingStep(s: State)
    requires Driving(s)
    ensures var t := Step(s, Go);
      Closer(s.plan.items, t.pc, s.pc) && if t.pc.Idle? then Committed(t.disk) else Driving(t)
  {
    StepSound(s, Go);
    if Preparing(s.pc) { PrepareAdvances(s); } else { FurtherAdvances(s); }
    OnlyConfirmStops(s);
  }

  /** Only the last confirmation ends the application without an error. */
  lemma OnlyConfirmStops(s: State)
    requires WellFormed(s) && Running(s.pc) && !Backward(s.pc)
    ensures Act(s).pc.Idle? ==> s.pc.Confirm?
  {
  }

  lemma {:induction false} DrivingEnds(s: State) returns (n: nat)
    requires Driving(s)
    ensures OrderlyRun(s, Gos(n)) && Run(s, Gos(n)).pc.Idle? && Committed(Run(s, Gos(n)).disk)
    decreases Part(s.pc), |s.plan.items| + 1 - ItemOf(s.pc), Operation(s.pc), AncestorWork(s.plan.items, s.pc)
  {
    var t := Step(s, Go);
    DrivingStep(s);
    if t.pc.Idle? { n := 0; } else { n := DrivingEnds(t); }
    OneMore(s, n);
    n := n + 1;
  }

  lemma OneMore(s: State, n: nat)
    requires WellFormed(s) && Orderly(s, Go)
    ensures Run(s, Gos(n + 1)) == Run(Step(s, Go), Gos(n))
    ensures OrderlyRun(s, Gos(n + 1)) == OrderlyRun(Step(s, Go), Gos(n))
  {
    assert Gos(n + 1)[0] == Go && Gos(n + 1)[1..] == Gos(n);
  }

  /** Left alone, every application commits with every expected value live. */
  lemma UndisturbedApplyCommits(plan: Plan, dirs: seq<Dir>)
    requires ValidStart(plan, dirs) && WellFormed(Start(plan, dirs))
    ensures exists n: nat :: var s := Run(Start(plan, dirs), Gos(n));
      s.pc.Idle? && Committed(s.disk) && forall i :: 0 <= i < |s.cells| ==> Now(s, i).live == plan.items[i].expected
  {
    StartCalm(plan, dirs);
    StartTidy(plan, dirs);
    StartHomed(plan, dirs);
    var n := DrivingEnds(Start(plan, dirs));
    var s := Run(Start(plan, dirs), Gos(n));
    RunSound(Start(plan, dirs), Gos(n));
    forall i | 0 <= i < |s.cells| ensures Now(s, i).live == plan.items[i].expected {
      assert ShapedCell(plan.items[i], PhaseIn(s.disk, i), true, s.cells[i]);
    }
  }
}

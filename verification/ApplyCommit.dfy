/** When a transaction is committed and its backups go: only over a workspace that was looked at.  A commit
    is published only after every difference would have been seen, and it is completed only over installed
    values and intact backups, whatever is edited and whichever operations fail. */
module ApplyCommit {
  import opened Rows
  import opened ApplyProtocol
  import opened ApplyNoLoss
  import ApplyRecovery

  // ---- What a commit looks at ----

  /** The item is as the commit found it good: its expected value live, and its original in the backup. */
  predicate InOrder(s: State, i: nat) {
    && Now(s, i).live == ItemAt(s, i).expected
    && (ItemAt(s, i).metadataOnly || Now(s, i).previous == ItemAt(s, i).original)
  }

  predicate AllInOrder(s: State) { forall i :: 0 <= i < |s.plan.items| ==> InOrder(s, i) }

  /** An edit that the commit finds, or a backup that is not the original, keeps the transaction. */
  lemma CommitRefuses(s: State, i: nat)
    requires WellFormed(s) && i < |s.plan.items|
    requires Now(s, i).live != s.plan.items[i].expected
      || (s.disk.Some? && s.disk.value.phases[i] != Prepared && !s.plan.items[i].metadataOnly
          && Now(s, i).previous != s.plan.items[i].original)
    ensures Step(s, Commit) == s
  {
  }

  // ---- A published commit names every item ----

  predicate Begun(j: Journal, n: nat) { forall i :: 0 <= i < n && i < |j.phases| ==> j.phases[i] != Prepared }

  /** Items whose installation the journal in memory records at this point. */
  function BegunTo(pc: Pc, grouped: bool, n: nat): nat {
    match pc
    case Check(i) => if grouped then n else i
    case Parents(i, _) => if grouped then n else i
    case ParentJournal(i, _) => if grouped then n else i
    case ParentRename(i, _) => if grouped then n else i
    case Intend(i) => if grouped then n else i
    case Backup(i) => if grouped then n else i + 1
    case BackupSync(i) => if grouped then n else i + 1
    case Install(i) => if grouped then n else i + 1
    case Settle(i) => if grouped then n else i + 1
    case GroupSync => n
    case ValidateBackups => n
    case ValidateInstalled(_) => n
    case CommitWrite => n
    case _ => 0
  }

  /** Before the commit is published. */
  predicate Early(pc: Pc) { Preparing(pc) || (Running(pc) && !Backward(pc) && !pc.Confirm?) }

  predicate Recorded(s: State) {
    && WellFormed(s)
    && Begun(s.mem, BegunTo(s.pc, s.plan.grouped, |s.plan.items|))
    && (Early(s.pc) ==> !s.mem.committed && !Committed(s.disk))
    && (Committed(s.disk) ==> Begun(s.disk.value, |s.plan.items|))
  }

  lemma PrepareRecorded(s: State)
    requires Recorded(s) && Preparing(s.pc)
    ensures Recorded(PrepareAct(s))
  {
  }

  lemma MoveRecorded(s: State)
    requires Recorded(s) && (s.pc.Backup? || s.pc.BackupSync? || s.pc.Install? || s.pc.Settle?)
    ensures Recorded(InstallAct(s))
  {
  }

  lemma ValidateRecorded(s: State)
    requires Recorded(s)
    requires s.pc.GroupSync? || s.pc.ValidateBackups? || s.pc.ValidateInstalled? || s.pc.CommitWrite? || s.pc.Confirm?
    ensures Recorded(InstallAct(s))
  {
  }

  /** Rolling back publishes nothing. */
  lemma UndoKeepsJournal(s: State)
    requires WellFormed(s) && Backward(s.pc)
    ensures var t := UndoAct(s);
      && t.plan == s.plan && (Backward(t.pc) || t.pc.Idle? || t.pc.Done?)
      && (t.disk == s.disk || (s.pc.Discard? && t.disk.None? && t.pc == Done(s.pc.committed)))
  {
  }

  lemma BackwardRecorded(s: State, t: State)
    requires Recorded(s) && WellFormed(t) && t.plan == s.plan && (t.disk == s.disk || t.disk.None?)
    requires Backward(t.pc) || t.pc.Idle? || t.pc.Done?
    ensures Recorded(t)
  {
  }

  lemma UndoRecorded(s: State)
    requires Recorded(s) && Backward(s.pc)
    ensures Recorded(UndoAct(s)) && Recorded(UndoReact(s, UndoAct(s))) && Recorded(UndoReact(s, s))
  {
    UndoKeepsJournal(s);
    BackwardRecorded(s, UndoAct(s));
    BackwardRecorded(s, UndoReact(s, UndoAct(s)));
    BackwardRecorded(s, UndoReact(s, s));
  }

  lemma ActRecorded(s: State)
    requires Recorded(s)
    ensures Recorded(Act(s))
  {
    if Backward(s.pc) {
      UndoRecorded(s);
    } else if Preparing(s.pc) {
      PrepareRecorded(s);
    } else if s.pc.Backup? || s.pc.BackupSync? || s.pc.Install? || s.pc.Settle? {
      MoveRecorded(s);
    } else if Running(s.pc) {
      ValidateRecorded(s);
    }
  }

  /** After an error of the applying process nothing forward is left to be done. */
  lemma ReactRecorded(s: State, t: State)
    requires Recorded(s) && !Backward(s.pc) && Follows(s, t) && (!Running(s.pc) ==> t == s)
    requires Committed(t.disk) ==> Begun(t.disk.value, |t.plan.items|)
    ensures Recorded(React(s, t))
  {
  }

  lemma StepRecorded(s: State, e: Event)
    requires Recorded(s)
    ensures Recorded(Step(s, e))
  {
    match e
    case Go => ActRecorded(s);
    case Late =>
      if Backward(s.pc) { UndoRecorded(s); } else {
        ActRecorded(s);
        ReactRecorded(s, Act(s));
      }
    case Fail => if Backward(s.pc) { UndoRecorded(s); } else { ReactRecorded(s, Unwritten(s)); }
    case _ => OthersRecorded(s, e);
  }

  predicate OfProcess(e: Event) { e.Go? || e.Fail? || e.Late? }

  lemma OthersRecorded(s: State, e: Event)
    requires Recorded(s) && !OfProcess(e)
    ensures Recorded(Step(s, e))
  {
  }

  lemma {:induction false} RunRecorded(s: State, events: seq<Event>)
    requires Recorded(s)
    ensures Recorded(Run(s, events))
    decreases |events|
  {
    if events != [] {
      StepRecorded(s, events[0]);
      RunRecorded(Step(s, events[0]), events[1..]);
    }
  }

  lemma Reachable(plan: Plan, dirs: seq<Dir>, events: seq<Event>)
    requires ValidStart(plan, dirs)
    ensures WellFormed(Start(plan, dirs)) && Recorded(Run(Start(plan, dirs), events))
  {
    StartWellFormed(plan, dirs);
    RunRecorded(Start(plan, dirs), events);
  }

  // ---- Only a commit over a workspace in order removes a committed transaction ----

  /** A committed transaction is being removed or gone, or something was deleted as committed. */
  predicate Removing(s: State) {
    s.pc == Discard(true) || s.pc == Done(true) || exists k :: 0 <= k < |s.deleted| && s.deleted[k].committed
  }

  predicate Marked(gone: seq<Deletion>, committed: bool) {
    forall k :: 0 <= k < |gone| ==> gone[k].committed == committed
  }

  lemma {:induction false} DeletionsMarked(cells: seq<Cell>, committed: bool)
    ensures Marked(AllDeletions(cells, committed), committed)
    decreases |cells|
  {
    if cells != [] { DeletionsMarked(cells[..|cells| - 1], committed); }
  }

  lemma DiscardRemoves(s: State)
    requires WellFormed(s) && !Removing(s) && s.pc.Discard?
    ensures !Removing(UndoAct(s)) && UndoAct(s).pc != Discard(true)
  {
    DeletionsMarked(s.cells, false);
    assert UndoAct(s).deleted == s.deleted + AllDeletions(s.cells, false);
  }

  lemma UndoRemoves(s: State)
    requires WellFormed(s) && !Removing(s) && Backward(s.pc) && !s.pc.Discard?
    ensures !Removing(UndoAct(s)) && UndoAct(s).pc != Discard(true)
  {
  }

  lemma PrepareRemoves(s: State)
    requires WellFormed(s) && Preparing(s.pc)
    ensures var t := PrepareAct(s); t.deleted == s.deleted && !t.pc.Discard? && !t.pc.Done?
  {
  }

  lemma InstallRemoves(s: State)
    requires WellFormed(s) && Running(s.pc) && !Preparing(s.pc) && !Backward(s.pc)
    ensures var t := InstallAct(s); t.deleted == s.deleted && !t.pc.Discard? && !t.pc.Done?
  {
  }

  lemma ActRemoves(s: State)
    requires WellFormed(s) && !Removing(s)
    ensures !Removing(Act(s)) && Act(s).pc != Discard(true)
  {
    if s.pc.Discard? {
      DiscardRemoves(s);
    } else if Backward(s.pc) {
      UndoRemoves(s);
    } else if Preparing(s.pc) {
      PrepareRemoves(s);
    } else if Running(s.pc) {
      InstallRemoves(s);
    }
  }

  lemma ReactRemoves(s: State, t: State)
    requires !Removing(s) && !Removing(t)
    ensures !Removing(React(s, t))
  {
  }

  lemma StepRemoves(s: State, e: Event)
    requires Recorded(s) && !Removing(s) && Removing(Step(s, e))
    ensures e.Commit? && AllInOrder(s)
  {
    match e
    case Go => ActRemoves(s);
    case Late => ActRemoves(s); ReactRemoves(s, Act(s));
    case Fail => ReactRemoves(s, Unwritten(s));
    case _ =>
  }

  /** The events hold a commit call made over a workspace in order. */
  ghost predicate CommittedInOrder(s: State, events: seq<Event>) {
    exists k :: 0 <= k < |events| && events[k].Commit? && AllInOrder(Run(s, events[..k]))
  }

  lemma RunSnoc(s: State, events: seq<Event>)
    requires WellFormed(s) && events != []
    ensures var earlier, e := events[..|events| - 1], events[|events| - 1];
      Run(s, events) == Step(Run(s, earlier), e)
  {
    var earlier, e := events[..|events| - 1], events[|events| - 1];
    assert events == earlier + [e];
    ApplyRecovery.RunConcat(s, earlier, [e]);
    assert [e][1..] == [];
    assert Run(Run(s, earlier), [e]) == Run(Step(Run(s, earlier), e), []);
  }

  lemma {:induction false} RemovedInOrder(s: State, events: seq<Event>)
    requires Recorded(s) && !Removing(s) && Removing(Run(s, events))
    ensures CommittedInOrder(s, events)
    decreases |events|
  {
    var earlier, e := events[..|events| - 1], events[|events| - 1];
    RunSnoc(s, events);
    RunRecorded(s, earlier);
    if Removing(Run(s, earlier)) {
      RemovedInOrder(s, earlier);
      var k :| 0 <= k < |earlier| && earlier[k].Commit? && AllInOrder(Run(s, earlier[..k]));
      assert earlier[..k] == events[..k];
    } else {
      StepRemoves(Run(s, earlier), e);
    }
  }

  lemma CommitTakes(s: State)
    requires Recorded(s) && Step(s, Commit) != s
    ensures AllInOrder(s) && Committed(s.disk) && Step(s, Commit) == s.(pc := Discard(true))
  {
  }

  /** Over every run, whatever is edited and whichever operations fail: a commit call that does not refuse
      finds every expected value live and every original in its backup, and a backup is deleted as
      committed only after such a call. */
  lemma CommitsInOrder(plan: Plan, dirs: seq<Dir>, events: seq<Event>)
    requires ValidStart(plan, dirs)
    ensures WellFormed(Start(plan, dirs))
    ensures var s := Run(Start(plan, dirs), events);
      && (Step(s, Commit) != s ==> AllInOrder(s) && Committed(s.disk) && Step(s, Commit) == s.(pc := Discard(true)))
      && (Removing(s) ==> CommittedInOrder(Start(plan, dirs), events))
  {
    Reachable(plan, dirs, events);
    Reachable(plan, dirs, []);
    var s := Run(Start(plan, dirs), events);
    if Step(s, Commit) != s { CommitTakes(s); }
    if Removing(s) { RemovedInOrder(Start(plan, dirs), events); }
  }

  /** Where the error kinds of `Sheltered` do not strike, a deleted content is the item's expected value, or
      its original after a commit call that found everything in order. */
  lemma LossNeedsCommit(plan: Plan, dirs: seq<Dir>, events: seq<Event>, k: nat)
    requires ValidStart(plan, dirs)
    requires WellFormed(Start(plan, dirs)) && ShelteredRun(Start(plan, dirs), events)
    requires k < |Run(Start(plan, dirs), events).deleted|
    ensures var d := Run(Start(plan, dirs), events).deleted[k];
      && d.item < |plan.items|
      && (plan.items[d.item].expected == Some(d.content) ||
          (plan.items[d.item].original == Some(d.content) && CommittedInOrder(Start(plan, dirs), events)))
  {
    NoContentLost(plan, dirs, events);
    var s := Run(Start(plan, dirs), events);
    assert Allowed(plan.items, s.deleted[k]);
    if s.deleted[k].committed {
      assert Removing(s);
      CommitsInOrder(plan, dirs, events);
    }
  }

  // ---- A difference that was seen is never committed ----

  /** The next operation reads something that is not what it should be. */
  predicate SeesDifference(s: State) {
    match s.pc
    case Check(i) => i < |s.plan.items| && Now(s, i).live != ItemAt(s, i).original
    case BackupSync(i) => Now(s, i).previous != ItemAt(s, i).original
    case ValidateBackups => exists i :: 0 <= i < |s.plan.items| && LostBackup(s, i)
    case ValidateInstalled(i) => i < |s.plan.items| && Now(s, i).live != ItemAt(s, i).expected
    case _ => false
  }

  predicate LostBackup(s: State, i: nat) {
    !ItemAt(s, i).metadataOnly && Now(s, i).previous != ItemAt(s, i).original
  }

  /** Not committed, and no longer on the way to it. */
  predicate Retreated(s: State) {
    && WellFormed(s) && !Committed(s.disk)
    && ((Backward(s.pc) && s.pc != Discard(true)) || s.pc.Idle? || s.pc == Done(false))
  }

  lemma StepRetreated(s: State, e: Event)
    requires Retreated(s)
    ensures Retreated(Step(s, e))
  {
    if !OfProcess(e) {
      OthersRetreated(s, e);
    } else if Backward(s.pc) {
      UndoRetreated(s);
    }
  }

  lemma UndoRetreated(s: State)
    requires Retreated(s) && Backward(s.pc)
    ensures Retreated(UndoAct(s)) && Retreated(UndoReact(s, UndoAct(s))) && Retreated(UndoReact(s, s))
  {
    UndoKeepsJournal(s);
  }

  lemma OthersRetreated(s: State, e: Event)
    requires Retreated(s) && !OfProcess(e)
    ensures Retreated(Step(s, e))
  {
  }

  lemma {:induction false} RunRetreated(s: State, events: seq<Event>)
    requires Retreated(s)
    ensures Retreated(Run(s, events))
    decreases |events|
  {
    if events != [] {
      StepRetreated(s, events[0]);
      RunRetreated(Step(s, events[0]), events[1..]);
    }
  }

  predicate ByProcess(e: Event) { OfProcess(e) || e.Crash? }

  lemma DifferenceRetreats(s: State, e: Event)
    requires Recorded(s) && SeesDifference(s) && ByProcess(e)
    ensures Retreated(Step(s, e))
  {
  }

  /** Over every run: if a check, a backup or a validation finds a difference, no commit is ever published. */
  lemma DifferenceNeverCommits(plan: Plan, dirs: seq<Dir>, events: seq<Event>, e: Event, later: seq<Event>)
    requires ValidStart(plan, dirs)
    requires WellFormed(Start(plan, dirs)) && SeesDifference(Run(Start(plan, dirs), events)) && ByProcess(e)
    ensures var t := Run(Step(Run(Start(plan, dirs), events), e), later);
      !Committed(t.disk) && t.pc != Discard(true) && t.pc != Done(true)
  {
    Reachable(plan, dirs, events);
    DifferenceRetreats(Run(Start(plan, dirs), events), e);
    RunRetreated(Step(Run(Start(plan, dirs), events), e), later);
  }

  // ---- Everything is looked at before a commit is published ----

  /** The process looks at all backups (first), or at the live value of item `j - 1`, and finds it right. */
  predicate LooksAt(s: State, j: nat) {
    if j == 0 then s.pc.ValidateBackups? && forall i :: 0 <= i < |s.plan.items| ==> !LostBackup(s, i)
    else s.pc == ValidateInstalled(j - 1) && Now(s, j - 1).live == ItemAt(s, j - 1).expected
  }

  /** At some point of the run that look was taken. */
  ghost predicate Looked(s: State, events: seq<Event>, j: nat) {
    exists k :: 0 <= k <= |events| && LooksAt(Run(s, events[..k]), j)
  }

  /** How many looks the process has taken when it stands here. */
  function Looks(s: State): nat {
    if Committed(s.disk) || s.pc.CommitWrite? then |s.plan.items| + 1
    else if s.pc.ValidateInstalled? then s.pc.i + 1 else 0
  }

  lemma LookedLater(s: State, events: seq<Event>, j: nat)
    requires events != [] && Looked(s, events[..|events| - 1], j)
    ensures Looked(s, events, j)
  {
    var earlier := events[..|events| - 1];
    var k :| 0 <= k <= |earlier| && LooksAt(Run(s, earlier[..k]), j);
    assert earlier[..k] == events[..k];
  }

  /** At most one more look was taken, and only at something right. */
  predicate LooksOn(s: State, t: State) {
    Looks(t) <= Looks(s) || (Looks(t) == Looks(s) + 1 && LooksAt(s, Looks(s)))
  }

  lemma PrepareLooks(s: State)
    requires Recorded(s) && Preparing(s.pc)
    ensures Looks(PrepareAct(s)) == 0
  {
  }

  lemma MoveLooks(s: State)
    requires Recorded(s) && (s.pc.Backup? || s.pc.BackupSync? || s.pc.Install? || s.pc.Settle?)
    ensures Looks(InstallAct(s)) == 0
  {
  }

  lemma ValidateLooks(s: State)
    requires Recorded(s) && Early(s.pc) && !Preparing(s.pc)
    requires !(s.pc.Backup? || s.pc.BackupSync? || s.pc.Install? || s.pc.Settle?)
    ensures LooksOn(s, InstallAct(s))
  {
  }

  lemma ActLooks(s: State)
    requires Recorded(s)
    ensures LooksOn(s, Act(s))
  {
    if !Early(s.pc) {
      if Backward(s.pc) { UndoKeepsJournal(s); }
    } else if Preparing(s.pc) {
      PrepareLooks(s);
    } else if s.pc.Backup? || s.pc.BackupSync? || s.pc.Install? || s.pc.Settle? {
      MoveLooks(s);
    } else {
      ValidateLooks(s);
    }
  }

  lemma ReactLooks(s: State, t: State)
    requires Recorded(s) && Follows(s, t) && (Committed(t.disk) ==> Looks(t) <= Looks(s))
    requires !Running(s.pc) && !s.pc.Discard? ==> t == s
    requires Backward(s.pc) ==> Backward(t.pc) || t.pc.Idle? || t.pc.Done?
    ensures Looks(React(s, t)) <= Looks(s)
  {
  }

  lemma StepLooks(s: State, e: Event)
    requires Recorded(s)
    ensures LooksOn(s, Step(s, e))
  {
    match e
    case Go => ActLooks(s);
    case Late =>
      ActLooks(s);
      if Backward(s.pc) { UndoKeepsJournal(s); }
      ReactLooks(s, Act(s));
    case Fail => ReactLooks(s, Unwritten(s));
    case _ =>
  }

  lemma LookedNext(s: State, events: seq<Event>, j: nat)
    requires events != [] && WellFormed(s)
    requires var earlier := events[..|events| - 1];
      && LooksOn(Run(s, earlier), Run(s, events)) && j < Looks(Run(s, events))
      && (j < Looks(Run(s, earlier)) ==> Looked(s, earlier, j))
    ensures Looked(s, events, j)
  {
    var earlier := events[..|events| - 1];
    if j < Looks(Run(s, earlier)) { LookedLater(s, events, j); }
  }

  lemma {:induction false} LookedBefore(s: State, events: seq<Event>, j: nat)
    requires Recorded(s) && Looks(s) == 0 && j < Looks(Run(s, events))
    ensures Looked(s, events, j)
    decreases |events|
  {
    var earlier, e := events[..|events| - 1], events[|events| - 1];
    RunSnoc(s, events);
    RunRecorded(s, earlier);
    StepLooks(Run(s, earlier), e);
    if j < Looks(Run(s, earlier)) { LookedBefore(s, earlier, j); }
    LookedNext(s, events, j);
  }

  /** Over every run: when a commit is published, at some earlier point all backups held their originals,
      and for every item there was a point after the installation at which its expected value was live. */
  lemma CommitLookedAtAll(plan: Plan, dirs: seq<Dir>, events: seq<Event>, j: nat)
    requires ValidStart(plan, dirs) && j <= |plan.items|
    requires WellFormed(Start(plan, dirs)) && Committed(Run(Start(plan, dirs), events).disk)
    ensures Looked(Start(plan, dirs), events, j)
  {
    Reachable(plan, dirs, []);
    LookedBefore(Start(plan, dirs), events, j);
  }

  // ---- Nothing is installed without a backup ----

  predicate BackedUp(s: State) {
    s.pc.Install? && ItemAt(s, s.pc.i).original.Some? ==> Now(s, s.pc.i).previous == ItemAt(s, s.pc.i).original
  }

  lemma ActBackedUp(s: State)
    requires WellFormed(s) && !s.pc.Install?
    ensures BackedUp(Act(s))
  {
    if Backward(s.pc) { UndoKeepsJournal(s); }
  }

  lemma OutsideBackedUp(s: State, e: Event)
    requires WellFormed(s) && e.Outside? && s.pc.Install? && e.item < |s.cells|
    ensures Now(Step(s, e), e.item) == Now(s, e.item).(live := e.live)
  {
    OutsideCellNow(s.cells[e.item], e.live);
  }

  lemma StepBackedUp(s: State, e: Event)
    requires WellFormed(s) && BackedUp(s)
    ensures BackedUp(Step(s, e))
  {
    if e.Go? {
      if !s.pc.Install? { ActBackedUp(s); }
    } else if e.Outside? {
      if s.pc.Install? && e.item < |s.cells| { OutsideBackedUp(s, e); }
    } else {
      OthersBackedUp(s, e);
    }
  }

  lemma OthersBackedUp(s: State, e: Event)
    requires WellFormed(s) && BackedUp(s) && !e.Go? && !e.Outside?
    ensures BackedUp(Step(s, e))
  {
    if e.Fail? || e.Late? { ErrorInstallsNothing(s, if e.Late? then Act(s) else Unwritten(s)); }
  }

  lemma ErrorInstallsNothing(s: State, t: State)
    requires t.pc.Install? ==> Running(s.pc) && !Backward(s.pc)
    ensures !React(s, t).pc.Install?
  {
  }

  lemma {:induction false} RunBackedUp(s: State, events: seq<Event>)
    requires WellFormed(s) && BackedUp(s)
    ensures BackedUp(Run(s, events))
    decreases |events|
  {
    if events != [] {
      StepBackedUp(s, events[0]);
      RunBackedUp(Step(s, events[0]), events[1..]);
    }
  }

  /** Over every run, whatever is edited: a value is installed for an originally present item only when its
      original, and nothing else, lies in the backup. */
  lemma InstallsOverBackup(plan: Plan, dirs: seq<Dir>, events: seq<Event>)
    requires ValidStart(plan, dirs)
    ensures WellFormed(Start(plan, dirs))
    ensures var s := Run(Start(plan, dirs), events);
      s.pc.Install? && ItemAt(s, s.pc.i).original.Some? ==> Now(s, s.pc.i).previous == ItemAt(s, s.pc.i).original
  {
    StartWellFormed(plan, dirs);
    RunBackedUp(Start(plan, dirs), events);
  }
}

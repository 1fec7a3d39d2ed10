/** Contents are moved, never overwritten: whatever the workspace and the transaction hold, an operation
    leaves every content of an item in one of its places or lists it as deleted. */
module ApplyContents {
  import opened Rows
  import opened ApplyProtocol
  import opened ApplyNoLoss

  /** The content lies at the live path or in a private slot. */
  predicate Has(sl: Slots, c: Digest) {
    sl.live == Some(c) || sl.value == Some(c) || sl.previous == Some(c) || sl.installed == Some(c)
  }

  /** The operation lists the content of the item as deleted. */
  predicate Deletes(s: State, t: State, i: nat, c: Digest) {
    |s.deleted| <= |t.deleted| && Lists(t.deleted[|s.deleted|..], i, c)
  }

  predicate Lists(gone: seq<Deletion>, i: nat, c: Digest) {
    exists k :: 0 <= k < |gone| && gone[k].item == i && gone[k].content == c
  }

  /** Each content of item `i` stays or is listed, and only the staged value is new. */
  ghost predicate Conserves(s: State, t: State, i: nat) {
    && s.deleted <= t.deleted
    && (forall c :: Has(Now(s, i), c) ==> Has(Now(t, i), c) || Deletes(s, t, i, c))
    && (forall c :: Has(Now(t, i), c) ==> Has(Now(s, i), c) || ItemAt(s, i).expected == Some(c))
  }

  /** Nothing but the merged value is ever staged. */
  predicate Staged(it: Item, c: Cell) { c.durable.value.None? || c.durable.value == it.expected }

  predicate AllStaged(s: State) {
    WellFormed(s) && forall i :: 0 <= i < |s.cells| ==> Staged(s.plan.items[i], s.cells[i])
  }

  lemma {:induction false} ReplayStages(sl: Slots, ops: seq<LiveOp>)
    ensures Replay(sl, ops).value == sl.value || Replay(sl, ops).value.None?
    decreases |ops|
  {
    if ops != [] { ReplayStages(Perform(sl, ops[0]), ops[1..]); }
  }

  lemma NowStaged(s: State, i: nat)
    requires AllStaged(s) && i < |s.cells|
    ensures Now(s, i).value.None? || Now(s, i).value == s.plan.items[i].expected
  {
    ReplayStages(s.cells[i].durable, s.cells[i].ops);
  }

  // ---- The applying process ----

  lemma StageConserves(s: State, i: nat)
    requires AllStaged(s) && s.pc.Stage? && i < |s.cells| && !s.plan.items[i].metadataOnly
    ensures Conserves(s, PrepareAct(s), i)
  {
    NowStaged(s, i);
  }

  lemma PrepareConserves(s: State, i: nat)
    requires AllStaged(s) && Preparing(s.pc) && i < |s.cells| && !s.plan.items[i].metadataOnly
    ensures Conserves(s, PrepareAct(s), i)
  {
    if s.pc.Stage? { StageConserves(s, i); } else { assert PrepareAct(s).cells == s.cells; }
  }

  /** A rename keeps all contents if nothing lies where it goes. */
  lemma MoveConserves(s: State, i: nat, r: LiveOp)
    requires WellFormed(s) && i < |s.cells|
    requires (r.ToBackup? && Now(s, i).previous.None?) || (r.ToLive? && Now(s, i).live.None?)
    ensures forall c :: Has(Now(s, i), c) <==> Has(Now(Move(s, i, r), i), c)
    ensures forall j :: j != i ==> Now(Move(s, i, r), j) == Now(s, j)
  {
    ReplaySnoc(s.cells[i].durable, s.cells[i].ops, r);
  }

  lemma RenameConserves(s: State, i: nat)
    requires WellFormed(s) && (s.pc.Backup? || s.pc.Install?) && i < |s.cells| && !s.plan.items[i].metadataOnly
    ensures Conserves(s, InstallAct(s), i)
  {
    var j := s.pc.i;
    if s.pc.Backup? {
      if !s.plan.items[j].metadataOnly && Now(s, j).live.Some? && Now(s, j).previous.None? {
        MoveConserves(s, j, ToBackup);
      }
    } else if s.plan.items[j].expected.Some? && Now(s, j).live.None? && Now(s, j).value.Some? {
      MoveConserves(s, j, ToLive);
    }
  }

  lemma InstallConserves(s: State, i: nat)
    requires WellFormed(s) && Running(s.pc) && !Backward(s.pc) && !Preparing(s.pc)
    requires i < |s.cells| && !s.plan.items[i].metadataOnly
    ensures Conserves(s, InstallAct(s), i)
  {
    if s.pc.Backup? || s.pc.Install? { RenameConserves(s, i); }
  }

  // ---- Rolling back ----

  lemma DropConserves(s: State, i: nat)
    requires WellFormed(s) && s.pc.UndoDrop? && i < |s.cells|
    ensures Conserves(s, UndoAct(s), i)
  {
    var t := UndoAct(s);
    if i == s.pc.i && Now(s, i).installed.Some? {
      var gone := [Deletion(i, Now(s, i).installed.value, false)];
      assert t.deleted[|s.deleted|..] == gone && gone[0].item == i;
    }
  }

  lemma UndoConserves(s: State, i: nat)
    requires WellFormed(s) && Backward(s.pc) && !s.pc.Discard? && i < |s.cells| && !s.plan.items[i].metadataOnly
    ensures Conserves(s, UndoAct(s), i)
  {
    if s.pc.UndoDrop? { DropConserves(s, i); }
  }

  lemma {:induction false} DiscardListed(cells: seq<Cell>, committed: bool, i: nat, c: Digest)
    requires i < |cells| && (var sl := cells[i].Now(); Has(sl.(live := None), c))
    ensures Lists(AllDeletions(cells, committed), i, c)
    decreases |cells|
  {
    var all, last := AllDeletions(cells, committed), |cells| - 1;
    var earlier := AllDeletions(cells[..last], committed);
    if i < last {
      DiscardListed(cells[..last], committed, i, c);
      var k :| 0 <= k < |earlier| && earlier[k].item == i && earlier[k].content == c;
      assert all[k] == earlier[k];
    } else {
      var here := SlotDeletions(last, cells[last].Now(), committed);
      assert Deletion(last, c, committed) in here;
      var k :| 0 <= k < |here| && here[k] == Deletion(last, c, committed);
      assert all[|earlier| + k] == here[k];
    }
  }

  lemma DiscardConserves(s: State, i: nat)
    requires WellFormed(s) && s.pc.Discard? && i < |s.cells|
    ensures Conserves(s, UndoAct(s), i)
  {
    var t := UndoAct(s);
    var gone := AllDeletions(s.cells, s.pc.committed);
    assert t.deleted == s.deleted + gone;
    forall c | Has(Now(s, i), c) ensures Has(Now(t, i), c) || Deletes(s, t, i, c) {
      if Now(s, i).live != Some(c) {
        DiscardListed(s.cells, s.pc.committed, i, c);
        assert t.deleted[|s.deleted|..] == gone;
      }
    }
  }

  // ---- Every operation ----

  lemma ActConserves(s: State, i: nat)
    requires AllStaged(s) && i < |s.cells| && !s.plan.items[i].metadataOnly
    ensures Conserves(s, Act(s), i)
  {
    if s.pc.Discard? {
      DiscardConserves(s, i);
    } else if Backward(s.pc) {
      UndoConserves(s, i);
    } else if Preparing(s.pc) {
      PrepareConserves(s, i);
    } else if Running(s.pc) {
      InstallConserves(s, i);
    }
  }

  lemma ReactConserves(s: State, t: State, i: nat)
    requires Conserves(s, t, i)
    ensures Conserves(s, React(s, t), i)
  {
    assert React(s, t).cells == t.cells && React(s, t).deleted == t.deleted;
  }

  /** No edit was made over a rename of the item that is not synchronized. */
  predicate Unedited(c: Cell) { c.ops == [] || (|c.ops| == 1 && !c.ops[0].EditLive?) }

  /** Losing a pending rename puts the content back where it was. */
  lemma CrashConserves(s: State, kept: seq<set<nat>>, i: nat)
    requires WellFormed(s) && i < |s.cells| && Unedited(s.cells[i])
    ensures forall c :: Has(Now(s, i), c) ==> Has(Now(CrashStep(s, kept), i), c)
  {
    var c := s.cells[i];
    if |c.ops| == 1 {
      assert c.ops[1..] == [];
      assert Replay(Perform(c.durable, c.ops[0]), []) == Perform(c.durable, c.ops[0]);
    }
    if !s.pc.Done? { SurvivorIsOneOf(c, if i < |kept| then kept[i] else {}); }
  }

  /** The rollback comes to an item whose live content was not installed by it. */
  predicate FindsEdit(s: State, i: nat) {
    && WellFormed(s) && s.pc == Undo(i + 1) && i < |s.cells| && !s.plan.items[i].metadataOnly
    && s.mem.phases[i] != Prepared && AtHome(s, i)
    && var sl := Now(s, i);
       && sl.live.Some? && sl.live != s.plan.items[i].expected && sl.installed.None?
       && (sl.previous.Some? || (s.plan.items[i].original.None? && s.mem.phases[i] != Grouped))
  }

  function Aside(s: State, i: nat): State {
    Put(s, i, Now(s, i).(installed := Now(s, i).live, live := None)).(pc := UndoCheck(i))
  }

  lemma TakenAside(s: State, i: nat)
    requires FindsEdit(s, i)
    ensures UndoAct(s) == Aside(s, i) && UndoAct(Aside(s, i)) == Aside(s, i).(pc := UndoReturn(i))
  {
  }

  lemma PutBack(s: State, i: nat)
    requires FindsEdit(s, i)
    ensures var t := UndoAct(Aside(s, i).(pc := UndoReturn(i)));
      Now(t, i) == Now(s, i) && t.failed && t.pc == Undo(i) && t.deleted == s.deleted
  {
  }

  /** A foreign content that the rollback takes aside for inspection comes back to where it was, and the
      rollback ends with an error: three operations later the item's places are as before. */
  lemma EditComesBack(s: State, i: nat)
    requires FindsEdit(s, i)
    ensures var t := Run(s, [Go, Go, Go]);
      Now(t, i) == Now(s, i) && t.failed && t.pc == Undo(i) && t.deleted == s.deleted
  {
    TakenAside(s, i);
    PutBack(s, i);
    ThreeGo(s);
  }

  lemma ThreeGo(s: State)
    ensures Run(s, [Go, Go, Go]) == Step(Step(Step(s, Go), Go), Go)
  {
    assert [Go, Go, Go][1..] == [Go, Go] && [Go, Go][1..] == [Go] && [Go][1..] == [];
    var s1 := Step(s, Go);
    var s2 := Step(s1, Go);
    assert Run(s, [Go, Go, Go]) == Run(s1, [Go, Go]) == Run(s2, [Go]) == Run(Step(s2, Go), []);
  }

  // ---- Every run ----

  lemma {:induction false} KeptStages(sl: Slots, ops: seq<LiveOp>, keep: set<nat>, from: nat)
    ensures Replay(sl, Kept(ops, keep, from)).value == sl.value || Replay(sl, Kept(ops, keep, from)).value.None?
  {
    ReplayStages(sl, Kept(ops, keep, from));
  }

  lemma CellsStaged(s: State)
    requires AllStaged(s)
    ensures forall i :: 0 <= i < |s.cells| ==> Now(s, i).value.None? || Now(s, i).value == s.plan.items[i].expected
  {
    forall i | 0 <= i < |s.cells| ensures Now(s, i).value.None? || Now(s, i).value == s.plan.items[i].expected {
      NowStaged(s, i);
    }
  }

  /** Putting or moving within one item keeps what is staged. */
  predicate StagesAs(s: State, t: State) {
    && WellFormed(t) && t.plan == s.plan
    && forall i :: 0 <= i < |t.cells| && i < |s.cells| ==>
         var v := t.cells[i].durable.value;
         v == s.cells[i].durable.value || v == Now(s, i).value || v.None? || v == s.plan.items[i].expected
  }

  lemma StagedAs(s: State, t: State)
    requires AllStaged(s) && StagesAs(s, t)
    ensures AllStaged(t)
  {
    CellsStaged(s);
  }

  lemma PrepareStaged(s: State)
    requires WellFormed(s) && Preparing(s.pc)
    ensures StagesAs(s, PrepareAct(s))
  {
  }

  lemma InstallStaged(s: State)
    requires WellFormed(s) && Running(s.pc) && !Preparing(s.pc) && !Backward(s.pc)
    ensures StagesAs(s, InstallAct(s))
  {
  }

  lemma UndoStaged(s: State)
    requires WellFormed(s) && Backward(s.pc)
    ensures StagesAs(s, UndoAct(s))
  {
  }

  lemma ActStaged(s: State)
    requires AllStaged(s)
    ensures AllStaged(Act(s))
  {
    if Backward(s.pc) {
      UndoStaged(s);
    } else if Preparing(s.pc) {
      PrepareStaged(s);
    } else if Running(s.pc) {
      InstallStaged(s);
    }
    StagedAs(s, Act(s));
  }

  lemma ReactStaged(s: State, t: State)
    requires WellFormed(s) && Follows(s, t) && (s.pc.UndoParents? ==> t.mem == s.mem) && AllStaged(t)
    ensures AllStaged(React(s, t))
  {
    assert React(s, t).cells == t.cells;
  }

  lemma CrashStaged(s: State, kept: seq<set<nat>>)
    requires AllStaged(s)
    ensures AllStaged(CrashStep(s, kept))
  {
    forall i | 0 <= i < |s.cells| ensures Staged(s.plan.items[i], CrashStep(s, kept).cells[i]) {
      KeptStages(s.cells[i].durable, s.cells[i].ops, if i < |kept| then kept[i] else {}, 0);
    }
  }

  lemma StepStaged(s: State, e: Event)
    requires AllStaged(s)
    ensures AllStaged(Step(s, e))
  {
    match e
    case Go => ActStaged(s);
    case Late =>
      ActStaged(s);
      ReactStaged(s, Act(s));
    case Fail => ReactStaged(s, Unwritten(s));
    case Crash(kept) => CrashStaged(s, kept);
    case _ =>
  }

  lemma {:induction false} RunStaged(s: State, events: seq<Event>)
    requires AllStaged(s)
    ensures AllStaged(Run(s, events))
    decreases |events|
  {
    if events != [] {
      StepStaged(s, events[0]);
      RunStaged(Step(s, events[0]), events[1..]);
    }
  }

  /** In every run no operation of the protocol, whether it succeeds, fails or does both, overwrites a
      content: each content of an item lies in one of its places afterwards or is listed as deleted, and only
      the merged value comes in.  A power failure loses none either where no edit is pending over a rename. */
  lemma NothingOverwritten(plan: Plan, dirs: seq<Dir>, events: seq<Event>, e: Event, i: nat)
    requires ValidStart(plan, dirs) && i < |plan.items| && !plan.items[i].metadataOnly
    ensures WellFormed(Start(plan, dirs))
    ensures var s := Run(Start(plan, dirs), events);
      && (e.Go? || e.Fail? || e.Late? || e.Recover? || e.Commit? ==> Conserves(s, Step(s, e), i))
      && (e.Crash? && i < |s.cells| && Unedited(s.cells[i]) ==>
            forall c :: Has(Now(s, i), c) ==> Has(Now(Step(s, e), i), c))
  {
    StartWellFormed(plan, dirs);
    RunStaged(Start(plan, dirs), events);
    var s := Run(Start(plan, dirs), events);
    match e
    case Go => ActConserves(s, i);
    case Late =>
      ActConserves(s, i);
      ReactConserves(s, Act(s), i);
    case Fail =>
      assert Unwritten(s).cells == s.cells && Unwritten(s).deleted == s.deleted;
      ReactConserves(s, Unwritten(s), i);
    case Crash(kept) => if Unedited(s.cells[i]) { CrashConserves(s, kept, i); }
    case _ =>
  }

  // ---- Directories ----

  /** A metadata item has nothing in the transaction and nothing pending. */
  predicate Bare(c: Cell) {
    c.ops == [] && c.durable.value.None? && c.durable.previous.None? && c.durable.installed.None?
  }

  predicate AllBare(s: State) {
    WellFormed(s) && forall i :: 0 <= i < |s.cells| && s.plan.items[i].metadataOnly ==> Bare(s.cells[i])
  }

  /** A directory is left alone, or taken from its original mode to the merged one or back. */
  predicate ModeMoves(it: Item, before: Option<Digest>, after: Option<Digest>) {
    || after == before
    || (before == it.original && after == it.expected)
    || (before == it.expected && after == it.original)
  }

  predicate BareMoves(s: State, t: State) {
    AllBare(t) && t.plan == s.plan &&
    forall i :: 0 <= i < |s.plan.items| && s.plan.items[i].metadataOnly ==>
      ModeMoves(s.plan.items[i], Now(s, i).live, Now(t, i).live)
  }

  predicate NoGroupedMetadata(plan: Plan) {
    plan.grouped ==> forall i :: 0 <= i < |plan.items| ==> !plan.items[i].metadataOnly
  }

  lemma PrepareBare(s: State)
    requires AllBare(s) && Preparing(s.pc)
    ensures BareMoves(s, PrepareAct(s))
  {
  }

  lemma InstallBare(s: State)
    requires AllBare(s) && NoGroupedMetadata(s.plan) && Running(s.pc) && !Preparing(s.pc) && !Backward(s.pc)
    ensures BareMoves(s, InstallAct(s))
  {
  }

  lemma UndoOneBare(s: State)
    requires AllBare(s) && s.pc.Undo?
    ensures BareMoves(s, UndoAct(s))
  {
  }

  lemma UndoRestBare(s: State)
    requires AllBare(s) && (s.pc.UndoCheck? || s.pc.UndoReturn? || s.pc.UndoRestore? || s.pc.UndoDrop?)
    ensures BareMoves(s, UndoAct(s))
  {
  }

  lemma UndoBare(s: State)
    requires AllBare(s) && Backward(s.pc)
    ensures BareMoves(s, UndoAct(s))
  {
    if s.pc.Undo? {
      UndoOneBare(s);
    } else if !s.pc.UndoParents? && !s.pc.Discard? {
      UndoRestBare(s);
    }
  }

  lemma ActBare(s: State)
    requires AllBare(s) && NoGroupedMetadata(s.plan)
    ensures BareMoves(s, Act(s))
  {
    if Backward(s.pc) {
      UndoBare(s);
    } else if Preparing(s.pc) {
      PrepareBare(s);
    } else if Running(s.pc) {
      InstallBare(s);
    }
  }

  lemma ReactBare(s: State, t: State)
    requires WellFormed(s) && Follows(s, t) && (s.pc.UndoParents? ==> t.mem == s.mem) && BareMoves(s, t)
    ensures BareMoves(s, React(s, t))
  {
    assert React(s, t).cells == t.cells;
  }

  lemma StepBare(s: State, e: Event)
    requires AllBare(s) && NoGroupedMetadata(s.plan)
    ensures AllBare(Step(s, e)) && (e.Outside? || BareMoves(s, Step(s, e)))
  {
    match e
    case Go => ActBare(s);
    case Late =>
      ActBare(s);
      ReactBare(s, Act(s));
    case Fail => ReactBare(s, Unwritten(s));
    case _ =>
  }

  lemma {:induction false} RunBare(s: State, events: seq<Event>)
    requires AllBare(s) && NoGroupedMetadata(s.plan)
    ensures AllBare(Run(s, events))
    decreases |events|
  {
    if events != [] {
      StepBare(s, events[0]);
      RunBare(Step(s, events[0]), events[1..]);
    }
  }

  /** In every run a directory's mode changes, but for outside edits, only from its original to the merged
      one or back: a mode that someone else set is never overwritten. */
  lemma ModesNotOverwritten(plan: Plan, dirs: seq<Dir>, events: seq<Event>, e: Event, i: nat)
    requires ValidStart(plan, dirs) && i < |plan.items| && plan.items[i].metadataOnly && !e.Outside?
    ensures WellFormed(Start(plan, dirs))
    ensures var s := Run(Start(plan, dirs), events);
      ModeMoves(plan.items[i], Now(s, i).live, Now(Step(s, e), i).live)
  {
    StartWellFormed(plan, dirs);
    assert AllBare(Start(plan, dirs));
    RunBare(Start(plan, dirs), events);
    StepBare(Run(Start(plan, dirs), events), e);
  }
}

/** Where the guarantees end.  Errors can strike while the rollback knows more, or less, than the
    published journal; the guarantees hold exactly if none of these kinds of error can happen. */
module ApplyLimits {
  import opened Rows
  import opened ApplyProtocol
  import opened ApplyNoLoss
  import ApplyAtomic
  import ApplyHomes
  import ApplyRecovery

  /** The errors that the protocol does not withstand. */
  datatype Kind =
    | UnrecordedIntent   // recording the intent to install an originally missing item fails
    | LateCommit         // publishing the committed journal takes effect and reports an error
    | ErrorAtConfirm     // an error after the committed journal is published
    | ChangedAtConfirm   // a path is edited just after the committed journal is published

  predicate Strikes(k: Kind, s: State, e: Event)
    requires WellFormed(s)
  {
    match k
    case UnrecordedIntent => s.pc.Intend? && e.Fail? && s.plan.items[s.pc.i].original.None?
    case LateCommit => s.pc.CommitWrite? && e.Late?
    case ErrorAtConfirm => s.pc.Confirm? && (e.Fail? || e.Late?)
    case ChangedAtConfirm =>
      s.pc.Confirm? && e.Go? && s.pc.i < |s.cells| && Now(s, s.pc.i).live != s.plan.items[s.pc.i].expected
  }

  /** Only the given kinds of error strike. */
  predicate Permitted(kinds: set<Kind>, s: State, e: Event)
    requires WellFormed(s)
  {
    forall k :: Strikes(k, s, e) ==> k in kinds
  }

  predicate Obeys(kinds: set<Kind>, s: State, events: seq<Event>)
    requires WellFormed(s)
    decreases |events|
  {
    events == [] || (Permitted(kinds, s, events[0]) && Obeys(kinds, Step(s, events[0]), events[1..]))
  }

  lemma {:induction false} ObeysSnoc(kinds: set<Kind>, s: State, events: seq<Event>, e: Event)
    requires WellFormed(s) && Obeys(kinds, s, events) && Permitted(kinds, Run(s, events), e)
    ensures Obeys(kinds, s, events + [e])
    decreases |events|
  {
    if events == [] {
      assert events + [e] == [e] && [e][1..] == [];
    } else {
      assert (events + [e])[0] == events[0] && (events + [e])[1..] == events[1..] + [e];
      ObeysSnoc(kinds, Step(s, events[0]), events[1..], e);
    }
  }

  /** One content item in an existing directory. */
  function Single(original: Option<Digest>, merged: Digest): Plan {
    Plan([Item(original, Some(merged), false, [])], [], false)
  }

  function One(plan: Plan, sl: Slots, disk: Option<Journal>, mem: Journal, pc: Pc): State {
    State(plan, [Cell(sl, [])], [], {}, disk, mem, pc, false, [])
  }

  function Records(committed: bool, phase: Phase): Journal { Journal(committed, [phase], [], [Foreign(0)]) }

  /** The journal in memory is the published one. */
  function Tracked(plan: Plan, sl: Slots, committed: bool, phase: Phase, pc: Pc): State {
    One(plan, sl, Some(Records(committed, phase)), Records(committed, phase), pc)
  }

  /** The intent to install the item is not published. */
  function Untracked(plan: Plan, sl: Slots, pc: Pc): State {
    One(plan, sl, Some(Records(false, Prepared)), Records(false, Installing), pc)
  }

  predicate Reaches(kinds: set<Kind>, s: State, events: seq<Event>, t: State) {
    WellFormed(s) && Run(s, events) == t && Obeys(kinds, s, events)
  }

  lemma {:induction false} RunSnoc(s: State, events: seq<Event>, e: Event)
    requires WellFormed(s)
    ensures Run(s, events + [e]) == Step(Run(s, events), e)
    decreases |events|
  {
    if events == [] {
      assert events + [e] == [e] && [e][1..] == [];
      assert Run(s, [e]) == Run(Step(s, e), []);
    } else {
      RunSnoc(Step(s, events[0]), events[1..], e);
      assert (events + [e])[1..] == events[1..] + [e];
    }
  }

  /** No event comes from outside. */
  predicate Quiet(events: seq<Event>) {
    forall k :: 0 <= k < |events| ==> !events[k].Outside? && !events[k].OutsideDir?
  }

  /** One more event at the end of a run. */
  lemma Then(kinds: set<Kind>, s0: State, events: seq<Event>, s: State, e: Event, t: State)
      returns (events': seq<Event>, t': State)
    requires Reaches(kinds, s0, events, s) && WellFormed(s) && Step(s, e) == t && Permitted(kinds, s, e)
    ensures Reaches(kinds, s0, events', t') && t' == t && WellFormed(t)
    ensures Quiet(events) && !e.Outside? && !e.OutsideDir? ==> Quiet(events')
  {
    RunSnoc(s0, events, e);
    ObeysSnoc(kinds, s0, events, e);
    return events + [e], t;
  }

  /** The transaction is published and its value staged. */
  lemma Staged(kinds: set<Kind>, plan: Plan, o: Option<Digest>, n: Digest) returns (events: seq<Event>, s: State)
    requires plan == Single(o, n)
    ensures Reaches(kinds, Start(plan, []), events, s) && Quiet(events)
    ensures s == Tracked(plan, Slots(o, Some(n), None, None), false, Prepared, Stage(1))
  {
    var s0 := Start(plan, []);
    assert s0 == One(plan, Slots(o, None, None, None), None, Records(false, Prepared), Publish);
    events, s := [], s0;
    events, s := Then(kinds, s0, events, s, Go,
      Tracked(plan, Slots(o, None, None, None), false, Prepared, Stage(0)));
    events, s := Then(kinds, s0, events, s, Go,
      Tracked(plan, Slots(o, Some(n), None, None), false, Prepared, Stage(1)));
  }

  lemma Checking(kinds: set<Kind>, plan: Plan, o: Option<Digest>, n: Digest) returns (events: seq<Event>, s: State)
    requires plan == Single(o, n)
    ensures Reaches(kinds, Start(plan, []), events, s) && Quiet(events)
    ensures s == Tracked(plan, Slots(o, Some(n), None, None), false, Prepared, Check(0))
  {
    events, s := Staged(kinds, plan, o, n);
    events, s := Then(kinds, Start(plan, []), events, s, Go,
      Tracked(plan, Slots(o, Some(n), None, None), false, Prepared, Check(0)));
  }

  /** The original is checked, and its intent is about to be recorded. */
  lemma Intending(kinds: set<Kind>, plan: Plan, o: Option<Digest>, n: Digest) returns (events: seq<Event>, s: State)
    requires plan == Single(o, n)
    ensures Reaches(kinds, Start(plan, []), events, s) && Quiet(events)
    ensures s == Tracked(plan, Slots(o, Some(n), None, None), false, Prepared, Intend(0))
  {
    var s0 := Start(plan, []);
    events, s := Checking(kinds, plan, o, n);
    events, s := Then(kinds, s0, events, s, Go,
      Tracked(plan, Slots(o, Some(n), None, None), false, Prepared, Parents(0, 0)));
    events, s := Then(kinds, s0, events, s, Go,
      Tracked(plan, Slots(o, Some(n), None, None), false, Prepared, Intend(0)));
  }

  lemma Intended(kinds: set<Kind>, plan: Plan, o: Digest, n: Digest) returns (events: seq<Event>, s: State)
    requires plan == Single(Some(o), n)
    ensures Reaches(kinds, Start(plan, []), events, s) && Quiet(events)
    ensures s == Tracked(plan, Slots(Some(o), Some(n), None, None), false, Installing, Backup(0))
  {
    events, s := Intending(kinds, plan, Some(o), n);
    assert WithIntent(Records(false, Prepared), 0, Foreign(0)) == Records(false, Installing);
    events, s := Then(kinds, Start(plan, []), events, s, Go,
      Tracked(plan, Slots(Some(o), Some(n), None, None), false, Installing, Backup(0)));
  }

  lemma BackedUp(kinds: set<Kind>, plan: Plan, o: Digest, n: Digest) returns (events: seq<Event>, s: State)
    requires plan == Single(Some(o), n)
    ensures Reaches(kinds, Start(plan, []), events, s) && Quiet(events)
    ensures s == Tracked(plan, Slots(None, Some(n), Some(o), None), false, Installing, BackupSync(0))
  {
    events, s := Intended(kinds, plan, o, n);
    events, s := Then(kinds, Start(plan, []), events, s, Go,
      Tracked(plan, Slots(None, Some(n), Some(o), None), false, Installing, BackupSync(0)));
  }

  lemma Replaced(kinds: set<Kind>, plan: Plan, o: Digest, n: Digest) returns (events: seq<Event>, s: State)
    requires plan == Single(Some(o), n)
    ensures Reaches(kinds, Start(plan, []), events, s) && Quiet(events)
    ensures s == Tracked(plan, Slots(Some(n), None, Some(o), None), false, Installing, Settle(0))
  {
    var s0 := Start(plan, []);
    events, s := BackedUp(kinds, plan, o, n);
    events, s := Then(kinds, s0, events, s, Go,
      Tracked(plan, Slots(None, Some(n), Some(o), None), false, Installing, Install(0)));
    events, s := Then(kinds, s0, events, s, Go,
      Tracked(plan, Slots(Some(n), None, Some(o), None), false, Installing, Settle(0)));
  }

  lemma Recorded(kinds: set<Kind>, plan: Plan, o: Digest, n: Digest) returns (events: seq<Event>, s: State)
    requires plan == Single(Some(o), n)
    ensures Reaches(kinds, Start(plan, []), events, s) && Quiet(events)
    ensures s == Tracked(plan, Slots(Some(n), None, Some(o), None), false, Installed, Check(1))
  {
    events, s := Replaced(kinds, plan, o, n);
    assert WithPhase(Records(false, Installing), 0, Installed) == Records(false, Installed);
    events, s := Then(kinds, Start(plan, []), events, s, Go,
      Tracked(plan, Slots(Some(n), None, Some(o), None), false, Installed, Check(1)));
  }

  lemma Settled(kinds: set<Kind>, plan: Plan, o: Digest, n: Digest) returns (events: seq<Event>, s: State)
    requires plan == Single(Some(o), n)
    ensures Reaches(kinds, Start(plan, []), events, s) && Quiet(events)
    ensures s == Tracked(plan, Slots(Some(n), None, Some(o), None), false, Installed, ValidateBackups)
  {
    var s0 := Start(plan, []);
    events, s := Recorded(kinds, plan, o, n);
    events, s := Then(kinds, s0, events, s, Go,
      Tracked(plan, Slots(Some(n), None, Some(o), None), false, Installed, ValidateBackups));
  }

  lemma Validating(kinds: set<Kind>, plan: Plan, o: Digest, n: Digest) returns (events: seq<Event>, s: State)
    requires plan == Single(Some(o), n)
    ensures Reaches(kinds, Start(plan, []), events, s) && Quiet(events)
    ensures s == Tracked(plan, Slots(Some(n), None, Some(o), None), false, Installed, ValidateInstalled(0))
  {
    var s0 := Start(plan, []);
    events, s := Settled(kinds, plan, o, n);
    events, s := Then(kinds, s0, events, s, Go,
      Tracked(plan, Slots(Some(n), None, Some(o), None), false, Installed, ValidateInstalled(0)));
  }

  /** An undisturbed replacement is backed up, installed, validated and about to be committed. */
  lemma Committing(kinds: set<Kind>, plan: Plan, o: Digest, n: Digest) returns (events: seq<Event>, s: State)
    requires plan == Single(Some(o), n)
    ensures Reaches(kinds, Start(plan, []), events, s) && Quiet(events)
    ensures s == Tracked(plan, Slots(Some(n), None, Some(o), None), false, Installed, CommitWrite)
  {
    var s0 := Start(plan, []);
    events, s := Validating(kinds, plan, o, n);
    events, s := Then(kinds, s0, events, s, Go,
      Tracked(plan, Slots(Some(n), None, Some(o), None), false, Installed, ValidateInstalled(1)));
    events, s := Then(kinds, s0, events, s, Go,
      Tracked(plan, Slots(Some(n), None, Some(o), None), false, Installed, CommitWrite));
  }

  lemma CreatedOutside(kinds: set<Kind>, plan: Plan, n: Digest, u: Digest) returns (events: seq<Event>, s: State)
    requires plan == Single(None, n)
    ensures Reaches(kinds, Start(plan, []), events, s)
    ensures s == Tracked(plan, Slots(Some(u), Some(n), None, None), false, Prepared, Intend(0))
  {
    events, s := Intending(kinds, plan, None, n);
    events, s := Then(kinds, Start(plan, []), events, s, Outside(0, Some(u)),
      Tracked(plan, Slots(Some(u), Some(n), None, None), false, Prepared, Intend(0)));
  }

  lemma IntentUnrecorded(kinds: set<Kind>, plan: Plan, n: Digest, u: Digest)
      returns (events: seq<Event>, s: State)
    requires plan == Single(None, n) && UnrecordedIntent in kinds
    ensures Reaches(kinds, Start(plan, []), events, s)
    ensures s == Untracked(plan, Slots(Some(u), Some(n), None, None), Undo(1))
  {
    events, s := CreatedOutside(kinds, plan, n, u);
    assert WithIntent(Records(false, Prepared), 0, Foreign(0)) == Records(false, Installing);
    events, s := Then(kinds, Start(plan, []), events, s, Fail,
      Untracked(plan, Slots(Some(u), Some(n), None, None), Undo(1)));
  }

  /** The write that records the intent fails after someone created the path: the rollback moves
      their file into the transaction, which the published journal calls untouched. */
  lemma QuarantinedUnrecorded(kinds: set<Kind>, plan: Plan, n: Digest, u: Digest) returns (events: seq<Event>, s: State)
    requires plan == Single(None, n) && u != n && UnrecordedIntent in kinds
    ensures Reaches(kinds, Start(plan, []), events, s)
    ensures s == Untracked(plan, Slots(None, Some(n), None, Some(u)), UndoCheck(0))
  {
    var s0 := Start(plan, []);
    events, s := IntentUnrecorded(kinds, plan, n, u);
    events, s := Then(kinds, s0, events, s, Go,
      Untracked(plan, Slots(None, Some(n), None, Some(u)), UndoCheck(0)));
  }

  lemma RecoveringUnrecorded(kinds: set<Kind>, plan: Plan, n: Digest, u: Digest) returns (events: seq<Event>, s: State)
    requires plan == Single(None, n) && u != n && UnrecordedIntent in kinds
    ensures Reaches(kinds, Start(plan, []), events, s)
    ensures s == Tracked(plan, Slots(None, Some(n), None, Some(u)), false, Prepared, Undo(1))
  {
    var s0 := Start(plan, []);
    events, s := QuarantinedUnrecorded(kinds, plan, n, u);
    assert Lose(s, []).cells == s.cells;
    events, s := Then(kinds, s0, events, s, Crash([]),
      Untracked(plan, Slots(None, Some(n), None, Some(u)), Idle));
    events, s := Then(kinds, s0, events, s, Recover,
      Tracked(plan, Slots(None, Some(n), None, Some(u)), false, Prepared, Undo(1)));
  }

  /** Recovery then sees nothing to roll back and is about to discard it: user content is lost. */
  lemma DiscardingUnrecorded(kinds: set<Kind>, plan: Plan, n: Digest, u: Digest) returns (events: seq<Event>, s: State)
    requires plan == Single(None, n) && u != n && UnrecordedIntent in kinds
    ensures Reaches(kinds, Start(plan, []), events, s)
    ensures s == Tracked(plan, Slots(None, Some(n), None, Some(u)), false, Prepared, Discard(false))
  {
    var s0 := Start(plan, []);
    events, s := RecoveringUnrecorded(kinds, plan, n, u);
    events, s := Then(kinds, s0, events, s, Go,
      Tracked(plan, Slots(None, Some(n), None, Some(u)), false, Prepared, Undo(0)));
    events, s := Then(kinds, s0, events, s, Go,
      Tracked(plan, Slots(None, Some(n), None, Some(u)), false, Prepared, UndoParents(0)));
    events, s := Then(kinds, s0, events, s, Go,
      Tracked(plan, Slots(None, Some(n), None, Some(u)), false, Prepared, Discard(false)));
  }

  /** The kinds of error that start a rollback under a committed journal. */
  predicate Uncommits(kind: Kind) { kind.LateCommit? || kind.ErrorAtConfirm? }

  lemma Confirming(kinds: set<Kind>, plan: Plan, o: Digest, n: Digest) returns (events: seq<Event>, s: State)
    requires plan == Single(Some(o), n)
    ensures Reaches(kinds, Start(plan, []), events, s) && Quiet(events)
    ensures s == Tracked(plan, Slots(Some(n), None, Some(o), None), true, Installed, Confirm(0))
  {
    events, s := Committing(kinds, plan, o, n);
    events, s := Then(kinds, Start(plan, []), events, s, Go,
      Tracked(plan, Slots(Some(n), None, Some(o), None), true, Installed, Confirm(0)));
  }

  /** The committed journal is published, and an error starts the rollback. */
  lemma Uncommitting(kinds: set<Kind>, plan: Plan, o: Digest, n: Digest, kind: Kind)
      returns (events: seq<Event>, s: State)
    requires plan == Single(Some(o), n) && Uncommits(kind) && kind in kinds
    ensures Reaches(kinds, Start(plan, []), events, s) && Quiet(events)
    ensures s == Tracked(plan, Slots(Some(n), None, Some(o), None), true, Installed, Undo(1))
  {
    var s0 := Start(plan, []);
    if kind.LateCommit? {
      events, s := Committing(kinds, plan, o, n);
      events, s := Then(kinds, s0, events, s, Late,
        Tracked(plan, Slots(Some(n), None, Some(o), None), true, Installed, Undo(1)));
    } else {
      events, s := Confirming(kinds, plan, o, n);
      events, s := Then(kinds, s0, events, s, Fail,
        Tracked(plan, Slots(Some(n), None, Some(o), None), true, Installed, Undo(1)));
    }
  }

  lemma ChangedThenUncommitting(kinds: set<Kind>, plan: Plan, o: Digest, n: Digest, u: Digest)
      returns (events: seq<Event>, s: State)
    requires plan == Single(Some(o), n) && u != n && ChangedAtConfirm in kinds
    ensures Reaches(kinds, Start(plan, []), events, s)
    ensures s == Tracked(plan, Slots(Some(u), None, Some(o), None), true, Installed, Undo(1))
  {
    var s0 := Start(plan, []);
    events, s := Confirming(kinds, plan, o, n);
    events, s := Then(kinds, s0, events, s, Outside(0, Some(u)),
      Tracked(plan, Slots(Some(u), None, Some(o), None), true, Installed, Confirm(0)));
    events, s := Then(kinds, s0, events, s, Go,
      Tracked(plan, Slots(Some(u), None, Some(o), None), true, Installed, Undo(1)));
  }

  /** Either way the path comes to hold someone's edit when the rollback reaches it. */
  lemma EditedAfterCommit(kinds: set<Kind>, plan: Plan, o: Digest, n: Digest, u: Digest, kind: Kind)
      returns (events: seq<Event>, s: State)
    requires plan == Single(Some(o), n) && u != n && u != o && !kind.UnrecordedIntent? && kind in kinds
    ensures Reaches(kinds, Start(plan, []), events, s)
    ensures s == Tracked(plan, Slots(Some(u), None, Some(o), None), true, Installed, Undo(1))
  {
    if kind.ChangedAtConfirm? {
      events, s := ChangedThenUncommitting(kinds, plan, o, n, u);
    } else {
      events, s := Uncommitting(kinds, plan, o, n, kind);
      events, s := Then(kinds, Start(plan, []), events, s, Outside(0, Some(u)),
        Tracked(plan, Slots(Some(u), None, Some(o), None), true, Installed, Undo(1)));
    }
  }

  /** The rollback quarantines the edit and is interrupted. */
  lemma QuarantinedAfterCommit(kinds: set<Kind>, plan: Plan, o: Digest, n: Digest, u: Digest, kind: Kind)
      returns (events: seq<Event>, s: State)
    requires plan == Single(Some(o), n) && u != n && u != o && !kind.UnrecordedIntent? && kind in kinds
    ensures Reaches(kinds, Start(plan, []), events, s)
    ensures s == Tracked(plan, Slots(None, None, Some(o), Some(u)), true, Installed, Idle)
  {
    var s0 := Start(plan, []);
    events, s := EditedAfterCommit(kinds, plan, o, n, u, kind);
    events, s := Then(kinds, s0, events, s, Go,
      Tracked(plan, Slots(None, None, Some(o), Some(u)), true, Installed, UndoCheck(0)));
    assert Lose(s, []).cells == s.cells;
    events, s := Then(kinds, s0, events, s, Crash([]),
      Tracked(plan, Slots(None, None, Some(o), Some(u)), true, Installed, Idle));
  }

  /** Once the path holds the merged value again, the commit validates and is about to discard it. */
  lemma CommittingOverQuarantine(kinds: set<Kind>, plan: Plan, o: Digest, n: Digest, u: Digest, kind: Kind)
      returns (events: seq<Event>, s: State)
    requires plan == Single(Some(o), n) && u != n && u != o && !kind.UnrecordedIntent? && kind in kinds
    ensures Reaches(kinds, Start(plan, []), events, s)
    ensures s == Tracked(plan, Slots(Some(n), None, Some(o), Some(u)), true, Installed, Discard(true))
  {
    var s0 := Start(plan, []);
    events, s := QuarantinedAfterCommit(kinds, plan, o, n, u, kind);
    events, s := Then(kinds, s0, events, s, Outside(0, Some(n)),
      Tracked(plan, Slots(Some(n), None, Some(o), Some(u)), true, Installed, Idle));
    events, s := Then(kinds, s0, events, s, Commit,
      Tracked(plan, Slots(Some(n), None, Some(o), Some(u)), true, Installed, Discard(true)));
  }

  /** A rollback under a committed journal restores the original and is interrupted. */
  lemma RolledBackUnderCommit(kinds: set<Kind>, plan: Plan, o: Digest, n: Digest, kind: Kind)
      returns (events: seq<Event>, s: State)
    requires plan == Single(Some(o), n) && Uncommits(kind) && kind in kinds
    ensures Reaches(kinds, Start(plan, []), events, s) && Quiet(events)
    ensures s == Tracked(plan, Slots(Some(o), None, None, Some(n)), true, Installed, UndoDrop(0))
  {
    var s0 := Start(plan, []);
    events, s := UndoingCommit(kinds, plan, o, n, kind);
    events, s := Then(kinds, s0, events, s, Go,
      Tracked(plan, Slots(None, None, Some(o), Some(n)), true, Installed, UndoRestore(0)));
    events, s := Then(kinds, s0, events, s, Go,
      Tracked(plan, Slots(Some(o), None, None, Some(n)), true, Installed, UndoDrop(0)));
  }

  lemma UndoingCommit(kinds: set<Kind>, plan: Plan, o: Digest, n: Digest, kind: Kind)
      returns (events: seq<Event>, s: State)
    requires plan == Single(Some(o), n) && Uncommits(kind) && kind in kinds
    ensures Reaches(kinds, Start(plan, []), events, s) && Quiet(events)
    ensures s == Tracked(plan, Slots(None, None, Some(o), Some(n)), true, Installed, UndoCheck(0))
  {
    events, s := Uncommitting(kinds, plan, o, n, kind);
    events, s := Then(kinds, Start(plan, []), events, s, Go,
      Tracked(plan, Slots(None, None, Some(o), Some(n)), true, Installed, UndoCheck(0)));
  }

  /** Discarding a transaction that holds undeletable content loses it. */
  lemma DiscardLoses(kinds: set<Kind>, s0: State, events: seq<Event>, s: State) returns (events': seq<Event>)
    requires Reaches(kinds, s0, events, s) && WellFormed(s) && s.pc.Discard? && s.deleted == [] && |s.cells| > 0
    requires !SlotsClear(s.plan.items[0], Now(s, 0), s.pc.committed)
    ensures Reaches(kinds, s0, events', DiscardStep(s, s.pc.committed))
    ensures !AllAllowed(s.plan.items, DiscardStep(s, s.pc.committed).deleted)
  {
    var t;
    events', t := Then(kinds, s0, events, s, Go, DiscardStep(s, s.pc.committed));
    DiscardLossless(s.plan.items, s.cells, s.pc.committed);
    assert t.deleted == AllDeletions(s.cells, s.pc.committed);
  }

  // ---- A recovery that can never succeed ----

  /** One new file in a directory that is missing too. */
  function NestPlan(n: Digest): Plan { Plan([Item(None, Some(n), false, [0])], [[]], false) }

  function Nested(phase: Phase, created: seq<nat>, home: Dir): Journal { Journal(false, [phase], created, [home]) }

  function Nest(n: Digest, dir: Dir, staged: set<nat>, value: Option<Digest>, disk: Option<Journal>, mem: Journal,
                pc: Pc): State {
    State(NestPlan(n), [Cell(Slots(None, value, None, None), [])], [dir], staged, disk, mem, pc, false, [])
  }

  function NestTracked(n: Digest, dir: Dir, staged: set<nat>, value: Option<Digest>, j: Journal, pc: Pc): State {
    Nest(n, dir, staged, value, Some(j), j, pc)
  }

  /** One missing file in one missing directory: published and staged. */
  lemma NestStaged(n: Digest) returns (events: seq<Event>, s: State)
    ensures Reaches({}, Start(NestPlan(n), [Absent]), events, s) && Quiet(events)
    ensures s == NestTracked(n, Absent, {}, Some(n), Nested(Prepared, [], Absent), Stage(1))
  {
    var s0 := Start(NestPlan(n), [Absent]);
    assert s0 == Nest(n, Absent, {}, None, None, Nested(Prepared, [], Absent), Publish);
    events, s := [], s0;
    events, s := Then({}, s0, events, s, Go,
      NestTracked(n, Absent, {}, None, Nested(Prepared, [], Absent), Stage(0)));
    events, s := Then({}, s0, events, s, Go,
      NestTracked(n, Absent, {}, Some(n), Nested(Prepared, [], Absent), Stage(1)));
  }

  lemma NestChecked(n: Digest) returns (events: seq<Event>, s: State)
    ensures Reaches({}, Start(NestPlan(n), [Absent]), events, s) && Quiet(events)
    ensures s == NestTracked(n, Absent, {}, Some(n), Nested(Prepared, [], Absent), Parents(0, 0))
  {
    var s0 := Start(NestPlan(n), [Absent]);
    events, s := NestStaged(n);
    events, s := Then({}, s0, events, s, Go,
      NestTracked(n, Absent, {}, Some(n), Nested(Prepared, [], Absent), Check(0)));
    events, s := Then({}, s0, events, s, Go,
      NestTracked(n, Absent, {}, Some(n), Nested(Prepared, [], Absent), Parents(0, 0)));
  }

  lemma NestAsked(n: Digest) returns (events: seq<Event>, s: State)
    ensures Reaches({}, Start(NestPlan(n), [Absent]), events, s) && Quiet(events)
    ensures s == Nest(n, Absent, {0}, Some(n), Some(Nested(Prepared, [], Absent)), Nested(Prepared, [0], Absent),
      ParentJournal(0, 0))
  {
    events, s := NestChecked(n);
    assert [] + [0] == [0] && {} + {0} == {0};
    assert s.plan.items[0].parents == [0] && DirAt(s.dirs, 0) == Absent && |s.mem.created| == 0;
    events, s := Then({}, Start(NestPlan(n), [Absent]), events, s, Go,
      Nest(n, Absent, {0}, Some(n), Some(Nested(Prepared, [], Absent)), Nested(Prepared, [0], Absent),
        ParentJournal(0, 0)));
  }

  lemma NestListed(n: Digest) returns (events: seq<Event>, s: State)
    ensures Reaches({}, Start(NestPlan(n), [Absent]), events, s) && Quiet(events)
    ensures s == NestTracked(n, Absent, {0}, Some(n), Nested(Prepared, [0], Absent), ParentRename(0, 0))
  {
    var s0 := Start(NestPlan(n), [Absent]);
    events, s := NestAsked(n);
    assert s.mem.created[..0] == [];
    events, s := Then({}, s0, events, s, Go,
      NestTracked(n, Absent, {0}, Some(n), Nested(Prepared, [0], Absent), ParentRename(0, 0)));
  }

  /** The directory is made. */
  lemma NestMade(n: Digest) returns (events: seq<Event>, s: State)
    ensures Reaches({}, Start(NestPlan(n), [Absent]), events, s) && Quiet(events)
    ensures s == NestTracked(n, Made(0), {}, Some(n), Nested(Prepared, [0], Absent), Intend(0))
  {
    var s0 := Start(NestPlan(n), [Absent]);
    events, s := NestListed(n);
    assert {0} - {0} == {} && [Absent][0 := Made(0)] == [Made(0)];
    events, s := Then({}, s0, events, s, Go,
      NestTracked(n, Made(0), {}, Some(n), Nested(Prepared, [0], Absent), Parents(0, 1)));
    events, s := Then({}, s0, events, s, Go,
      NestTracked(n, Made(0), {}, Some(n), Nested(Prepared, [0], Absent), Intend(0)));
  }

  lemma NestBegun(n: Digest) returns (events: seq<Event>, s: State)
    ensures Reaches({}, Start(NestPlan(n), [Absent]), events, s) && Quiet(events)
    ensures s == NestTracked(n, Made(0), {}, Some(n), Nested(Installing, [0], Made(0)), Backup(0))
  {
    var s0 := Start(NestPlan(n), [Absent]);
    events, s := NestMade(n);
    assert WithIntent(Nested(Prepared, [0], Absent), 0, Made(0)) == Nested(Installing, [0], Made(0));
    events, s := Then({}, s0, events, s, Go,
      NestTracked(n, Made(0), {}, Some(n), Nested(Installing, [0], Made(0)), Backup(0)));
  }

  /** The operation on the item fails. */
  lemma NestFailed(n: Digest) returns (events: seq<Event>, s: State)
    ensures Reaches({}, Start(NestPlan(n), [Absent]), events, s) && Quiet(events)
    ensures s == NestTracked(n, Made(0), {}, Some(n), Nested(Installing, [0], Made(0)), Undo(1))
  {
    var s0 := Start(NestPlan(n), [Absent]);
    events, s := NestBegun(n);
    events, s := Then({}, s0, events, s, Fail,
      NestTracked(n, Made(0), {}, Some(n), Nested(Installing, [0], Made(0)), Undo(1)));
  }

  lemma NestUndone(n: Digest) returns (events: seq<Event>, s: State)
    ensures Reaches({}, Start(NestPlan(n), [Absent]), events, s) && Quiet(events)
    ensures s == NestTracked(n, Made(0), {}, Some(n), Nested(Installing, [0], Made(0)), UndoParents(1))
  {
    var s0 := Start(NestPlan(n), [Absent]);
    events, s := NestFailed(n);
    events, s := Then({}, s0, events, s, Go,
      NestTracked(n, Made(0), {}, Some(n), Nested(Installing, [0], Made(0)), Undo(0)));
    events, s := Then({}, s0, events, s, Go,
      NestTracked(n, Made(0), {}, Some(n), Nested(Installing, [0], Made(0)), UndoParents(1)));
  }

  /** The rollback removes the directory it made. */
  lemma NestRemoved(n: Digest) returns (events: seq<Event>, s: State)
    ensures Reaches({}, Start(NestPlan(n), [Absent]), events, s) && Quiet(events)
    ensures s == NestTracked(n, Absent, {}, Some(n), Nested(Installing, [0], Made(0)), UndoParents(0))
  {
    var s0 := Start(NestPlan(n), [Absent]);
    events, s := NestUndone(n);
    assert [Made(0)][0 := Absent] == [Absent];
    events, s := Then({}, s0, events, s, Go,
      NestTracked(n, Absent, {}, Some(n), Nested(Installing, [0], Made(0)), UndoParents(0)));
  }

  /** It is stopped before it removes the transaction. */
  lemma NestStopped(n: Digest) returns (events: seq<Event>, s: State)
    ensures Reaches({}, Start(NestPlan(n), [Absent]), events, s) && Quiet(events)
    ensures s == NestTracked(n, Absent, {}, Some(n), Nested(Installing, [0], Made(0)), Idle)
  {
    var s0 := Start(NestPlan(n), [Absent]);
    events, s := NestRemoved(n);
    assert Lose(s, []).cells == s.cells;
    events, s := Then({}, s0, events, s, Crash([]),
      NestTracked(n, Absent, {}, Some(n), Nested(Installing, [0], Made(0)), Idle));
  }

  /** A rollback stopped after it removed a directory leaves a transaction that no recovery can remove. */
  lemma RecoveryStrands(n: Digest) returns (events: seq<Event>)
    ensures var s0 := Start(NestPlan(n), [Absent]);
      && ValidStart(NestPlan(n), [Absent]) && WellFormed(s0) && ApplyAtomic.OrderlyRun(s0, events)
      && var s := Run(s0, events); !s.pc.Done? && !Committed(s.disk) && !ApplyHomes.Housed(s)
  {
    var s;
    events, s := NestStopped(n);
    QuietOrderly({}, Start(NestPlan(n), [Absent]), events);
    assert HomeOf(s.plan.items[0], s.dirs) == Absent;
  }

  // ---- Exactly which errors break the guarantees ----

  /** The run deletes nothing but installed content and, after a commit, backups. */
  ghost predicate Lossless(plan: Plan, dirs: seq<Dir>, events: seq<Event>) {
    WellFormed(Start(plan, dirs)) ==> AllAllowed(plan.items, Run(Start(plan, dirs), events).deleted)
  }

  /** A published commit stands over the expected values. */
  ghost predicate Untorn(plan: Plan, dirs: seq<Dir>, events: seq<Event>) {
    WellFormed(Start(plan, dirs)) ==>
      var s := Run(Start(plan, dirs), events);
      !s.pc.Done? && Committed(s.disk) ==> forall i :: 0 <= i < |s.cells| ==> Now(s, i).live == plan.items[i].expected
  }

  predicate Possible(kinds: set<Kind>, plan: Plan, dirs: seq<Dir>, events: seq<Event>) {
    ValidStart(plan, dirs) && WellFormed(Start(plan, dirs)) && Obeys(kinds, Start(plan, dirs), events)
  }

  /** Each kind of error has a run in which content its user created is lost. */
  lemma KindLoses(kinds: set<Kind>, kind: Kind, o: Digest, n: Digest, u: Digest)
      returns (plan: Plan, events: seq<Event>)
    requires kind in kinds && u != n && u != o
    ensures Possible(kinds, plan, [], events) && !Lossless(plan, [], events)
  {
    plan := Single(if kind.UnrecordedIntent? then None else Some(o), n);
    var s;
    if kind.UnrecordedIntent? {
      events, s := DiscardingUnrecorded(kinds, plan, n, u);
    } else {
      events, s := CommittingOverQuarantine(kinds, plan, o, n, u, kind);
    }
    events := DiscardLoses(kinds, Start(plan, []), events, s);
  }

  /** A rollback that starts under a committed journal can leave it over the original, with no outside edit at all. */
  lemma KindTears(kinds: set<Kind>, kind: Kind, o: Digest, n: Digest) returns (plan: Plan, events: seq<Event>)
    requires kind in kinds && Uncommits(kind) && o != n
    ensures Possible(kinds, plan, [], events) && Quiet(events) && !Untorn(plan, [], events)
  {
    plan := Single(Some(o), n);
    var s;
    events, s := RolledBackUnderCommit(kinds, plan, o, n, kind);
    assert Now(s, 0).live == Some(o);
  }

  lemma {:induction false} ObeyingSheltered(s: State, events: seq<Event>)
    requires WellFormed(s) && Obeys({}, s, events)
    ensures ShelteredRun(s, events)
    decreases |events|
  {
    if events != [] {
      NoneStrikes(s, events[0]);
      ObeyingSheltered(Step(s, events[0]), events[1..]);
    }
  }

  lemma NoneStrikes(s: State, e: Event)
    requires WellFormed(s) && Permitted({}, s, e)
    ensures Sheltered(s, e)
  {
    assert !Strikes(UnrecordedIntent, s, e) && !Strikes(LateCommit, s, e) && !Strikes(ErrorAtConfirm, s, e);
    assert !Strikes(ChangedAtConfirm, s, e);
  }

  lemma {:induction false} QuietOrderly(kinds: set<Kind>, s: State, events: seq<Event>)
    requires WellFormed(s) && Obeys(kinds, s, events) && Quiet(events) && LateCommit !in kinds
    requires ErrorAtConfirm !in kinds
    ensures ApplyAtomic.OrderlyRun(s, events)
    decreases |events|
  {
    if events != [] {
      assert !Strikes(LateCommit, s, events[0]) && !Strikes(ErrorAtConfirm, s, events[0]);
      assert !events[0].Outside? && !events[0].OutsideDir?;
      forall k | 0 <= k < |events| - 1 ensures events[1..][k] == events[k + 1] {}
      QuietOrderly(kinds, Step(s, events[0]), events[1..]);
    }
  }

  /** No content is ever lost exactly if none of the four kinds of error can happen. */
  lemma LosslessExactly(kinds: set<Kind>)
    ensures (forall plan, dirs, events :: Possible(kinds, plan, dirs, events) ==> Lossless(plan, dirs, events)) <==>
        kinds == {}
  {
    if kinds == {} {
      forall plan, dirs, events | Possible(kinds, plan, dirs, events) ensures Lossless(plan, dirs, events) {
        ObeyingSheltered(Start(plan, dirs), events);
        NoContentLost(plan, dirs, events);
      }
    } else {
      var kind :| kind in kinds;
      var plan, events := KindLoses(kinds, kind, "original", "merged", "edit");
    }
  }

  /** Without outside edits, a committed journal always stands over all expected values exactly if no
      error can start a rollback under it. */
  lemma UntornExactly(kinds: set<Kind>)
    ensures (forall plan, dirs, events :: Possible(kinds, plan, dirs, events) && Quiet(events) ==>
        Untorn(plan, dirs, events))
      <==> (LateCommit !in kinds && ErrorAtConfirm !in kinds)
  {
    if LateCommit !in kinds && ErrorAtConfirm !in kinds {
      forall plan, dirs, events | Possible(kinds, plan, dirs, events) && Quiet(events)
        ensures Untorn(plan, dirs, events)
      {
        QuietOrderly(kinds, Start(plan, dirs), events);
        ApplyRecovery.CrashAtomicity(plan, dirs, events);
        var s := Run(Start(plan, dirs), events);
        if !s.pc.Done? && Committed(s.disk) {
          forall i | 0 <= i < |s.cells| ensures Now(s, i).live == plan.items[i].expected {
            var keep := NothingLost(s.cells[i]);
          }
        }
      }
    } else {
      var plan, events := KindTears(kinds, if LateCommit in kinds then
          LateCommit else ErrorAtConfirm, "original", "merged");
    }
  }

  /** What is there now is one of the states a failure can leave. */
  lemma NothingLost(c: Cell) returns (keep: set<nat>)
    ensures Survivor(c, keep) == c.Now()
  {
    keep := AllPositions(c.ops, 0);
  }

  lemma {:induction false} AllPositions(ops: seq<LiveOp>, from: nat) returns (keep: set<nat>)
    ensures Kept(ops, keep, from) == ops && forall k :: k in keep ==> k >= from
    decreases |ops|
  {
    keep := {};
    if ops != [] {
      var rest := AllPositions(ops[1..], from + 1);
      keep := rest + {from};
      KeptIrrelevant(ops[1..], rest, keep, from + 1);
      assert ops == [ops[0]] + ops[1..];
    }
  }

  lemma {:induction false} KeptIrrelevant(ops: seq<LiveOp>, a: set<nat>, b: set<nat>, from: nat)
    requires forall k :: k >= from ==> (k in a <==> k in b)
    ensures Kept(ops, a, from) == Kept(ops, b, from)
    decreases |ops|
  {
    if ops != [] { KeptIrrelevant(ops[1..], a, b, from + 1); }
  }

  // ---- Exactly when removing the transaction loses nothing ----

  predicate Deletable(it: Item, content: Option<Digest>, committed: bool) {
    content.None? || content == it.expected || (committed && content == it.original)
  }

  lemma LoggedAllowed(items: seq<Item>, i: nat, content: Option<Digest>, committed: bool)
    requires i < |items|
    ensures AllAllowed(items, Logged(i, content, committed)) <==> Deletable(items[i], content, committed)
  {
    if content.Some? { assert Logged(i, content, committed)[0] == Deletion(i, content.value, committed); }
  }

  lemma AllowedConcat(items: seq<Item>, a: seq<Deletion>, b: seq<Deletion>)
    ensures AllAllowed(items, a + b) <==> AllAllowed(items, a) && AllAllowed(items, b)
  {
    if AllAllowed(items, a + b) {
      forall k | 0 <= k < |a| ensures Allowed(items, a[k]) { assert (a + b)[k] == a[k]; }
      forall k | 0 <= k < |b| ensures Allowed(items, b[k]) { assert (a + b)[|a| + k] == b[k]; }
    }
  }

  predicate SlotsClear(it: Item, sl: Slots, committed: bool) {
    Deletable(it, sl.value, committed) && Deletable(it, sl.previous, committed) &&
        Deletable(it, sl.installed, committed)
  }

  /** Removing the transaction is lossless exactly when every slot of every item is deletable. */
  lemma {:induction false} DiscardLossless(items: seq<Item>, cells: seq<Cell>, committed: bool)
    requires |cells| <= |items|
    ensures AllAllowed(items, AllDeletions(cells, committed)) <==>
      forall i :: 0 <= i < |cells| ==> SlotsClear(items[i], cells[i].Now(), committed)
  {
    if cells != [] {
      var i := |cells| - 1;
      var sl := cells[i].Now();
      DiscardLossless(items, cells[..i], committed);
      LoggedAllowed(items, i, sl.value, committed);
      LoggedAllowed(items, i, sl.previous, committed);
      LoggedAllowed(items, i, sl.installed, committed);
      AllowedConcat(items, Logged(i, sl.value, committed) + Logged(i, sl.previous, committed),
          Logged(i, sl.installed, committed));
      AllowedConcat(items, Logged(i, sl.value, committed), Logged(i, sl.previous, committed));
      AllowedConcat(items, AllDeletions(cells[..i], committed), SlotDeletions(i, sl, committed));
    }
  }
}

/** Checkpoint progress: every completed receipt is consumed once, at the revision it is bound to,
    however often a call is stopped between binding the receipt and publishing the checkpoint. */
module Checkpoints {
  import opened Rows
  import opened Manifests
  import opened Delta
  import opened Accept

  const MaxRevision: nat := 0xFFFF_FFFF_FFFF_FFFF

  /** An unsigned 64-bit revision. */
  type Revision = n: nat | n <= 0xFFFF_FFFF_FFFF_FFFF

  /** Which relationship and revision a receipt is consumed at. */
  datatype Binding = Binding(state: string, source: string, initialRoot: string, revision: Revision)

  datatype Receipt = Receipt(bundleRoot: string, selection: seq<string>, outcome: Option<Report>,
      binding: Option<Binding>)

  datatype Checkpoint = Checkpoint(source: string, initialRoot: string, revision: Revision, manifest: seq<Entry>,
                                   lastReceipt: string, lastRequest: string)

  /** Checkpoints by state path, receipts by receipt path. */
  datatype Disk = Disk(checkpoints: map<string, Checkpoint>, receipts: map<string, Receipt>)

  /** Hashing, bundle validation and folding, as the host computes them. */
  datatype Host = Host(rootHash: seq<Entry> -> string, bundleRoot: Bundle -> string, digest: Receipt -> string,
                       valid: (seq<string>, Report, Bundle) -> bool,
                       accept: (seq<Entry>, Bundle, Report) -> Option<seq<Entry>>)

  datatype Reply = Version(revision: Revision, manifest: seq<Entry>) | Refused | Stopped

  /** Where a call stops: not at all, before its first write, or between its two writes. */
  datatype Stop = Never | BeforeWrites | AfterBinding

  datatype Answer = Answer(disk: Disk, reply: Reply, consumed: bool)

  // ---- Initialize ----

  function InitializeStep(h: Host, d: Disk, state: string, source: string, base: seq<Entry>, stop: Stop): Answer {
    if state in d.checkpoints then
      var c := d.checkpoints[state];
      Answer(d, if c.initialRoot == h.rootHash(base) then Version(c.revision, c.manifest) else Refused, false)
    else if stop != Never then Answer(d, Stopped, false)
    else Answer(d.(checkpoints := d.checkpoints[state := Checkpoint(source, h.rootHash(base), 0, base, "", "")]),
        Version(0, base), false)
  }

  // ---- Advance ----

  /** One call: consume `receipt` for `bundle` at `expected`. */
  datatype Call = Call(state: string, expected: Revision, receipt: string, bundle: Bundle, baseline: string)

  function BindingFor(c: Checkpoint, a: Call): Binding { Binding(a.state, c.source, c.initialRoot, a.expected) }

  predicate Acceptable(h: Host, d: Disk, a: Call) {
    && a.state in d.checkpoints && a.receipt in d.receipts
    && var r, b := d.receipts[a.receipt], BindingFor(d.checkpoints[a.state], a);
       r.bundleRoot == h.bundleRoot(a.bundle) && r.outcome.Some? && h.valid(r.selection, r.outcome.value, a.bundle) &&
           (r.binding.None? || r.binding == Some(b))
  }

  function Bound(d: Disk, a: Call): Receipt
    requires a.state in d.checkpoints && a.receipt in d.receipts
  { d.receipts[a.receipt].(binding := Some(BindingFor(d.checkpoints[a.state], a))) }

  /** The latest advance is being repeated. */
  predicate Repeats(h: Host, d: Disk, a: Call)
    requires a.state in d.checkpoints && a.receipt in d.receipts
  {
    var c := d.checkpoints[a.state];
    a.expected < MaxRevision && c.revision == a.expected + 1 && c.lastReceipt == a.receipt &&
        c.lastRequest == h.digest(Bound(d, a))
  }

  predicate Current(h: Host, d: Disk, a: Call)
    requires a.state in d.checkpoints && a.receipt in d.receipts
  {
    var c := d.checkpoints[a.state];
    c.revision == a.expected && a.expected != MaxRevision && h.rootHash(c.manifest) == a.baseline
  }

  function AdvanceStep(h: Host, d: Disk, a: Call, stop: Stop): Answer {
    if !Acceptable(h, d, a) then Answer(d, Refused, false)
    else
      var c := d.checkpoints[a.state];
      if Repeats(h, d, a) then Answer(d, Version(c.revision, c.manifest), false)
      else if !Current(h, d, a) then Answer(d, Refused, false)
      else
        var next := h.accept(c.manifest, a.bundle, d.receipts[a.receipt].outcome.value);
        if next.None? then Answer(d, Refused, false)
        else if stop == BeforeWrites then Answer(d, Stopped, false)
        else
          var r := Bound(d, a);
          var d' := d.(receipts := d.receipts[a.receipt := r]);
          if stop == AfterBinding then Answer(d', Stopped, false)
          else Answer(d'.(checkpoints := d.checkpoints[a.state :=
                 c.(manifest := next.value, revision := c.revision + 1, lastReceipt := a.receipt,
                     lastRequest := h.digest(r))]),
                 Version(c.revision + 1, next.value), true)
  }

  // ---- Runs ----

  /** A receipt consumed by a checkpoint: where, for which bundle, with which outcome and against which base. */
  datatype Consumption = Consumption(receipt: string, state: string, revision: Revision, bundle: Bundle,
                                     outcome: Report, baseline: string)

  function ConsumptionOf(d: Disk, a: Call): Consumption
    requires a.receipt in d.receipts && d.receipts[a.receipt].outcome.Some?
  { Consumption(a.receipt, a.state, a.expected, a.bundle, d.receipts[a.receipt].outcome.value, a.baseline) }

  /** The disk, the snapshot each checkpoint was created with, and every consumption so far. */
  datatype World = World(disk: Disk, created: map<string, seq<Entry>>, log: seq<Consumption>)

  datatype Event =
    | Initialize(state: string, source: string, base: seq<Entry>, stop: Stop)
    | Advance(call: Call, stop: Stop)
    | Complete(receipt: string, value: Receipt)   // an application finishes and leaves a new receipt

  function Step(h: Host, w: World, e: Event): World {
    match e
    case Initialize(state, source, base, stop) =>
      var r := InitializeStep(h, w.disk, state, source, base, stop);
      var first := r.reply.Version? && state !in w.disk.checkpoints;
      World(r.disk, if first then w.created[state := base] else w.created, w.log)
    case Advance(a, stop) =>
      var r := AdvanceStep(h, w.disk, a, stop);
      w.(disk := r.disk, log := if r.consumed then w.log + [ConsumptionOf(w.disk, a)] else w.log)
    case Complete(receipt, value) =>
      if receipt in w.disk.receipts then w
      else w.(disk := w.disk.(receipts := w.disk.receipts[receipt := value.(binding := None)]))
  }

  function Run(h: Host, w: World, events: seq<Event>): World
    decreases |events|
  {
    if events == [] then w else Run(h, Step(h, w, events[0]), events[1..])
  }

  const Empty: World := World(Disk(map[], map[]), map[], [])

  // ---- The invariant ----

  /** How often a checkpoint has been advanced. */
  function Advances(log: seq<Consumption>, state: string): nat {
    if log == [] then 0 else Advances(log[..|log| - 1], state) + if log[|log| - 1].state == state then 1 else 0
  }

  /** A consumed receipt is bound to the place where it was consumed, and is a valid one of the bundle. */
  predicate Recorded(h: Host, d: Disk, x: Consumption) {
    && x.state in d.checkpoints && x.receipt in d.receipts
    && var c, r := d.checkpoints[x.state], d.receipts[x.receipt];
       && x.revision < c.revision && r.binding == Some(Binding(x.state, c.source, c.initialRoot, x.revision))
       && r.outcome == Some(x.outcome) && r.bundleRoot == h.bundleRoot(x.bundle)
       && h.valid(r.selection, x.outcome, x.bundle)
  }

  /** The accepted source: a checkpoint's consumptions folded, in order, into its first snapshot, each
      against the base it names. */
  function Folded(h: Host, base: seq<Entry>, log: seq<Consumption>, state: string): Option<seq<Entry>> {
    if log == [] then Some(base) else
      var before, x := Folded(h, base, log[..|log| - 1], state), log[|log| - 1];
      if x.state != state then before
      else if before.None? || h.rootHash(before.value) != x.baseline then None
      else h.accept(before.value, x.bundle, x.outcome)
  }

  /** What a checkpoint holds is the fold. */
  predicate Accounted(h: Host, w: World, state: string)
    requires state in w.disk.checkpoints
  {
    && state in w.created && w.disk.checkpoints[state].initialRoot == h.rootHash(w.created[state])
    && Folded(h, w.created[state], w.log, state) == Some(w.disk.checkpoints[state].manifest)
  }

  predicate Latest(h: Host, d: Disk, state: string)
    requires state in d.checkpoints
  {
    var c := d.checkpoints[state];
    c.revision > 0 ==>
      && c.lastReceipt in d.receipts && c.lastRequest == h.digest(d.receipts[c.lastReceipt])
      && d.receipts[c.lastReceipt].binding == Some(Binding(state, c.source, c.initialRoot, c.revision - 1))
  }

  /** The consumptions of each checkpoint are at revisions 0, 1, 2 and so on. */
  predicate InOrder(log: seq<Consumption>) {
    forall i :: 0 <= i < |log| ==> log[i].revision == Advances(log[..i], log[i].state)
  }

  predicate Consistent(h: Host, w: World) {
    && (forall i :: 0 <= i < |w.log| ==> Recorded(h, w.disk, w.log[i]))
    && InOrder(w.log)
    && (forall s :: s in w.disk.checkpoints ==>
        w.disk.checkpoints[s].revision == Advances(w.log, s) && Latest(h, w.disk, s) && Accounted(h, w, s))
  }

  lemma {:induction false} NeverAdvanced(log: seq<Consumption>, state: string)
    requires forall i :: 0 <= i < |log| ==> log[i].state != state
    ensures Advances(log, state) == 0
  {
    if log != [] { NeverAdvanced(log[..|log| - 1], state); }
  }

  lemma {:induction false} NothingFolded(h: Host, base: seq<Entry>, log: seq<Consumption>, state: string)
    requires forall i :: 0 <= i < |log| ==> log[i].state != state
    ensures Folded(h, base, log, state) == Some(base)
  {
    if log != [] { NothingFolded(h, base, log[..|log| - 1], state); }
  }

  lemma FoldOneMore(h: Host, base: seq<Entry>, log: seq<Consumption>, x: Consumption, state: string)
    requires Folded(h, base, log, state).Some?
    ensures Folded(h, base, log + [x], state) ==
      if x.state != state then Folded(h, base, log, state)
      else if h.rootHash(Folded(h, base, log, state).value) != x.baseline then None
      else h.accept(Folded(h, base, log, state).value, x.bundle, x.outcome)
  {
    assert (log + [x])[..|log|] == log;
  }

  lemma OneMore(log: seq<Consumption>, x: Consumption)
    requires InOrder(log) && x.revision == Advances(log, x.state)
    ensures InOrder(log + [x])
    ensures forall s :: Advances(log + [x], s) == Advances(log, s) + if x.state == s then 1 else 0
  {
    var all := log + [x];
    assert all[..|log|] == log;
    forall i | 0 <= i < |all| ensures all[i].revision == Advances(all[..i], all[i].state) {
      if i < |log| { assert all[..i] == log[..i]; }
    }
  }

  lemma {:induction false} AdvancesGrow(log: seq<Consumption>, i: nat, j: nat, s: string)
    requires i < j <= |log| && log[i].state == s
    ensures Advances(log[..i], s) < Advances(log[..j], s)
    decreases j
  {
    assert log[..j][..j - 1] == log[..j - 1];
    if i < j - 1 { AdvancesGrow(log, i, j - 1, s); }
  }

  lemma InitializeConsistent(h: Host, w: World, e: Event)
    requires Consistent(h, w) && e.Initialize?
    ensures Consistent(h, Step(h, w, e))
  {
    if e.state !in w.disk.checkpoints {
      NeverAdvanced(w.log, e.state);
      NothingFolded(h, e.base, w.log, e.state);
    }
  }

  lemma CompleteConsistent(h: Host, w: World, e: Event)
    requires Consistent(h, w) && e.Complete?
    ensures Consistent(h, Step(h, w, e))
  {
    if e.receipt !in w.disk.receipts { RebindUnbound(h, w, e.receipt, e.value.(binding := None)); }
  }

  /** Binding a receipt that was not consumed changes no record. */
  lemma BindConsistent(h: Host, w: World, a: Call)
    requires Consistent(h, w) && Acceptable(h, w.disk, a) && Current(h, w.disk, a)
    ensures Consistent(h, w.(disk := w.disk.(receipts := w.disk.receipts[a.receipt := Bound(w.disk, a)])))
  {
    var r := w.disk.receipts[a.receipt];
    if r.binding.Some? {
      assert w.disk.receipts[a.receipt := Bound(w.disk, a)] == w.disk.receipts;
    } else {
      RebindUnbound(h, w, a.receipt, Bound(w.disk, a));
    }
  }

  /** No consumption refers to a receipt that is not bound. */
  lemma RebindUnbound(h: Host, w: World, name: string, r: Receipt)
    requires Consistent(h, w) && (name in w.disk.receipts ==> w.disk.receipts[name].binding.None?)
    ensures Consistent(h, w.(disk := w.disk.(receipts := w.disk.receipts[name := r])))
  {
    var t := w.(disk := w.disk.(receipts := w.disk.receipts[name := r]));
    forall i | 0 <= i < |w.log| ensures Recorded(h, t.disk, w.log[i]) { assert Recorded(h, w.disk, w.log[i]); }
    forall s | s in w.disk.checkpoints ensures Latest(h, t.disk, s) { assert Latest(h, w.disk, s); }
  }

  lemma ConsumeConsistent(h: Host, w: World, a: Call)
    requires Consistent(h, w) && AdvanceStep(h, w.disk, a, Never).consumed
    ensures Consistent(h, Step(h, w, Advance(a, Never)))
  {
    BindConsistent(h, w, a);
    var bound := w.(disk := w.disk.(receipts := w.disk.receipts[a.receipt := Bound(w.disk, a)]));
    assert ConsumptionOf(w.disk, a) == ConsumptionOf(bound.disk, a);
    AfterBound(h, bound, Step(h, w, Advance(a, Never)), a, AdvanceStep(h, w.disk, a, Never).reply.manifest);
  }

  /** The next checkpoint of a bound receipt is about to be published. */
  predicate Publishes(h: Host, w: World, a: Call, next: seq<Entry>) {
    && a.state in w.disk.checkpoints && a.receipt in w.disk.receipts
    && var c, r := w.disk.checkpoints[a.state], w.disk.receipts[a.receipt];
       && c.revision == a.expected < MaxRevision && r.binding == Some(BindingFor(c, a))
       && r.bundleRoot == h.bundleRoot(a.bundle) && r.outcome.Some?
       && h.valid(r.selection, r.outcome.value, a.bundle) && h.rootHash(c.manifest) == a.baseline
       && h.accept(c.manifest, a.bundle, r.outcome.value) == Some(next)
  }

  /** Publishing the checkpoint of a bound receipt. */
  lemma AfterBound(h: Host, w: World, t: World, a: Call, next: seq<Entry>)
    requires Consistent(h, w) && Publishes(h, w, a, next)
    requires var c := w.disk.checkpoints[a.state];
      && t.disk.receipts == w.disk.receipts && t.created == w.created && t.log == w.log + [ConsumptionOf(w.disk, a)]
      && t.disk.checkpoints == w.disk.checkpoints[a.state := c.(manifest := next, revision := c.revision + 1,
           lastReceipt := a.receipt, lastRequest := h.digest(w.disk.receipts[a.receipt]))]
    ensures Consistent(h, t)
  {
    var x := ConsumptionOf(w.disk, a);
    OneMore(w.log, x);
    forall i | 0 <= i < |t.log| ensures Recorded(h, t.disk, t.log[i]) {
      if i < |w.log| { assert Recorded(h, w.disk, w.log[i]); }
    }
    forall s | s in t.disk.checkpoints
      ensures t.disk.checkpoints[s].revision == Advances(t.log, s) && Latest(h, t.disk, s) && Accounted(h, t, s)
    {
      assert Latest(h, w.disk, s) && Accounted(h, w, s);
      FoldOneMore(h, w.created[s], w.log, x, s);
    }
  }

  lemma AdvanceConsistent(h: Host, w: World, a: Call, stop: Stop)
    requires Consistent(h, w)
    ensures Consistent(h, Step(h, w, Advance(a, stop)))
  {
    var r := AdvanceStep(h, w.disk, a, stop);
    if r.consumed {
      ConsumeConsistent(h, w, a);
    } else if r.disk != w.disk {
      BindConsistent(h, w, a);
    }
  }

  lemma {:induction false} RunConsistent(h: Host, w: World, events: seq<Event>)
    requires Consistent(h, w)
    ensures Consistent(h, Run(h, w, events))
    decreases |events|
  {
    if events != [] {
      var e := events[0];
      match e {
        case Initialize(_, _, _, _) => InitializeConsistent(h, w, e);
        case Advance(a, stop) => AdvanceConsistent(h, w, a, stop);
        case Complete(_, _) => CompleteConsistent(h, w, e);
      }
      RunConsistent(h, Step(h, w, e), events[1..]);
    }
  }

  // ---- The theorems ----

  /** Over every run a checkpoint's revision is the number of receipts it consumed, each receipt is
      consumed at most once, only where it is bound, and only as a valid receipt of the bundle. */
  lemma ExactlyOnce(h: Host, events: seq<Event>)
    ensures var w := Run(h, Empty, events);
      && (forall s :: s in w.disk.checkpoints ==> w.disk.checkpoints[s].revision == Advances(w.log, s))
      && InOrder(w.log) && (forall i :: 0 <= i < |w.log| ==> Recorded(h, w.disk, w.log[i]))
      && (forall i, j :: 0 <= i < j < |w.log| ==> w.log[i].receipt != w.log[j].receipt)
  {
    RunConsistent(h, Empty, events);
    var w := Run(h, Empty, events);
    forall i, j | 0 <= i < j < |w.log| ensures w.log[i].receipt != w.log[j].receipt {
      assert Recorded(h, w.disk, w.log[i]) && Recorded(h, w.disk, w.log[j]);
      if w.log[i].state == w.log[j].state { AdvancesGrow(w.log, i, j, w.log[i].state); }
    }
  }

  /** Over every run a checkpoint's manifest is its consumptions folded into the snapshot it was created with. */
  lemma ManifestIsFold(h: Host, events: seq<Event>, s: string)
    requires s in Run(h, Empty, events).disk.checkpoints
    ensures var w := Run(h, Empty, events);
      && s in w.created && w.disk.checkpoints[s].initialRoot == h.rootHash(w.created[s])
      && Folded(h, w.created[s], w.log, s) == Some(w.disk.checkpoints[s].manifest)
  {
    RunConsistent(h, Empty, events);
    assert Accounted(h, Run(h, Empty, events), s);
  }

  /** The host folds like the acceptance of the source, or refuses the result. */
  ghost predicate FoldsAcceptance(h: Host) {
    forall base, d, o :: h.accept(base, d, o).Some? ==> h.accept(base, d, o) == Accepted(base, d, o)
  }

  /** A path's entry after a history: remote of the last consumption that accepted it. */
  ghost function EntryAfter(base: seq<Entry>, log: seq<Consumption>, state: string, p: string): Option<Meta> {
    if log == [] then Find(base, p) else
      var x := log[|log| - 1];
      if x.state == state && Accepts(x.bundle, x.outcome, p) then Find(x.bundle.remote, p)
      else EntryAfter(base, log[..|log| - 1], state, p)
  }

  lemma {:induction false} FoldPointwise(h: Host, base: seq<Entry>, log: seq<Consumption>, state: string, p: string)
    requires FoldsAcceptance(h) && Folded(h, base, log, state).Some?
    ensures Find(Folded(h, base, log, state).value, p) == EntryAfter(base, log, state, p)
    decreases |log|
  {
    if log != [] {
      var x, earlier := log[|log| - 1], log[..|log| - 1];
      FoldPointwise(h, base, earlier, state, p);
      if x.state == state {
        var before := Folded(h, base, earlier, state).value;
        assert h.accept(before, x.bundle, x.outcome) == Accepted(before, x.bundle, x.outcome);
      }
    }
  }

  /** Over every run each entry of a checkpoint is remote of the last consumed bundle that was accepted
      there, or else of the snapshot the checkpoint was created with. */
  lemma ManifestPointwise(h: Host, events: seq<Event>, s: string, p: string)
    requires FoldsAcceptance(h) && s in Run(h, Empty, events).disk.checkpoints
    ensures var w := Run(h, Empty, events);
      s in w.created && Find(w.disk.checkpoints[s].manifest, p) == EntryAfter(w.created[s], w.log, s, p)
  {
    var w := Run(h, Empty, events);
    ManifestIsFold(h, events, s);
    FoldPointwise(h, w.created[s], w.log, s, p);
  }

  /** Repeating an advance that completed gives the same reply and changes nothing. */
  lemma RepeatChangesNothing(h: Host, d: Disk, a: Call, stop: Stop)
    requires AdvanceStep(h, d, a, Never).reply.Version?
    ensures var once := AdvanceStep(h, d, a, Never);
      var again := AdvanceStep(h, once.disk, a, stop);
      again.disk == once.disk && again.reply == once.reply && !again.consumed
  {
    var once := AdvanceStep(h, d, a, Never);
    if once.consumed {
      assert Bound(once.disk, a) == Bound(d, a);
      assert Acceptable(h, once.disk, a) && Repeats(h, once.disk, a);
    }
  }

  /** A call stopped after binding its receipt, tried again, ends as if it had not been stopped. */
  lemma RetryReachesTheSame(h: Host, d: Disk, a: Call, stop: Stop)
    ensures AdvanceStep(h, AdvanceStep(h, d, a, stop).disk, a, Never).disk == AdvanceStep(h, d, a, Never).disk
    ensures AdvanceStep(h, AdvanceStep(h, d, a, stop).disk, a, Never).reply == AdvanceStep(h, d, a, Never).reply
  {
    var first := AdvanceStep(h, d, a, stop);
    if first.consumed {
      RepeatChangesNothing(h, d, a, Never);
    } else if first.disk != d {
      assert Bound(first.disk, a) == Bound(d, a);
      assert Acceptable(h, first.disk, a) && !Repeats(h, first.disk, a) && Current(h, first.disk, a);
      assert first.disk.receipts[a.receipt := Bound(d, a)] == d.receipts[a.receipt := Bound(d, a)];
    }
  }

  /** Once consumed, a receipt is refused at every other revision and by every other relationship. */
  lemma ConsumedElsewhereRefused(h: Host, events: seq<Event>, i: nat, a: Call, stop: Stop)
    requires i < |Run(h, Empty, events).log| && a.receipt == Run(h, Empty, events).log[i].receipt
    requires var x := Run(h, Empty, events).log[i]; a.state != x.state || a.expected != x.revision
    ensures var w := Run(h, Empty, events); AdvanceStep(h, w.disk, a, stop) == Answer(w.disk, Refused, false)
  {
    RunConsistent(h, Empty, events);
    assert Recorded(h, Run(h, Empty, events).disk, Run(h, Empty, events).log[i]);
  }

  /** Once a later receipt of the same checkpoint is consumed, the call of an earlier one is refused. */
  lemma EarlierCallRefused(h: Host, events: seq<Event>, i: nat, j: nat, a: Call, stop: Stop)
    requires i < j < |Run(h, Empty, events).log| && a.receipt == Run(h, Empty, events).log[i].receipt
    requires var log := Run(h, Empty, events).log; log[i].state == log[j].state
    ensures var w := Run(h, Empty, events); AdvanceStep(h, w.disk, a, stop) == Answer(w.disk, Refused, false)
  {
    var w := Run(h, Empty, events);
    RunConsistent(h, Empty, events);
    if a.state == w.log[i].state && a.expected == w.log[i].revision {
      assert Recorded(h, w.disk, w.log[i]) && Recorded(h, w.disk, w.log[j]);
      AdvancesGrow(w.log, i, j, a.state);
    } else {
      ConsumedElsewhereRefused(h, events, i, a, stop);
    }
  }

  /** Over every run: another receipt put in the place of the one consumed last is not taken for a repeat. */
  lemma ReplacedReceiptRefused(h: Host, events: seq<Event>, a: Call, other: Receipt, stop: Stop)
    requires a.state in Run(h, Empty, events).disk.checkpoints
    requires var w := Run(h, Empty, events);
      var c := w.disk.checkpoints[a.state];
      && c.revision > 0 && a.expected == c.revision - 1 && a.receipt == c.lastReceipt
      && (a.receipt in w.disk.receipts ==>
            h.digest(other.(binding := Some(BindingFor(c, a)))) != h.digest(w.disk.receipts[a.receipt]))
    ensures var w := Run(h, Empty, events);
      var d := w.disk.(receipts := w.disk.receipts[a.receipt := other]);
      AdvanceStep(h, d, a, stop) == Answer(d, Refused, false)
  {
    RunConsistent(h, Empty, events);
    assert Latest(h, Run(h, Empty, events).disk, a.state);
  }

  /** A checkpoint keeps its relationship, and its revision never falls. */
  predicate Continues(before: Disk, after: Disk) {
    forall s :: s in before.checkpoints ==>
      && s in after.checkpoints && after.checkpoints[s].source == before.checkpoints[s].source
      && after.checkpoints[s].initialRoot == before.checkpoints[s].initialRoot
      && before.checkpoints[s].revision <= after.checkpoints[s].revision
  }

  lemma {:induction false} RunContinues(h: Host, w: World, events: seq<Event>)
    ensures Continues(w.disk, Run(h, w, events).disk)
    decreases |events|
  {
    if events != [] { RunContinues(h, Step(h, w, events[0]), events[1..]); }
  }

  /** Once initialized, a checkpoint is never reset: after any run, initializing it again changes nothing,
      and with the creation snapshot answers the progress made. */
  lemma InitializeOnce(h: Host, d: Disk, state: string, source: string, base: seq<Entry>,
                       events: seq<Event>, created: map<string, seq<Entry>>, log: seq<Consumption>)
    requires InitializeStep(h, d, state, source, base, Never).reply.Version?
    ensures var w := Run(h, World(InitializeStep(h, d, state, source, base, Never).disk, created, log), events);
      && state in w.disk.checkpoints
      && (forall source', base', stop :: InitializeStep(h, w.disk, state, source', base', stop).disk == w.disk)
      && (forall stop :: InitializeStep(h, w.disk, state, source, base, stop).reply
            == Version(w.disk.checkpoints[state].revision, w.disk.checkpoints[state].manifest))
  {
    RunContinues(h, World(InitializeStep(h, d, state, source, base, Never).disk, created, log), events);
  }

  // ---- Progress ----

  /** A finished application and the bundle it applied. */
  datatype Finished = Finished(receipt: string, value: Receipt, bundle: Bundle)

  predicate Consumable(h: Host, f: Finished) {
    f.value.outcome.Some? && f.value.bundleRoot == h.bundleRoot(f.bundle) &&
        h.valid(f.value.selection, f.value.outcome.value, f.bundle)
  }

  /** The accepted source after some finished applications. */
  function Progress(h: Host, base: seq<Entry>, done: seq<Finished>): Option<seq<Entry>> {
    if done == [] then Some(base) else
      var before, f := Progress(h, base, done[..|done| - 1]), done[|done| - 1];
      if before.None? || f.value.outcome.None? then None else h.accept(before.value, f.bundle, f.value.outcome.value)
  }

  /** Create a checkpoint, then finish and consume every application in turn. */
  function Script(h: Host, state: string, source: string, base: seq<Entry>, done: seq<Finished>): seq<Event>
    requires Progress(h, base, done).Some? && |done| <= MaxRevision
    decreases |done|
  {
    if done == [] then [Initialize(state, source, base, Never)] else
      var earlier, f := done[..|done| - 1], done[|done| - 1];
      var baseline := h.rootHash(Progress(h, base, earlier).value);
      Script(h, state, source, base, earlier)
        + [Complete(f.receipt, f.value), Advance(Call(state, |earlier|, f.receipt, f.bundle, baseline), Never)]
  }

  lemma {:induction false} RunConcat(h: Host, w: World, a: seq<Event>, b: seq<Event>)
    ensures Run(h, w, a + b) == Run(h, Run(h, w, a), b)
    decreases |a|
  {
    if a == [] {
      assert a + b == b;
    } else {
      assert (a + b)[0] == a[0] && (a + b)[1..] == a[1..] + b;
      RunConcat(h, Step(h, w, a[0]), a[1..], b);
    }
  }

  lemma RunTwo(h: Host, w: World, x: Event, y: Event)
    ensures Run(h, w, [x, y]) == Step(h, Step(h, w, x), y)
  {
    assert [x, y][1..] == [y] && [y][1..] == [];
    assert Run(h, Step(h, w, x), [y]) == Run(h, Step(h, Step(h, w, x), y), []);
  }

  /** One checkpoint that has consumed exactly these applications. */
  predicate Reaches(h: Host, w: World, state: string, base: seq<Entry>, done: seq<Finished>) {
    && state in w.disk.checkpoints && w.disk.checkpoints[state].revision == |done|
    && Progress(h, base, done) == Some(w.disk.checkpoints[state].manifest)
    && forall r :: r in w.disk.receipts ==> exists k :: 0 <= k < |done| && done[k].receipt == r
  }

  /** No call is refused without a reason: finished applications with valid receipts are all consumed, in
      order, and the checkpoint ends at the folded manifest. */
  lemma {:induction false} EveryTransferConsumed(h: Host, state: string, source: string, base: seq<Entry>,
                                                 done: seq<Finished>)
    requires Progress(h, base, done).Some? && |done| <= MaxRevision
    requires forall k :: 0 <= k < |done| ==> Consumable(h, done[k])
    requires forall j, k :: 0 <= j < k < |done| ==> done[j].receipt != done[k].receipt
    ensures Reaches(h, Run(h, Empty, Script(h, state, source, base, done)), state, base, done)
    decreases |done|
  {
    if done == [] {
      var start := Initialize(state, source, base, Never);
      assert [start][1..] == [];
      assert Run(h, Empty, [start]) == Run(h, Step(h, Empty, start), []);
    } else {
      var earlier, f := done[..|done| - 1], done[|done| - 1];
      EveryTransferConsumed(h, state, source, base, earlier);
      var script := Script(h, state, source, base, earlier);
      var w := Run(h, Empty, script);
      var baseline := h.rootHash(Progress(h, base, earlier).value);
      var call := Advance(Call(state, |earlier|, f.receipt, f.bundle, baseline), Never);
      RunConcat(h, Empty, script, [Complete(f.receipt, f.value), call]);
      RunTwo(h, w, Complete(f.receipt, f.value), call);
      assert f.receipt !in w.disk.receipts;
      OneConsumed(h, w, state, base, done);
    }
  }

  lemma OneConsumed(h: Host, w: World, state: string, base: seq<Entry>, done: seq<Finished>)
    requires done != [] && |done| <= MaxRevision && Progress(h, base, done).Some? && Consumable(h, done[|done| - 1])
    requires Reaches(h, w, state, base, done[..|done| - 1]) && done[|done| - 1].receipt !in w.disk.receipts
    ensures var f, earlier := done[|done| - 1], done[..|done| - 1];
      var call := Call(state, |earlier|, f.receipt, f.bundle, h.rootHash(w.disk.checkpoints[state].manifest));
      Reaches(h, Step(h, Step(h, w, Complete(f.receipt, f.value)), Advance(call, Never)), state, base, done)
  {
    var f, earlier := done[|done| - 1], done[..|done| - 1];
    var v := Step(h, w, Complete(f.receipt, f.value));
    var call := Call(state, |earlier|, f.receipt, f.bundle, h.rootHash(w.disk.checkpoints[state].manifest));
    assert AdvanceStep(h, v.disk, call, Never).consumed;
    var t := Step(h, v, Advance(call, Never));
    forall r | r in t.disk.receipts ensures exists k :: 0 <= k < |done| && done[k].receipt == r {
      if r != f.receipt {
        var k :| 0 <= k < |earlier| && earlier[k].receipt == r;
        assert done[k].receipt == r;
      }
    }
  }

  // ---- The calls as they run ----

  /** The files of one machine. */
  class Storage {
    var disk: Disk

    constructor ()
      ensures disk == Empty.disk
    {
      disk := Empty.disk;
    }

    method Initialize(h: Host, state: string, source: string, base: seq<Entry>, stop: Stop) returns (reply: Reply)
      modifies this
      ensures var r := InitializeStep(h, old(disk), state, source, base, stop); disk == r.disk && reply == r.reply
    {
      if state in disk.checkpoints {
        var c := disk.checkpoints[state];
        if c.initialRoot != h.rootHash(base) { return Refused; }
        return Version(c.revision, c.manifest);
      }
      if stop != Never { return Stopped; }
      disk := disk.(checkpoints := disk.checkpoints[state := Checkpoint(source, h.rootHash(base), 0, base, "", "")]);
      return Version(0, base);
    }

    method Advance(h: Host, a: Call, stop: Stop) returns (reply: Reply)
      modifies this
      ensures var r := AdvanceStep(h, old(disk), a, stop); disk == r.disk && reply == r.reply
    {
      if a.state !in disk.checkpoints || a.receipt !in disk.receipts { return Refused; }
      var c := disk.checkpoints[a.state];
      var receipt := disk.receipts[a.receipt];
      if receipt.bundleRoot != h.bundleRoot(a.bundle) || receipt.outcome.None? { return Refused; }
      if !h.valid(receipt.selection, receipt.outcome.value, a.bundle) { return Refused; }
      var binding := Binding(a.state, c.source, c.initialRoot, a.expected);
      if receipt.binding.Some? && receipt.binding.value != binding { return Refused; }
      var unbound := receipt.binding.None?;
      receipt := receipt.(binding := Some(binding));
      var request := h.digest(receipt);
      if a.expected < MaxRevision && c.revision == a.expected + 1 && c.lastReceipt == a.receipt &&
          c.lastRequest == request {
        return Version(c.revision, c.manifest);
      }
      if c.revision != a.expected || a.expected == MaxRevision || h.rootHash(c.manifest) != a.baseline {
        return Refused;
      }
      var next := h.accept(c.manifest, a.bundle, receipt.outcome.value);
      if next.None? { return Refused; }
      if stop == BeforeWrites { return Stopped; }
      if unbound { disk := disk.(receipts := disk.receipts[a.receipt := receipt]); }
      assert disk.receipts == old(disk).receipts[a.receipt := receipt];
      if stop == AfterBinding { return Stopped; }
      c := c.(manifest := next.value, revision := c.revision + 1, lastReceipt := a.receipt, lastRequest := request);
      disk := disk.(checkpoints := disk.checkpoints[a.state := c]);
      return Version(c.revision, c.manifest);
    }
  }
}

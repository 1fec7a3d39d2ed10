/** When a save completes: no save is refused but for its sizes or for another generation of the file. */
module FramedStoreProgress {
  import opened Rows
  import opened Flat
  import opened Observations
  import opened Frames
  import opened FramedStore
  import opened FramedStoreSafety

  function Difference(st: Store, l: Loaded, target: seq<Obs>): Bytes { st.encode(Delta(Diff(l.entries, target))) }

  /** A further delta may follow what was loaded. */
  predicate Continues(st: Store, l: Loaded) { st.journal && !l.recovered && l.records < MaxJournalRecords }

  /** The difference fits behind what was loaded. */
  predicate Extends(st: Store, l: Loaded, target: seq<Obs>) {
    var size := |Difference(st, l, target)| + FrameOverhead;
    Continues(st, l) && l.journalBytes + size <= MaxJournalBytes && l.diskSize + size <= MaxBytes
  }

  /** The full state fits a file of its own, and a difference that is computed first is no larger than any file. */
  predicate FitsAlone(st: Store, prior: Option<Loaded>, target: seq<Obs>) {
    && |st.magic| + |st.encode(Full(target))| + FrameOverhead <= MaxBytes
    && (prior.Some? && Continues(st, prior.value) ==> |Difference(st, prior.value, target)| <= MaxBytes)
  }

  predicate ExtendsPrior(st: Store, prior: Option<Loaded>, target: seq<Obs>) {
    prior.Some? && Extends(st, prior.value, target)
  }

  /** What a caller can check before a save that is not interrupted: the state is sorted and within the entry
      limit; where its difference fits, the file is still the one that was loaded; elsewhere the full state fits. */
  predicate CanSave(st: Store, sys: System, id: nat, target: seq<Obs>) {
    var prior := PriorOf(sys, id);
    && Proper(target)
    && if ExtendsPrior(st, prior, target) then sys.disk == Some(sys.sessions[id].bytes)
       else FitsAlone(st, prior, target)
  }

  /** The file loads as the target, intact, with this many deltas. */
  predicate Holding(st: Store, disk: Option<Bytes>, target: seq<Obs>, records: nat) {
    var r := LoadOf(st, disk);
    r.Hit? && r.loaded.entries == target && r.loaded.records == records && !r.loaded.recovered
  }

  /** A file loaded without leftovers is that of a history of complete frames. */
  lemma WholeOf(st: Store, s: Session) returns (trail: Trail)
    requires Lawful(st) && Remembers(st, s) && !s.loaded.recovered
    ensures Whole(st, s, trail)
  {
    var longer: Trail, n: nat :| Shaped(st, s.bytes, longer, n)
      && 0 < LastComplete(st, longer, n) <= |longer| && longer[LastComplete(st, longer, n) - 1] == s.loaded.entries;
    trail := WholeFrames(st, s, longer, n);
  }

  lemma AppendPrepared(st: Store, s: Session, trail: Trail, target: seq<Obs>)
    requires Lawful(st) && Whole(st, s, trail) && Proper(target) && Extends(st, s.loaded, target)
    ensures var p := Difference(st, s.loaded, target);
      var frame := Frame(st.sum, p, s.loaded.chain);
      Prepare(st, target, Some(s.loaded)) == Append(frame) && |frame| == |p| + FrameOverhead <= MaxBytes
  {
    var p := Difference(st, s.loaded, target);
    ChainedLength(st.sum, Payloads(st, trail), Zero());
    FrameParts(st.sum, p, s.loaded.chain);
  }

  /** What an append leaves loads as its target. */
  lemma AppendedLoads(st: Store, s: Session, trail: Trail, target: seq<Obs>)
    requires Lawful(st) && Whole(st, s, trail) && Proper(target) && Extends(st, s.loaded, target)
    requires Prepare(st, target, Some(s.loaded)).Append?
    ensures Holding(st, Some(s.bytes + Prepare(st, target, Some(s.loaded)).frame), target, s.loaded.records + 1)
  {
    var frame, longer := Prepare(st, target, Some(s.loaded)).frame, trail + [target];
    AppendPrepared(st, s, trail, target);
    var m := AppendExtends(st, s, trail, target, |frame|);
    assert frame[..|frame|] == frame;
    LoadShaped(st, s.bytes + frame, longer, m);
    OneMorePayload(st, trail, target);
    ChainedSnoc(st.sum, Payloads(st, trail), Difference(st, s.loaded, target), Zero());
    assert Payloads(st, longer)[..|trail| + 1] == Payloads(st, longer);
  }

  /** A difference that fits behind the loaded file is appended to it. */
  lemma AppendCompletes(st: Store, sys: System, id: nat, target: seq<Obs>, written: nat)
    requires Lawful(st) && Safe(st, sys) && Proper(target) && written >= MaxBytes
    requires ExtendsPrior(st, PriorOf(sys, id), target) && sys.disk == Some(sys.sessions[id].bytes)
    ensures var t, s := Step(st, sys, SaveBy(id, target, written)), sys.sessions[id];
      && t.saved == Some(target) && t.disk.Some? && s.bytes <= t.disk.value
      && |t.disk.value| == |s.bytes| + |Difference(st, s.loaded, target)| + FrameOverhead
      && Holding(st, t.disk, target, s.loaded.records + 1)
  {
    var s := sys.sessions[id];
    assert Remembers(st, s);
    var trail := WholeOf(st, s);
    AppendPrepared(st, s, trail, target);
    AppendedLoads(st, s, trail, target);
    assert s.loaded.diskDigest == st.sum(s.bytes) && |s.bytes| <= MaxBytes;
    AppendPublished(st, sys, id, target, written, Prepare(st, target, Some(s.loaded)).frame);
  }

  lemma AppendPublished(st: Store, sys: System, id: nat, target: seq<Obs>, written: nat, frame: Bytes)
    requires id in sys.sessions && Prepare(st, target, Some(sys.sessions[id].loaded)) == Append(frame)
    requires var s := sys.sessions[id];
      sys.disk == Some(s.bytes) && |s.bytes| <= MaxBytes && s.loaded.diskDigest == st.sum(s.bytes)
    requires |frame| <= written
    ensures Step(st, sys, SaveBy(id, target, written))
      == System(Some(sys.sessions[id].bytes + frame), sys.sessions, Some(target))
  {
  }

  /** Any other state that fits replaces the file. */
  lemma ReplaceCompletes(st: Store, sys: System, id: nat, target: seq<Obs>, written: nat)
    requires Lawful(st) && Proper(target) && written >= MaxBytes
    requires !ExtendsPrior(st, PriorOf(sys, id), target) && FitsAlone(st, PriorOf(sys, id), target)
    ensures var t := Step(st, sys, SaveBy(id, target, written));
      && t.saved == Some(target) && t.disk.Some? && Holding(st, t.disk, target, 0)
  {
    var p := st.encode(Full(target));
    var frame := Frame(st.sum, p, Zero());
    assert Replacement(st, target) == Replace(frame);
    assert Prepare(st, target, PriorOf(sys, id)) == Replace(frame);
    FrameParts(st.sum, p, Zero());
    ReplaceShaped(st, target);
    LoadShaped(st, st.magic + frame, [target], |frame|);
    var one: seq<Bytes> := [p];
    assert Payloads(st, [target]) == one && one[..1] == one && one[1..] == [];
  }

  /** Otherwise nothing is saved and nothing changes. */
  lemma ElseUnchanged(st: Store, sys: System, id: nat, target: seq<Obs>, written: nat)
    requires Lawful(st) && Safe(st, sys) && Undeceived(st, sys, SaveBy(id, target, written))
    requires !CanSave(st, sys, id, target)
    ensures Step(st, sys, SaveBy(id, target, written)) == sys
  {
    var prior := PriorOf(sys, id);
    if Proper(target) && ExtendsPrior(st, prior, target) {
      var s := sys.sessions[id];
      assert Remembers(st, s);
      var trail := WholeOf(st, s);
      AppendPrepared(st, s, trail, target);
    } else {
      assert Prepare(st, target, prior).Refuse?;
    }
  }

  /** Over every run, a save that is not interrupted completes exactly if it can; the file then loads the
      target.  A difference that fits is appended, so that the deltas on file grow by one; at 32 deltas, at a
      size limit, after a recovery or without a loaded state the file is replaced.  Otherwise nothing changes. */
  lemma SaveExactly(st: Store, events: seq<Event>, id: nat, target: seq<Obs>, written: nat)
    requires Lawful(st) && UndeceivedRun(st, Fresh, events) && written >= MaxBytes
    requires Undeceived(st, Run(st, Fresh, events), SaveBy(id, target, written))
    ensures var sys := Run(st, Fresh, events);
      var t := Step(st, sys, SaveBy(id, target, written));
      if !CanSave(st, sys, id, target) then t == sys else
        && t.saved == Some(target) && t.disk.Some?
        && if ExtendsPrior(st, PriorOf(sys, id), target) then
             sys.sessions[id].bytes <= t.disk.value &&
             Holding(st, t.disk, target, sys.sessions[id].loaded.records + 1)
           else Holding(st, t.disk, target, 0)
  {
    RunSafe(st, Fresh, events);
    var sys := Run(st, Fresh, events);
    if !CanSave(st, sys, id, target) {
      ElseUnchanged(st, sys, id, target, written);
    } else if ExtendsPrior(st, PriorOf(sys, id), target) {
      AppendCompletes(st, sys, id, target, written);
    } else {
      ReplaceCompletes(st, sys, id, target, written);
    }
  }
}

/** Whatever loaders and savers interleave, the file holds a base and the exact differences of one
    history of saves, and loading it gives the last save that completed. */
module FramedStoreSafety {
  import opened Rows
  import opened Flat
  import opened Observations
  import opened Frames
  import opened FramedStore

  /** A history of saved states. */
  type Trail = seq<seq<Obs>>

  predicate AllProper(trail: Trail) { forall i :: 0 <= i < |trail| ==> Proper(trail[i]) }

  function PayloadAt(st: Store, trail: Trail, i: nat): Bytes
    requires i < |trail|
  { st.encode(if i == 0 then Full(trail[0]) else Delta(Diff(trail[i - 1], trail[i]))) }

  /** The frames of a history: its first state, then every difference. */
  function Payloads(st: Store, trail: Trail): seq<Bytes> {
    seq(|trail|, i requires 0 <= i < |trail| => PayloadAt(st, trail, i))
  }

  function Records(trail: Trail, k: nat): seq<Edits>
    requires 0 < k <= |trail|
  { seq(k - 1, i requires 0 <= i < k - 1 => Diff(trail[i], trail[i + 1])) }

  // ---- Decoding a history ----

  lemma {:induction false} DecodedSnoc<S>(d: Decoder<S>, s: Option<S>, payloads: seq<Bytes>, p: Bytes)
    requires Reads(d, s, payloads)
    ensures Reads(d, s, payloads + [p]) <==> Decode(d, Decoded(d, s, payloads), p).Some?
    ensures Reads(d, s, payloads + [p]) ==> Decoded(d, s, payloads + [p]) == Decode(d, Decoded(d, s, payloads), p)
    decreases |payloads|
  {
    var all := payloads + [p];
    if payloads == [] {
      assert all == [p] && all[1..] == [];
      assert Reads(d, Decode(d, s, p), []) && Decoded(d, Decode(d, s, p), []) == Decode(d, s, p);
    } else {
      assert all[0] == payloads[0] && all[1..] == payloads[1..] + [p];
      DecodedSnoc(d, Decode(d, s, payloads[0]), payloads[1..], p);
    }
  }

  lemma {:induction false} DiffBounded<V>(a: seq<Row<V>>, b: seq<Row<V>>)
    ensures |Diff(a, b)| <= |a| + |b|
    decreases |a| + |b|
  {
    if a != [] && (b == [] || Paths.Less(a[0].path, b[0].path)) {
      DiffBounded(a[1..], b);
    } else if b != [] && (a == [] || Paths.Less(b[0].path, a[0].path)) {
      DiffBounded(a, b[1..]);
    } else if a != [] {
      DiffBounded(a[1..], b[1..]);
    }
  }

  lemma {:induction false} TrailDecodes(st: Store, trail: Trail, k: nat)
    requires Lawful(st) && AllProper(trail) && 0 < k <= |trail|
    ensures Reads(DecoderOf(st), None, Payloads(st, trail)[..k])
    ensures Decoded(DecoderOf(st), None, Payloads(st, trail)[..k]) == Some(Journal(trail[0], Records(trail, k)))
    ensures Replayed(trail[0], Records(trail, k)) == trail[k - 1]
  {
    var d, ps := DecoderOf(st), Payloads(st, trail);
    if k == 1 {
      assert ps[..1] == [] + [ps[0]];
      DecodedSnoc(d, None, [], ps[0]);
    } else {
      TrailDecodes(st, trail, k - 1);
      assert ps[..k] == ps[..k - 1] + [ps[k - 1]];
      DecodedSnoc(d, None, ps[..k - 1], ps[k - 1]);
      var edits := Diff(trail[k - 2], trail[k - 1]);
      assert Records(trail, k) == Records(trail, k - 1) + [edits];
      DifferenceApplies(trail[k - 2], trail[k - 1]);
      DiffBounded(trail[k - 2], trail[k - 1]);
      ReplaySnoc(trail[0], Records(trail, k - 1), edits);
    }
  }

  // ---- Any file ----

  /** Whole frames follow the magic, the first a base and the others deltas that apply. */
  ghost predicate Readable(st: Store, data: Bytes, payloads: seq<Bytes>) {
    payloads != [] && st.magic + Chained(st.sum, payloads, Zero()) <= data && Reads(DecoderOf(st), None, payloads)
  }

  /** Whatever the file holds, loading it succeeds exactly if it is within its size and a readable base
      follows the magic; it then gives the state of all the frames that the scan could read. */
  lemma LoadExactly(st: Store, data: Bytes) returns (payloads: seq<Bytes>)
    requires Lawful(st)
    ensures LoadOf(st, Some(data)).Hit? ==> |data| <= MaxBytes && Readable(st, data, payloads)
    ensures LoadOf(st, Some(data)).Hit? ==>
      var l, j := LoadOf(st, Some(data)).loaded, Decoded(DecoderOf(st), None, payloads);
      && l.records == |payloads| - 1 && j.Some? && l.entries == Current(j.value)
      && l.chain == LastLink(st.sum, payloads, Zero())
      && (l.recovered <==> data != st.magic + Chained(st.sum, payloads, Zero()))
    ensures |data| <= MaxBytes && (exists p :: |p| < MaxLength && Readable(st, data, [p])) ==>
      LoadOf(st, Some(data)).Hit?
  {
    payloads := [];
    if |data| <= MaxBytes && st.magic <= data {
      var body := data[|st.magic|..];
      assert data == st.magic + body;
      payloads := ScanExactly(st.sum, DecoderOf(st), body, None, Zero(), 0);
      ScanSane(st, body, None, Zero(), 0);
      var rest := ScanOf(st, data).rest;
      Regroup(st.magic, Chained(st.sum, payloads, Zero()), rest);
      if p :| |p| < MaxLength && Readable(st, data, [p]) { FirstFrameRead(st, data, p); }
    }
  }

  lemma FirstFrameRead(st: Store, data: Bytes, p: Bytes)
    requires Lawful(st) && |data| <= MaxBytes && |p| < MaxLength && Readable(st, data, [p])
    ensures LoadOf(st, Some(data)).Hit?
  {
    var one: seq<Bytes> := [p];
    var body := data[|st.magic|..];
    var frame := Frame(st.sum, p, Zero());
    assert one[1..] == [] && Chained(st.sum, one, Zero()) == frame + [] == frame;
    assert body == frame + body[|frame|..];
    ReadBack(st.sum, p, Zero(), body[|frame|..]);
    var s := Decode(DecoderOf(st), None, p);
    DecodeSane(st, None, p);
    ScanSane(st, body[|frame|..], s, Link(st.sum, p, Zero()), 1);
    ScanKeeps(st.sum, DecoderOf(st), body[|frame|..], s, Link(st.sum, p, Zero()), 1);
  }

  lemma {:induction false} ScanKeeps<S>(sum: Checksum, d: Decoder<S>, data: Bytes, s: Option<S>, chain: Bytes,
                                        frames: nat)
    requires s.Some?
    ensures Scan(sum, d, data, s, chain, frames).state.Some? && Scan(sum, d, data, s, chain, frames).frames >= frames
    decreases |data|
  {
    if data != [] && frames <= MaxJournalRecords && ReadFrame(sum, data, chain).Got? {
      var r := ReadFrame(sum, data, chain);
      if Decode(d, s, r.payload).Some? {
        ScanKeeps(sum, d, data[r.size..], Decode(d, s, r.payload), r.link, frames + 1);
      }
    }
  }

  // ---- Files ----

  predicate Small(payloads: seq<Bytes>) { forall i :: 0 <= i < |payloads| ==> |payloads[i]| <= MaxBytes }

  function BaseSize(st: Store, trail: Trail): nat
    requires trail != []
  { |PayloadAt(st, trail, 0)| + FrameOverhead }

  /** The file holds the first `n` bytes of a history's frames, within all limits. */
  ghost predicate Shaped(st: Store, data: Bytes, trail: Trail, n: nat) {
    && 0 < |trail| <= MaxJournalRecords + 1 && AllProper(trail) && Small(Payloads(st, trail))
    && BaseSize(st, trail) <= n <= |Chained(st.sum, Payloads(st, trail), Zero())|
    && data == st.magic + Chained(st.sum, Payloads(st, trail), Zero())[..n]
    && |data| <= MaxBytes && n - BaseSize(st, trail) <= MaxJournalBytes
  }

  /** The last state whose frame is complete. */
  function LastComplete(st: Store, trail: Trail, n: nat): nat { Complete(Payloads(st, trail), n) }

  lemma ShapedBase(st: Store, data: Bytes, trail: Trail, n: nat)
    requires Lawful(st) && Shaped(st, data, trail, n)
    ensures 0 < LastComplete(st, trail, n) <= |trail| && BaseEnd(st, data) == |st.magic| + BaseSize(st, trail)
    ensures data[|st.magic|..] == Chained(st.sum, Payloads(st, trail), Zero())[..n]
  {
    var ps := Payloads(st, trail);
    assert ps[0] == PayloadAt(st, trail, 0);
    CutChain(st.sum, ps, n, Zero());
    var rest := Chained(st.sum, ps[1..], Link(st.sum, ps[0], Zero()));
    ReadBack(st.sum, ps[0], Zero(), rest[..n - BaseSize(st, trail)]);
  }

  /** Loading gives the last complete state and says exactly what the file holds. */
  lemma LoadShaped(st: Store, data: Bytes, trail: Trail, n: nat)
    requires Lawful(st) && Shaped(st, data, trail, n)
    ensures var k, ps := LastComplete(st, trail, n), Payloads(st, trail);
      && 0 < k <= |trail|
      && LoadOf(st, Some(data)) == Hit(Loaded(trail[k - 1], LastLink(st.sum, ps[..k], Zero()), |data|, st.sum(data),
          k - 1,
           ChainedSize(ps[..k]) - BaseSize(st, trail), n != ChainedSize(ps[..k])))
  {
    var ps := Payloads(st, trail);
    ShapedBase(st, data, trail, n);
    TrailDecodes(st, trail, |trail|);
    assert ps[..|trail|] == ps;
    TruncatedScan(st.sum, DecoderOf(st), ps, n, None, Zero(), 0);
    TrailDecodes(st, trail, LastComplete(st, trail, n));
  }

  /** Truncated anywhere after its base frame, a file loads the state of its complete frames. */
  lemma TruncationLoadsComplete(st: Store, data: Bytes, trail: Trail, n: nat, m: nat)
    requires Lawful(st) && Shaped(st, data, trail, n) && |st.magic| + BaseSize(st, trail) <= m <= |data|
    ensures var k := LastComplete(st, trail, m - |st.magic|);
      0 < k <= |trail| && LoadOf(st, Some(data[..m])).Hit? && LoadOf(st, Some(data[..m])).loaded.entries == trail[k - 1]
  {
    assert data[..m] == st.magic + Chained(st.sum, Payloads(st, trail), Zero())[..m - |st.magic|];
    LoadShaped(st, data[..m], trail, m - |st.magic|);
  }

  // ---- Saving ----

  lemma {:induction false} ChainedPrefix(sum: Checksum, payloads: seq<Bytes>, k: nat, chain: Bytes)
    requires Sum32(sum) && |chain| == 32 && k <= |payloads|
    ensures ChainedSize(payloads[..k]) <= |Chained(sum, payloads, chain)|
    ensures Chained(sum, payloads, chain)[..ChainedSize(payloads[..k])] == Chained(sum, payloads[..k], chain)
    decreases k
  {
    if k > 0 {
      var link := Link(sum, payloads[0], chain);
      var rest, size := Chained(sum, payloads[1..], link), |payloads[0]| + FrameOverhead;
      assert payloads[..k][0] == payloads[0] && payloads[..k][1..] == payloads[1..][..k - 1];
      FrameParts(sum, payloads[0], chain);
      ChainedPrefix(sum, payloads[1..], k - 1, link);
      PrefixOfSum(Frame(sum, payloads[0], chain), rest, ChainedSize(payloads[1..][..k - 1]));
    }
  }

  lemma PrefixOfSum(a: Bytes, b: Bytes, n: nat)
    requires n <= |b|
    ensures (a + b)[..|a| + n] == a + b[..n]
  {
  }

  /** A file of complete frames is the file of a shorter history. */
  lemma Trim(st: Store, data: Bytes, trail: Trail, n: nat, k: nat)
    requires Lawful(st) && Shaped(st, data, trail, n) && 0 < k <= |trail| && n == ChainedSize(Payloads(st, trail)[..k])
    ensures Shaped(st, data, trail[..k], n) && Payloads(st, trail[..k]) == Payloads(st, trail)[..k]
    ensures data == st.magic + Chained(st.sum, Payloads(st, trail[..k]), Zero())
  {
    var ps := Payloads(st, trail);
    assert Payloads(st, trail[..k]) == ps[..k];
    ChainedPrefix(st.sum, ps, k, Zero());
    ChainedLength(st.sum, ps[..k], Zero());
    assert Chained(st.sum, ps[..k], Zero())[..n] == Chained(st.sum, ps[..k], Zero());
  }

  lemma OneMorePayload(st: Store, trail: Trail, target: seq<Obs>)
    requires |trail| > 0
    ensures Payloads(st, trail + [target]) == Payloads(st, trail) + [st.encode(Delta(Diff(trail[|trail| - 1], target)))]
  {
  }

  /** Appending a difference, completely or in part, extends the history it was computed from. */
  lemma AppendShaped(st: Store, data: Bytes, trail: Trail, target: seq<Obs>, written: nat)
    requires Lawful(st) && 0 < |trail| <= MaxJournalRecords && Proper(target)
    requires var n := |Chained(st.sum, Payloads(st, trail), Zero())|;
      Shaped(st, data, trail, n) && data == st.magic + Chained(st.sum, Payloads(st, trail), Zero())
    requires var p := st.encode(Delta(Diff(trail[|trail| - 1], target)));
      && |p| <= MaxBytes && |data| + |p| + FrameOverhead <= MaxBytes && written <= |p| + FrameOverhead
      && ChainedSize(Payloads(st, trail)) - BaseSize(st, trail) + |p| + FrameOverhead <= MaxJournalBytes
    ensures var p := st.encode(Delta(Diff(trail[|trail| - 1], target)));
      var frame := Frame(st.sum, p, LastLink(st.sum, Payloads(st, trail), Zero()));
      |frame| == |p| + FrameOverhead &&
          Shaped(st, data + frame[..written], trail + [target], ChainedSize(Payloads(st, trail)) + written)
  {
    var ps := Payloads(st, trail);
    var p := st.encode(Delta(Diff(trail[|trail| - 1], target)));
    OneMorePayload(st, trail, target);
    ChainedLength(st.sum, ps, Zero());
    ChainedSnoc(st.sum, ps, p, Zero());
    FrameParts(st.sum, p, LastLink(st.sum, ps, Zero()));
    var frame := Frame(st.sum, p, LastLink(st.sum, ps, Zero()));
    PrefixOfSum(Chained(st.sum, ps, Zero()), frame, written);
    Regroup(st.magic, Chained(st.sum, ps, Zero()), frame[..written]);
    assert PayloadAt(st, trail + [target], 0) == PayloadAt(st, trail, 0);
  }

  lemma ReplaceShaped(st: Store, target: seq<Obs>)
    requires Lawful(st) && Proper(target) && Replacement(st, target).Replace?
    ensures Shaped(st, st.magic + Replacement(st, target).frame, [target], |Replacement(st, target).frame|)
    ensures LastComplete(st, [target], |Replacement(st, target).frame|) == 1
  {
    var p := st.encode(Full(target));
    var one: seq<Bytes> := [p];
    assert Payloads(st, [target]) == one && one[1..] == [];
    FrameParts(st.sum, p, Zero());
    var f := Frame(st.sum, p, Zero());
    assert Chained(st.sum, [], Link(st.sum, p, Zero())) == [];
    assert Chained(st.sum, one, Zero()) == f + [] == f && f[..|f|] == f;
  }

  // ---- Every interleaving ----

  /** The file is the file of some history, whose last complete state is `saved`. */
  ghost predicate Holds(st: Store, data: Bytes, saved: seq<Obs>) {
    exists trail: Trail, n: nat :: Shaped(st, data, trail, n)
      && 0 < LastComplete(st, trail, n) <= |trail| && trail[LastComplete(st, trail, n) - 1] == saved
  }

  /** A session remembers a load of such a file. */
  ghost predicate Remembers(st: Store, s: Session) {
    LoadOf(st, Some(s.bytes)) == Hit(s.loaded) && Holds(st, s.bytes, s.loaded.entries)
  }

  ghost predicate Safe(st: Store, sys: System) {
    && (sys.disk.None? ==> sys.saved.None?)
    && (sys.disk.Some? ==> sys.saved.Some? && Holds(st, sys.disk.value, sys.saved.value))
    && forall id :: id in sys.sessions ==> Remembers(st, sys.sessions[id])
  }

  lemma HeldLoads(st: Store, data: Bytes, saved: seq<Obs>)
    requires Lawful(st) && Holds(st, data, saved)
    ensures LoadOf(st, Some(data)).Hit? && LoadOf(st, Some(data)).loaded.entries == saved
    ensures LoadOf(st, Some(data)).loaded.records <= MaxJournalRecords && |data| <= MaxBytes
    ensures |st.magic| <= |data| && |data| - BaseEnd(st, data) <= MaxJournalBytes
  {
    var trail: Trail, n: nat :| Shaped(st, data, trail, n)
      && 0 < LastComplete(st, trail, n) <= |trail| && trail[LastComplete(st, trail, n) - 1] == saved;
    LoadShaped(st, data, trail, n);
    ShapedBase(st, data, trail, n);
  }

  /** How many frames are complete after part of one more was written. */
  lemma CompleteAfter(ps: seq<Bytes>, p: Bytes, written: nat)
    requires written <= |p| + FrameOverhead
    ensures Complete(ps + [p], ChainedSize(ps) + written) == if written == |p| + FrameOverhead then |ps| + 1 else |ps|
  {
    var all := ps + [p];
    assert all[..|ps|] == ps && all[..|ps| + 1] == all;
    CompleteIsMaximal(all, ChainedSize(ps) + written, |ps|);
    CompleteIsMaximal(all, ChainedSize(ps) + written, |ps| + 1);
    ChainedSnoc(_ => [], ps, p, []);
  }

  /** The frame a session appends extends the very history it loaded. */
  lemma AppendHolds(st: Store, s: Session, target: seq<Obs>, written: nat)
    requires Lawful(st) && Remembers(st, s) && Prepare(st, target, Some(s.loaded)).Append?
    requires written <= |Prepare(st, target, Some(s.loaded)).frame|
    ensures var frame := Prepare(st, target, Some(s.loaded)).frame;
      Holds(st, s.bytes + frame[..written], if written == |frame| then target else s.loaded.entries)
  {
    var trail: Trail, n: nat :| Shaped(st, s.bytes, trail, n)
      && 0 < LastComplete(st, trail, n) <= |trail| && trail[LastComplete(st, trail, n) - 1] == s.loaded.entries;
    var short := WholeFrames(st, s, trail, n);
    var m := AppendExtends(st, s, short, target, written);
  }

  /** An unrecovered load is of complete frames: those of a history ending in what was loaded. */
  lemma WholeFrames(st: Store, s: Session, trail: Trail, n: nat) returns (short: Trail)
    requires Lawful(st) && LoadOf(st, Some(s.bytes)) == Hit(s.loaded) && !s.loaded.recovered
    requires Shaped(st, s.bytes, trail, n)
    ensures Whole(st, s, short)
  {
    var k := LastComplete(st, trail, n);
    LoadShaped(st, s.bytes, trail, n);
    Trim(st, s.bytes, trail, n, k);
    short := trail[..k];
    ChainedLength(st.sum, Payloads(st, short), Zero());
  }

  ghost predicate Whole(st: Store, s: Session, trail: Trail) {
    var ps := Payloads(st, trail);
    && Shaped(st, s.bytes, trail, |Chained(st.sum, ps, Zero())|) && s.bytes == st.magic + Chained(st.sum, ps, Zero())
    && s.loaded.entries == trail[|trail| - 1] && s.loaded.chain == LastLink(st.sum, ps, Zero()) &&
        s.loaded.diskSize == |s.bytes|
    && s.loaded.records == |trail| - 1 && s.loaded.journalBytes == ChainedSize(ps) - BaseSize(st, trail)
  }

  lemma AppendExtends(st: Store, s: Session, trail: Trail, target: seq<Obs>, written: nat) returns (m: nat)
    requires Lawful(st) && Whole(st, s, trail) && Prepare(st, target, Some(s.loaded)).Append?
    requires written <= |Prepare(st, target, Some(s.loaded)).frame|
    ensures var frame, longer := Prepare(st, target, Some(s.loaded)).frame, trail + [target];
      && Shaped(st, s.bytes + frame[..written], longer, m)
      && LastComplete(st, longer, m) == (if written == |frame| then |trail| + 1 else |trail|)
      && m == ChainedSize(Payloads(st, trail)) + written
  {
    var p := st.encode(Delta(Diff(s.loaded.entries, target)));
    ChainedLength(st.sum, Payloads(st, trail), Zero());
    FrameParts(st.sum, p, s.loaded.chain);
    assert Prepare(st, target, Some(s.loaded)) == Append(Frame(st.sum, p, s.loaded.chain));
    AppendShaped(st, s.bytes, trail, target, written);
    OneMorePayload(st, trail, target);
    CompleteAfter(Payloads(st, trail), p, written);
    m := ChainedSize(Payloads(st, trail)) + written;
  }

  lemma ReplaceHolds(st: Store, target: seq<Obs>)
    requires Lawful(st) && Proper(target) && Replacement(st, target).Replace?
    ensures Holds(st, st.magic + Replacement(st, target).frame, target)
  {
    ReplaceShaped(st, target);
    assert [target][0] == target;
  }

  lemma SaveSafe(st: Store, sys: System, e: Event)
    requires Lawful(st) && Safe(st, sys) && e.SaveBy? && Undeceived(st, sys, e)
    ensures Safe(st, Step(st, sys, e))
  {
    var attempt := Prepare(st, e.target, PriorOf(sys, e.id));
    if attempt.Append? {
      AppendStepSafe(st, sys, e);
    } else if attempt.Replace? {
      ReplaceStepSafe(st, sys, e);
    } else {
      assert Step(st, sys, e) == sys;
    }
  }

  lemma ReplaceStepSafe(st: Store, sys: System, e: Event)
    requires Lawful(st) && Safe(st, sys) && e.SaveBy? && Prepare(st, e.target, PriorOf(sys, e.id)).Replace?
    ensures Safe(st, Step(st, sys, e))
  {
    var frame := Prepare(st, e.target, PriorOf(sys, e.id)).frame;
    assert Replacement(st, e.target) == Replace(frame);
    ReplaceHolds(st, e.target);
    assert Step(st, sys, e) == if e.written < |frame| then
        sys else System(Some(st.magic + frame), sys.sessions, Some(e.target));
  }

  lemma AppendStepSafe(st: Store, sys: System, e: Event)
    requires Lawful(st) && Safe(st, sys) && e.SaveBy? && Undeceived(st, sys, e)
    requires Prepare(st, e.target, PriorOf(sys, e.id)).Append?
    ensures Safe(st, Step(st, sys, e))
  {
    var prior := PriorOf(sys, e.id);
    var r := Publish(st, sys.disk, prior, Prepare(st, e.target, prior), e.written);
    if r.disk != sys.disk {
      AppendSafe(st, sys, e.id, e.target, e.written);
      assert Step(st, sys, e) == System(r.disk, sys.sessions, if r.complete then Some(e.target) else sys.saved);
    } else {
      NothingAppended(st, sys, e);
    }
  }

  lemma AppendSafe(st: Store, sys: System, id: nat, target: seq<Obs>, written: nat)
    requires Lawful(st) && Safe(st, sys) && Undeceived(st, sys, SaveBy(id, target, written))
    requires Prepare(st, target, PriorOf(sys, id)).Append?
    requires Publish(st, sys.disk, PriorOf(sys, id), Prepare(st, target, PriorOf(sys, id)), written).disk != sys.disk
    ensures var r := Publish(st, sys.disk, PriorOf(sys, id), Prepare(st, target, PriorOf(sys, id)), written);
      sys.saved.Some? && r.disk.Some? && Holds(st, r.disk.value, if r.complete then target else sys.saved.value)
  {
    var frame := Prepare(st, target, PriorOf(sys, id)).frame;
    var s := sys.sessions[id];
    assert Remembers(st, s);
    HeldLoads(st, s.bytes, sys.saved.value);
    AppendHolds(st, s, target, if written < |frame| then written else |frame|);
    assert frame[..|frame|] == frame;
  }

  lemma NothingAppended(st: Store, sys: System, e: Event)
    requires Lawful(st) && Safe(st, sys) && e.SaveBy?
    requires var a := Prepare(st, e.target, PriorOf(sys, e.id));
      a.Append? && Publish(st, sys.disk, PriorOf(sys, e.id), a, e.written).disk == sys.disk
    ensures Step(st, sys, e) == sys
  {
    var prior := PriorOf(sys, e.id);
    var frame := Prepare(st, e.target, prior).frame;
    var s := sys.sessions[e.id];
    assert Remembers(st, s);
    FrameNonempty(st, st.encode(Delta(Diff(prior.value.entries, e.target))), prior.value.chain);
    if sys.disk.Some? { assert |sys.disk.value + frame| > |sys.disk.value|; }
  }

  lemma FrameNonempty(st: Store, p: Bytes, chain: Bytes)
    requires Lawful(st)
    ensures |Frame(st.sum, p, chain)| > 0
  {
  }

  lemma StepSafe(st: Store, sys: System, e: Event)
    requires Lawful(st) && Safe(st, sys) && Undeceived(st, sys, e)
    ensures Safe(st, Step(st, sys, e))
  {
    if e.SaveBy? {
      SaveSafe(st, sys, e);
    } else if e.LoadBy? && sys.disk.Some? {
      HeldLoads(st, sys.disk.value, sys.saved.value);
    }
  }

  lemma {:induction false} RunSafe(st: Store, sys: System, events: seq<Event>)
    requires Lawful(st) && Safe(st, sys) && UndeceivedRun(st, sys, events)
    ensures Safe(st, Run(st, sys, events))
    decreases |events|
  {
    if events != [] {
      StepSafe(st, sys, events[0]);
      RunSafe(st, Step(st, sys, events[0]), events[1..]);
    }
  }

  /** After any interleaving of loads, saves, interrupted saves and deletions, the file is missing or
      loads exactly the last completed save, within 32 deltas, 8 MiB of journal and 64 MiB. */
  lemma StoreSafety(st: Store, events: seq<Event>)
    requires Lawful(st) && UndeceivedRun(st, Fresh, events)
    ensures var sys := Run(st, Fresh, events);
      if sys.disk.None? then sys.saved.None? else
        var r := LoadOf(st, sys.disk);
        && sys.saved.Some? && Holds(st, sys.disk.value, sys.saved.value)
        && r.Hit? && r.loaded.entries == sys.saved.value && r.loaded.records <= MaxJournalRecords
        && |st.magic| <= |sys.disk.value| <= MaxBytes &&
            |sys.disk.value| - BaseEnd(st, sys.disk.value) <= MaxJournalBytes
  {
    RunSafe(st, Fresh, events);
    var sys := Run(st, Fresh, events);
    if sys.disk.Some? { HeldLoads(st, sys.disk.value, sys.saved.value); }
  }
}

/** The checkpoint store: a base frame and delta frames in one bounded file, shared by loaders and savers. */
module FramedStore {
  import opened Rows
  import opened Manifests
  import opened Flat
  import opened Observations
  import opened Frames

  datatype Observed = Observed(meta: Meta, stamp: string)
  type Obs = Row<Observed>
  type Edits = seq<Edit<Observed>>

  datatype Payload = Full(entries: seq<Obs>) | Delta(edits: Edits)

  const MaxBytes: nat := 0x400_0000
  const MaxJournalBytes: nat := 0x80_0000

  /** The fixed parts of a store: its file magic, whether it journals, its checksum and its codec. */
  datatype Store = Store(magic: Bytes, journal: bool, sum: Checksum, encode: Payload -> Bytes,
      decode: Bytes -> Option<Payload>)

  ghost predicate Lawful(st: Store) { Sum32(st.sum) && forall p :: st.decode(st.encode(p)) == Some(p) }

  function Zero(): (z: Bytes)
    ensures |z| == 32
  { seq(32, _ => 0) }

  predicate Proper(entries: seq<Obs>) { Sorted(entries) && |entries| <= MaxEntries }

  // ---- Decoding ----

  /** What a scan has read: the base and the delta records after it. */
  datatype Journal = Journal(base: seq<Obs>, records: seq<Edits>)

  function Current(j: Journal): seq<Obs> { Replayed(j.base, j.records) }

  function DecodeFirst(st: Store, payload: Bytes): Option<Journal> {
    match st.decode(payload)
    case Some(Full(entries)) => if Proper(entries) then Some(Journal(entries, [])) else None
    case _ => None
  }

  function DecodeNext(st: Store, j: Journal, payload: Bytes): Option<Journal> {
    match st.decode(payload)
    case Some(Delta(edits)) =>
      if |edits| <= 2 * MaxEntries && Applies(Current(j), edits) then
          Some(Journal(j.base, j.records + [edits])) else None
    case _ => None
  }

  function DecoderOf(st: Store): Decoder<Journal> {
    Decoder(payload => DecodeFirst(st, payload), (j, payload) => DecodeNext(st, j, payload))
  }

  predicate Sane(j: Journal) { Proper(j.base) && Replayable(j.base, j.records) }

  lemma {:induction false} ReplaySnoc(base: seq<Obs>, records: seq<Edits>, edits: Edits)
    ensures Replayable(base, records + [edits]) <==>
        Replayable(base, records) && Applies(Replayed(base, records), edits)
    ensures Replayed(base, records + [edits]) == Edited(Replayed(base, records), edits)
    decreases |records|
  {
    if records == [] {
      assert records + [edits] == [edits] && [edits][1..] == [];
      assert Replayable(Edited(base, edits), []) && Replayed(Edited(base, edits), []) == Edited(base, edits);
    } else {
      assert (records + [edits])[0] == records[0] && (records + [edits])[1..] == records[1..] + [edits];
      ReplaySnoc(Edited(base, records[0]), records[1..], edits);
    }
  }

  lemma DecodeSane(st: Store, s: Option<Journal>, payload: Bytes)
    requires s.Some? ==> Sane(s.value)
    ensures Decode(DecoderOf(st), s, payload).Some? ==> Sane(Decode(DecoderOf(st), s, payload).value)
  {
    if s.Some? {
      match st.decode(payload)
      case Some(Delta(edits)) => ReplaySnoc(s.value.base, s.value.records, edits);
      case _ =>
    }
  }

  /** Whatever the bytes, what a scan reads can be replayed. */
  lemma {:induction false} ScanSane(st: Store, data: Bytes, s: Option<Journal>, chain: Bytes, frames: nat)
    requires (s.Some? ==> Sane(s.value)) && (frames > 0 ==> s.Some?)
    ensures var r := Scan(st.sum, DecoderOf(st), data, s, chain, frames);
      (r.state.Some? ==> Sane(r.state.value)) && (r.frames > 0 ==> r.state.Some?) && |r.rest| <= |data|
    decreases |data|
  {
    if data != [] && frames <= MaxJournalRecords {
      var r := ReadFrame(st.sum, data, chain);
      if r.Got? {
        DecodeSane(st, s, r.payload);
        var s' := Decode(DecoderOf(st), s, r.payload);
        if s'.Some? { ScanSane(st, data[r.size..], s', r.link, frames + 1); }
      }
    }
  }

  // ---- Loading ----

  /** A loaded checkpoint and what it remembers of the file. */
  datatype Loaded = Loaded(entries: seq<Obs>, chain: Bytes, diskSize: nat, diskDigest: Bytes,
                           records: nat, journalBytes: int, recovered: bool)

  datatype LoadResult = Missing | Corrupt | Hit(loaded: Loaded)

  function ScanOf(st: Store, data: Bytes): Scanned<Journal>
    requires |st.magic| <= |data|
  { Scan(st.sum, DecoderOf(st), data[|st.magic|..], None, Zero(), 0) }

  function BaseEnd(st: Store, data: Bytes): nat
    requires |st.magic| <= |data|
  {
    var r := ReadFrame(st.sum, data[|st.magic|..], Zero());
    if r.Got? then |st.magic| + r.size else 0
  }

  function LoadOf(st: Store, disk: Option<Bytes>): LoadResult {
    if disk.None? then Missing else
      var data := disk.value;
      if |data| > MaxBytes || !(st.magic <= data) then Corrupt else
        var r := ScanOf(st, data);
        if r.frames == 0 || r.state.None? then Corrupt
        else Hit(Loaded(Current(r.state.value), r.chain, |data|, st.sum(data), r.frames - 1,
                        |data| - |r.rest| - BaseEnd(st, data), r.rest != []))
  }

  method Load(st: Store, disk: Option<Bytes>) returns (r: LoadResult)
    ensures r == LoadOf(st, disk)
  {
    if disk.None? { return Missing; }
    var data := disk.value;
    if |data| > MaxBytes || !(st.magic <= data) { return Corrupt; }
    var state, chain, frames, pos, baseEnd := ScanFrames(st.sum, DecoderOf(st), data, |st.magic|, Zero());
    ScanSane(st, data[|st.magic|..], None, Zero(), 0);
    if frames == 0 { return Corrupt; }
    var entries := ReplayCoalesced(state.value.base, state.value.records);
    return Hit(Loaded(entries.value, chain, |data|, st.sum(data), frames - 1, pos - baseEnd, pos != |data|));
  }

  // ---- Saving ----

  datatype Attempt = Refuse | Append(frame: Bytes) | Replace(frame: Bytes)

  function Replacement(st: Store, target: seq<Obs>): Attempt {
    var payload := st.encode(Full(target));
    if |payload| > MaxBytes - |st.magic| - FrameOverhead then Refuse else Replace(Frame(st.sum, payload, Zero()))
  }

  /** What a save prepares before it takes the lock. */
  function Prepare(st: Store, target: seq<Obs>, prior: Option<Loaded>): Attempt {
    if !Proper(target) then Refuse
    else if st.journal && prior.Some? && !prior.value.recovered && prior.value.records < MaxJournalRecords then
      var payload := st.encode(Delta(Diff(prior.value.entries, target)));
      if |payload| > MaxBytes then Refuse
      else if prior.value.journalBytes + |payload| + FrameOverhead > MaxJournalBytes
           || prior.value.diskSize + |payload| + FrameOverhead > MaxBytes then Replacement(st, target)
      else if |payload| > MaxBytes - |st.magic| - FrameOverhead then Refuse
      else Append(Frame(st.sum, payload, prior.value.chain))
    else Replacement(st, target)
  }

  datatype Saving = Saving(disk: Option<Bytes>, complete: bool)

  /** Under the lock: append to the exact generation that was loaded, or replace the file.  Of an
      interrupted append some bytes stay; an interrupted replacement leaves the old file. */
  function Publish(st: Store, disk: Option<Bytes>, prior: Option<Loaded>, attempt: Attempt, written: nat): Saving {
    match attempt
    case Refuse => Saving(disk, false)
    case Append(frame) =>
      if disk.None? || |disk.value| > MaxBytes then Saving(disk, false)
      else if prior.None? || st.sum(disk.value) != prior.value.diskDigest then Saving(disk, false)
      else if written < |frame| then Saving(Some(disk.value + frame[..written]), false)
      else Saving(Some(disk.value + frame), true)
    case Replace(frame) => if written < |frame| then Saving(disk, false) else Saving(Some(st.magic + frame), true)
  }

  // ---- Loaders and savers sharing the file ----

  /** A process keeps what it loaded; `bytes` are the file contents it came from. */
  datatype Session = Session(loaded: Loaded, bytes: Bytes)

  /** `saved` is the target of the last save that completed. */
  datatype System = System(disk: Option<Bytes>, sessions: map<nat, Session>, saved: Option<seq<Obs>>)

  datatype Event =
    | LoadBy(id: nat)
    | SaveBy(id: nat, target: seq<Obs>, written: nat)
    | Forget                                           // the cache is deleted

  function PriorOf(sys: System, id: nat): Option<Loaded> {
    if id in sys.sessions then Some(sys.sessions[id].loaded) else None
  }

  function Step(st: Store, sys: System, e: Event): System {
    match e
    case LoadBy(id) =>
      var r := LoadOf(st, sys.disk);
      if r.Hit? && sys.disk.Some? then sys.(sessions := sys.sessions[id := Session(r.loaded, sys.disk.value)])
      else sys.(sessions := sys.sessions - {id})
    case SaveBy(id, target, written) =>
      var r := Publish(st, sys.disk, PriorOf(sys, id), Prepare(st, target, PriorOf(sys, id)), written);
      sys.(disk := r.disk, saved := if r.complete then Some(target) else sys.saved)
    case Forget => sys.(disk := None, saved := None)
  }

  /** No save is deceived by a checksum collision. */
  predicate Undeceived(st: Store, sys: System, e: Event) {
    e.SaveBy? && e.id in sys.sessions && sys.disk.Some? &&
        st.sum(sys.disk.value) == sys.sessions[e.id].loaded.diskDigest ==>
      sys.disk.value == sys.sessions[e.id].bytes
  }

  function Run(st: Store, sys: System, events: seq<Event>): System
    decreases |events|
  {
    if events == [] then sys else Run(st, Step(st, sys, events[0]), events[1..])
  }

  predicate UndeceivedRun(st: Store, sys: System, events: seq<Event>)
    decreases |events|
  {
    events == [] || (Undeceived(st, sys, events[0]) && UndeceivedRun(st, Step(st, sys, events[0]), events[1..]))
  }

  const Fresh: System := System(None, map[], None)
}

/** A file of checksummed, chained frames, and the scan that reads as many as are complete. */
module Frames {
  import opened Rows

  type Byte = b: int | 0 <= b < 256
  type Bytes = seq<Byte>

  /** A checksum; SHA-256 in the store. */
  type Checksum = Bytes -> Bytes

  ghost predicate Sum32(sum: Checksum) { forall b :: |sum(b)| == 32 }

  const FrameOverhead: nat := 8 + 32 + 32
  const MaxJournalRecords: nat := 32
  const MaxLength: nat := 0x1_0000_0000_0000_0000

  // ---- Little-endian lengths ----

  function Little(n: nat, k: nat): (b: Bytes)
    ensures |b| == k
  {
    if k == 0 then [] else [n % 256] + Little(n / 256, k - 1)
  }

  function Unlittle(b: Bytes): nat { if b == [] then 0 else b[0] + 256 * Unlittle(b[1..]) }

  function Power(k: nat): nat { if k == 0 then 1 else 256 * Power(k - 1) }

  lemma {:induction false} LittleRoundTrip(n: nat, k: nat)
    requires n < Power(k)
    ensures Unlittle(Little(n, k)) == n
  {
    if k > 0 { LittleRoundTrip(n / 256, k - 1); }
  }

  lemma {:induction false} UnlittleRoundTrip(b: Bytes)
    ensures Unlittle(b) < Power(|b|) && Little(Unlittle(b), |b|) == b
  {
    if b != [] {
      UnlittleRoundTrip(b[1..]);
      assert b == [b[0]] + b[1..];
    }
  }

  lemma Length64()
    ensures Power(8) == MaxLength
  {
    assert Power(4) == 256 * (256 * (256 * (256 * 1)));
    assert Power(8) == 256 * (256 * (256 * (256 * Power(4))));
  }

  // ---- One frame ----

  function Head(payload: Bytes, previous: Bytes): Bytes { Little(|payload|, 8) + previous + payload }

  function Frame(sum: Checksum, payload: Bytes, previous: Bytes): Bytes {
    Head(payload, previous) + sum(Head(payload, previous))
  }

  /** The digest that the next frame must name. */
  function Link(sum: Checksum, payload: Bytes, previous: Bytes): Bytes { sum(Head(payload, previous)) }

  datatype Reading = Stop | Got(payload: Bytes, link: Bytes, size: nat)

  /** The next frame, if it is complete, chained to the last and intact. */
  function ReadFrame(sum: Checksum, rest: Bytes, chain: Bytes): Reading {
    if |rest| < FrameOverhead then Stop else
      var length := Unlittle(rest[..8]);
      if length > |rest| - FrameOverhead then Stop else
        var end := 40 + length;
        if rest[8..40] != chain || sum(rest[..end]) != rest[end..end + 32] then Stop
        else Got(rest[40..end], sum(rest[..end]), end + 32)
  }

  lemma FrameParts(sum: Checksum, payload: Bytes, previous: Bytes)
    requires Sum32(sum) && |previous| == 32
    ensures var f, n := Frame(sum, payload, previous), |payload|;
      && |f| == n + FrameOverhead && f[..8] == Little(n, 8) && f[8..40] == previous && f[40..40 + n] == payload
      && f[..40 + n] == Head(payload, previous) && f[40 + n..] == Link(sum, payload, previous)
  {
  }

  /** A complete frame reads back, whatever follows it. */
  lemma ReadBack(sum: Checksum, payload: Bytes, previous: Bytes, tail: Bytes)
    requires Sum32(sum) && |previous| == 32 && |payload| < MaxLength
    ensures ReadFrame(sum, Frame(sum, payload, previous) + tail, previous)
      == Got(payload, Link(sum, payload, previous), |payload| + FrameOverhead)
  {
    var f, n := Frame(sum, payload, previous), |payload|;
    FrameParts(sum, payload, previous);
    Length64();
    LittleRoundTrip(n, 8);
    var rest := f + tail;
    assert rest[..8] == f[..8] && rest[8..40] == f[8..40] && rest[40..40 + n] == f[40..40 + n];
    assert rest[..40 + n] == f[..40 + n] && rest[40 + n..72 + n] == f[40 + n..];
  }

  /** A torn frame is never read: what is left is shorter than its length field says. */
  lemma TornStops(sum: Checksum, payload: Bytes, previous: Bytes, n: nat)
    requires Sum32(sum) && |previous| == 32 && |payload| < MaxLength && n < |payload| + FrameOverhead
    ensures |Frame(sum, payload, previous)| == |payload| + FrameOverhead
    ensures ReadFrame(sum, Frame(sum, payload, previous)[..n], previous) == Stop
  {
    FrameParts(sum, payload, previous);
    Length64();
    LittleRoundTrip(|payload|, 8);
    if n >= FrameOverhead { assert Frame(sum, payload, previous)[..n][..8] == Frame(sum, payload, previous)[..8]; }
  }

  /** What is read is what a frame on the disk holds: its length, the link to the last frame, its payload
      and its digest. */
  lemma ReadIsFrame(sum: Checksum, rest: Bytes, chain: Bytes)
    requires Sum32(sum) && |chain| == 32 && ReadFrame(sum, rest, chain).Got?
    ensures var r := ReadFrame(sum, rest, chain);
      && |r.payload| < MaxLength && Frame(sum, r.payload, chain) <= rest
      && r.link == Link(sum, r.payload, chain) && r.size == |r.payload| + FrameOverhead
  {
    var length := Unlittle(rest[..8]);
    var end := 40 + length;
    UnlittleRoundTrip(rest[..8]);
    Length64();
    assert rest[..end] == rest[..8] + rest[8..40] + rest[40..end];
    assert rest[..end + 32] == rest[..end] + rest[end..end + 32];
  }

  /** Nothing is read exactly if no whole frame that names the last one starts here: a frame that is cut
      short, whose digest differs or that follows another frame stops the scan. */
  lemma ReadsExactly(sum: Checksum, rest: Bytes, chain: Bytes)
    requires Sum32(sum) && |chain| == 32
    ensures ReadFrame(sum, rest, chain).Stop? <==> forall p :: Frame(sum, p, chain) <= rest ==> |p| >= MaxLength
    ensures forall p :: Frame(sum, p, chain) <= rest && |p| < MaxLength ==>
        ReadFrame(sum, rest, chain).Got? && ReadFrame(sum, rest, chain).payload == p
  {
    if ReadFrame(sum, rest, chain).Got? { ReadIsFrame(sum, rest, chain); }
    forall p | Frame(sum, p, chain) <= rest && |p| < MaxLength
      ensures ReadFrame(sum, rest, chain).Got? && ReadFrame(sum, rest, chain).payload == p
    {
      var f := Frame(sum, p, chain);
      assert rest == f + rest[|f|..];
      ReadBack(sum, p, chain, rest[|f|..]);
    }
  }

  // ---- A chain of frames ----

  function Chained(sum: Checksum, payloads: seq<Bytes>, previous: Bytes): Bytes
    decreases |payloads|
  {
    if payloads == [] then [] else
      Frame(sum, payloads[0], previous) + Chained(sum, payloads[1..], Link(sum, payloads[0], previous))
  }

  function LastLink(sum: Checksum, payloads: seq<Bytes>, previous: Bytes): Bytes
    decreases |payloads|
  {
    if payloads == [] then previous else LastLink(sum, payloads[1..], Link(sum, payloads[0], previous))
  }

  function ChainedSize(payloads: seq<Bytes>): nat
    decreases |payloads|
  {
    if payloads == [] then 0 else |payloads[0]| + FrameOverhead + ChainedSize(payloads[1..])
  }

  predicate Short(payloads: seq<Bytes>) { forall i :: 0 <= i < |payloads| ==> |payloads[i]| < MaxLength }

  lemma {:induction false} ChainedLength(sum: Checksum, payloads: seq<Bytes>, previous: Bytes)
    requires Sum32(sum) && |previous| == 32
    ensures |Chained(sum, payloads, previous)| == ChainedSize(payloads) && |LastLink(sum, payloads, previous)| == 32
    decreases |payloads|
  {
    if payloads != [] {
      FrameParts(sum, payloads[0], previous);
      ChainedLength(sum, payloads[1..], Link(sum, payloads[0], previous));
    }
  }

  lemma {:induction false} ChainedSnoc(sum: Checksum, payloads: seq<Bytes>, payload: Bytes, previous: Bytes)
    ensures Chained(sum, payloads + [payload], previous)
      == Chained(sum, payloads, previous) + Frame(sum, payload, LastLink(sum, payloads, previous))
    ensures LastLink(sum, payloads + [payload], previous) == Link(sum, payload, LastLink(sum, payloads, previous))
    ensures ChainedSize(payloads + [payload]) == ChainedSize(payloads) + |payload| + FrameOverhead
    decreases |payloads|
  {
    var all := payloads + [payload];
    if payloads == [] {
      assert all == [payload] && all[1..] == [];
      assert Chained(sum, [], Link(sum, payload, previous)) == [];
      assert Frame(sum, payload, previous) + [] == Frame(sum, payload, previous) == [] + Frame(sum, payload, previous);
    } else {
      assert all[0] == payloads[0] && all[1..] == payloads[1..] + [payload];
      var link := Link(sum, payloads[0], previous);
      ChainedSnoc(sum, payloads[1..], payload, link);
      Regroup(Frame(sum, payloads[0], previous), Chained(sum, payloads[1..], link),
          Frame(sum, payload, LastLink(sum, payloads[1..], link)));
    }
  }

  // ---- Scanning ----

  /** How payloads are read: the base payload, then each delta against what was read before. */
  datatype Decoder<!S> = Decoder(first: Bytes -> Option<S>, next: (S, Bytes) -> Option<S>)

  function Decode<S>(d: Decoder<S>, s: Option<S>, payload: Bytes): Option<S> {
    if s.None? then d.first(payload) else d.next(s.value, payload)
  }

  /** What a scan ends with: the state read, its last link, the frames read and the bytes left over. */
  datatype Scanned<S> = Scanned(state: Option<S>, chain: Bytes, frames: nat, rest: Bytes)

  function Scan<S>(sum: Checksum, d: Decoder<S>, data: Bytes, s: Option<S>, chain: Bytes, frames: nat): Scanned<S>
    decreases |data|
  {
    var here := Scanned(s, chain, frames, data);
    if data == [] || frames > MaxJournalRecords then here else
      var r := ReadFrame(sum, data, chain);
      if r.Stop? then here else
        var s' := Decode(d, s, r.payload);
        if s'.None? then here else Scan(sum, d, data[r.size..], s', r.link, frames + 1)
  }

  /** The scan as the loader runs it. */
  method ScanFrames<S>(sum: Checksum, d: Decoder<S>, data: Bytes, start: nat, zero: Bytes)
      returns (state: Option<S>, chain: Bytes, frames: nat, pos: nat, baseEnd: nat)
    requires start <= |data|
    ensures start <= pos <= |data|
    ensures Scanned(state, chain, frames, data[pos..]) == Scan(sum, d, data[start..], None, zero, 0)
    ensures frames > 0 ==>
        ReadFrame(sum, data[start..], zero).Got? && baseEnd == start + ReadFrame(sum, data[start..], zero).size
    ensures baseEnd <= pos
  {
    state, chain, frames, pos, baseEnd := None, zero, 0, start, 0;
    while pos < |data| && frames <= MaxJournalRecords
      invariant start <= pos <= |data|
      invariant Scan(sum, d, data[pos..], state, chain, frames) == Scan(sum, d, data[start..], None, zero, 0)
      invariant frames == 0 ==> pos == start && chain == zero && state == None
      invariant baseEnd <= pos
      invariant frames > 0 ==>
          ReadFrame(sum, data[start..], zero).Got? && baseEnd == start + ReadFrame(sum, data[start..], zero).size
      decreases |data| - pos
    {
      var r := ReadFrame(sum, data[pos..], chain);
      var next := if r.Stop? then None else Decode(d, state, r.payload);
      if next.None? { break; }
      assert data[pos..][r.size..] == data[pos + r.size..];
      state, chain, pos, frames := next, r.link, pos + r.size, frames + 1;
      if frames == 1 { baseEnd := pos; }
    }
  }

  /** All payloads decode, one after another. */
  function Decoded<S>(d: Decoder<S>, s: Option<S>, payloads: seq<Bytes>): Option<S>
    decreases |payloads|
  {
    if payloads == [] then s else
      var s' := Decode(d, s, payloads[0]);
      if s'.None? then None else Decoded(d, s', payloads[1..])
  }

  /** How many of the frames are complete in the first `n` bytes. */
  function Complete(payloads: seq<Bytes>, n: nat): (k: nat)
    ensures k <= |payloads|
    decreases |payloads|
  {
    if payloads == [] || n < |payloads[0]| + FrameOverhead then
        0 else 1 + Complete(payloads[1..], n - |payloads[0]| - FrameOverhead)
  }

  lemma {:induction false} CompleteIsMaximal(payloads: seq<Bytes>, n: nat, k: nat)
    requires k <= |payloads|
    ensures k <= Complete(payloads, n) <==> ChainedSize(payloads[..k]) <= n
    decreases |payloads|
  {
    if k > 0 {
      assert payloads[..k][1..] == payloads[1..][..k - 1];
      if n >= |payloads[0]| + FrameOverhead {
        CompleteIsMaximal(payloads[1..], n - |payloads[0]| - FrameOverhead, k - 1);
      }
    }
  }

  predicate Reads<S>(d: Decoder<S>, s: Option<S>, payloads: seq<Bytes>)
    decreases |payloads|
  {
    payloads == [] || (Decode(d, s, payloads[0]).Some? && Reads(d, Decode(d, s, payloads[0]), payloads[1..]))
  }

  /** A scan of `n` bytes that read exactly the first `k` frames. */
  predicate EndsAfter<S(==)>(r: Scanned<S>, sum: Checksum, d: Decoder<S>, payloads: seq<Bytes>, k: nat, n: nat,
                        s: Option<S>, chain: Bytes, frames: nat)
    requires k <= |payloads|
  {
    && r.state == Decoded(d, s, payloads[..k]) && r.frames == frames + k &&
        r.chain == LastLink(sum, payloads[..k], chain)
    && |r.rest| == n - ChainedSize(payloads[..k])
  }

  lemma ScanOne<S>(sum: Checksum, d: Decoder<S>, payload: Bytes, tail: Bytes, s: Option<S>, chain: Bytes, frames: nat)
    requires Sum32(sum) && |chain| == 32 && |payload| < MaxLength && frames <= MaxJournalRecords
    requires Decode(d, s, payload).Some?
    ensures Scan(sum, d, Frame(sum, payload, chain) + tail, s, chain, frames)
      == Scan(sum, d, tail, Decode(d, s, payload), Link(sum, payload, chain), frames + 1)
  {
    var data := Frame(sum, payload, chain) + tail;
    FrameParts(sum, payload, chain);
    ReadBack(sum, payload, chain, tail);
    assert data[|payload| + FrameOverhead..] == tail;
  }

  lemma ScanTorn<S>(sum: Checksum, d: Decoder<S>, payload: Bytes, n: nat, s: Option<S>, chain: Bytes, frames: nat)
    requires Sum32(sum) && |chain| == 32 && |payload| < MaxLength && n < |payload| + FrameOverhead
    ensures |Frame(sum, payload, chain)| == |payload| + FrameOverhead
    ensures var torn := Frame(sum, payload, chain)[..n]; Scan(sum, d, torn, s, chain, frames) == Scanned(s, chain,
        frames, torn)
  {
    TornStops(sum, payload, chain, n);
  }

  /** Cut a chain of frames anywhere: the scan ends with the state of the complete ones. */
  lemma {:induction false} TruncatedScan<S>(sum: Checksum, d: Decoder<S>, payloads: seq<Bytes>, n: nat, s: Option<S>,
                                            chain: Bytes, frames: nat)
    requires Sum32(sum) && |chain| == 32 && Short(payloads) && Reads(d, s, payloads)
    requires frames + |payloads| <= MaxJournalRecords + 1 && n <= |Chained(sum, payloads, chain)|
    ensures EndsAfter(Scan(sum, d, Chained(sum, payloads, chain)[..n], s, chain, frames), sum, d, payloads,
        Complete(payloads, n), n, s, chain, frames)
    decreases |payloads|
  {
    if payloads == [] {
      assert Chained(sum, payloads, chain)[..n] == [];
    } else if n < |payloads[0]| + FrameOverhead {
      CutInFirst(sum, d, payloads, n, s, chain, frames);
    } else {
      var size, link := |payloads[0]| + FrameOverhead, Link(sum, payloads[0], chain);
      CutChain(sum, payloads, n, chain);
      TruncatedScan(sum, d, payloads[1..], n - size, Decode(d, s, payloads[0]), link, frames + 1);
      CutAfterFirst(sum, d, payloads, n, s, chain, frames);
    }
  }

  lemma CutInFirst<S>(sum: Checksum, d: Decoder<S>, payloads: seq<Bytes>, n: nat, s: Option<S>, chain: Bytes,
                      frames: nat)
    requires Sum32(sum) && |chain| == 32 && Short(payloads) && payloads != [] && n <= |Chained(sum, payloads, chain)|
    requires n < |payloads[0]| + FrameOverhead
    ensures EndsAfter(Scan(sum, d, Chained(sum, payloads, chain)[..n], s, chain, frames), sum, d, payloads, 0, n, s,
        chain, frames)
  {
    CutChain(sum, payloads, n, chain);
    ScanTorn(sum, d, payloads[0], n, s, chain, frames);
    assert payloads[..0] == [];
  }

  lemma CutAfterFirst<S>(sum: Checksum, d: Decoder<S>, payloads: seq<Bytes>, n: nat, s: Option<S>, chain: Bytes,
                         frames: nat)
    requires Sum32(sum) && |chain| == 32 && Short(payloads) && payloads != [] && n <= |Chained(sum, payloads, chain)|
    requires n >= |payloads[0]| + FrameOverhead && frames <= MaxJournalRecords && Decode(d, s, payloads[0]).Some?
    requires var size, link := |payloads[0]| + FrameOverhead, Link(sum, payloads[0], chain);
      var rest := Chained(sum, payloads[1..], link);
      n - size <= |rest| &&
      EndsAfter(Scan(sum, d, rest[..n - size], Decode(d, s, payloads[0]), link, frames + 1),
        sum, d, payloads[1..], Complete(payloads[1..], n - size), n - size, Decode(d, s, payloads[0]), link, frames + 1)
    ensures EndsAfter(Scan(sum, d, Chained(sum, payloads, chain)[..n], s, chain, frames), sum, d, payloads,
        Complete(payloads, n), n, s, chain, frames)
  {
    var size, link := |payloads[0]| + FrameOverhead, Link(sum, payloads[0], chain);
    CutChain(sum, payloads, n, chain);
    ScanOne(sum, d, payloads[0], Chained(sum, payloads[1..], link)[..n - size], s, chain, frames);
    FirstOf(sum, d, payloads, Complete(payloads, n), s, chain);
  }

  /** A cut falls into the first frame or after it. */
  lemma CutChain(sum: Checksum, payloads: seq<Bytes>, n: nat, chain: Bytes)
    requires Sum32(sum) && |chain| == 32 && payloads != [] && n <= |Chained(sum, payloads, chain)|
    ensures var size, first := |payloads[0]| + FrameOverhead, Frame(sum, payloads[0], chain);
      var data, rest := Chained(sum, payloads, chain)[..n], Chained(sum, payloads[1..], Link(sum, payloads[0], chain));
      && |first| == size
      && (n < size ==> data == first[..n])
      && (n >= size ==> n - size <= |rest| && data == first + rest[..n - size])
  {
    FrameParts(sum, payloads[0], chain);
  }

  lemma FirstOf<S>(sum: Checksum, d: Decoder<S>, payloads: seq<Bytes>, k: nat, s: Option<S>, chain: Bytes)
    requires 0 < k <= |payloads| && Decode(d, s, payloads[0]).Some?
    ensures Decoded(d, s, payloads[..k]) == Decoded(d, Decode(d, s, payloads[0]), payloads[1..][..k - 1])
    ensures LastLink(sum, payloads[..k], chain) == LastLink(sum, payloads[1..][..k - 1], Link(sum, payloads[0], chain))
    ensures ChainedSize(payloads[..k]) == |payloads[0]| + FrameOverhead + ChainedSize(payloads[1..][..k - 1])
  {
    assert payloads[..k][1..] == payloads[1..][..k - 1] && payloads[..k][0] == payloads[0];
  }

  // ---- Any bytes ----

  /** The scan could not read one more frame: no byte or no frame is left, the frame does not decode, or
      as many frames as a journal may have were read. */
  predicate Ends<S(==)>(sum: Checksum, d: Decoder<S>, r: Scanned<S>) {
    r.rest == [] || r.frames > MaxJournalRecords || ReadFrame(sum, r.rest, r.chain).Stop?
    || Decode(d, r.state, ReadFrame(sum, r.rest, r.chain).payload).None?
  }

  /** A scan that read exactly these payloads. */
  predicate Scans<S(==)>(r: Scanned<S>, sum: Checksum, d: Decoder<S>, data: Bytes, payloads: seq<Bytes>, s: Option<S>,
                         chain: Bytes, frames: nat)
  {
    && data == Chained(sum, payloads, chain) + r.rest && r.chain == LastLink(sum, payloads, chain)
    && Reads(d, s, payloads) && r.state == Decoded(d, s, payloads) && r.frames == frames + |payloads|
    && Ends(sum, d, r)
  }

  lemma OneFrameFirst<S>(sum: Checksum, d: Decoder<S>, p: Bytes, later: seq<Bytes>, s: Option<S>, chain: Bytes)
    ensures var all, link := [p] + later, Link(sum, p, chain);
      && Chained(sum, all, chain) == Frame(sum, p, chain) + Chained(sum, later, link)
      && LastLink(sum, all, chain) == LastLink(sum, later, link)
      && (Decode(d, s, p).Some? ==> Reads(d, s, all) == Reads(d, Decode(d, s, p), later))
      && (Decode(d, s, p).Some? ==> Decoded(d, s, all) == Decoded(d, Decode(d, s, p), later))
  {
    assert ([p] + later)[1..] == later;
  }

  lemma ScansOneMore<S>(r: Scanned<S>, sum: Checksum, d: Decoder<S>, data: Bytes, later: seq<Bytes>, s: Option<S>,
                        chain: Bytes, frames: nat)
    requires Sum32(sum) && |chain| == 32 && ReadFrame(sum, data, chain).Got?
    requires var got := ReadFrame(sum, data, chain);
      && Decode(d, s, got.payload).Some? && got.size <= |data|
      && Scans(r, sum, d, data[got.size..], later, Decode(d, s, got.payload), got.link, frames + 1)
    ensures Scans(r, sum, d, data, [ReadFrame(sum, data, chain).payload] + later, s, chain, frames)
  {
    var got := ReadFrame(sum, data, chain);
    ReadIsFrame(sum, data, chain);
    FrameParts(sum, got.payload, chain);
    OneFrameFirst(sum, d, got.payload, later, s, chain);
    FirstThenRest(data, Frame(sum, got.payload, chain), Chained(sum, later, got.link), r.rest);
  }

  lemma FirstThenRest(data: Bytes, first: Bytes, middle: Bytes, rest: Bytes)
    requires first <= data && data[|first|..] == middle + rest
    ensures data == first + middle + rest
  {
    assert data == first + data[|first|..];
  }

  /** Whatever the bytes, a scan reads a chain of whole frames that decode, and stops only at its end. */
  lemma {:induction false} ScanExactly<S>(sum: Checksum, d: Decoder<S>, data: Bytes, s: Option<S>, chain: Bytes,
                                          frames: nat)
      returns (payloads: seq<Bytes>)
    requires Sum32(sum) && |chain| == 32
    ensures Scans(Scan(sum, d, data, s, chain, frames), sum, d, data, payloads, s, chain, frames)
    decreases |data|
  {
    payloads := [];
    if data != [] && frames <= MaxJournalRecords && ReadFrame(sum, data, chain).Got? {
      var got := ReadFrame(sum, data, chain);
      var next := Decode(d, s, got.payload);
      if next.Some? {
        var later := ScanExactly(sum, d, data[got.size..], next, got.link, frames + 1);
        var r := Scan(sum, d, data[got.size..], next, got.link, frames + 1);
        assert Scan(sum, d, data, s, chain, frames) == r;
        ScansOneMore(r, sum, d, data, later, s, chain, frames);
        payloads := [got.payload] + later;
      }
    }
  }
}

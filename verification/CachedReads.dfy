/** Checkpoint reads through caches: a record is reused only when the file holds exactly its bytes. */
module CachedReads {
  import opened Rows
  import opened Frames

  const MaxRecordBytes: nat := 0x400_0000

  function Concat(chunks: seq<Bytes>): Bytes {
    if chunks == [] then [] else Concat(chunks[..|chunks| - 1]) + chunks[|chunks| - 1]
  }

  lemma {:induction false} ConcatSplit(chunks: seq<Bytes>, i: nat)
    requires i <= |chunks|
    ensures Concat(chunks) == Concat(chunks[..i]) + Concat(chunks[i..])
    decreases |chunks|
  {
    if i == |chunks| {
      assert chunks[..i] == chunks && chunks[i..] == [];
    } else {
      var front, last := chunks[..|chunks| - 1], chunks[|chunks| - 1];
      assert chunks[i..][..|chunks| - i - 1] == front[i..] && chunks[..i] == front[..i];
      assert chunks[i..][|chunks| - i - 1] == last;
      ConcatSplit(front, i);
      Regroup(Concat(chunks[..i]), Concat(front[i..]), last);
    }
  }

  lemma ConcatNext(chunks: seq<Bytes>, i: nat)
    requires i < |chunks|
    ensures Concat(chunks[..i + 1]) == Concat(chunks[..i]) + chunks[i]
  {
    var c := chunks[..i + 1];
    assert c[..|c| - 1] == chunks[..i] && c[|c| - 1] == chunks[i];
  }

  datatype Matching = Same | Other(raw: Bytes) | TooLong

  /** What comparing a file with known bytes must answer. */
  function Matched(known: Bytes, file: Bytes): Matching {
    if |file| > MaxRecordBytes then TooLong else if file == known then Same else Other(file)
  }

  /** Compare as the file is read, chunk by chunk, keeping no second copy of what matches. */
  method ReadMatching(known: Bytes, chunks: seq<Bytes>) returns (r: Matching)
    requires |known| <= MaxRecordBytes
    ensures r == Matched(known, Concat(chunks))
  {
    var matched: nat := 0;
    for i := 0 to |chunks|
      invariant matched <= |known| && known[..matched] == Concat(chunks[..i])
    {
      var buf := chunks[i];
      ConcatNext(chunks, i);
      if |buf| > |known| - matched || buf != known[matched..matched + |buf|] {
        var rest := Concat(chunks[i + 1..]);
        ConcatSplit(chunks, i + 1);
        Mismatch(known, matched, buf, rest);
        if matched + |buf| + |rest| > MaxRecordBytes { return TooLong; }
        return Other(known[..matched] + buf + rest);
      }
      assert known[..matched + |buf|] == known[..matched] + buf;
      matched := matched + |buf|;
    }
    assert chunks[..|chunks|] == chunks;
    if matched == |known| { assert known[..matched] == known; return Same; }
    return Other(known[..matched]);
  }

  lemma Mismatch(known: Bytes, matched: nat, buf: Bytes, rest: Bytes)
    requires matched <= |known| && (|buf| > |known| - matched || buf != known[matched..matched + |buf|])
    ensures known[..matched] + buf + rest != known
  {
    var file := known[..matched] + buf + rest;
    if |buf| <= |known| - matched { assert file[matched..matched + |buf|] == buf; }
  }

  // ---- Reading through the caches ----

  datatype Record<+S> = Record(raw: Bytes, state: S)

  /** Decoding and the checks of a decoded state; `related` are those against the reading handle. */
  datatype Host<!S> = Host(decode: Bytes -> Option<S>, encode: S -> Bytes, related: S -> bool, valid: S -> bool,
      roundTrips: S -> bool)

  ghost predicate Lawful<S(!new)>(h: Host<S>) { forall s :: h.roundTrips(s) ==> h.decode(h.encode(s)) == Some(s) }

  /** A read without any cache. */
  function Fresh<S>(h: Host<S>, file: Bytes): Option<S> {
    if |file| > MaxRecordBytes then None else
      match h.decode(file)
      case None => None
      case Some(s) => if h.related(s) && h.valid(s) then Some(s) else None
  }

  /** A record that its own bytes decode to. */
  predicate Trusted<S(==)>(h: Host<S>, r: Option<Record<S>>) {
    r.None? ||
    (|r.value.raw| <= MaxRecordBytes && h.decode(r.value.raw) == Some(r.value.state) && h.valid(r.value.state))
  }

  class Reader<S(==)> {
    var own: Option<Record<S>>      // what this handle read or saved last
    var shared: Option<Record<S>>   // what the receiver's shared cache retains for this path

    predicate Valid(h: Host<S>)
      reads this
    { Trusted(h, own) && Trusted(h, shared) }

    constructor ()
      ensures own == None && shared == None
    {
      own, shared := None, None;
    }

    /** Whatever the caches hold and however the file is chunked, the answer is a fresh read's. */
    method Read(h: Host<S>, chunks: seq<Bytes>) returns (r: Option<S>)
      requires Valid(h)
      modifies this
      ensures Valid(h) && r == Fresh(h, Concat(chunks))
    {
      var known := if own.Some? then own else shared;
      var m: Matching;
      if known.Some? {
        m := ReadMatching(known.value.raw, chunks);
      } else {
        m := if |Concat(chunks)| > MaxRecordBytes then TooLong else Other(Concat(chunks));
      }
      if m.TooLong? { return None; }
      if m.Same? {
        if !h.related(known.value.state) { return None; }
        own := known;
        return Some(known.value.state);
      }
      if shared.Some? && shared != known && shared.value.raw == m.raw {
        if !h.related(shared.value.state) { return None; }
        own := shared;
        return Some(shared.value.state);
      }
      var state := h.decode(m.raw);
      if state.None? || !h.related(state.value) || !h.valid(state.value) { return None; }
      own := Some(Record(m.raw, state.value));
      shared := own;
      return state;
    }

    /** Publish a validated state; only a complete publication of a state that survives encoding is retained. */
    method Save(h: Host<S>, s: S, published: bool) returns (file: Option<Bytes>)
      requires Valid(h) && h.valid(s) && (h.roundTrips(s) ==> h.decode(h.encode(s)) == Some(s))
      modifies this
      ensures Valid(h)
      ensures file == if published && |h.encode(s)| <= MaxRecordBytes then Some(h.encode(s)) else None
      ensures own == shared == if file.Some? && h.roundTrips(s) && h.related(s) then
          Some(Record(h.encode(s), s)) else None
    {
      own, shared := None, None;
      var raw := h.encode(s);
      if |raw| > MaxRecordBytes || !published { return None; }
      if h.roundTrips(s) && h.related(s) {
        own := Some(Record(raw, s));
        shared := own;
      }
      return Some(raw);
    }

    /** Another handle retains a trusted record, or the shared cache drops its own. */
    method ShareOther(h: Host<S>, r: Option<Record<S>>)
      requires Valid(h) && Trusted(h, r)
      modifies this`shared
      ensures Valid(h) && shared == r
    {
      shared := r;
    }
  }
}

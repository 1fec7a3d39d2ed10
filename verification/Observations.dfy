/** Replaying journaled observation edits: one coalesced pass gives what replaying every record would. */
module Observations {
  import opened Paths
  import opened Rows
  import opened Flat

  const MaxEntries: nat := 200000

  // ---- One record ----

  predicate DeletesPresent<V>(before: seq<Row<V>>, edits: seq<Edit<V>>) {
    forall i :: 0 <= i < |edits| && edits[i].value.delete ==> Find(before, edits[i].path).Some?
  }

  /** What a delta record must satisfy against the state it applies to. */
  predicate Applies<V>(before: seq<Row<V>>, edits: seq<Edit<V>>) {
    Sorted(edits) && DeletesPresent(before, edits) && |Edited(before, edits)| <= MaxEntries
  }

  lemma {:induction false} EditedNone<V>(rows: seq<Row<V>>)
    ensures Edited(rows, []) == rows
  {
    if rows != [] {
      EditedNone(rows[1..]);
      assert rows == [rows[0]] + rows[1..];
    }
  }

  /** Everything passed lies before the path, so only the rest can hold it. */
  lemma AbsentFrom<V>(before: seq<Row<V>>, i: nat, name: string)
    requires Sorted(before) && i <= |before|
    requires forall k :: 0 <= k < i ==> Less(before[k].path, name)
    requires i < |before| ==> Less(name, before[i].path)
    ensures Find(before, name) == None
  {
    assert before == before[..i] + before[i..];
    FindConcat(before[..i], before[i..], name);
    FindOutside(before[..i], name);
    BeforeHead(before[i..], name);
  }

  /** The cursor into `before` stands just after the rows not beyond the last edit. */
  predicate CursorBehind<V>(before: seq<Row<V>>, i: nat, edits: seq<Edit<V>>, j: nat)
    requires i <= |before| && j <= |edits|
  {
    (i > 0 ==> j > 0) && forall k :: 0 <= k < i ==> !Less(edits[j - 1].path, before[k].path)
  }

  lemma PassedBefore<V>(before: seq<Row<V>>, i: nat, edits: seq<Edit<V>>, j: nat)
    requires i <= |before| && j < |edits| && CursorBehind(before, i, edits, j)
    requires j > 0 ==> Less(edits[j - 1].path, edits[j].path)
    ensures forall k :: 0 <= k < i ==> Less(before[k].path, edits[j].path)
  {
    forall k | 0 <= k < i ensures Less(before[k].path, edits[j].path) {
      LessTotal(edits[j - 1].path, before[k].path);
      if before[k].path != edits[j - 1].path { LessTransitive(before[k].path, edits[j - 1].path, edits[j].path); }
    }
  }

  /** Copy the rows before the next edit. */
  method CopyBefore<V>(before: seq<Row<V>>, start: nat, edits: seq<Edit<V>>, j: nat, done: seq<Row<V>>,
                       ghost whole: seq<Row<V>>)
      returns (i: nat, result: seq<Row<V>>)
    requires start <= |before| && j < |edits| && forall k :: 0 <= k < start ==> Less(before[k].path, edits[j].path)
    requires done + Edited(before[start..], edits[j..]) == whole
    ensures i <= |before| && (forall k :: 0 <= k < i ==> Less(before[k].path, edits[j].path))
    ensures i == |before| || !Less(before[i].path, edits[j].path)
    ensures result + Edited(before[i..], edits[j..]) == whole
  {
    i, result := start, done;
    while i < |before| && Less(before[i].path, edits[j].path)
      invariant i <= |before| && forall k :: 0 <= k < i ==> Less(before[k].path, edits[j].path)
      invariant result + Edited(before[i..], edits[j..]) == whole
    {
      CopyTurn(before, i, edits, j, result);
      assert (result + [before[i]]) + Edited(before[i + 1..], edits[j..]) == whole;
      result := result + [before[i]];
      i := i + 1;
    }
  }

  lemma CopyTurn<V>(before: seq<Row<V>>, i: nat, edits: seq<Edit<V>>, j: nat, done: seq<Row<V>>)
    requires i < |before| && j < |edits| && Less(before[i].path, edits[j].path)
    ensures done + Edited(before[i..], edits[j..]) == (done + [before[i]]) + Edited(before[i + 1..], edits[j..])
  {
    EditTurn(before, i, edits, j, done);
  }

  /** Step over the row an edit replaces or deletes, and write its new value. */
  method PassEdit<V>(before: seq<Row<V>>, start: nat, edits: seq<Edit<V>>, j: nat, done: seq<Row<V>>,
                     ghost whole: seq<Row<V>>)
      returns (i: nat, result: seq<Row<V>>, missing: bool)
    requires Sorted(before) && start <= |before| && j < |edits| && done + Edited(before[start..], edits[j..]) == whole
    requires forall k :: 0 <= k < start ==> Less(before[k].path, edits[j].path)
    requires start == |before| || !Less(before[start].path, edits[j].path)
    ensures missing <==> edits[j].value.delete && Find(before, edits[j].path) == None
    ensures i <= |before|
    ensures forall k :: 0 <= k < i ==> Less(before[k].path, edits[j].path) || before[k].path == edits[j].path
    ensures !missing ==> result + Edited(before[i..], edits[j + 1..]) == whole
  {
    var e := edits[j];
    i, result, missing := start, done, false;
    EditTurn(before, i, edits, j, result);
    if i < |before| && before[i].path == e.path {
      FindAt(before, i);
      i := i + 1;
    } else if e.value.delete {
      if i < |before| { LessTotal(before[i].path, e.path); }
      AbsentFrom(before, i, e.path);
      missing := true;
    }
    if !e.value.delete { result := result + [Row(e.path, e.value.value)]; }
  }

  /** `applyObservations`. */
  method ApplyObservations<V>(before: seq<Row<V>>, edits: seq<Edit<V>>) returns (r: Option<seq<Row<V>>>)
    requires Sorted(before)
    ensures r.Some? <==> Applies(before, edits)
    ensures r.Some? ==> r.value == Edited(before, edits)
  {
    var result: seq<Row<V>> := [];
    var i: nat := 0;
    for j := 0 to |edits|
      invariant i <= |before| && Sorted(edits[..j]) && CursorBehind(before, i, edits, j)
      invariant forall k :: 0 <= k < j && edits[k].value.delete ==> Find(before, edits[k].path).Some?
      invariant result + Edited(before[i..], edits[j..]) == Edited(before, edits)
    {
      var e := edits[j];
      if j > 0 && !Less(edits[j - 1].path, e.path) { return None; }
      AdjacentSorted(edits, j);
      PassedBefore(before, i, edits, j);
      i, result := CopyBefore(before, i, edits, j, result, Edited(before, edits));
      var missing: bool;
      i, result, missing := PassEdit(before, i, edits, j, result, Edited(before, edits));
      if missing { return None; }
      StillBehind(before, i, edits, j);
    }
    assert edits[..|edits|] == edits && edits[|edits|..] == [];
    EditedNone(before[i..]);
    result := result + before[i..];
    if |result| > MaxEntries { return None; }
    return Some(result);
  }

  lemma StillBehind<V>(before: seq<Row<V>>, i: nat, edits: seq<Edit<V>>, j: nat)
    requires i <= |before| && j < |edits|
    requires forall k :: 0 <= k < i ==> Less(before[k].path, edits[j].path) || before[k].path == edits[j].path
    ensures CursorBehind(before, i, edits, j + 1)
  {
    forall k | 0 <= k < i ensures !Less(edits[j].path, before[k].path) {
      LessIrreflexive(edits[j].path);
      if Less(before[k].path, edits[j].path) && Less(edits[j].path, before[k].path) {
        LessTransitive(edits[j].path, before[k].path, edits[j].path);
      }
    }
  }

  // ---- Many records ----

  /** Every record applies to the state its predecessors left. */
  predicate Replayable<V>(base: seq<Row<V>>, records: seq<seq<Edit<V>>>)
    decreases records
  {
    records == [] || (Applies(base, records[0]) && Replayable(Edited(base, records[0]), records[1..]))
  }

  /** The records applied one after another. */
  function Replayed<V>(base: seq<Row<V>>, records: seq<seq<Edit<V>>>): seq<Row<V>>
    decreases records
  {
    if records == [] then base else Replayed(Edited(base, records[0]), records[1..])
  }

  /** The last record to mention a path decides. */
  function LastEdit<V>(records: seq<seq<Edit<V>>>, p: string): Option<Change<V>>
    decreases |records|
  {
    if records == [] then None else
      var later := LastEdit(records[1..], p);
      if later.Some? then later else Find(records[0], p)
  }

  lemma {:induction false} ReplayedFind<V>(base: seq<Row<V>>, records: seq<seq<Edit<V>>>, p: string)
    requires Sorted(base) && Replayable(base, records)
    ensures Sorted(Replayed(base, records))
    ensures Find(Replayed(base, records), p) == ApplyAt(Find(base, p), LastEdit(records, p))
    decreases |records|
  {
    if records != [] {
      EditSorted(base, records[0]);
      EditFind(base, records[0], p);
      ReplayedFind(Edited(base, records[0]), records[1..], p);
    }
  }

  lemma {:induction false} ReplayedBounded<V>(base: seq<Row<V>>, records: seq<seq<Edit<V>>>)
    requires Replayable(base, records) && |base| <= MaxEntries
    ensures |Replayed(base, records)| <= MaxEntries
    decreases |records|
  {
    if records != [] { ReplayedBounded(Edited(base, records[0]), records[1..]); }
  }

  lemma {:induction false} LastEditSnoc<V>(records: seq<seq<Edit<V>>>, r: seq<Edit<V>>, p: string)
    ensures LastEdit(records + [r], p) == if Find(r, p).Some? then Find(r, p) else LastEdit(records, p)
    decreases |records|
  {
    if records == [] {
      assert records + [r] == [r] && [r][1..] == [];
    } else {
      assert (records + [r])[1..] == records[1..] + [r] && (records + [r])[0] == records[0];
      LastEditSnoc(records[1..], r, p);
    }
  }

  // ---- Coalescing ----

  /** A delete of something the base never had was created within the journal. */
  predicate Kept<V>(base: seq<Row<V>>, p: string, e: Change<V>) { !e.delete || Find(base, p).Some? }

  function Lookup<V>(m: map<string, V>, p: string): Option<V> { if p in m then Some(m[p]) else None }

  /** The coalesced edit of a path. */
  function CoalescedAt<V>(base: seq<Row<V>>, records: seq<seq<Edit<V>>>, p: string): Option<Change<V>> {
    var e := LastEdit(records, p);
    if e.Some? && Kept(base, p, e.value) then e else None
  }

  ghost predicate Pending<V>(pending: map<string, Change<V>>, records: seq<seq<Edit<V>>>) {
    forall p :: LastEdit(records, p) == Lookup(pending, p)
  }

  /** Put one record's edits over the pending ones. */
  method AddRecord<V>(pending: map<string, Change<V>>, record: seq<Edit<V>>, ghost records: seq<seq<Edit<V>>>)
      returns (out: map<string, Change<V>>)
    requires Sorted(record) && Pending(pending, records)
    ensures Pending(out, records + [record])
  {
    out := pending;
    for i := 0 to |record|
      invariant forall p ::
          Lookup(out, p) == (if Find(record[..i], p).Some? then Find(record[..i], p) else LastEdit(records, p))
    {
      ghost var out0 := out;
      out := out[record[i].path := record[i].value];
      forall p
        ensures Lookup(out, p) == (if Find(record[..i + 1], p).Some? then
            Find(record[..i + 1], p) else LastEdit(records, p))
      {
        FindNext(record, i, p);
        assert Lookup(out0, p) == if Find(record[..i], p).Some? then Find(record[..i], p) else LastEdit(records, p);
      }
    }
    assert record[..|record|] == record;
    forall p ensures LastEdit(records + [record], p) == Lookup(out, p) { LastEditSnoc(records, record, p); }
  }

  predicate AllSorted<V>(records: seq<seq<Edit<V>>>) { forall i :: 0 <= i < |records| ==> Sorted(records[i]) }

  /** The last edit of every path, without deletes that the base does not need, in path order. */
  method Coalesce<V>(base: seq<Row<V>>, records: seq<seq<Edit<V>>>) returns (edits: seq<Edit<V>>)
    requires AllSorted(records)
    ensures Sorted(edits)
    ensures forall p :: Find(edits, p) == CoalescedAt(base, records, p)
  {
    var pending: map<string, Change<V>> := map[];
    for n := 0 to |records|
      invariant Pending(pending, records[..n])
    {
      pending := AddRecord(pending, records[n], records[..n]);
      assert records[..n + 1] == records[..n] + [records[n]];
    }
    assert records[..|records|] == records;
    edits := SortRows(map p | p in pending && Kept(base, p, pending[p]) :: pending[p]);
  }

  lemma {:induction false} ReplayableSorted<V>(base: seq<Row<V>>, records: seq<seq<Edit<V>>>)
    requires Replayable(base, records)
    ensures AllSorted(records)
    decreases |records|
  {
    if records != [] {
      ReplayableSorted(Edited(base, records[0]), records[1..]);
      assert records == [records[0]] + records[1..];
    }
  }

  /** Coalesced edits apply, and give the sequential result. */
  lemma CoalescedReplay<V>(base: seq<Row<V>>, records: seq<seq<Edit<V>>>, edits: seq<Edit<V>>)
    requires Sorted(base) && |base| <= MaxEntries && Replayable(base, records) && Sorted(edits)
    requires forall p :: Find(edits, p) == CoalescedAt(base, records, p)
    ensures Applies(base, edits) && Edited(base, edits) == Replayed(base, records)
  {
    EditSorted(base, edits);
    ReplayedFind(base, records, "");
    forall p ensures Find(Edited(base, edits), p) == Find(Replayed(base, records), p) {
      EditFind(base, edits, p);
      ReplayedFind(base, records, p);
    }
    SortedExtensional(Edited(base, edits), Replayed(base, records));
    ReplayedBounded(base, records);
    forall i | 0 <= i < |edits| && edits[i].value.delete ensures Find(base, edits[i].path).Some? { FindAt(edits, i); }
  }

  /** Loading a base and its delta records: one pass over the base, which cannot fail. */
  method ReplayCoalesced<V>(base: seq<Row<V>>, records: seq<seq<Edit<V>>>) returns (r: Option<seq<Row<V>>>)
    requires Sorted(base) && |base| <= MaxEntries && Replayable(base, records)
    ensures r == Some(Replayed(base, records))
  {
    ReplayableSorted(base, records);
    var edits := Coalesce(base, records);
    CoalescedReplay(base, records, edits);
    r := ApplyObservations(base, edits);
  }

  /** A recorded difference applies to its base and gives back the target. */
  lemma DifferenceApplies<V>(before: seq<Row<V>>, after: seq<Row<V>>)
    requires Sorted(before) && Sorted(after) && |after| <= MaxEntries
    ensures Applies(before, Diff(before, after)) && Edited(before, Diff(before, after)) == after
  {
    EditUndoesDiff(before, after);
    DiffSorted(before, after);
    var edits := Diff(before, after);
    forall i | 0 <= i < |edits| && edits[i].value.delete ensures Find(before, edits[i].path).Some? {
      FindAt(edits, i);
      DiffFind(before, after, edits[i].path);
    }
  }
}

/** The flat sorted-list index: linear-time difference and edit of sorted rows.
    It is the reference that the persistent tree must refine. */
module Flat {
  import opened Paths
  import opened Rows

  function Deletion<V>(r: Row<V>): Edit<V> { Row(r.path, Change(r.value, true)) }
  function Upsert<V>(r: Row<V>): Edit<V> { Row(r.path, Change(r.value, false)) }

  // ---- Difference ----

  /** What the two cursors still have to emit. */
  function Diff<V(==)>(a: seq<Row<V>>, b: seq<Row<V>>): seq<Edit<V>>
    decreases |a| + |b|
  {
    if a == [] && b == [] then []
    else if b == [] || (a != [] && Less(a[0].path, b[0].path)) then [Deletion(a[0])] + Diff(a[1..], b)
    else if a == [] || Less(b[0].path, a[0].path) then [Upsert(b[0])] + Diff(a, b[1..])
    else (if a[0] != b[0] then [Upsert(b[0])] else []) + Diff(a[1..], b[1..])
  }

  /** One turn of the loop emits the front of what remains. */
  lemma DiffTurn<V>(before: seq<Row<V>>, i: nat, after: seq<Row<V>>, j: nat, out: seq<Edit<V>>)
    requires i <= |before| && j <= |after| && (i < |before| || j < |after|)
    ensures out + Diff(before[i..], after[j..]) ==
      if j == |after| || (i < |before| && Less(before[i].path, after[j].path)) then
        (out + [Deletion(before[i])]) + Diff(before[i+1..], after[j..])
      else if i == |before| || Less(after[j].path, before[i].path) then
        (out + [Upsert(after[j])]) + Diff(before[i..], after[j+1..])
      else
        (if before[i] != after[j] then out + [Upsert(after[j])] else out) + Diff(before[i+1..], after[j+1..])
  {
    if i < |before| { assert before[i..][1..] == before[i+1..]; }
    if j < |after| { assert after[j..][1..] == after[j+1..]; }
  }

  method DiffEntries<V(==)>(before: seq<Row<V>>, after: seq<Row<V>>) returns (edits: seq<Edit<V>>)
    ensures edits == Diff(before, after)
  {
    edits := [];
    var i, j := 0, 0;
    while i < |before| || j < |after|
      invariant 0 <= i <= |before| && 0 <= j <= |after|
      invariant edits + Diff(before[i..], after[j..]) == Diff(before, after)
      decreases |before| + |after| - i - j
    {
      DiffTurn(before, i, after, j, edits);
      if j == |after| || (i < |before| && Less(before[i].path, after[j].path)) {
        edits := edits + [Deletion(before[i])];
        i := i + 1;
      } else if i == |before| || Less(after[j].path, before[i].path) {
        edits := edits + [Upsert(after[j])];
        j := j + 1;
      } else {
        if before[i] != after[j] {
          edits := edits + [Upsert(after[j])];
        }
        i, j := i + 1, j + 1;
      }
    }
  }

  lemma {:induction false} DiffAbove<V>(a: seq<Row<V>>, b: seq<Row<V>>, p: string)
    requires Above(a, p) && Above(b, p)
    ensures Above(Diff(a, b), p)
    decreases |a| + |b|
  {
    if a == [] && b == [] {
    } else if b == [] || (a != [] && Less(a[0].path, b[0].path)) {
      DiffAbove(a[1..], b, p);
    } else if a == [] || Less(b[0].path, a[0].path) {
      DiffAbove(a, b[1..], p);
    } else {
      DiffAbove(a[1..], b[1..], p);
    }
  }

  lemma {:induction false} DiffSorted<V>(a: seq<Row<V>>, b: seq<Row<V>>)
    requires Sorted(a) && Sorted(b)
    ensures Sorted(Diff(a, b))
    decreases |a| + |b|
  {
    if a == [] && b == [] {
    } else if b == [] || (a != [] && Less(a[0].path, b[0].path)) {
      SortedTail(a);
      BeforeHead(b, a[0].path);
      DiffAbove(a[1..], b, a[0].path);
      DiffSorted(a[1..], b);
    } else if a == [] || Less(b[0].path, a[0].path) {
      SortedTail(b);
      BeforeHead(a, b[0].path);
      DiffAbove(a, b[1..], b[0].path);
      DiffSorted(a, b[1..]);
    } else {
      LessTotal(a[0].path, b[0].path);
      SortedTail(a);
      SortedTail(b);
      DiffAbove(a[1..], b[1..], b[0].path);
      DiffSorted(a[1..], b[1..]);
    }
  }

  /** At every path the linear difference holds exactly the edit that is needed there. */
  lemma {:induction false} DiffFind<V>(a: seq<Row<V>>, b: seq<Row<V>>, p: string)
    requires Sorted(a) && Sorted(b)
    ensures Find(Diff(a, b), p) == DiffAt(Find(a, p), Find(b, p))
    decreases |a| + |b|
  {
    if a == [] && b == [] {
    } else if b == [] || (a != [] && Less(a[0].path, b[0].path)) {
      SortedTail(a);
      BeforeHead(b, a[0].path);
      DiffFind(a[1..], b, p);
      FindConcat([Deletion(a[0])], Diff(a[1..], b), p);
    } else if a == [] || Less(b[0].path, a[0].path) {
      SortedTail(b);
      BeforeHead(a, b[0].path);
      DiffFind(a, b[1..], p);
      FindConcat([Upsert(b[0])], Diff(a, b[1..]), p);
    } else {
      LessTotal(a[0].path, b[0].path);
      SortedTail(a);
      SortedTail(b);
      DiffFind(a[1..], b[1..], p);
      FindConcat(if a[0] != b[0] then [Upsert(b[0])] else [], Diff(a[1..], b[1..]), p);
    }
  }

  /** Nothing to do between equal lists. */
  lemma {:induction false} DiffSelf<V>(a: seq<Row<V>>)
    ensures Diff(a, a) == []
  {
    if a != [] {
      LessIrreflexive(a[0].path);
      DiffSelf(a[1..]);
    }
  }

  /** A difference splits at any path that separates both lists. */
  lemma DiffConcat<V>(a1: seq<Row<V>>, a2: seq<Row<V>>, b1: seq<Row<V>>, b2: seq<Row<V>>, p: string)
    requires Sorted(a1) && Sorted(a2) && Sorted(b1) && Sorted(b2)
    requires Below(a1, p) && Below(b1, p) && StartsAt(a2, p) && StartsAt(b2, p)
    ensures Diff(a1 + a2, b1 + b2) == Diff(a1, b1) + Diff(a2, b2)
  {
    SortedFrom(a1, p, a2);
    SortedFrom(b1, p, b2);
    DiffSorted(a1, b1);
    DiffSorted(a2, b2);
    DiffBelow(a1, b1, p);
    DiffStarts(a2, b2, p);
    SortedFrom(Diff(a1, b1), p, Diff(a2, b2));
    DiffSorted(a1 + a2, b1 + b2);
    forall q ensures Find(Diff(a1 + a2, b1 + b2), q) == Find(Diff(a1, b1) + Diff(a2, b2), q) {
      DiffFind(a1 + a2, b1 + b2, q);
      DiffFind(a1, b1, q);
      DiffFind(a2, b2, q);
      FindConcat(a1, a2, q);
      FindConcat(b1, b2, q);
      FindConcat(Diff(a1, b1), Diff(a2, b2), q);
      if Less(q, p) {
        OffStart(a2, p, q);
        OffStart(b2, p, q);
      } else {
        OffBelow(a1, p, q);
        OffBelow(b1, p, q);
      }
    }
    SortedExtensional(Diff(a1 + a2, b1 + b2), Diff(a1, b1) + Diff(a2, b2));
  }

  lemma HeadDeleted<V>(a: seq<Row<V>>, b: seq<Row<V>>)
    requires a != [] && (b == [] || Less(a[0].path, b[0].path))
    ensures Diff(a, b) == [Deletion(a[0])] + Diff(a[1..], b)
  {
  }

  lemma HeadInserted<V>(a: seq<Row<V>>, b: seq<Row<V>>)
    requires b != [] && (a == [] || Less(b[0].path, a[0].path))
    ensures Diff(a, b) == [Upsert(b[0])] + Diff(a, b[1..])
  {
    if a != [] && Less(a[0].path, b[0].path) {
      LessTransitive(b[0].path, a[0].path, b[0].path);
      LessIrreflexive(b[0].path);
    }
  }

  lemma HeadShared<V>(a: seq<Row<V>>, b: seq<Row<V>>)
    requires a != [] && b != [] && a[0].path == b[0].path
    ensures Diff(a, b) == (if a[0] != b[0] then [Upsert(b[0])] else []) + Diff(a[1..], b[1..])
  {
    LessIrreflexive(a[0].path);
  }

  /** The lists around a middle key that only the first side holds. */
  lemma DiffDeleted<V>(l: seq<Row<V>>, x: Row<V>, r: seq<Row<V>>, l': seq<Row<V>>, r': seq<Row<V>>)
    requires Sorted(l) && Sorted(r) && Sorted(l') && Sorted(r')
    requires Below(l, x.path) && Below(l', x.path) && Above(r, x.path) && Above(r', x.path)
    ensures Diff(l + [x] + r, l' + r') == Diff(l, l') + [Deletion(x)] + Diff(r, r')
  {
    var a := [x] + r;
    SortedCons(x, r);
    TailOf(x, r);
    Regroup(l, [x], r);
    DiffConcat(l, a, l', r', x.path);
    HeadDeleted(a, r');
    Regroup(Diff(l, l'), [Deletion(x)], Diff(r, r'));
  }

  /** The lists around a middle key that only the second side holds. */
  lemma DiffInserted<V>(l: seq<Row<V>>, r: seq<Row<V>>, l': seq<Row<V>>, y: Row<V>, r': seq<Row<V>>)
    requires Sorted(l) && Sorted(r) && Sorted(l') && Sorted(r')
    requires Below(l, y.path) && Below(l', y.path) && Above(r, y.path) && Above(r', y.path)
    ensures Diff(l + r, l' + [y] + r') == Diff(l, l') + [Upsert(y)] + Diff(r, r')
  {
    var b := [y] + r';
    SortedCons(y, r');
    TailOf(y, r');
    Regroup(l', [y], r');
    DiffConcat(l, r, l', b, y.path);
    HeadInserted(r, b);
    Regroup(Diff(l, l'), [Upsert(y)], Diff(r, r'));
  }

  /** The lists around a middle key that both sides hold. */
  lemma DiffShared<V>(l: seq<Row<V>>, x: Row<V>, r: seq<Row<V>>, l': seq<Row<V>>, y: Row<V>, r': seq<Row<V>>)
    requires Sorted(l) && Sorted(r) && Sorted(l') && Sorted(r') && x.path == y.path
    requires Below(l, x.path) && Below(l', x.path) && Above(r, x.path) && Above(r', x.path)
    ensures Diff(l + [x] + r, l' + [y] + r') == Diff(l, l') + (if x != y then [Upsert(y)] else []) + Diff(r, r')
  {
    var a, b := [x] + r, [y] + r';
    SortedCons(x, r);
    SortedCons(y, r');
    TailOf(x, r);
    TailOf(y, r');
    Regroup(l, [x], r);
    Regroup(l', [y], r');
    DiffConcat(l, a, l', b, x.path);
    HeadShared(a, b);
    Regroup(Diff(l, l'), if x != y then [Upsert(y)] else [], Diff(r, r'));
  }

  predicate StartsAt<V>(rows: seq<Row<V>>, p: string) {
    forall i :: 0 <= i < |rows| ==> rows[i].path == p || Less(p, rows[i].path)
  }

  lemma SortedFrom<V>(a: seq<Row<V>>, p: string, b: seq<Row<V>>)
    requires Sorted(a) && Sorted(b) && Below(a, p) && StartsAt(b, p)
    ensures Sorted(a + b)
  {
    forall i, j | 0 <= i < |a| && 0 <= j < |b| ensures Less(a[i].path, b[j].path) {
      if b[j].path != p { LessTransitive(a[i].path, p, b[j].path); }
    }
  }

  lemma OffStart<V>(rows: seq<Row<V>>, p: string, q: string)
    requires StartsAt(rows, p) && Less(q, p)
    ensures Find(rows, q) == None
  {
    FindMember(rows, q);
    LessIrreflexive(q);
    if Less(p, q) { LessTransitive(q, p, q); }
  }

  lemma OffBelow<V>(rows: seq<Row<V>>, p: string, q: string)
    requires Below(rows, p) && !Less(q, p)
    ensures Find(rows, q) == None
  {
    FindMember(rows, q);
  }

  /** Edits only name paths of the two lists. */
  lemma DiffNames<V>(a: seq<Row<V>>, b: seq<Row<V>>, i: nat)
    requires Sorted(a) && Sorted(b) && i < |Diff(a, b)|
    ensures var q := Diff(a, b)[i].path;
      (exists k :: 0 <= k < |a| && a[k].path == q) || (exists k :: 0 <= k < |b| && b[k].path == q)
  {
    var q := Diff(a, b)[i].path;
    DiffSorted(a, b);
    FindAt(Diff(a, b), i);
    DiffFind(a, b, q);
    FindMember(a, q);
    FindMember(b, q);
  }

  lemma DiffBelow<V>(a: seq<Row<V>>, b: seq<Row<V>>, p: string)
    requires Sorted(a) && Sorted(b) && Below(a, p) && Below(b, p)
    ensures Below(Diff(a, b), p)
  {
    forall i | 0 <= i < |Diff(a, b)| ensures Less(Diff(a, b)[i].path, p) { DiffNames(a, b, i); }
  }

  lemma DiffStarts<V>(a: seq<Row<V>>, b: seq<Row<V>>, p: string)
    requires Sorted(a) && Sorted(b) && StartsAt(a, p) && StartsAt(b, p)
    ensures StartsAt(Diff(a, b), p)
  {
    forall i | 0 <= i < |Diff(a, b)| ensures Diff(a, b)[i].path == p || Less(p, Diff(a, b)[i].path) {
      DiffNames(a, b, i);
    }
  }

  // ---- Edit ----

  /** What is still to be written after both cursors. */
  function Edited<V>(entries: seq<Row<V>>, edits: seq<Edit<V>>): seq<Row<V>>
    decreases |entries| + |edits|
  {
    if entries == [] && edits == [] then []
    else if edits == [] || (entries != [] && Less(entries[0].path, edits[0].path)) then
      [entries[0]] + Edited(entries[1..], edits)
    else
      Written(edits[0]) + Edited(Passed(entries, edits[0]), edits[1..])
  }

  function Written<V>(e: Edit<V>): seq<Row<V>> {
    if e.value.delete then [] else [Row(e.path, e.value.value)]
  }

  function Passed<V>(entries: seq<Row<V>>, e: Edit<V>): seq<Row<V>> {
    if entries != [] && entries[0].path == e.path then entries[1..] else entries
  }

  lemma EditTurn<V>(entries: seq<Row<V>>, i: nat, edits: seq<Edit<V>>, j: nat, out: seq<Row<V>>)
    requires i <= |entries| && j <= |edits| && (i < |entries| || j < |edits|)
    ensures out + Edited(entries[i..], edits[j..]) ==
      if j == |edits| || (i < |entries| && Less(entries[i].path, edits[j].path)) then
        (out + [entries[i]]) + Edited(entries[i+1..], edits[j..])
      else
        (if edits[j].value.delete then out else out + [Row(edits[j].path, edits[j].value.value)])
        + Edited(entries[if i < |entries| && entries[i].path == edits[j].path then i + 1 else i..], edits[j+1..])
  {
    if i < |entries| { assert entries[i..][1..] == entries[i+1..]; }
    if j < |edits| { assert edits[j..][1..] == edits[j+1..]; }
  }

  method EditEntries<V>(entries: seq<Row<V>>, edits: seq<Edit<V>>) returns (result: seq<Row<V>>)
    ensures result == Edited(entries, edits)
  {
    result := [];
    var i, j := 0, 0;
    while i < |entries| || j < |edits|
      invariant 0 <= i <= |entries| && 0 <= j <= |edits|
      invariant result + Edited(entries[i..], edits[j..]) == Edited(entries, edits)
      decreases |entries| + |edits| - i - j
    {
      EditTurn(entries, i, edits, j, result);
      if j == |edits| || (i < |entries| && Less(entries[i].path, edits[j].path)) {
        result := result + [entries[i]];
        i := i + 1;
        continue;
      }
      if i < |entries| && entries[i].path == edits[j].path {
        i := i + 1;
      }
      if !edits[j].value.delete {
        result := result + [Row(edits[j].path, edits[j].value.value)];
      }
      j := j + 1;
    }
  }

  lemma {:induction false} EditAbove<V>(entries: seq<Row<V>>, edits: seq<Edit<V>>, p: string)
    requires Above(entries, p) && Above(edits, p)
    ensures Above(Edited(entries, edits), p)
    decreases |entries| + |edits|
  {
    if entries == [] && edits == [] {
    } else if edits == [] || (entries != [] && Less(entries[0].path, edits[0].path)) {
      EditAbove(entries[1..], edits, p);
    } else {
      EditAbove(Passed(entries, edits[0]), edits[1..], p);
    }
  }

  lemma PassedAbove<V>(entries: seq<Row<V>>, e: Edit<V>)
    requires Sorted(entries) && (entries == [] || !Less(entries[0].path, e.path))
    ensures Sorted(Passed(entries, e)) && Above(Passed(entries, e), e.path)
    ensures forall p :: p != e.path ==> Find(Passed(entries, e), p) == Find(entries, p)
  {
    if entries != [] {
      LessTotal(entries[0].path, e.path);
      SortedTail(entries);
    }
    if entries == [] || entries[0].path != e.path { BeforeHead(entries, e.path); }
  }

  lemma {:induction false} EditSorted<V>(entries: seq<Row<V>>, edits: seq<Edit<V>>)
    requires Sorted(entries) && Sorted(edits)
    ensures Sorted(Edited(entries, edits))
    decreases |entries| + |edits|
  {
    if entries == [] && edits == [] {
    } else if edits == [] || (entries != [] && Less(entries[0].path, edits[0].path)) {
      SortedTail(entries);
      BeforeHead(edits, entries[0].path);
      EditAbove(entries[1..], edits, entries[0].path);
      EditSorted(entries[1..], edits);
    } else {
      PassedAbove(entries, edits[0]);
      SortedTail(edits);
      EditAbove(Passed(entries, edits[0]), edits[1..], edits[0].path);
      EditSorted(Passed(entries, edits[0]), edits[1..]);
    }
  }

  /** At every path the linear edit holds exactly the edited value. */
  lemma {:induction false} EditFind<V>(entries: seq<Row<V>>, edits: seq<Edit<V>>, p: string)
    requires Sorted(entries) && Sorted(edits)
    ensures Find(Edited(entries, edits), p) == ApplyAt(Find(entries, p), Find(edits, p))
    decreases |entries| + |edits|
  {
    if entries == [] && edits == [] {
    } else if edits == [] || (entries != [] && Less(entries[0].path, edits[0].path)) {
      SortedTail(entries);
      BeforeHead(edits, entries[0].path);
      EditFind(entries[1..], edits, p);
      FindConcat([entries[0]], Edited(entries[1..], edits), p);
    } else {
      var rest := Passed(entries, edits[0]);
      PassedAbove(entries, edits[0]);
      SortedTail(edits);
      EditFind(rest, edits[1..], p);
      FindConcat(Written(edits[0]), Edited(rest, edits[1..]), p);
      if p == edits[0].path { FindOutside(rest, p); }
    }
  }

  /** Editing a list with its difference to another gives the other. */
  lemma EditUndoesDiff<V>(a: seq<Row<V>>, b: seq<Row<V>>)
    requires Sorted(a) && Sorted(b)
    ensures Edited(a, Diff(a, b)) == b
  {
    DiffSorted(a, b);
    EditSorted(a, Diff(a, b));
    forall p ensures Find(Edited(a, Diff(a, b)), p) == Find(b, p) {
      DiffFind(a, b, p);
      EditFind(a, Diff(a, b), p);
    }
    SortedExtensional(Edited(a, Diff(a, b)), b);
  }
}

/** Strictly sorted lists of keyed rows.  Manifests, observations and edit lists are all rows.
    A sorted list is determined by what `Find` answers, so two programs that build sorted
    lists agree when their answers do. */
module Rows {
  import opened Paths

  datatype Option<+T> = None | Some(value: T)

  datatype Row<+V> = Row(path: string, value: V)

  /** The value half of an edit: the row's new value, or the row being deleted. */
  datatype Change<+V> = Change(value: V, delete: bool)

  type Edit<+V> = Row<Change<V>>

  predicate Sorted<V>(rows: seq<Row<V>>) {
    forall i, j :: 0 <= i < j < |rows| ==> Less(rows[i].path, rows[j].path)
  }

  /** Every row lies strictly before (after) the path. */
  predicate Below<V>(rows: seq<Row<V>>, p: string) { forall i :: 0 <= i < |rows| ==> Less(rows[i].path, p) }
  predicate Above<V>(rows: seq<Row<V>>, p: string) { forall i :: 0 <= i < |rows| ==> Less(p, rows[i].path) }

  /** The value of the first row at a path. */
  function Find<V>(rows: seq<Row<V>>, p: string): Option<V> {
    if rows == [] then None else if rows[0].path == p then Some(rows[0].value) else Find(rows[1..], p)
  }

  lemma {:induction false} FindConcat<V>(a: seq<Row<V>>, b: seq<Row<V>>, p: string)
    ensures Find(a + b, p) == if Find(a, p).Some? then Find(a, p) else Find(b, p)
  {
    if a == [] {
      assert a + b == b;
    } else {
      FindConcat(a[1..], b, p);
      assert (a + b)[1..] == a[1..] + b;
    }
  }

  lemma {:induction false} FindMember<V>(rows: seq<Row<V>>, p: string)
    ensures match Find(rows, p)
      case Some(v) => Row(p, v) in rows
      case None => forall i :: 0 <= i < |rows| ==> rows[i].path != p
  {
    if rows != [] && rows[0].path != p { FindMember(rows[1..], p); }
  }

  lemma {:induction false} FindAt<V>(rows: seq<Row<V>>, i: nat)
    requires Sorted(rows) && i < |rows|
    ensures Find(rows, rows[i].path) == Some(rows[i].value)
  {
    if i > 0 {
      LessIrreflexive(rows[i].path);
      SortedTail(rows);
      FindAt(rows[1..], i - 1);
    }
  }

  /** In a sorted list `Find` answers exactly the rows. */
  lemma FindIff<V>(rows: seq<Row<V>>, p: string, v: V)
    requires Sorted(rows)
    ensures Find(rows, p) == Some(v) <==> Row(p, v) in rows
  {
    FindMember(rows, p);
    if Row(p, v) in rows {
      var i :| 0 <= i < |rows| && rows[i] == Row(p, v);
      FindAt(rows, i);
    }
  }

  lemma FindOutside<V>(rows: seq<Row<V>>, p: string)
    requires Above(rows, p) || Below(rows, p)
    ensures Find(rows, p) == None
  {
    LessIrreflexive(p);
    FindMember(rows, p);
  }

  /** One more row of a sorted list. */
  lemma FindNext<V>(rows: seq<Row<V>>, i: nat, p: string)
    requires Sorted(rows) && i < |rows|
    ensures Find(rows[..i + 1], p) == if p == rows[i].path then Some(rows[i].value) else Find(rows[..i], p)
  {
    assert rows[..i + 1] == rows[..i] + [rows[i]];
    FindConcat(rows[..i], [rows[i]], p);
    FindOutside(rows[..i], rows[i].path);
  }

  lemma SortedTail<V>(rows: seq<Row<V>>)
    requires Sorted(rows) && rows != []
    ensures Sorted(rows[1..]) && Above(rows[1..], rows[0].path) && Find(rows[1..], rows[0].path) == None
  {
    FindOutside(rows[1..], rows[0].path);
  }

  /** Checking neighbours checks the order. */
  lemma AdjacentSorted<V>(rows: seq<Row<V>>, n: nat)
    requires n < |rows| && Sorted(rows[..n]) && (n > 0 ==> Less(rows[n - 1].path, rows[n].path))
    ensures Sorted(rows[..n + 1])
  {
    forall i, j | 0 <= i < j < n + 1 ensures Less(rows[i].path, rows[j].path) {
      if j < n {
        assert rows[..n][i] == rows[i] && rows[..n][j] == rows[j];
      } else if i < n - 1 {
        assert rows[..n][i] == rows[i] && rows[..n][n - 1] == rows[n - 1];
        LessTransitive(rows[i].path, rows[n - 1].path, rows[n].path);
      }
    }
  }

  lemma SortedCons<V>(r: Row<V>, rows: seq<Row<V>>)
    requires Sorted(rows) && Above(rows, r.path)
    ensures Sorted([r] + rows)
  {
  }

  /** A key before the head of a sorted list is before every row. */
  lemma BeforeHead<V>(rows: seq<Row<V>>, p: string)
    requires Sorted(rows) && (rows == [] || Less(p, rows[0].path))
    ensures Above(rows, p) && Find(rows, p) == None
  {
    forall i | 0 <= i < |rows| ensures Less(p, rows[i].path) {
      if i > 0 { LessTransitive(p, rows[0].path, rows[i].path); }
    }
    FindOutside(rows, p);
  }

  lemma SortedConcat<V>(a: seq<Row<V>>, m: string, b: seq<Row<V>>)
    requires Sorted(a) && Sorted(b) && Below(a, m) && Above(b, m)
    ensures Sorted(a + b)
  {
    forall i, j | 0 <= i < |a| && 0 <= j < |b| ensures Less(a[i].path, b[j].path) {
      LessTransitive(a[i].path, m, b[j].path);
    }
  }

  lemma SortedAround<V>(a: seq<Row<V>>, r: Row<V>, b: seq<Row<V>>)
    requires Sorted(a) && Sorted(b) && Below(a, r.path) && Above(b, r.path)
    ensures Sorted(a + [r] + b)
  {
    SortedConcat(a, r.path, b);
    var rows := a + [r] + b;
    forall i, j | 0 <= i < j < |rows| ensures Less(rows[i].path, rows[j].path) {
      assert i != |a| && j != |a| ==>
        Less((a + b)[if i < |a| then i else i - 1].path, (a + b)[if j < |a| then j else j - 1].path);
    }
  }

  lemma SortedParts<V>(a: seq<Row<V>>, b: seq<Row<V>>)
    requires Sorted(a + b)
    ensures Sorted(a) && Sorted(b)
    ensures forall i, j :: 0 <= i < |a| && 0 <= j < |b| ==> Less(a[i].path, b[j].path)
  {
    forall i, j | 0 <= i < j < |a| ensures Less(a[i].path, a[j].path) {
      assert (a + b)[i] == a[i] && (a + b)[j] == a[j];
    }
    forall i, j | 0 <= i < j < |b| ensures Less(b[i].path, b[j].path) {
      assert (a + b)[|a| + i] == b[i] && (a + b)[|a| + j] == b[j];
    }
    forall i, j | 0 <= i < |a| && 0 <= j < |b| ensures Less(a[i].path, b[j].path) {
      assert (a + b)[i] == a[i] && (a + b)[|a| + j] == b[j];
    }
  }

  lemma SameEmptiness<V>(a: seq<Row<V>>, b: seq<Row<V>>)
    requires forall p :: Find(a, p) == Find(b, p)
    ensures a == [] <==> b == []
  {
    if a != [] { assert Find(b, a[0].path) == Some(a[0].value); }
    if b != [] { assert Find(a, b[0].path) == Some(b[0].value); }
  }

  /** A sorted list is determined by its lookups. */
  lemma {:induction false} SortedExtensional<V>(a: seq<Row<V>>, b: seq<Row<V>>)
    requires Sorted(a) && Sorted(b)
    requires forall p :: Find(a, p) == Find(b, p)
    ensures a == b
  {
    if a != [] && b != [] {
      var p, q := a[0].path, b[0].path;
      assert Find(a, p) == Find(b, p) && Find(a, q) == Find(b, q);
      LessTotal(p, q);
      if Less(p, q) { BeforeHead(b, p); }
      if Less(q, p) { BeforeHead(a, q); }
      SortedTail(a);
      SortedTail(b);
      forall r ensures Find(a[1..], r) == Find(b[1..], r) { assert Find(a, r) == Find(b, r); }
      SortedExtensional(a[1..], b[1..]);
      assert a == [a[0]] + a[1..] && b == [b[0]] + b[1..];
    } else {
      SameEmptiness(a, b);
    }
  }

  lemma Regroup<T>(a: seq<T>, b: seq<T>, c: seq<T>)
    ensures a + b + c == a + (b + c)
  {
  }

  lemma TailOf<T>(x: T, r: seq<T>)
    ensures ([x] + r)[1..] == r && ([x] + r)[0] == x
  {
  }

  // ---- Sorting ----

  /** Insert a row where its path belongs. */
  function Insert<V>(rows: seq<Row<V>>, e: Row<V>): seq<Row<V>> {
    if rows == [] || Less(e.path, rows[0].path) then [e] + rows else [rows[0]] + Insert(rows[1..], e)
  }

  lemma {:induction false} InsertAbove<V>(rows: seq<Row<V>>, e: Row<V>, p: string)
    requires Above(rows, p) && Less(p, e.path)
    ensures Above(Insert(rows, e), p)
  {
    if rows != [] && !Less(e.path, rows[0].path) { InsertAbove(rows[1..], e, p); }
  }

  lemma {:induction false} InsertSorted<V>(rows: seq<Row<V>>, e: Row<V>)
    requires Sorted(rows) && Find(rows, e.path) == None
    ensures Sorted(Insert(rows, e))
  {
    if rows == [] || Less(e.path, rows[0].path) {
      BeforeHead(rows, e.path);
      SortedCons(e, rows);
    } else {
      LessTotal(e.path, rows[0].path);
      SortedTail(rows);
      InsertSorted(rows[1..], e);
      InsertAbove(rows[1..], e, rows[0].path);
      SortedCons(rows[0], Insert(rows[1..], e));
    }
  }

  lemma {:induction false} InsertFind<V>(rows: seq<Row<V>>, e: Row<V>, p: string)
    requires Find(rows, e.path) == None
    ensures Find(Insert(rows, e), p) == if p == e.path then Some(e.value) else Find(rows, p)
  {
    if rows == [] || Less(e.path, rows[0].path) {
      TailOf(e, rows);
    } else {
      InsertFind(rows[1..], e, p);
      TailOf(rows[0], Insert(rows[1..], e));
    }
  }

  /** The rows of a map in path order. */
  method SortRows<V>(t: map<string, V>) returns (rows: seq<Row<V>>)
    ensures Sorted(rows) && forall p :: Find(rows, p) == if p in t then Some(t[p]) else None
  {
    rows := [];
    var todo := t.Keys;
    while todo != {}
      invariant todo <= t.Keys && Sorted(rows)
      invariant forall p :: Find(rows, p) == if p in t && p !in todo then Some(t[p]) else None
      decreases |todo|
    {
      var k :| k in todo;
      var e := Row(k, t[k]);
      assert Find(rows, k) == None;
      InsertSorted(rows, e);
      forall p ensures Find(Insert(rows, e), p) == if p == k then Some(t[k]) else Find(rows, p) {
        InsertFind(rows, e, p);
      }
      rows := Insert(rows, e);
      todo := todo - {k};
    }
  }

  // ---- What an edit list means at one path ----

  /** The edit that turns `x` into `y` at some path, if any is needed. */
  function DiffAt<V(==)>(x: Option<V>, y: Option<V>): Option<Change<V>> {
    if x == y then None else if y.Some? then Some(Change(y.value, false)) else Some(Change(x.value, true))
  }

  /** The value after performing the edit, if there is one. */
  function ApplyAt<V>(x: Option<V>, e: Option<Change<V>>): Option<V> {
    if e.None? then x else if e.value.delete then None else Some(e.value.value)
  }
}

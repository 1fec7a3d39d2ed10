/** Path-copying updates of the canonical tree, and their independence of history. */
module TreapUpdate {
  import opened Paths
  import opened Rows
  import opened Manifests
  import opened Treap
  import Flat

  function Join(h: Hashing, a: Node, b: Node): Node
    decreases a, b
  {
    if a.Nil? then b
    else if b.Nil? then a
    else if h.Higher(a.entry.path, b.entry.path) then h.Make(a.entry, a.left, Join(h, a.right, b))
    else h.Make(b.entry, Join(h, a, b.left), b.right)
  }

  /** One edit: replace, insert with rotation, or delete by joining the children. */
  function Update(h: Hashing, n: Node, e: Edit<Meta>): Node {
    var row := Row(e.path, e.value.value);
    if n.Nil? then
      if e.value.delete then Nil else h.Make(row, Nil, Nil)
    else if e.path == n.entry.path then
      if e.value.delete then Join(h, n.left, n.right)
      else if row == n.entry then n
      else h.Make(row, n.left, n.right)
    else if Less(e.path, n.entry.path) then
      var l := Update(h, n.left, e);
      if l == n.left then n
      else if l.Node? && h.Higher(l.entry.path, n.entry.path) then
        h.Make(l.entry, l.left, h.Make(n.entry, l.right, n.right))
      else h.Make(n.entry, l, n.right)
    else
      var r := Update(h, n.right, e);
      if r == n.right then n
      else if r.Node? && h.Higher(r.entry.path, n.entry.path) then
        h.Make(r.entry, h.Make(n.entry, n.left, r.left), r.right)
      else h.Make(n.entry, n.left, r)
  }

  function UpdateAll(h: Hashing, n: Node, edits: seq<Edit<Meta>>): Node
    decreases edits
  {
    if edits == [] then n else UpdateAll(h, Update(h, n, edits[0]), edits[1..])
  }

  // ---- Rows are moved, never lost ----

  lemma {:induction false} JoinRows(h: Hashing, a: Node, b: Node)
    ensures InOrder(Join(h, a, b)) == InOrder(a) + InOrder(b)
    decreases a, b
  {
    if a.Nil? || b.Nil? {
    } else if h.Higher(a.entry.path, b.entry.path) {
      JoinRows(h, a.right, b);
    } else {
      JoinRows(h, a, b.left);
    }
  }

  lemma {:induction false} UpdateLeftRows(h: Hashing, n: Node, e: Edit<Meta>)
    requires n.Node? && Less(e.path, n.entry.path) && e.path != n.entry.path
    ensures InOrder(Update(h, n, e)) == InOrder(Update(h, n.left, e)) + [n.entry] + InOrder(n.right)
  {
    var l, x, r := Update(h, n.left, e), n.entry, InOrder(n.right);
    if l != n.left && l.Node? && h.Higher(l.entry.path, n.entry.path) {
      Reassociate(InOrder(l.left), [l.entry], InOrder(l.right), [x], r);
    }
  }

  lemma Reassociate<T>(a: seq<T>, b: seq<T>, c: seq<T>, d: seq<T>, e: seq<T>)
    ensures a + b + (c + d + e) == (a + b + c) + d + e
  {
  }

  lemma {:induction false} UpdateRightRows(h: Hashing, n: Node, e: Edit<Meta>)
    requires n.Node? && !Less(e.path, n.entry.path) && e.path != n.entry.path
    ensures InOrder(Update(h, n, e)) == InOrder(n.left) + [n.entry] + InOrder(Update(h, n.right, e))
  {
    var l, x, r := InOrder(n.left), n.entry, Update(h, n.right, e);
    if r != n.right && r.Node? && h.Higher(r.entry.path, n.entry.path) {
      Reassociate(l, [x], InOrder(r.left), [r.entry], InOrder(r.right));
    }
  }

  /** Whatever holds of the old paths and of the edited one holds of the new paths. */
  lemma {:induction false} UpdatePaths(h: Hashing, n: Node, e: Edit<Meta>, good: string -> bool)
    requires AllPaths(InOrder(n), good) && good(e.path)
    ensures AllPaths(InOrder(Update(h, n, e)), good)
  {
    if n.Nil? {
    } else {
      AroundPaths(InOrder(n.left), n.entry, InOrder(n.right), good);
      if e.path == n.entry.path {
        JoinRows(h, n.left, n.right);
        PathsAround(InOrder(n.left), Row(e.path, e.value.value), InOrder(n.right), good);
      } else if Less(e.path, n.entry.path) {
        UpdatePaths(h, n.left, e, good);
        UpdateLeftRows(h, n, e);
        PathsAround(InOrder(Update(h, n.left, e)), n.entry, InOrder(n.right), good);
      } else {
        UpdatePaths(h, n.right, e, good);
        UpdateRightRows(h, n, e);
        PathsAround(InOrder(n.left), n.entry, InOrder(Update(h, n.right, e)), good);
      }
    }
  }

  predicate AllPaths(rows: seq<Entry>, good: string -> bool) {
    forall i :: 0 <= i < |rows| ==> good(rows[i].path)
  }

  lemma PathsAround(l: seq<Entry>, e: Entry, r: seq<Entry>, good: string -> bool)
    requires AllPaths(l, good) && good(e.path) && AllPaths(r, good)
    ensures AllPaths(l + [e] + r, good) && AllPaths(l + r, good)
  {
  }

  lemma AroundPaths(l: seq<Entry>, e: Entry, r: seq<Entry>, good: string -> bool)
    requires AllPaths(l + [e] + r, good)
    ensures AllPaths(l, good) && good(e.path) && AllPaths(r, good)
  {
    var rows := l + [e] + r;
    assert rows[|l|] == e;
    forall i | 0 <= i < |l| ensures good(l[i].path) { assert rows[i] == l[i]; }
    forall i | 0 <= i < |r| ensures good(r[i].path) { assert rows[|l| + 1 + i] == r[i]; }
  }

  // ---- Updates keep the tree canonical ----

  lemma {:induction false} JoinCanonical(h: Hashing, a: Node, b: Node, p: string)
    requires h.Canonical(a) && h.Canonical(b) && Below(InOrder(a), p) && Above(InOrder(b), p)
    ensures h.Canonical(Join(h, a, b))
    decreases a, b
  {
    if a.Nil? || b.Nil? {
    } else if h.Higher(a.entry.path, b.entry.path) {
      h.CanonicalChildren(a);
      AroundPaths(InOrder(a.left), a.entry, InOrder(a.right), q => Less(q, p));
      JoinCanonical(h, a.right, b, p);
      JoinRows(h, a.right, b);
      h.OutranksMade(a.entry.path, b);
      forall i | 0 <= i < |InOrder(b)| ensures Less(a.entry.path, InOrder(b)[i].path) {
        LessTransitive(a.entry.path, p, InOrder(b)[i].path);
      }
      h.MakeCanonical(a.entry, a.left, Join(h, a.right, b));
    } else {
      h.CanonicalChildren(b);
      AroundPaths(InOrder(b.left), b.entry, InOrder(b.right), q => Less(p, q));
      JoinCanonical(h, a, b.left, p);
      JoinRows(h, a, b.left);
      LessTransitive(InOrder(a)[|InOrder(a.left)|].path, p, b.entry.path);
      h.HigherOrder(a.entry.path, b.entry.path);
      LessIrreflexive(a.entry.path);
      h.OutranksMade(b.entry.path, a);
      forall i | 0 <= i < |InOrder(a)| ensures Less(InOrder(a)[i].path, b.entry.path) {
        LessTransitive(InOrder(a)[i].path, p, b.entry.path);
      }
      h.MakeCanonical(b.entry, Join(h, a, b.left), b.right);
    }
  }

  lemma {:induction false} UpdateCanonical(h: Hashing, n: Node, e: Edit<Meta>)
    requires h.Canonical(n)
    ensures h.Canonical(Update(h, n, e))
  {
    if n.Nil? {
    } else {
      h.CanonicalChildren(n);
      if e.path == n.entry.path {
        JoinCanonical(h, n.left, n.right, e.path);
        h.MakeCanonical(Row(e.path, e.value.value), n.left, n.right);
      } else if Less(e.path, n.entry.path) {
        UpdateCanonical(h, n.left, e);
        RotateLeft(h, n, e);
      } else {
        UpdateCanonical(h, n.right, e);
        RotateRight(h, n, e);
      }
    }
  }

  /** Only the edited path can outrank the old root, so one rotation restores the order. */
  lemma RotateLeft(h: Hashing, n: Node, e: Edit<Meta>)
    requires h.Canonical(n) && n.Node? && e.path != n.entry.path && Less(e.path, n.entry.path)
    requires h.Canonical(Update(h, n.left, e))
    ensures h.Canonical(Update(h, n, e))
  {
    h.CanonicalChildren(n);
    var p, l := n.entry.path, Update(h, n.left, e);
    UpdatePaths(h, n.left, e, q => Less(q, p));
    UpdatePaths(h, n.left, e, q => q == e.path || h.Higher(p, q));
    if l.Node? && h.Higher(l.entry.path, p) {
      h.CanonicalChildren(l);
      AroundPaths(InOrder(l.left), l.entry, InOrder(l.right), q => Less(q, p));
      AroundPaths(InOrder(l.left), l.entry, InOrder(l.right), q => q == e.path || h.Higher(p, q));
      h.HigherOrder(p, l.entry.path);
      assert l.entry.path == e.path;
      forall i | 0 <= i < |InOrder(l.right)| ensures h.Higher(p, InOrder(l.right)[i].path) {
        LessIrreflexive(e.path);
      }
      var inner := h.Make(n.entry, l.right, n.right);
      h.MakeCanonical(n.entry, l.right, n.right);
      h.OutranksMade(e.path, inner);
      SortedBeyond(e.path, InOrder(l.right), n.entry, InOrder(n.right));
      h.MakeCanonical(l.entry, l.left, inner);
    } else {
      Dominated(h, p, l, e.path);
      h.MakeCanonical(n.entry, l, n.right);
    }
  }

  lemma RotateRight(h: Hashing, n: Node, e: Edit<Meta>)
    requires h.Canonical(n) && n.Node? && e.path != n.entry.path && !Less(e.path, n.entry.path)
    requires h.Canonical(Update(h, n.right, e))
    ensures h.Canonical(Update(h, n, e))
  {
    h.CanonicalChildren(n);
    var p, r := n.entry.path, Update(h, n.right, e);
    LessTotal(p, e.path);
    UpdatePaths(h, n.right, e, q => Less(p, q));
    UpdatePaths(h, n.right, e, q => q == e.path || h.Higher(p, q));
    if r.Node? && h.Higher(r.entry.path, p) {
      h.CanonicalChildren(r);
      AroundPaths(InOrder(r.left), r.entry, InOrder(r.right), q => Less(p, q));
      AroundPaths(InOrder(r.left), r.entry, InOrder(r.right), q => q == e.path || h.Higher(p, q));
      h.HigherOrder(p, r.entry.path);
      assert r.entry.path == e.path;
      forall i | 0 <= i < |InOrder(r.left)| ensures h.Higher(p, InOrder(r.left)[i].path) {
        LessIrreflexive(e.path);
      }
      var inner := h.Make(n.entry, n.left, r.left);
      h.MakeCanonical(n.entry, n.left, r.left);
      h.OutranksMade(e.path, inner);
      SortedWithin(e.path, InOrder(n.left), n.entry, InOrder(r.left));
      h.MakeCanonical(r.entry, inner, r.right);
    } else {
      Dominated(h, p, r, e.path);
      h.MakeCanonical(n.entry, n.left, r);
    }
  }

  /** If the root of the updated child does not outrank `p`, nothing in it does. */
  lemma Dominated(h: Hashing, p: string, n: Node, x: string)
    requires h.Heap(n) && AllPaths(InOrder(n), q => q == x || h.Higher(p, q))
    requires n.Node? ==> !h.Higher(n.entry.path, p)
    requires p != x
    ensures h.Dominates(p, InOrder(n))
  {
    if n.Node? {
      AroundPaths(InOrder(n.left), n.entry, InOrder(n.right), q => q == x || h.Higher(p, q));
      h.HigherOrder(p, n.entry.path);
      h.HigherOrder(p, p);
      h.OutranksMade(p, n);
    }
  }

  lemma SortedBeyond(p: string, l: seq<Entry>, e: Entry, r: seq<Entry>)
    requires Above(l, p) && Less(p, e.path) && Above(r, e.path)
    ensures Above(l + [e] + r, p)
  {
    forall i | 0 <= i < |r| ensures Less(p, r[i].path) { LessTransitive(p, e.path, r[i].path); }
  }

  lemma SortedWithin(p: string, l: seq<Entry>, e: Entry, r: seq<Entry>)
    requires Below(l, e.path) && Less(e.path, p) && Below(r, p)
    ensures Below(l + [e] + r, p)
  {
    forall i | 0 <= i < |l| ensures Less(l[i].path, p) { LessTransitive(l[i].path, e.path, p); }
  }

  // ---- What an update holds ----

  lemma FindAround(l: seq<Entry>, e: Entry, r: seq<Entry>, q: string)
    ensures Find(l + [e] + r, q) ==
      if Find(l, q).Some? then Find(l, q) else if q == e.path then Some(e.value) else Find(r, q)
  {
    FindConcat(l + [e], r, q);
    FindConcat(l, [e], q);
  }

  /** The edit acts on its own path and nowhere else. */
  lemma {:induction false} UpdateFind(h: Hashing, n: Node, e: Edit<Meta>, q: string)
    requires h.Canonical(n)
    ensures Find(InOrder(Update(h, n, e)), q) ==
      ApplyAt(Find(InOrder(n), q), if q == e.path then Some(e.value) else None)
  {
    if n.Nil? {
    } else {
      h.CanonicalChildren(n);
      var l, r := InOrder(n.left), InOrder(n.right);
      FindAround(l, n.entry, r, q);
      if e.path == n.entry.path {
        FindOutside(l, e.path);
        FindOutside(r, e.path);
        UpdateHere(h, n, e, q);
      } else if Less(e.path, n.entry.path) {
        UpdateFind(h, n.left, e, q);
        UpdateLeftRows(h, n, e);
        FindAround(InOrder(Update(h, n.left, e)), n.entry, r, q);
        if q == e.path { OutOfReach(r, e.path, n.entry.path); }
      } else {
        UpdateFind(h, n.right, e, q);
        UpdateRightRows(h, n, e);
        FindAround(l, n.entry, InOrder(Update(h, n.right, e)), q);
        LessTotal(e.path, n.entry.path);
        if q == e.path { OutOfReachBelow(l, e.path, n.entry.path); }
      }
    }
  }

  lemma UpdateHere(h: Hashing, n: Node, e: Edit<Meta>, q: string)
    requires n.Node? && e.path == n.entry.path
    requires Find(InOrder(n.left), e.path) == None && Find(InOrder(n.right), e.path) == None
    ensures Find(InOrder(Update(h, n, e)), q) ==
      ApplyAt(Find(InOrder(n), q), if q == e.path then Some(e.value) else None)
  {
    var l, r := InOrder(n.left), InOrder(n.right);
    FindAround(l, n.entry, r, q);
    JoinRows(h, n.left, n.right);
    FindConcat(l, r, q);
    FindAround(l, Row(e.path, e.value.value), r, q);
  }

  lemma OutOfReach(rows: seq<Entry>, p: string, m: string)
    requires Less(p, m) && Above(rows, m)
    ensures Find(rows, p) == None
  {
    forall i | 0 <= i < |rows| ensures Less(p, rows[i].path) { LessTransitive(p, m, rows[i].path); }
    FindOutside(rows, p);
  }

  lemma OutOfReachBelow(rows: seq<Entry>, p: string, m: string)
    requires Less(m, p) && Below(rows, m)
    ensures Find(rows, p) == None
  {
    forall i | 0 <= i < |rows| ensures Less(rows[i].path, p) { LessTransitive(rows[i].path, m, p); }
    FindOutside(rows, p);
  }

  // ---- Whole histories ----

  predicate DistinctPaths<V>(rows: seq<Row<V>>) {
    forall i, j :: 0 <= i < j < |rows| ==> rows[i].path != rows[j].path
  }

  lemma {:induction false} UpdateAllFind(h: Hashing, n: Node, edits: seq<Edit<Meta>>, q: string)
    requires h.Canonical(n) && DistinctPaths(edits)
    ensures h.Canonical(UpdateAll(h, n, edits))
    ensures Find(InOrder(UpdateAll(h, n, edits)), q) == ApplyAt(Find(InOrder(n), q), Find(edits, q))
    decreases edits
  {
    if edits != [] {
      UpdateCanonical(h, n, edits[0]);
      UpdateFind(h, n, edits[0], q);
      UpdateAllFind(h, Update(h, n, edits[0]), edits[1..], q);
      if q == edits[0].path { FindMember(edits[1..], q); }
    }
  }

  /** Reordering distinct edits does not change any lookup. */
  lemma FindPermuted<V>(a: seq<Row<V>>, b: seq<Row<V>>, q: string)
    requires DistinctPaths(a) && DistinctPaths(b) && multiset(a) == multiset(b)
    ensures Find(a, q) == Find(b, q)
  {
    FindMember(a, q);
    FindMember(b, q);
    forall r ensures r in a <==> r in b { assert r in multiset(a) <==> r in multiset(b); }
  }

  /** History independence: updating by any order of edits gives the very tree, counts and
      digests included, that building from the flat-edited list gives. */
  lemma HistoryIndependent(h: Hashing, n: Node, edits: seq<Edit<Meta>>, inOrder: seq<Edit<Meta>>, built: Node)
    requires h.Canonical(n) && DistinctPaths(edits)
    requires Sorted(inOrder) && multiset(inOrder) == multiset(edits)
    requires h.Canonical(built) && InOrder(built) == Flat.Edited(InOrder(n), inOrder)
    ensures UpdateAll(h, n, edits) == built
    ensures NodeDigest(UpdateAll(h, n, edits)) == NodeDigest(built)
    ensures NodeCount(UpdateAll(h, n, edits)) == |Flat.Edited(InOrder(n), inOrder)|
  {
    var t := UpdateAll(h, n, edits);
    assert DistinctPaths(inOrder) by {
      forall i, j | 0 <= i < j < |inOrder| ensures inOrder[i].path != inOrder[j].path {
        LessIrreflexive(inOrder[i].path);
      }
    }
    Flat.EditSorted(InOrder(n), inOrder);
    forall q ensures Find(InOrder(t), q) == Find(InOrder(built), q) {
      UpdateAllFind(h, n, edits, q);
      Flat.EditFind(InOrder(n), inOrder, q);
      FindPermuted(edits, inOrder, q);
    }
    UpdateAllFind(h, n, edits, "");
    SortedExtensional(InOrder(t), InOrder(built));
    h.CanonicalUnique(t, built);
    h.CountIsLength(built);
  }
}

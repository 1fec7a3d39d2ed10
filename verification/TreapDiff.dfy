/** The digest-skipping difference of two canonical trees refines the flat difference. */
module TreapDiff {
  import opened Paths
  import opened Rows
  import opened Manifests
  import opened Treap
  import opened TreapUpdate
  import Flat

  /** Every row of the tree as one kind of edit, in order. */
  function AppendEdits(n: Node, remove: bool): seq<Edit<Meta>> {
    if n.Nil? then []
    else AppendEdits(n.left, remove) + [Row(n.entry.path, Change(n.entry.value, remove))] + AppendEdits(n.right, remove)
  }

  /** The rows before and after an absent key, copying only the search path. */
  function SplitAbsent(h: Hashing, n: Node, p: string): (s: (Node, Node))
    ensures |InOrder(s.0)| + |InOrder(s.1)| == |InOrder(n)|
  {
    if n.Nil? then (Nil, Nil)
    else if Less(p, n.entry.path) then
      var (l, r) := SplitAbsent(h, n.left, p);
      if r == n.left then (l, n) else (l, h.Make(n.entry, r, n.right))
    else
      var (l, r) := SplitAbsent(h, n.right, p);
      if l == n.right then (n, r) else (h.Make(n.entry, n.left, l), r)
  }

  function DiffNodes(h: Hashing, a: Node, b: Node): seq<Edit<Meta>>
    decreases |InOrder(a)| + |InOrder(b)|
  {
    if a == b || NodeDigest(a) == NodeDigest(b) then []
    else if a.Nil? then AppendEdits(b, false)
    else if b.Nil? then AppendEdits(a, true)
    else if a.entry.path == b.entry.path then
      DiffNodes(h, a.left, b.left)
      + (if a.entry != b.entry then [Flat.Upsert(b.entry)] else [])
      + DiffNodes(h, a.right, b.right)
    else if h.Higher(a.entry.path, b.entry.path) then
      var (l, r) := SplitAbsent(h, b, a.entry.path);
      DiffNodes(h, a.left, l) + [Flat.Deletion(a.entry)] + DiffNodes(h, a.right, r)
    else
      var (l, r) := SplitAbsent(h, a, b.entry.path);
      DiffNodes(h, l, b.left) + [Flat.Upsert(b.entry)] + DiffNodes(h, r, b.right)
  }

  // ---- Splitting ----

  lemma {:induction false} SplitRows(h: Hashing, n: Node, p: string)
    ensures InOrder(SplitAbsent(h, n, p).0) + InOrder(SplitAbsent(h, n, p).1) == InOrder(n)
  {
    if n.Nil? {
    } else if Less(p, n.entry.path) {
      SplitRows(h, n.left, p);
      var (l, r) := SplitAbsent(h, n.left, p);
      Regroup(InOrder(l), InOrder(r) + [n.entry], InOrder(n.right));
      Regroup(InOrder(l), InOrder(r), [n.entry]);
    } else {
      SplitRows(h, n.right, p);
      var (l, r) := SplitAbsent(h, n.right, p);
      Regroup(InOrder(n.left) + [n.entry], InOrder(l), InOrder(r));
    }
  }

  lemma {:induction false} SplitCanonical(h: Hashing, n: Node, p: string)
    requires h.Canonical(n) && Find(InOrder(n), p) == None
    ensures var s := SplitAbsent(h, n, p);
      && h.Canonical(s.0) && h.Canonical(s.1)
      && Below(InOrder(s.0), p) && Above(InOrder(s.1), p)
  {
    if n.Node? {
      h.CanonicalChildren(n);
      FindAround(InOrder(n.left), n.entry, InOrder(n.right), p);
      if Less(p, n.entry.path) {
        var (l, r) := SplitAbsent(h, n.left, p);
        SplitCanonical(h, n.left, p);
        SplitRows(h, n.left, p);
        SuffixOf(h, n.entry.path, InOrder(l), InOrder(r));
        h.MakeCanonical(n.entry, r, n.right);
        SortedBeyond(p, InOrder(r), n.entry, InOrder(n.right));
      } else {
        LessTotal(p, n.entry.path);
        var (l, r) := SplitAbsent(h, n.right, p);
        SplitCanonical(h, n.right, p);
        SplitRows(h, n.right, p);
        SuffixOf(h, n.entry.path, InOrder(l), InOrder(r));
        h.MakeCanonical(n.entry, n.left, l);
        SortedWithin(p, InOrder(n.left), n.entry, InOrder(l));
      }
    }
  }

  /** Both halves of a list inherit what holds of all its rows. */
  lemma SuffixOf(h: Hashing, p: string, l: seq<Entry>, r: seq<Entry>)
    ensures h.Dominates(p, l + r) ==> h.Dominates(p, l) && h.Dominates(p, r)
    ensures Below(l + r, p) ==> Below(l, p) && Below(r, p)
    ensures Above(l + r, p) ==> Above(l, p) && Above(r, p)
  {
    forall i | 0 <= i < |l| ensures (l + r)[i] == l[i] {}
    forall i | 0 <= i < |r| ensures (l + r)[|l| + i] == r[i] {}
  }

  // ---- Whole trees ----

  lemma {:induction false} AppendIsDiff(h: Hashing, n: Node)
    requires h.Canonical(n)
    ensures AppendEdits(n, false) == Flat.Diff([], InOrder(n))
    ensures AppendEdits(n, true) == Flat.Diff(InOrder(n), [])
  {
    if n.Node? {
      h.CanonicalChildren(n);
      AppendIsDiff(h, n.left);
      AppendIsDiff(h, n.right);
      var l, e, r := InOrder(n.left), n.entry, InOrder(n.right);
      Flat.DiffInserted([], [], l, e, r);
      Flat.DiffDeleted(l, e, r, [], []);
    }
  }

  /** The tree difference is the flat difference of the two in-order lists. */
  lemma {:induction false} DiffRefines(h: Hashing, a: Node, b: Node)
    requires h.CollisionFree() && h.Canonical(a) && h.Canonical(b)
    ensures DiffNodes(h, a, b) == Flat.Diff(InOrder(a), InOrder(b))
    decreases |InOrder(a)| + |InOrder(b)|
  {
    if a == b || NodeDigest(a) == NodeDigest(b) {
      h.DigestInjective(a, b);
      Flat.DiffSelf(InOrder(a));
    } else if a.Nil? {
      AppendIsDiff(h, b);
    } else if b.Nil? {
      AppendIsDiff(h, a);
    } else if a.entry.path == b.entry.path {
      DiffSameRoot(h, a, b);
    } else if h.Higher(a.entry.path, b.entry.path) {
      DiffDeletedRoot(h, a, b);
    } else {
      h.HigherOrder(a.entry.path, b.entry.path);
      DiffInsertedRoot(h, a, b);
    }
  }

  lemma {:induction false} DiffSameRoot(h: Hashing, a: Node, b: Node)
    requires h.CollisionFree() && h.Canonical(a) && h.Canonical(b) && a.Node? && b.Node?
    requires NodeDigest(a) != NodeDigest(b) && a.entry.path == b.entry.path
    ensures DiffNodes(h, a, b) == Flat.Diff(InOrder(a), InOrder(b))
    decreases |InOrder(a)| + |InOrder(b)|, 0
  {
    h.CanonicalChildren(a);
    h.CanonicalChildren(b);
    DiffRefines(h, a.left, b.left);
    DiffRefines(h, a.right, b.right);
    Flat.DiffShared(InOrder(a.left), a.entry, InOrder(a.right), InOrder(b.left), b.entry, InOrder(b.right));
  }

  lemma {:induction false} DiffDeletedRoot(h: Hashing, a: Node, b: Node)
    requires h.CollisionFree() && h.Canonical(a) && h.Canonical(b) && a.Node? && b.Node?
    requires NodeDigest(a) != NodeDigest(b) && a.entry.path != b.entry.path && h.Higher(a.entry.path, b.entry.path)
    ensures DiffNodes(h, a, b) == Flat.Diff(InOrder(a), InOrder(b))
    decreases |InOrder(a)| + |InOrder(b)|, 0
  {
    var p := a.entry.path;
    h.AbsentRoot(p, b);
    var (l, r) := SplitAbsent(h, b, p);
    SplitCanonical(h, b, p);
    SplitRows(h, b, p);
    h.CanonicalChildren(a);
    DiffRefines(h, a.left, l);
    DiffRefines(h, a.right, r);
    Flat.DiffDeleted(InOrder(a.left), a.entry, InOrder(a.right), InOrder(l), InOrder(r));
  }

  lemma {:induction false} DiffInsertedRoot(h: Hashing, a: Node, b: Node)
    requires h.CollisionFree() && h.Canonical(a) && h.Canonical(b) && a.Node? && b.Node?
    requires NodeDigest(a) != NodeDigest(b) && a.entry.path != b.entry.path
    requires h.Higher(b.entry.path, a.entry.path) && !h.Higher(a.entry.path, b.entry.path)
    ensures DiffNodes(h, a, b) == Flat.Diff(InOrder(a), InOrder(b))
    decreases |InOrder(a)| + |InOrder(b)|, 0
  {
    var p := b.entry.path;
    h.AbsentRoot(p, a);
    var (l, r) := SplitAbsent(h, a, p);
    SplitCanonical(h, a, p);
    SplitRows(h, a, p);
    h.CanonicalChildren(b);
    DiffRefines(h, l, b.left);
    DiffRefines(h, r, b.right);
    Flat.DiffInserted(InOrder(l), InOrder(r), InOrder(b.left), b.entry, InOrder(b.right));
  }

  /** The difference of two trees, applied to the first, rebuilds the second. */
  lemma DiffThenUpdate(h: Hashing, a: Node, b: Node)
    requires h.CollisionFree() && h.Canonical(a) && h.Canonical(b)
    ensures UpdateAll(h, a, DiffNodes(h, a, b)) == b
  {
    var d := DiffNodes(h, a, b);
    DiffRefines(h, a, b);
    Flat.DiffSorted(InOrder(a), InOrder(b));
    Flat.EditUndoesDiff(InOrder(a), InOrder(b));
    forall i, j | 0 <= i < j < |d| ensures d[i].path != d[j].path { LessIrreflexive(d[i].path); }
    HistoryIndependent(h, a, d, d, b);
  }
}

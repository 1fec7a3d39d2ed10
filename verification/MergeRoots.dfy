/** Merging a whole bundle: content roots are walked, metadata roots merge one directory's mode. */
module MergeRoots {
  import opened Paths
  import opened Rows
  import opened Manifests
  import opened Merge
  import opened MergeRun

  /** A change root; a metadata root stands for one directory entry and not for what is below it. */
  datatype Root = Root(path: string, metadata: bool)

  predicate Touches(r: Root, p: string) { if r.metadata then p == r.path else AtOrBelow(p, r.path) }

  /** No root reaches into a content root, and no path is named twice. */
  predicate Separate(roots: seq<Root>) {
    && (forall i :: 0 <= i < |roots| ==> roots[i].path != ".")
    && (forall i, j :: 0 <= i < |roots| && 0 <= j < |roots| && i != j ==> !Touches(roots[i], roots[j].path))
  }

  /** What is not a directory has nothing below it. */
  predicate NoneUnderLeaf(t: Tree, name: string) {
    name in t && t[name].kind != Directory ==> forall p :: p in t && AtOrBelow(p, name) ==> p == name
  }

  /** The trees fit a root: a content root's subtrees are closed; a metadata root names, in a validated
      bundle, a directory that base and remote both have. */
  predicate FitsRoot(s: Sides, r: Root) {
    if r.metadata
    then Is(At(s.base, r.path), Directory) && Is(At(s.remote, r.path), Directory) && NoneUnderLeaf(s.ours, r.path)
    else Closed(s, r.path)
  }

  predicate AllFit(s: Sides, roots: seq<Root>) { forall i :: 0 <= i < |roots| ==> FitsRoot(s, roots[i]) }

  function MetadataVerdict(b: Option<Meta>, o: Option<Meta>, r: Option<Meta>): Verdict {
    if !All(b, o, r, Directory) then Conflict(None)
    else
      var mode := MergeMode(Some(b.value.mode), o.value.mode, r.value.mode);
      if mode.Some? then Descend(mode.value) else Conflict(Some(DirMeta(o.value.mode)))
  }

  function MetadataAt(s: Sides, name: string): Verdict {
    MetadataVerdict(At(s.base, name), At(s.ours, name), At(s.remote, name))
  }

  /** What the merge of one root leaves at a path it touches. */
  ghost function RootValue(s: Sides, merge: FileMerge, r: Root, p: string, materialize: bool): Option<Meta>
    requires r.path != "." && Touches(r, p)
  {
    if r.metadata then Outcome(s, MetadataAt(s, p), p, p, materialize) else Merged(s, merge, r.path, p, materialize)
  }

  ghost predicate RootConflict(s: Sides, merge: FileMerge, r: Root, c: string)
    requires r.path != "."
  {
    if r.metadata then c == r.path && MetadataAt(s, c).Conflict? else ConflictAt(s, merge, r.path, c)
  }

  lemma TouchedOnce(roots: seq<Root>, i: nat, j: nat, p: string)
    requires Separate(roots) && i < |roots| && j < |roots| && Touches(roots[i], p) && Touches(roots[j], p)
    ensures i == j
  {
    if !roots[i].metadata && !roots[j].metadata { AncestorsNested(p, roots[i].path, roots[j].path); }
  }

  // ---- Progress over the roots ----

  ghost predicate RootsWritten(files: Tree, s: Sides, merge: FileMerge, roots: seq<Root>, n: nat, materialize: bool)
    requires n <= |roots| && Separate(roots)
  {
    && (forall i, p :: 0 <= i < n && Touches(roots[i], p) ==>
        At(files, p) == RootValue(s, merge, roots[i], p, materialize))
    && (forall p :: (forall i :: 0 <= i < n ==> !Touches(roots[i], p)) ==> p !in files)
  }

  ghost predicate RootsReported(conflicts: set<string>, s: Sides, merge: FileMerge, roots: seq<Root>, n: nat)
    requires n <= |roots| && Separate(roots)
  {
    forall c :: c in conflicts <==> exists i :: 0 <= i < n && RootConflict(s, merge, roots[i], c)
  }

  ghost predicate RootWrites(files: Tree, before: Tree, s: Sides, merge: FileMerge, r: Root, materialize: bool)
    requires r.path != "."
  {
    forall p :: At(files, p) == if Touches(r, p) then RootValue(s, merge, r, p, materialize) else At(before, p)
  }

  ghost predicate RootReports(conflicts: set<string>, before: set<string>, s: Sides, merge: FileMerge, r: Root)
    requires r.path != "."
  {
    forall c :: c in conflicts <==> c in before || RootConflict(s, merge, r, c)
  }

  lemma OneMoreRoot(files: Tree, after: Tree, s: Sides, merge: FileMerge, roots: seq<Root>, n: nat, materialize: bool)
    requires n < |roots| && Separate(roots) && RootsWritten(files, s, merge, roots, n, materialize)
    requires RootWrites(after, files, s, merge, roots[n], materialize)
    ensures RootsWritten(after, s, merge, roots, n + 1, materialize)
  {
    forall i, p | 0 <= i < n + 1 && Touches(roots[i], p)
      ensures At(after, p) == RootValue(s, merge, roots[i], p, materialize)
    {
      if Touches(roots[n], p) { TouchedOnce(roots, i, n, p); }
    }
    forall p | forall i :: 0 <= i < n + 1 ==> !Touches(roots[i], p) ensures p !in after {
      assert At(after, p) == At(files, p);
    }
  }

  lemma OneMoreRootReported(conflicts: set<string>, after: set<string>, s: Sides, merge: FileMerge, roots: seq<Root>,
                            n: nat)
    requires n < |roots| && Separate(roots) && RootsReported(conflicts, s, merge, roots, n)
    requires RootReports(after, conflicts, s, merge, roots[n])
    ensures RootsReported(after, s, merge, roots, n + 1)
  {
  }

  lemma RootUntouched(files: Tree, s: Sides, merge: FileMerge, roots: seq<Root>, n: nat, materialize: bool)
    requires n < |roots| && Separate(roots) && RootsWritten(files, s, merge, roots, n, materialize)
    ensures forall p :: Touches(roots[n], p) ==> p !in files
  {
    forall p | Touches(roots[n], p) ensures p !in files {
      forall i | 0 <= i < n ensures !Touches(roots[i], p) {
        if Touches(roots[i], p) { TouchedOnce(roots, i, n, p); }
      }
    }
  }

  lemma {:induction false} Deepest(names: set<string>) returns (depth: nat)
    ensures forall k :: k in names ==> |k| <= depth
    decreases |names|
  {
    depth := 0;
    if names != {} {
      var k :| k in names;
      depth := Deepest(names - {k});
      if |k| > depth { depth := |k|; }
    }
  }

  // ---- The methods ----

  /** The entry that merging a metadata path writes at `p`, if it writes one. */
  function MetadataWrite(s: Sides, name: string, p: string, materialize: bool): Option<Meta> {
    match MetadataAt(s, name)
    case Descend(mode) => if p == name then Some(DirMeta(mode)) else None
    case Conflict(Some(e)) => if materialize && p == name then Some(e) else None
    case _ => if materialize && name in s.ours && AtOrBelow(p, name) then At(s.ours, p) else None
  }

  /** Merges one directory's mode.  An entry missing or of another type on any side is a conflict,
      shown as the whole local subtree. */
  method MergeMetadataPath(out: Scratch, s: Sides, name: string, materialize: bool)
    modifies out
    ensures forall p :: MetadataWrite(s, name, p, materialize).Some? ==>
        At(out.files, p) == MetadataWrite(s, name, p, materialize)
    ensures forall p :: MetadataWrite(s, name, p, materialize).None? ==> At(out.files, p) == old(At(out.files, p))
    ensures out.conflicts == if MetadataAt(s, name).Conflict? then old(out.conflicts) + {name} else old(out.conflicts)
  {
    var v := MetadataAt(s, name);
    if v.Conflict? { out.conflicts := out.conflicts + {name}; }
    match v
    case Descend(mode) => out.files := out.files[name := DirMeta(mode)];
    case Conflict(w) =>
      if materialize {
        if w.Some? { out.files := out.files[name := w.value]; } else { out.CopySubtree(s.ours, name); }
      }
    case _ =>
  }

  /** For a validated bundle the write is the merged entry of the directory alone. */
  lemma MetadataWritesOne(s: Sides, r: Root, p: string, materialize: bool)
    requires r.metadata && r.path != "." && FitsRoot(s, r)
    ensures MetadataWrite(s, r.path, p, materialize)
      == if p == r.path then Outcome(s, MetadataAt(s, p), p, p, materialize) else None
  {
    BelowReflexive(p);
  }

  method MergeRootPath(out: Scratch, s: Sides, merge: FileMerge, d: Deltas, r: Root, materialize: bool,
                       ghost depth: nat)
    requires Compares(d, s) && WithinDepth(s, depth) && r.path != "." && FitsRoot(s, r)
    requires forall p :: Touches(r, p) ==> p !in out.files
    modifies out
    ensures RootWrites(out.files, old(out.files), s, merge, r, materialize)
    ensures RootReports(out.conflicts, old(out.conflicts), s, merge, r)
  {
    if r.metadata {
      forall p ensures MetadataWrite(s, r.path, p, materialize)
        == if p == r.path then Outcome(s, MetadataAt(s, p), p, p, materialize) else None
      {
        MetadataWritesOne(s, r, p, materialize);
      }
      MergeMetadataPath(out, s, r.path, materialize);
    } else {
      out.MergeTreePath(s, merge, d, r.path, materialize, depth);
    }
  }

  /** Merge every root.  Without materialized conflicts any conflict fails the whole merge. */
  method MergeChangeRoots(s: Sides, merge: FileMerge, roots: seq<Root>, materialize: bool)
      returns (files: Tree, conflicts: set<string>, failed: bool)
    requires Separate(roots) && AllFit(s, roots)
    ensures RootsWritten(files, s, merge, roots, |roots|, materialize)
    ensures RootsReported(conflicts, s, merge, roots, |roots|)
    ensures failed <==> !materialize && exists i, c :: 0 <= i < |roots| && RootConflict(s, merge, roots[i], c)
  {
    var baseOurs := ChangedSubtrees(s.base, s.ours);
    var baseRemote := ChangedSubtrees(s.base, s.remote);
    var oursRemote := ChangedSubtrees(s.ours, s.remote);
    var d := Deltas(baseOurs, baseRemote, oursRemote);
    ghost var depth := Deepest(Names(s));
    var out := new Scratch();
    for n := 0 to |roots|
      invariant fresh(out)
      invariant RootsWritten(out.files, s, merge, roots, n, materialize)
      invariant RootsReported(out.conflicts, s, merge, roots, n)
    {
      ghost var files0, conflicts0 := out.files, out.conflicts;
      RootUntouched(out.files, s, merge, roots, n, materialize);
      MergeRootPath(out, s, merge, d, roots[n], materialize, depth);
      OneMoreRoot(files0, out.files, s, merge, roots, n, materialize);
      OneMoreRootReported(conflicts0, out.conflicts, s, merge, roots, n);
    }
    files, conflicts := out.files, out.conflicts;
    failed := !materialize && conflicts != {};
    AnyReported(conflicts, s, merge, roots);
  }

  lemma AnyReported(conflicts: set<string>, s: Sides, merge: FileMerge, roots: seq<Root>)
    requires Separate(roots) && RootsReported(conflicts, s, merge, roots, |roots|)
    ensures conflicts != {} <==> exists i, c :: 0 <= i < |roots| && RootConflict(s, merge, roots[i], c)
  {
    if i, c :| 0 <= i < |roots| && RootConflict(s, merge, roots[i], c) { assert c in conflicts; }
  }

  // ---- Laws of the whole merge ----

  /** A content conflict is never reported inside another. */
  lemma ContentConflictsDisjoint(s: Sides, merge: FileMerge, roots: seq<Root>, i: nat, j: nat, c: string, d: string)
    requires Separate(roots) && i < |roots| && j < |roots| && !roots[i].metadata && !roots[j].metadata
    requires RootConflict(s, merge, roots[i], c) && RootConflict(s, merge, roots[j], d) && AtOrBelow(d, c)
    ensures c == d
  {
    BelowTransitive(d, c, roots[i].path);
    TouchedOnce(roots, i, j, d);
    ConflictsDisjoint(s, merge, roots[i].path, c, d);
  }

  /** Outside the conflicts of its root, every touched path obeys the merge law. */
  lemma RootLaw(s: Sides, merge: FileMerge, r: Root, p: string, materialize: bool)
    requires FitsRoot(s, r) && PlainDirs(s.ours) && PlainDirs(s.remote) && r.path != "." && Touches(r, p)
    requires forall c :: AtOrBelow(p, c) ==> !RootConflict(s, merge, r, c)
    ensures At(s.ours, p) == At(s.base, p) ==> RootValue(s, merge, r, p, materialize) == At(s.remote, p)
    ensures At(s.remote, p) == At(s.base, p) ==> RootValue(s, merge, r, p, materialize) == At(s.ours, p)
    ensures At(s.ours, p) == At(s.remote, p) ==> RootValue(s, merge, r, p, materialize) == At(s.ours, p)
  {
    if r.metadata {
      BelowReflexive(p);
      assert !RootConflict(s, merge, r, p);
    } else {
      assert Unconflicted(s, merge, r.path, p);
      MergeLaw(s, merge, r.path, p, materialize);
    }
  }
}

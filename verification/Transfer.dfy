/** Delta, merge and acceptance together: what one transfer promises about the next base. */
module Transfer {
  import opened Paths
  import opened Rows
  import opened Manifests
  import opened Merge
  import opened MergeRoots
  import opened Delta
  import opened Accept

  // ---- Round trip ----

  /** Every content change is at or below a content root. */
  lemma {:induction false} Topmost(a: seq<Entry>, b: seq<Entry>, p: string) returns (top: string)
    requires ContentChange(a, b, p)
    ensures IsRoot(a, b, Root(top, false)) && AtOrBelow(p, top) && (p != "." ==> top != ".")
    decreases |p|
  {
    if Covered(a, b, p) {
      var q :| q != "." && q != p && AtOrBelow(p, q) && ContentChange(a, b, q);
      top := Topmost(a, b, q);
      BelowTransitive(p, q, top);
    } else {
      top := p;
    }
  }

  predicate NoDot(rows: seq<Entry>) { Find(rows, ".") == None }

  ghost predicate AllInstalled(d: Bundle, o: Report) {
    !o.refused && o.conflicts == {} && forall q :: q in o.installed <==>
        exists i :: 0 <= i < |d.roots| && d.roots[i].path == q
  }

  /** With everything installed, exactly the paths that roots touch are accepted. */
  lemma AcceptsTouched(a: seq<Entry>, b: seq<Entry>, d: Bundle, o: Report, p: string)
    requires NoDot(a) && NoDot(b) && RootsOf(d.roots, a, b) && AllInstalled(d, o)
    ensures Accepts(d, o, p) <==> exists i :: 0 <= i < |d.roots| && Touches(d.roots[i], p)
  {
    forall i | 0 <= i < |d.roots| ensures IsRoot(a, b, d.roots[i]) && d.roots[i].path != "." {
      assert d.roots[i] in d.roots;
    }
    if Accepts(d, o, p) {
      var q :| q in o.installed && if IsMetadata(d, q) then p == q else q != "." && AtOrBelow(p, q);
      var i :| 0 <= i < |d.roots| && d.roots[i].path == q;
      assert d.roots[i].metadata ==> IsMetadata(d, q);
      assert Touches(d.roots[i], p);
    }
    if i :| 0 <= i < |d.roots| && Touches(d.roots[i], p) {
      var q := d.roots[i].path;
      assert q in o.installed;
      if IsMetadata(d, q) { assert IsRoot(a, b, Root(q, true)); }
    }
  }

  /** Every changed path is touched by some root. */
  lemma ChangedTouched(a: seq<Entry>, b: seq<Entry>, roots: seq<Root>, p: string)
    requires RootsOf(roots, a, b) && Changed(a, b, p)
    ensures exists i :: 0 <= i < |roots| && Touches(roots[i], p)
  {
    if MetadataOnly(a, b, p) {
      assert Root(p, true) in roots && Touches(Root(p, true), p);
    } else {
      var top := Topmost(a, b, p);
      assert Root(top, false) in roots && Touches(Root(top, false), p);
    }
  }

  lemma TouchedPart(part: seq<Entry>, all: seq<Entry>, roots: seq<Root>, i: nat, p: string)
    requires PartOf(part, all, roots) && i < |roots| && Touches(roots[i], p)
    ensures Find(part, p) == Find(all, p)
  {
    assert roots[i] in roots && Needs(roots[i], p);
  }

  /** A complete transfer ends at the remote manifest. */
  lemma DeltaAcceptRoundTrip(a: seq<Entry>, b: seq<Entry>, d: Bundle, o: Report, next: seq<Entry>)
    requires Sorted(a) && Sorted(b) && NoDot(a) && NoDot(b) && DeltaOf(d, a, b) && AllInstalled(d, o)
    requires NextBase(next, a, d, o)
    ensures next == b && BasesMatch(a, d)
  {
    forall p ensures Find(next, p) == Find(b, p) {
      AcceptsTouched(a, b, d, o, p);
      if i :| 0 <= i < |d.roots| && Touches(d.roots[i], p) {
        TouchedPart(d.remote, b, d.roots, i, p);
      }
      if Changed(a, b, p) { ChangedTouched(a, b, d.roots, p); }
    }
    SortedExtensional(next, b);
    DeltaBasesMatch(a, b, d);
  }

  lemma DeltaBasesMatch(a: seq<Entry>, b: seq<Entry>, d: Bundle)
    requires DeltaOf(d, a, b)
    ensures BasesMatch(a, d)
  {
    forall i, p | 0 <= i < |d.roots| && Touches(d.roots[i], p) ensures Find(a, p) == Find(d.base, p) {
      TouchedPart(d.base, a, d.roots, i, p);
    }
  }

  /** Computing a delta and accepting all of it reproduces the remote manifest, unless a limit stops it. */
  method TransferAll(a: seq<Entry>, b: seq<Entry>, maxBytes: int) returns (r: DeltaResult, next: seq<Entry>)
    requires Sorted(a) && Sorted(b) && NoDot(a) && NoDot(b)
    ensures r.Selected? ==> next == b
  {
    next := a;
    r := SelectSnapshotDelta(a, b, maxBytes);
    if r.Selected? {
      var d := r.bundle;
      var o := Report(false, set i | 0 <= i < |d.roots| :: d.roots[i].path, {});
      var accepted := MergeAcceptedSource(a, d, o);
      DeltaBasesMatch(a, b, d);
      next := accepted.value;
      DeltaAcceptRoundTrip(a, b, d, o, next);
    }
  }

  predicate TouchedBy(roots: seq<Root>, i: int, p: string) { 0 <= i < |roots| && Touches(roots[i], p) }

  /** A delta changes something at every root, and every changed path belongs to exactly one of them. */
  lemma DeltaExact(a: seq<Entry>, b: seq<Entry>, d: Bundle, p: string)
    requires NoDot(a) && NoDot(b) && ManifestClosed(a) && ManifestClosed(b) && DeltaOf(d, a, b)
    ensures forall i :: 0 <= i < |d.roots| ==> Changed(a, b, d.roots[i].path)
    ensures Changed(a, b, p) ==> exists i :: 0 <= i < |d.roots| && Touches(d.roots[i], p)
    ensures forall i, j :: TouchedBy(d.roots, i, p) && TouchedBy(d.roots, j, p) ==> i == j
  {
    forall i | 0 <= i < |d.roots| ensures Changed(a, b, d.roots[i].path) { assert d.roots[i] in d.roots; }
    if Changed(a, b, p) { ChangedTouched(a, b, d.roots, p); }
    DeltaSeparate(a, b, d);
    forall i, j | TouchedBy(d.roots, i, p) && TouchedBy(d.roots, j, p) ensures i == j {
      TouchedOnce(d.roots, i, j, p);
    }
  }

  // ---- The bundle fits the merge ----

  predicate ManifestClosed(rows: seq<Entry>) {
    forall i :: 0 <= i < |rows| && Dir(rows[i].path) != "." ==> Is(Find(rows, Dir(rows[i].path)), Directory)
  }

  /** `newMergeTree`. */
  function TreeOf(rows: seq<Entry>): Tree {
    if rows == [] then map[] else TreeOf(rows[1..])[rows[0].path := rows[0].value]
  }

  lemma {:induction false} TreeFind(rows: seq<Entry>, p: string)
    ensures At(TreeOf(rows), p) == Find(rows, p)
  {
    if rows != [] { TreeFind(rows[1..], p); }
  }

  lemma ClosedTree(rows: seq<Entry>, root: string)
    requires ManifestClosed(rows) && root != "."
    ensures ClosedBelow(TreeOf(rows), root)
  {
    forall p | p in TreeOf(rows) && AtOrBelow(p, root) && p != root
      ensures Dir(p) in TreeOf(rows) && TreeOf(rows)[Dir(p)].kind == Directory
    {
      BelowParent(p, root);
      RootBelowDot(Dir(p), root);
      TreeFind(rows, p);
      TreeFind(rows, Dir(p));
      FindMember(rows, p);
    }
  }

  /** With a path a bundle carries its directory too. */
  lemma NeedsParent(r: Root, p: string)
    requires Needs(r, p) && Dir(p) != "."
    ensures Needs(r, Dir(p))
  {
    ProperAncestors(p);
    if AtOrBelow(r.path, p) {
      BelowTransitive(r.path, p, Dir(p));
    } else {
      if r.path != "." { BelowParent(p, r.path); } else { DotBelow(p); }
    }
  }

  lemma DotBelow(p: string)
    requires AtOrBelow(p, ".") && p != "." && Dir(p) != "."
    ensures AtOrBelow(Dir(p), ".")
  {
    var k := LastSlash(p);
    assert p[1] == '/' && k >= 1;
    if k > 1 { assert p[..k][..2] == p[..2] == "./"; }
  }

  lemma PartClosed(part: seq<Entry>, all: seq<Entry>, roots: seq<Root>)
    requires ManifestClosed(all) && PartOf(part, all, roots)
    ensures ManifestClosed(part)
  {
    forall i | 0 <= i < |part| && Dir(part[i].path) != "." ensures Is(Find(part, Dir(part[i].path)), Directory) {
      var p := part[i].path;
      FindMember(part, p);
      var r :| r in roots && Needs(r, p);
      NeedsParent(r, p);
      FindMember(all, p);
    }
  }

  lemma {:induction false} ClosedAbove(rows: seq<Entry>, p: string, q: string)
    requires ManifestClosed(rows) && Find(rows, p).Some? && AtOrBelow(p, q) && p != q && q != "."
    ensures Is(Find(rows, q), Directory)
    decreases |p|
  {
    BelowParent(p, q);
    DirHeight(p);
    FindMember(rows, p);
    if Dir(p) == "." { RootBelowDot(Dir(p), q); }
    if Dir(p) != q { ClosedAbove(rows, Dir(p), q); }
  }

  /** The roots of a delta between parent-closed manifests never reach into one another's content. */
  lemma DeltaSeparate(a: seq<Entry>, b: seq<Entry>, d: Bundle)
    requires NoDot(a) && NoDot(b) && ManifestClosed(a) && ManifestClosed(b) && RootsOf(d.roots, a, b)
    ensures Separate(d.roots)
  {
    forall i | 0 <= i < |d.roots| ensures d.roots[i].path != "." { assert d.roots[i] in d.roots; }
    forall i, j | 0 <= i < |d.roots| && 0 <= j < |d.roots| && i != j ensures !Touches(d.roots[i], d.roots[j].path) {
      RootsApart(a, b, d.roots, i, j);
    }
  }

  lemma RootsApart(a: seq<Entry>, b: seq<Entry>, roots: seq<Root>, i: nat, j: nat)
    requires ManifestClosed(a) && ManifestClosed(b) && RootsOf(roots, a, b) && i < |roots| && j < |roots| && i != j
    requires roots[i].path != "."
    ensures !Touches(roots[i], roots[j].path)
  {
    var r, q := roots[i], roots[j];
    assert r in roots && q in roots;
    assert r.path != q.path by {
      assert Less(roots[if i < j then i else j].path, roots[if i < j then j else i].path);
      LessIrreflexive(r.path);
    }
    if AtOrBelow(q.path, r.path) {
      if q.metadata {
        ClosedAbove(a, q.path, r.path);
        ClosedAbove(b, q.path, r.path);
      }
    }
  }

  // ---- What one application merges ----

  /** The root neither meets a conflict nor lies above one. */
  predicate Clear(r: Root, conflicts: set<string>) {
    forall c :: c in conflicts ==> !AtOrBelow(r.path, c) && !AtOrBelow(c, r.path)
  }

  /** Roots of a list, each at most once. */
  predicate SomeOf(part: seq<Root>, roots: seq<Root>) {
    && (forall i :: 0 <= i < |part| ==> part[i] in roots)
    && (forall i, j :: 0 <= i < j < |part| ==> part[i] != part[j])
  }

  /** The selected roots outside the conflicts found before merging (`rootsOutsideConflicts`). */
  method RootsOutsideConflicts(roots: seq<Root>, selected: set<string>, conflicts: set<string>)
      returns (kept: seq<Root>)
    requires Separate(roots)
    ensures SomeOf(kept, roots)
    ensures forall r :: r in kept <==> r in roots && r.path in selected && Clear(r, conflicts)
  {
    kept := [];
    for n := 0 to |roots|
      invariant SomeOf(kept, roots)
      invariant forall r :: r in kept <==> r in roots[..n] && r.path in selected && Clear(r, conflicts)
    {
      assert roots[..n + 1] == roots[..n] + [roots[n]];
      EarlierRootsDiffer(roots, n);
      if roots[n].path in selected && Clear(roots[n], conflicts) { kept := kept + [roots[n]]; }
    }
    assert roots[..|roots|] == roots;
  }

  lemma EarlierRootsDiffer(roots: seq<Root>, n: nat)
    requires Separate(roots) && n < |roots|
    ensures roots[n] !in roots[..n]
  {
    forall i | 0 <= i < n ensures roots[i] != roots[n] {
      BelowReflexive(roots[n].path);
      assert !Touches(roots[i], roots[n].path);
    }
  }

  lemma PartSeparate(part: seq<Root>, roots: seq<Root>)
    requires Separate(roots) && SomeOf(part, roots)
    ensures Separate(part)
  {
    forall i, j | 0 <= i < |part| && 0 <= j < |part| && i != j ensures !Touches(part[i], part[j].path) {
      var k :| 0 <= k < |roots| && roots[k] == part[i];
      var l :| 0 <= l < |roots| && roots[l] == part[j];
      assert part[if i < j then i else j] != part[if i < j then j else i];
    }
  }

  /** The merge that the bundle and a local tree set up. */
  function SidesOf(d: Bundle, ours: Tree): Sides { Sides(TreeOf(d.base), ours, TreeOf(d.remote)) }

  /** The local tree holds subtrees of the roots as captured, with or without anything above them. */
  predicate LocalFits(ours: Tree, roots: seq<Root>) {
    PlainDirs(ours) && forall i :: 0 <= i < |roots| ==>
      if roots[i].metadata then NoneUnderLeaf(ours, roots[i].path) else ClosedBelow(ours, roots[i].path)
  }

  ghost predicate ValidTransfer(a: seq<Entry>, b: seq<Entry>, d: Bundle, ours: Tree) {
    && Sorted(a) && Sorted(b) && NoDot(a) && NoDot(b) && ManifestClosed(a) && ManifestClosed(b)
    && DeltaOf(d, a, b) && LocalFits(ours, d.roots) && PlainDirs(TreeOf(d.remote))
  }

  lemma TransferFitsMerge(a: seq<Entry>, b: seq<Entry>, d: Bundle, ours: Tree)
    requires ValidTransfer(a, b, d, ours)
    ensures Separate(d.roots) && AllFit(SidesOf(d, ours), d.roots)
  {
    PartClosed(d.base, a, d.roots);
    PartClosed(d.remote, b, d.roots);
    DeltaSeparate(a, b, d);
    forall i | 0 <= i < |d.roots| ensures FitsRoot(SidesOf(d, ours), d.roots[i]) {
      assert IsRoot(a, b, d.roots[i]) by { assert d.roots[i] in d.roots; }
      RootEntries(a, b, d, i, d.roots[i].path);
      ClosedTree(d.base, d.roots[i].path);
      ClosedTree(d.remote, d.roots[i].path);
    }
  }

  lemma RootEntries(a: seq<Entry>, b: seq<Entry>, d: Bundle, i: nat, p: string)
    requires DeltaOf(d, a, b) && i < |d.roots| && Touches(d.roots[i], p)
    ensures At(TreeOf(d.base), p) == Find(a, p) && At(TreeOf(d.remote), p) == Find(b, p)
  {
    TouchedPart(d.base, a, d.roots, i, p);
    TouchedPart(d.remote, b, d.roots, i, p);
    TreeFind(d.base, p);
    TreeFind(d.remote, p);
  }

  // ---- Partial acceptance ----

  /** Only merged roots were installed, and every conflict their merge found is in the report. */
  ghost predicate Honest(o: Report, s: Sides, merge: FileMerge, merged: seq<Root>)
    requires Separate(merged)
  {
    && (forall i, c :: 0 <= i < |merged| && RootConflict(s, merge, merged[i], c) ==> c in o.conflicts)
    && (forall q :: q in o.installed ==> exists i :: 0 <= i < |merged| && merged[i].path == q)
  }

  /** Of one path a bundle has only one root. */
  lemma OneRoot(roots: seq<Root>, r: Root, q: Root)
    requires Separate(roots) && r in roots && q in roots && r.path == q.path
    ensures r == q
  {
    var i :| 0 <= i < |roots| && roots[i] == r;
    var j :| 0 <= j < |roots| && roots[j] == q;
    BelowReflexive(r.path);
    assert i != j ==> !Touches(roots[i], roots[j].path);
  }

  /** An accepted path belongs to a merged root and lies outside all of its conflicts. */
  lemma AcceptedOutsideConflicts(d: Bundle, o: Report, s: Sides, merge: FileMerge, merged: seq<Root>, p: string)
      returns (i: nat)
    requires Separate(d.roots) && SomeOf(merged, d.roots) && Separate(merged)
    requires Honest(o, s, merge, merged) && Accepts(d, o, p)
    ensures i < |merged| && Touches(merged[i], p) && merged[i].path in o.installed
    ensures forall c :: AtOrBelow(p, c) ==> !RootConflict(s, merge, merged[i], c)
  {
    var q :| q in o.installed && if IsMetadata(d, q) then p == q else q != "." && AtOrBelow(p, q);
    var k: nat :| k < |merged| && merged[k].path == q;
    i := k;
    assert merged[i] in d.roots;
    if IsMetadata(d, q) { OneRoot(d.roots, merged[i], Root(q, true)); }
    assert merged[i].metadata ==> IsMetadata(d, q);
    forall c | AtOrBelow(p, c) && RootConflict(s, merge, merged[i], c) ensures false {
      ConflictBlocks(d, o, s, merge, merged, i, p, c);
    }
  }

  lemma ConflictBlocks(d: Bundle, o: Report, s: Sides, merge: FileMerge, merged: seq<Root>, i: nat, p: string,
                       c: string)
    requires Separate(d.roots) && SomeOf(merged, d.roots) && Separate(merged) && Honest(o, s, merge, merged)
    requires i < |merged| && RootConflict(s, merge, merged[i], c) && AtOrBelow(p, c) && Touches(merged[i], p)
    ensures Blocked(d, o, p)
  {
    assert c in o.conflicts;
    if merged[i].metadata {
      BelowAntisymmetric(p, c);
    } else {
      RootBelowDot(c, merged[i].path);
      NotMetadataBelow(d.roots, merged[i], c);
    }
  }

  /** No metadata root lies at or below a content root. */
  lemma NotMetadataBelow(roots: seq<Root>, r: Root, c: string)
    requires Separate(roots) && r in roots && !r.metadata && AtOrBelow(c, r.path)
    ensures Root(c, true) !in roots
  {
    var i :| 0 <= i < |roots| && roots[i] == r;
    forall j | 0 <= j < |roots| ensures roots[j] != Root(c, true) {
      assert j != i ==> !Touches(roots[i], roots[j].path);
    }
  }

  /** At an accepted path the workspace holds what the merge law says of local tree, old base and remote. */
  ghost predicate AdvancesSoundly(a: seq<Entry>, b: seq<Entry>, ours: Tree, files: Tree, next: seq<Entry>, p: string) {
    && Find(next, p) == Find(b, p)
    && (At(ours, p) == Find(a, p) ==> At(files, p) == Find(b, p))
    && (Find(b, p) == Find(a, p) ==> At(files, p) == At(ours, p))
    && (At(ours, p) == Find(b, p) ==> At(files, p) == Find(b, p))
  }

  /** Whichever roots were selected, kept and merged: the next base is remote exactly on accepted paths
      and base elsewhere, and where it advanced the workspace took part in the merge. */
  lemma PartialAcceptanceSound(a: seq<Entry>, b: seq<Entry>, d: Bundle, ours: Tree, merge: FileMerge, materialize: bool,
                               merged: seq<Root>, files: Tree, o: Report, next: seq<Entry>, p: string)
    requires ValidTransfer(a, b, d, ours) && Separate(d.roots) && SomeOf(merged, d.roots) && Separate(merged)
    requires RootsWritten(files, SidesOf(d, ours), merge, merged, |merged|, materialize)
    requires Honest(o, SidesOf(d, ours), merge, merged) && NextBase(next, a, d, o)
    ensures Accepts(d, o, p) ==> AdvancesSoundly(a, b, ours, files, next, p)
    ensures !Accepts(d, o, p) ==> Find(next, p) == Find(a, p)
  {
    if Accepts(d, o, p) {
      var s := SidesOf(d, ours);
      TransferFitsMerge(a, b, d, ours);
      var i := AcceptedOutsideConflicts(d, o, s, merge, merged, p);
      var k: nat :| k < |d.roots| && d.roots[k] == merged[i];
      RootEntries(a, b, d, k, p);
      TouchedPart(d.remote, b, d.roots, k, p);
      RootLaw(s, merge, merged[i], p, materialize);
      assert At(files, p) == RootValue(s, merge, merged[i], p, materialize);
    }
  }

  /** At or below a content conflict of a merged root the old base entry stays. */
  lemma ConflictsKeepBase(a: seq<Entry>, d: Bundle, o: Report, s: Sides, merge: FileMerge, merged: seq<Root>,
                          next: seq<Entry>, i: nat, c: string, p: string)
    requires Separate(d.roots) && SomeOf(merged, d.roots) && Separate(merged) && Honest(o, s, merge, merged)
    requires NextBase(next, a, d, o)
    requires i < |merged| && !merged[i].metadata && RootConflict(s, merge, merged[i], c) && AtOrBelow(p, c)
    ensures Find(next, p) == Find(a, p)
  {
    BelowTransitive(p, c, merged[i].path);
    ConflictBlocks(d, o, s, merge, merged, i, p, c);
  }

  /** A path below no merged root keeps its old base entry: roots not selected, or set aside for a
      conflict found before the merge, wait for a later transfer. */
  lemma UnmergedKeepsBase(a: seq<Entry>, d: Bundle, o: Report, s: Sides, merge: FileMerge, merged: seq<Root>,
                          next: seq<Entry>, p: string)
    requires Separate(d.roots) && SomeOf(merged, d.roots) && Separate(merged) && Honest(o, s, merge, merged)
    requires NextBase(next, a, d, o) && forall i :: 0 <= i < |merged| ==> !Touches(merged[i], p)
    ensures Find(next, p) == Find(a, p)
  {
    if Accepts(d, o, p) {
      var i := AcceptedOutsideConflicts(d, o, s, merge, merged, p);
    }
  }

  /** Where a base advances, it held the entry the bundle was made from: an accepted change never
      replaces one that the bundle has not seen. */
  lemma AcceptedFromBase(base: seq<Entry>, d: Bundle, o: Report, next: seq<Entry>, p: string)
    requires Accepted(base, d, o) == Some(next)
    requires forall q :: q in o.installed ==> exists i :: 0 <= i < |d.roots| && d.roots[i].path == q
    ensures Find(next, p) != Find(base, p) ==> Find(base, p) == Find(d.base, p) && Find(next, p) == Find(d.remote, p)
  {
    if Accepts(d, o, p) {
      var q :| q in o.installed && if IsMetadata(d, q) then p == q else q != "." && AtOrBelow(p, q);
      var i :| 0 <= i < |d.roots| && d.roots[i].path == q;
      assert d.roots[i].metadata ==> IsMetadata(d, q);
      if IsMetadata(d, q) {
        var k :| 0 <= k < |d.roots| && d.roots[k] == Root(q, true);
        assert Touches(d.roots[k], p);
      } else {
        assert Touches(d.roots[i], p);
      }
    }
  }

  // ---- Nothing waits without a reason ----

  /** Every merged root was installed, and conflicts come from the merge or were set aside before it. */
  ghost predicate Thorough(o: Report, s: Sides, merge: FileMerge, merged: seq<Root>, early: set<string>)
    requires Separate(merged)
  {
    && (forall i :: 0 <= i < |merged| ==> merged[i].path in o.installed && Clear(merged[i], early))
    && (forall c :: c in o.conflicts ==>
          c in early || exists i :: 0 <= i < |merged| && RootConflict(s, merge, merged[i], c))
  }

  ghost predicate AnyConflict(s: Sides, merge: FileMerge, merged: seq<Root>)
    requires Separate(merged)
  {
    exists i, c :: 0 <= i < |merged| && RootConflict(s, merge, merged[i], c)
  }

  /** The merge of root `i` left the path without a conflict. */
  ghost predicate Settled(s: Sides, merge: FileMerge, merged: seq<Root>, i: nat, p: string)
    requires Separate(merged) && i < |merged|
  {
    Touches(merged[i], p) && forall c :: AtOrBelow(p, c) ==> !RootConflict(s, merge, merged[i], c)
  }

  /** No conflict found before the merge lies at or above a path of a merged root. */
  lemma EarlyApart(r: Root, early: set<string>, p: string, c: string)
    requires Clear(r, early) && r.path != "." && Touches(r, p) && c in early && c != "."
    ensures !AtOrBelow(p, c)
  {
    BelowReflexive(p);
    if AtOrBelow(p, c) && !r.metadata { AncestorsNested(p, c, r.path); }
  }

  /** A conflict of another root blocks no path of this one: of a content root it lies elsewhere, of a
      metadata root it stands for one directory entry only. */
  lemma OthersApart(d: Bundle, s: Sides, merge: FileMerge, merged: seq<Root>, i: nat, j: nat, p: string, c: string)
    requires Separate(d.roots) && SomeOf(merged, d.roots) && Separate(merged) && i < |merged| && j < |merged| && i != j
    requires Touches(merged[i], p) && RootConflict(s, merge, merged[j], c) && AtOrBelow(p, c)
    ensures merged[j].metadata && c == merged[j].path && c != p
  {
    if Touches(merged[j], p) { TouchedOnce(merged, i, j, p); }
    if !merged[j].metadata { BelowTransitive(p, c, merged[j].path); }
  }

  /** Every settled path of a merged root is accepted. */
  lemma SettledAccepted(d: Bundle, o: Report, s: Sides, merge: FileMerge, merged: seq<Root>, early: set<string>, i: nat,
                        p: string)
    requires Separate(d.roots) && SomeOf(merged, d.roots) && Separate(merged) && Thorough(o, s, merge, merged, early)
    requires !o.refused && i < |merged| && Settled(s, merge, merged, i, p)
    ensures Accepts(d, o, p)
  {
    var r := merged[i];
    assert r in d.roots;
    if !r.metadata {
      BelowReflexive(r.path);
      NotMetadataBelow(d.roots, r, r.path);
    }
    assert Installed(d, o, p);
    forall c | c in o.conflicts && c != "." && AtOrBelow(p, c) ensures c != p && IsMetadata(d, c) {
      if c in early { EarlyApart(r, early, p, c); }
      var j :| 0 <= j < |merged| && RootConflict(s, merge, merged[j], c);
      OthersApart(d, s, merge, merged, i, j, p, c);
      assert merged[j] == Root(c, true) && merged[j] in d.roots;
    }
  }

  // ---- One transfer ----

  /** Merge what is selected and outside the conflicts found before; report what was installed. */
  method MergeSelected(d: Bundle, ours: Tree, merge: FileMerge, selected: set<string>, early: set<string>,
                       materialize: bool)
      returns (merged: seq<Root>, files: Tree, o: Report)
    requires Separate(d.roots) && AllFit(SidesOf(d, ours), d.roots)
    ensures SomeOf(merged, d.roots) && Separate(merged)
    ensures forall r :: r in merged <==> r in d.roots && r.path in selected && Clear(r, early)
    ensures RootsWritten(files, SidesOf(d, ours), merge, merged, |merged|, materialize)
    ensures Honest(o, SidesOf(d, ours), merge, merged)
    ensures !o.refused ==> Thorough(o, SidesOf(d, ours), merge, merged, early)
    ensures o.refused <==> !materialize && (early != {} || AnyConflict(SidesOf(d, ours), merge, merged))
    ensures o.refused ==> o.installed == {}
  {
    merged := RootsOutsideConflicts(d.roots, selected, early);
    PartSeparate(merged, d.roots);
    PartFits(SidesOf(d, ours), merged, d.roots);
    forall i | 0 <= i < |merged| ensures Clear(merged[i], early) { assert merged[i] in merged; }
    var conflicts, failed;
    files, conflicts, failed := MergeChangeRoots(SidesOf(d, ours), merge, merged, materialize);
    failed := failed || (!materialize && early != {});
    o := Report(failed, if failed then {} else set i | 0 <= i < |merged| :: merged[i].path, early + conflicts);
  }

  lemma PartFits(s: Sides, part: seq<Root>, roots: seq<Root>)
    requires AllFit(s, roots) && SomeOf(part, roots)
    ensures AllFit(s, part)
  {
    forall i | 0 <= i < |part| ensures FitsRoot(s, part[i]) {
      var k :| 0 <= k < |roots| && roots[k] == part[i];
    }
  }

  /** Merge a selection and fold the outcome into the next base.  Unless a conflict refuses it, every path of
      a merged root that the merge left without a conflict advances; where the base does not advance it stays. */
  method TransferSelected(a: seq<Entry>, b: seq<Entry>, d: Bundle, ours: Tree, merge: FileMerge, selected: set<string>,
                          early: set<string>, materialize: bool)
      returns (merged: seq<Root>, files: Tree, o: Report, next: seq<Entry>)
    requires ValidTransfer(a, b, d, ours)
    ensures Separate(merged) && Sorted(next)
    ensures forall r :: r in merged ==> r in d.roots && r.path in selected
    ensures forall r :: r in d.roots && r.path in selected ==>
        (r in merged <==> forall c :: c in early ==> !AtOrBelow(r.path, c) && !AtOrBelow(c, r.path))
    ensures o.refused <==> !materialize && (early != {} || AnyConflict(SidesOf(d, ours), merge, merged))
    ensures forall p :: if Accepts(d, o, p) then
        AdvancesSoundly(a, b, ours, files, next, p) else Find(next, p) == Find(a, p)
    ensures !o.refused ==> forall i, p :: 0 <= i < |merged| && Settled(SidesOf(d, ours), merge, merged, i, p) ==>
        Find(next, p) == Find(b, p)
    ensures o.refused ==> next == a
  {
    TransferFitsMerge(a, b, d, ours);
    merged, files, o := MergeSelected(d, ours, merge, selected, early, materialize);
    DeltaBasesMatch(a, b, d);
    var accepted := MergeAcceptedSource(a, d, o);
    next := accepted.value;
    forall p
      ensures if Accepts(d, o, p) then AdvancesSoundly(a, b, ours, files, next, p) else Find(next, p) == Find(a, p)
    {
      PartialAcceptanceSound(a, b, d, ours, merge, materialize, merged, files, o, next, p);
    }
    if o.refused {
      SortedExtensional(next, a);
    } else {
      forall i, p | 0 <= i < |merged| && Settled(SidesOf(d, ours), merge, merged, i, p)
        ensures Find(next, p) == Find(b, p)
      {
        SettledAccepted(d, o, SidesOf(d, ours), merge, merged, early, i, p);
      }
    }
  }
}

/** Validation of change bundles before they are applied. */
module Bundles {
  import opened Paths
  import opened Rows
  import opened Manifests
  import opened Merge
  import opened MergeRoots
  import opened Subtrees
  import opened Delta
  import opened Validate
  import Accept

  /** Path rules: acceptable change paths, acceptable entry paths, case folding, and the entry checks. */
  datatype Policy = Policy(changePath: string -> bool, entryPath: string -> bool, fold: string -> string,
      checks: Checks)

  const MaxInt64: int := 0x7FFF_FFFF_FFFF_FFFF

  // ---- What a valid bundle is ----

  /** A path fits the roots before it: none of its ancestors is a content root, in any spelling. */
  ghost predicate FitsBefore(pol: Policy, roots: seq<Root>, p: string) {
    && (forall j :: 0 <= j < |roots| ==> pol.fold(roots[j].path) != pol.fold(p))
    && (forall j, q ::
        0 <= j < |roots| && q != "." && q != p && AtOrBelow(p, q) && pol.fold(roots[j].path) == pol.fold(q) ==>
          roots[j] == Root(q, true))
  }

  ghost predicate RootsOk(pol: Policy, roots: seq<Root>) {
    Ascending(roots) && forall i :: 0 <= i < |roots| ==>
        pol.changePath(roots[i].path) && FitsBefore(pol, roots[..i], roots[i].path)
  }

  /** At or below a root, or a directory above one. */
  ghost predicate Declared(roots: seq<Root>, e: Entry) {
    exists r :: r in roots && (
      || e.path == r.path || (r.path != "." && AtOrBelow(e.path, r.path))
      || (e.value.kind == Directory && e.path + "/" <= r.path))
  }

  predicate FoldsApart(pol: Policy, m: seq<Entry>) {
    forall i, j :: 0 <= i < j < |m| ==> pol.fold(m[i].path) != pol.fold(m[j].path)
  }

  /** The sizes can be added up in order. */
  predicate Sums(m: seq<Entry>) {
    forall i :: 0 <= i < |m| && m[i].value.kind == File ==> Bytes(m[..i + 1]) <= MaxInt64
  }

  ghost predicate TreeOk(pol: Policy, m: seq<Entry>, roots: seq<Root>) {
    && Valid(pol.checks, m) && Sorted(m) && FoldsApart(pol, m) && Sums(m)
    && forall i :: 0 <= i < |m| ==> pol.entryPath(m[i].path) && Declared(roots, m[i])
  }

  /** Neither tree has anything strictly below the root. */
  ghost predicate Alone(d: Bundle, r: Root) {
    forall p :: Touches(r, p) && p != r.path ==> Find(d.base, p) == None && Find(d.remote, p) == None
  }

  /** The root's value changed, and it is called metadata exactly if it is a lone directory on both sides. */
  ghost predicate ValueOk(d: Bundle, r: Root) {
    && (exists p :: Touches(r, p) && Find(d.base, p) != Find(d.remote, p))
    && (r.metadata <==> MetadataOnly(d.base, d.remote, r.path) && Alone(d, r))
  }

  ghost predicate ValidBundle(pol: Policy, d: Bundle) {
    && |d.roots| <= MaxChangeEntries && |d.base| <= MaxChangeEntries && |d.remote| <= MaxChangeEntries
    && RootsOk(pol, d.roots) && TreeOk(pol, d.base, d.roots) && TreeOk(pol, d.remote, d.roots)
    && d.bytes >= 0 && Bytes(d.base) <= d.bytes && d.bytes == Bytes(d.base) + Bytes(d.remote)
    && forall i :: 0 <= i < |d.roots| ==> ValueOk(d, d.roots[i])
  }

  // ---- Change roots ----

  /** The roots so far, by folded path. */
  predicate FoldIndex(pol: Policy, folded: map<string, Root>, roots: seq<Root>) {
    && (forall j :: 0 <= j < |roots| ==>
        pol.fold(roots[j].path) in folded && folded[pol.fold(roots[j].path)] == roots[j])
    && (forall f :: f in folded ==> folded[f] in roots && pol.fold(folded[f].path) == f)
  }

  /** The folded spelling of an ancestor is free, or belongs to that ancestor as a metadata root. */
  ghost predicate Passable(pol: Policy, roots: seq<Root>, q: string) {
    forall j :: 0 <= j < |roots| && pol.fold(roots[j].path) == pol.fold(q) ==> roots[j] == Root(q, true)
  }

  lemma IndexedPassable(pol: Policy, folded: map<string, Root>, roots: seq<Root>, q: string)
    requires FoldIndex(pol, folded, roots)
    ensures Passable(pol, roots, q) <==> pol.fold(q) !in folded || folded[pol.fold(q)] == Root(q, true)
  {
    if pol.fold(q) in folded {
      var j :| 0 <= j < |roots| && roots[j] == folded[pol.fold(q)];
    }
  }

  method AncestorsFit(pol: Policy, folded: map<string, Root>, roots: seq<Root>, p: string) returns (ok: bool)
    requires FoldIndex(pol, folded, roots)
    ensures ok <==> forall q :: q != "." && q != p && AtOrBelow(p, q) ==> Passable(pol, roots, q)
  {
    var parent := Dir(p);
    ProperAncestors(p);
    while parent != "."
      invariant parent != "." ==> parent != p && AtOrBelow(p, parent)
      invariant forall q :: q != "." && q != p && AtOrBelow(p, q) ==> Passable(pol, roots, q) || AtOrBelow(parent, q)
      decreases Height(parent)
    {
      IndexedPassable(pol, folded, roots, parent);
      var f := pol.fold(parent);
      if f in folded && folded[f] != Root(parent, true) { return false; }
      DirHeight(parent);
      ProperAncestors(parent);
      UpOne(p, parent);
      parent := Dir(parent);
    }
    NothingAboveDot();
    ok := true;
  }

  lemma IndexNext(pol: Policy, folded: map<string, Root>, roots: seq<Root>, i: nat)
    requires i < |roots| && FoldIndex(pol, folded, roots[..i]) && pol.fold(roots[i].path) !in folded
    ensures FoldIndex(pol, folded[pol.fold(roots[i].path) := roots[i]], roots[..i + 1])
  {
    assert roots[..i + 1] == roots[..i] + [roots[i]];
  }

  lemma AscendingNext(roots: seq<Root>, i: nat)
    requires i < |roots| && Ascending(roots[..i]) && (i > 0 ==> Less(roots[i - 1].path, roots[i].path))
    ensures Ascending(roots[..i + 1])
  {
    forall k, l | 0 <= k < l < i + 1 ensures Less(roots[k].path, roots[l].path) {
      if l < i {
        assert roots[..i][k] == roots[k] && roots[..i][l] == roots[l];
      } else if k < i - 1 {
        assert roots[..i][k] == roots[k] && roots[..i][i - 1] == roots[i - 1];
        LessTransitive(roots[k].path, roots[i - 1].path, roots[i].path);
      }
    }
  }

  lemma FitsIff(pol: Policy, folded: map<string, Root>, roots: seq<Root>, p: string)
    requires FoldIndex(pol, folded, roots)
    ensures FitsBefore(pol, roots, p) <==>
      pol.fold(p) !in folded && forall q :: q != "." && q != p && AtOrBelow(p, q) ==> Passable(pol, roots, q)
  {
    if pol.fold(p) in folded {
      var j :| 0 <= j < |roots| && roots[j] == folded[pol.fold(p)];
    }
  }

  method RootFits(pol: Policy, folded: map<string, Root>, roots: seq<Root>, p: string) returns (ok: bool)
    requires FoldIndex(pol, folded, roots)
    ensures ok <==> FitsBefore(pol, roots, p)
    ensures ok ==> pol.fold(p) !in folded
  {
    FitsIff(pol, folded, roots, p);
    ok := AncestorsFit(pol, folded, roots, p);
    ok := ok && pol.fold(p) !in folded;
  }

  method CheckRoots(pol: Policy, roots: seq<Root>) returns (ok: bool)
    ensures ok <==> RootsOk(pol, roots)
  {
    var folded: map<string, Root> := map[];
    for i := 0 to |roots|
      invariant Ascending(roots[..i]) && FoldIndex(pol, folded, roots[..i])
      invariant forall k :: 0 <= k < i ==> pol.changePath(roots[k].path) && FitsBefore(pol, roots[..k], roots[k].path)
    {
      var p := roots[i].path;
      if !pol.changePath(p) { return false; }
      if i > 0 && !Less(roots[i - 1].path, p) { return false; }
      AscendingNext(roots, i);
      var fit := RootFits(pol, folded, roots[..i], p);
      if !fit { return false; }
      IndexNext(pol, folded, roots, i);
      folded := folded[pol.fold(p) := roots[i]];
    }
    assert roots[..|roots|] == roots;
    ok := true;
  }

  // ---- Trees ----

  /** `sort.SearchStrings` over the change paths. */
  method SearchRoots(roots: seq<Root>, key: string) returns (i: nat)
    requires Ascending(roots)
    ensures i <= |roots|
    ensures forall j :: 0 <= j < i ==> Less(roots[j].path, key)
    ensures forall j :: i <= j < |roots| ==> !Less(roots[j].path, key)
  {
    var f := (j: nat) => j < |roots| && !Less(roots[j].path, key);
    forall j, k | 0 <= j <= k < |roots| && f(j) ensures f(k) {
      if j < k && Less(roots[k].path, key) { LessTransitive(roots[j].path, roots[k].path, key); }
    }
    i := Search(|roots|, f);
    forall j | 0 <= j < i ensures Less(roots[j].path, key) { assert !f(j); }
    forall j | i <= j < |roots| ensures !Less(roots[j].path, key) { assert f(j); }
  }

  predicate Names(roots: seq<Root>, p: string) { exists j :: 0 <= j < |roots| && roots[j].path == p }

  method IsRootPath(roots: seq<Root>, p: string) returns (yes: bool)
    requires Ascending(roots)
    ensures yes <==> Names(roots, p)
  {
    var i := SearchRoots(roots, p);
    yes := i < |roots| && roots[i].path == p;
    LessIrreflexive(p);
    if Names(roots, p) {
      var j: nat :| j < |roots| && roots[j].path == p;
      assert i <= j;
      NotBetween(roots, i, j, p);
    }
  }

  lemma NotBetween(roots: seq<Root>, i: nat, j: nat, p: string)
    requires Ascending(roots) && i <= j < |roots| && roots[j].path == p && !Less(roots[i].path, p)
    ensures roots[i].path == p
  {
  }

  predicate AnyBelow(roots: seq<Root>, prefix: string) { exists j :: 0 <= j < |roots| && prefix <= roots[j].path }

  /** The first change path not before the prefix has it if any has. */
  method AnyRootBelow(roots: seq<Root>, prefix: string) returns (yes: bool)
    requires Ascending(roots)
    ensures yes <==> AnyBelow(roots, prefix)
  {
    var i := SearchRoots(roots, prefix);
    yes := i < |roots| && prefix <= roots[i].path;
    if AnyBelow(roots, prefix) {
      var j: nat :| j < |roots| && prefix <= roots[j].path;
      FirstHasPrefix(roots, prefix, i, j);
    }
  }

  lemma FirstHasPrefix(roots: seq<Root>, prefix: string, i: nat, j: nat)
    requires Ascending(roots) && i <= |roots| && j < |roots| && prefix <= roots[j].path
    requires forall k :: 0 <= k < i ==> Less(roots[k].path, prefix)
    requires forall k :: i <= k < |roots| ==> !Less(roots[k].path, prefix)
    ensures i < |roots| && prefix <= roots[i].path
  {
    if j < i { NotPrefixed(roots[j].path, prefix); }
    assert i <= j;
    LessIrreflexive(roots[i].path);
    if Less(roots[j].path, roots[i].path) { LessTransitive(roots[i].path, roots[j].path, roots[i].path); }
    PrefixInterval(prefix, prefix, roots[i].path, roots[j].path);
  }

  ghost predicate DeclaredAbove(roots: seq<Root>, p: string) {
    exists q :: q != "." && q != p && AtOrBelow(p, q) && Names(roots, q)
  }

  lemma DeclaredIff(roots: seq<Root>, e: Entry)
    ensures Declared(roots, e) <==>
      Names(roots, e.path) || DeclaredAbove(roots, e.path) ||
          (e.value.kind == Directory && AnyBelow(roots, e.path + "/"))
  {
    if Names(roots, e.path) {
      var j :| 0 <= j < |roots| && roots[j].path == e.path;
      assert roots[j] in roots;
    }
    if DeclaredAbove(roots, e.path) {
      var q :| q != "." && q != e.path && AtOrBelow(e.path, q) && Names(roots, q);
      var j :| 0 <= j < |roots| && roots[j].path == q;
      assert roots[j] in roots;
    }
    if e.value.kind == Directory && AnyBelow(roots, e.path + "/") {
      var j :| 0 <= j < |roots| && e.path + "/" <= roots[j].path;
      assert roots[j] in roots;
    }
  }

  /** `bundleEntryDeclared`. */
  method EntryDeclared(roots: seq<Root>, e: Entry) returns (yes: bool)
    requires Ascending(roots)
    ensures yes <==> Declared(roots, e)
  {
    DeclaredIff(roots, e);
    yes := IsRootPath(roots, e.path);
    if yes { return; }
    var parent := Dir(e.path);
    ProperAncestors(e.path);
    while parent != "."
      invariant parent != "." ==> parent != e.path && AtOrBelow(e.path, parent)
      invariant forall q :: q != "." && q != e.path && AtOrBelow(e.path, q) ==> !Names(roots, q) || AtOrBelow(parent, q)
      decreases Height(parent)
    {
      yes := IsRootPath(roots, parent);
      if yes { return; }
      DirHeight(parent);
      ProperAncestors(parent);
      UpOne(e.path, parent);
      parent := Dir(parent);
    }
    NothingAboveDot();
    if e.value.kind != Directory { return false; }
    yes := AnyRootBelow(roots, e.path + "/");
  }

  predicate FoldsSeen(pol: Policy, folded: map<string, string>, m: seq<Entry>) {
    && (forall j :: 0 <= j < |m| ==> pol.fold(m[j].path) in folded)
    && (forall f :: f in folded ==> exists j :: 0 <= j < |m| && m[j].path == folded[f] && pol.fold(m[j].path) == f)
  }

  lemma FoldsNext(pol: Policy, folded: map<string, string>, m: seq<Entry>, i: nat)
    requires i < |m| && FoldsSeen(pol, folded, m[..i]) && FoldsApart(pol, m[..i]) && pol.fold(m[i].path) !in folded
    ensures FoldsSeen(pol, folded[pol.fold(m[i].path) := m[i].path], m[..i + 1]) && FoldsApart(pol, m[..i + 1])
  {
    var next, seen := m[..i + 1], folded[pol.fold(m[i].path) := m[i].path];
    assert next == m[..i] + [m[i]];
    forall f | f in seen ensures exists j :: 0 <= j < |next| && next[j].path == seen[f] && pol.fold(next[j].path) == f {
      if f == pol.fold(m[i].path) {
        assert next[i].path == seen[f];
      } else {
        var j :| 0 <= j < |m[..i]| && m[..i][j].path == folded[f] && pol.fold(m[..i][j].path) == f;
        assert next[j] == m[..i][j];
      }
    }
    forall k | 0 <= k < i ensures pol.fold(m[k].path) != pol.fold(m[i].path) { assert m[..i][k] == m[k]; }
  }

  lemma FoldsClash(pol: Policy, folded: map<string, string>, m: seq<Entry>, i: nat)
    requires i < |m| && FoldsSeen(pol, folded, m[..i]) && pol.fold(m[i].path) in folded
    ensures !FoldsApart(pol, m)
  {
    var j :| 0 <= j < |m[..i]| && pol.fold(m[..i][j].path) == pol.fold(m[i].path);
    assert m[..i][j] == m[j];
  }

  /** The path rules for one entry. */
  method CheckEntry(pol: Policy, folded: map<string, string>, m: seq<Entry>, i: nat, roots: seq<Root>)
      returns (ok: bool, next: map<string, string>)
    requires Ascending(roots) && i < |m| && FoldsSeen(pol, folded, m[..i]) && FoldsApart(pol, m[..i])
    ensures ok ==> pol.entryPath(m[i].path) && Declared(roots, m[i])
    ensures ok ==> FoldsSeen(pol, next, m[..i + 1]) && FoldsApart(pol, m[..i + 1])
    ensures !ok ==> !TreeOk(pol, m, roots)
  {
    next := folded;
    if !pol.entryPath(m[i].path) { return false, next; }
    var f := pol.fold(m[i].path);
    if f in folded {
      FoldsClash(pol, folded, m, i);
      return false, next;
    }
    FoldsNext(pol, folded, m, i);
    next := folded[f := m[i].path];
    ok := EntryDeclared(roots, m[i]);
  }

  /** `validateBundleManifestContext`. */
  method CheckTree(pol: Policy, m: seq<Entry>, roots: seq<Root>) returns (ok: bool, size: int)
    requires Ascending(roots)
    ensures ok <==> TreeOk(pol, m, roots)
    ensures ok ==> size == Bytes(m)
  {
    size := 0;
    ok := ValidateAny(pol.checks, m);
    if !ok { return; }
    var folded: map<string, string> := map[];
    for i := 0 to |m|
      invariant Sorted(m[..i]) && FoldsSeen(pol, folded, m[..i]) && FoldsApart(pol, m[..i])
      invariant forall k :: 0 <= k < i ==> pol.entryPath(m[k].path) && Declared(roots, m[k])
      invariant size == Bytes(m[..i])
      invariant forall k :: 0 <= k < i && m[k].value.kind == File ==> Bytes(m[..k + 1]) <= MaxInt64
    {
      if i > 0 && !Less(m[i - 1].path, m[i].path) { return false, size; }
      AdjacentSorted(m, i);
      ok, folded := CheckEntry(pol, folded, m, i, roots);
      if !ok { return; }
      BytesExtend(m, i);
      if m[i].value.kind == File {
        if m[i].value.size > MaxInt64 - size { return false, size; }
        size := size + m[i].value.size;
      }
    }
    assert m[..|m|] == m;
    ok := true;
  }

  // ---- Values ----

  predicate LoneDirectory(m: seq<Entry>, p: string) { |m| == 1 && m[0].path == p && m[0].value.kind == Directory }

  lemma LoneIff(sub: seq<Entry>, all: seq<Entry>, root: string)
    requires IsSubtree(sub, all, root)
    ensures LoneDirectory(sub, root) <==>
      Is(Find(all, root), Directory) && forall p :: AtOrBelow(p, root) && p != root ==> Find(all, p) == None
  {
    BelowReflexive(root);
    assert Find(sub, root) == Find(all, root);
    if LoneDirectory(sub, root) {
      forall p | AtOrBelow(p, root) && p != root ensures Find(all, p) == None {
        assert Find(sub, p) == Find(all, p);
        FindMember(sub, p);
      }
    }
    if Is(Find(all, root), Directory) && forall p :: AtOrBelow(p, root) && p != root ==> Find(all, p) == None {
      OnlyOne(sub, root);
    }
  }

  lemma OnlyOne(sub: seq<Entry>, root: string)
    requires Sorted(sub) && Is(Find(sub, root), Directory) && forall p :: p != root ==> Find(sub, p) == None
    ensures LoneDirectory(sub, root)
  {
    assert 1 < |sub| ==> Less(sub[0].path, sub[1].path);
    LessIrreflexive(root);
    FindMember(sub, root);
    forall i | 0 <= i < |sub| ensures sub[i].path == root { FindAt(sub, i); }
    FindAt(sub, 0);
  }

  method CheckValue(d: Bundle, r: Root) returns (ok: bool)
    requires Sorted(d.base) && Sorted(d.remote)
    ensures ok <==> ValueOk(d, r)
  {
    if r.metadata {
      ok := Find(d.base, r.path) != Find(d.remote, r.path) && MetadataOnly(d.base, d.remote, r.path);
      assert Touches(r, r.path);
      return;
    }
    var base := SubtreeManifest(d.base, r.path);
    var remote := SubtreeManifest(d.remote, r.path);
    LoneIff(base, d.base, r.path);
    LoneIff(remote, d.remote, r.path);
    Accept.SubtreesEqual(base, remote, d.base, d.remote, r.path);
    ok := base != remote && !(LoneDirectory(base, r.path) && LoneDirectory(remote, r.path));
  }

  /** `ValidateBundleContext`, after the version and baseline fields. */
  method ValidateBundle(pol: Policy, d: Bundle) returns (ok: bool)
    ensures ok <==> ValidBundle(pol, d)
  {
    if |d.roots| > MaxChangeEntries || |d.base| > MaxChangeEntries || |d.remote| > MaxChangeEntries { return false; }
    ok := CheckRoots(pol, d.roots);
    if !ok || d.bytes < 0 { return false; }
    ok := CheckTrees(pol, d);
    if !ok { return; }
    ok := CheckValues(d);
  }

  method CheckTrees(pol: Policy, d: Bundle) returns (ok: bool)
    requires Ascending(d.roots)
    ensures ok <==> (TreeOk(pol, d.base, d.roots) && TreeOk(pol, d.remote, d.roots) &&
      Bytes(d.base) <= d.bytes && d.bytes == Bytes(d.base) + Bytes(d.remote))
  {
    var baseBytes, remoteBytes;
    ok, baseBytes := CheckTree(pol, d.base, d.roots);
    if !ok { return; }
    ok, remoteBytes := CheckTree(pol, d.remote, d.roots);
    if !ok { return; }
    ok := !(baseBytes > d.bytes || remoteBytes > d.bytes - baseBytes || baseBytes + remoteBytes != d.bytes);
  }

  method CheckValues(d: Bundle) returns (ok: bool)
    requires Sorted(d.base) && Sorted(d.remote)
    ensures ok <==> forall i :: 0 <= i < |d.roots| ==> ValueOk(d, d.roots[i])
  {
    for i := 0 to |d.roots|
      invariant forall k :: 0 <= k < i ==> ValueOk(d, d.roots[k])
    {
      ok := CheckValue(d, d.roots[i]);
      if !ok { return; }
    }
    ok := true;
  }
}

/** A bundle that passes validation can be merged: its roots are apart and its trees fit every root. */
module BundleMerge {
  import opened Paths
  import opened Rows
  import opened Manifests
  import opened Merge
  import opened MergeRoots
  import opened Delta
  import opened Validate
  import opened Bundles
  import opened Transfer

  /** The staged tree of a manifest has every parent directory, so the manifest lists it. */
  predicate ParentsListed(m: seq<Entry>) {
    forall i :: 0 <= i < |m| && Dir(m[i].path) != "." ==> Listed(m, Dir(m[i].path))
  }

  /** In a valid manifest every listed parent is a directory. */
  lemma ValidClosed(c: Checks, m: seq<Entry>)
    requires Validate.Valid(c, m) && ParentsListed(m)
    ensures ManifestClosed(m)
  {
    forall i | 0 <= i < |m| && Dir(m[i].path) != "." ensures Is(Find(m, Dir(m[i].path)), Directory) {
      var dir := Dir(m[i].path);
      ProperAncestors(m[i].path);
      assert Reachable(m, m[i].path);
      FindMember(m, dir);
    }
  }

  /** No valid root reaches into another, in any spelling. */
  lemma ValidSeparate(pol: Policy, roots: seq<Root>)
    requires RootsOk(pol, roots) && !pol.changePath(".")
    ensures Separate(roots)
  {
    forall i, j | 0 <= i < |roots| && 0 <= j < |roots| && i != j ensures !Touches(roots[i], roots[j].path) {
      if i < j { LaterOutside(pol, roots, i, j); } else { EarlierOutside(roots, j, i); }
    }
  }

  lemma LaterOutside(pol: Policy, roots: seq<Root>, i: nat, j: nat)
    requires RootsOk(pol, roots) && i < j < |roots| && roots[i].path != "."
    ensures !Touches(roots[i], roots[j].path)
  {
    assert FitsBefore(pol, roots[..j], roots[j].path);
    assert roots[..j][i] == roots[i];
  }

  /** A path lies before everything below it. */
  lemma EarlierOutside(roots: seq<Root>, i: nat, j: nat)
    requires Ascending(roots) && i < j < |roots|
    ensures !Touches(roots[j], roots[i].path)
  {
    var p, q := roots[i].path, roots[j].path;
    LessIrreflexive(p);
    if AtOrBelow(p, q) && p != q {
      AncestorLess(p, q);
      LessTransitive(p, q, p);
    }
  }

  /** Whatever manifests a bundle was made from: once it is valid, the merge of its roots is well defined. */
  lemma ValidBundleFits(pol: Policy, d: Bundle, ours: Tree)
    requires ValidBundle(pol, d) && !pol.changePath(".") && ParentsListed(d.base) && ParentsListed(d.remote)
    requires LocalFits(ours, d.roots)
    ensures Separate(d.roots) && AllFit(SidesOf(d, ours), d.roots)
  {
    ValidSeparate(pol, d.roots);
    ValidClosed(pol.checks, d.base);
    ValidClosed(pol.checks, d.remote);
    forall i | 0 <= i < |d.roots| ensures FitsRoot(SidesOf(d, ours), d.roots[i]) {
      var p := d.roots[i].path;
      assert ValueOk(d, d.roots[i]);
      TreeFind(d.base, p);
      TreeFind(d.remote, p);
      ClosedTree(d.base, p);
      ClosedTree(d.remote, p);
    }
  }

  predicate Has(m: seq<Entry>, p: string) { Find(m, p).Some? }

  /** Root `i` is, but for case, the path of a later root `j` or one above it. */
  predicate Meets(pol: Policy, roots: seq<Root>, i: int, j: int, q: string) {
    0 <= i < j < |roots| && AtOrBelow(roots[j].path, q) && q != "." && pol.fold(roots[i].path) == pol.fold(q)
  }

  /** On a file system that ignores case no two paths of a valid bundle meet: neither two of one tree, nor two
      roots, nor a root and a differently spelled ancestor of a later one. */
  lemma NoCaseTwins(pol: Policy, d: Bundle)
    requires ValidBundle(pol, d)
    ensures forall p, q :: Has(d.base, p) && Has(d.base, q) && pol.fold(p) == pol.fold(q) ==> p == q
    ensures forall p, q :: Has(d.remote, p) && Has(d.remote, q) && pol.fold(p) == pol.fold(q) ==> p == q
    ensures forall i, j, q :: Meets(pol, d.roots, i, j, q) ==> d.roots[i] == Root(q, true) && q != d.roots[j].path
  {
    TreeTwins(pol, d.base);
    TreeTwins(pol, d.remote);
    forall i, j, q | Meets(pol, d.roots, i, j, q)
      ensures d.roots[i] == Root(q, true) && q != d.roots[j].path
    {
      assert FitsBefore(pol, d.roots[..j], d.roots[j].path) && d.roots[..j][i] == d.roots[i];
    }
  }

  lemma TreeTwins(pol: Policy, m: seq<Entry>)
    requires FoldsApart(pol, m)
    ensures forall p, q :: Has(m, p) && Has(m, q) && pol.fold(p) == pol.fold(q) ==> p == q
  {
    forall p, q | Has(m, p) && Has(m, q) && pol.fold(p) == pol.fold(q) ensures p == q {
      FindMember(m, p);
      FindMember(m, q);
      var i :| 0 <= i < |m| && m[i] == Row(p, Find(m, p).value);
      var j :| 0 <= j < |m| && m[j] == Row(q, Find(m, q).value);
    }
  }
}

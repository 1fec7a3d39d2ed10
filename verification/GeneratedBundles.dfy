/** Every bundle that a delta of two sound manifests selects passes validation. */
module GeneratedBundles {
  import opened Paths
  import opened Rows
  import opened Manifests
  import opened Merge
  import opened MergeRoots
  import opened Delta
  import opened Validate
  import opened Bundles
  import opened Transfer

  predicate Has(a: seq<Entry>, b: seq<Entry>, p: string) { Find(a, p).Some? || Find(b, p).Some? }

  /** Names are allowed, and no two paths of either tree differ only in case. */
  ghost predicate Clean(pol: Policy, a: seq<Entry>, b: seq<Entry>) {
    && (forall p :: Has(a, b, p) ==> pol.changePath(p) && pol.entryPath(p))
    && (forall p, q :: Has(a, b, p) && Has(a, b, q) && pol.fold(p) == pol.fold(q) ==> p == q)
  }

  ghost predicate SoundPair(pol: Policy, a: seq<Entry>, b: seq<Entry>) {
    && Sorted(a) && Sorted(b) && NoDot(a) && NoDot(b) && ManifestClosed(a) && ManifestClosed(b)
    && Valid(pol.checks, a) && Valid(pol.checks, b) && NonNegative(a) && NonNegative(b) && Clean(pol, a, b)
  }

  /** An ancestor of a listed path is listed. */
  lemma AncestorListed(a: seq<Entry>, b: seq<Entry>, p: string, q: string)
    requires ManifestClosed(a) && ManifestClosed(b) && Has(a, b, p) && AtOrBelow(p, q) && q != p && q != "."
    ensures Has(a, b, q)
  {
    if Find(a, p).Some? { ClosedAbove(a, p, q); } else { ClosedAbove(b, p, q); }
  }

  lemma GeneratedRoots(pol: Policy, a: seq<Entry>, b: seq<Entry>, d: Bundle)
    requires SoundPair(pol, a, b) && DeltaOf(d, a, b)
    ensures RootsOk(pol, d.roots)
  {
    DeltaSeparate(a, b, d);
    forall i | 0 <= i < |d.roots|
      ensures pol.changePath(d.roots[i].path) && FitsBefore(pol, d.roots[..i], d.roots[i].path)
    {
      assert d.roots[i] in d.roots && Has(a, b, d.roots[i].path);
      RootFitsBefore(pol, a, b, d, i);
    }
  }

  lemma RootFitsBefore(pol: Policy, a: seq<Entry>, b: seq<Entry>, d: Bundle, i: nat)
    requires SoundPair(pol, a, b) && DeltaOf(d, a, b) && Separate(d.roots) && i < |d.roots|
    ensures FitsBefore(pol, d.roots[..i], d.roots[i].path)
  {
    var p, before := d.roots[i].path, d.roots[..i];
    assert d.roots[i] in d.roots && Has(a, b, p);
    forall j | 0 <= j < |before| ensures Has(a, b, before[j].path) && before[j].path != p && !Touches(before[j], p) {
      assert before[j] == d.roots[j] && d.roots[j] in d.roots;
      LessIrreflexive(p);
    }
    forall j, q | 0 <= j < |before| && q != "." && q != p && AtOrBelow(p, q) && pol.fold(before[j].path) == pol.fold(q)
      ensures before[j] == Root(q, true)
    {
      AncestorListed(a, b, p, q);
      assert before[j].path == q;
    }
  }

  /** Rows of a part are rows of the whole. */
  lemma PartRow(part: seq<Entry>, all: seq<Entry>, roots: seq<Root>, i: nat)
    requires PartOf(part, all, roots) && i < |part|
    ensures part[i] in all && Find(all, part[i].path) == Some(part[i].value) && Chosen(roots, part[i].path)
  {
    FindAt(part, i);
    FindMember(all, part[i].path);
  }

  lemma PartValid(c: Checks, part: seq<Entry>, all: seq<Entry>, roots: seq<Root>)
    requires PartOf(part, all, roots) && Sorted(all) && Valid(c, all)
    ensures Valid(c, part)
  {
    SortedDistinct(part);
    forall i | 0 <= i < |part| ensures c.entry(part[i]) && LinkOk(c, part[i]) && Reachable(part, part[i].path) {
      PartRow(part, all, roots, i);
      var k :| 0 <= k < |all| && all[k] == part[i];
      PartReachable(part, all, roots, part[i].path);
    }
  }

  lemma PartReachable(part: seq<Entry>, all: seq<Entry>, roots: seq<Root>, p: string)
    requires PartOf(part, all, roots) && Sorted(all) && Reachable(all, p)
    ensures Reachable(part, p)
  {
    forall dir | dir != "." && dir != p && AtOrBelow(p, dir) ensures NoObstacle(part, dir) {
      forall j | 0 <= j < |part| && part[j].path == dir ensures part[j].value.kind == Directory {
        PartRow(part, all, roots, j);
      }
    }
  }

  /** A carried ancestor of a root is a directory on whichever side has it. */
  lemma AncestorIsDirectory(a: seq<Entry>, b: seq<Entry>, r: Root, q: string)
    requires ManifestClosed(a) && ManifestClosed(b) && IsRoot(a, b, r) && AtOrBelow(r.path, q) && q != r.path
    requires q != "."
    ensures Find(a, q).Some? ==> Is(Find(a, q), Directory)
    ensures Find(b, q).Some? ==> Is(Find(b, q), Directory)
  {
    if Find(a, r.path).Some? { ClosedAbove(a, r.path, q); }
    if Find(b, r.path).Some? { ClosedAbove(b, r.path, q); }
    if !r.metadata { assert !ContentChange(a, b, q); }
  }

  lemma PartDeclared(a: seq<Entry>, b: seq<Entry>, d: Bundle, all: seq<Entry>, part: seq<Entry>, i: nat)
    requires ManifestClosed(a) && ManifestClosed(b) && NoDot(a) && NoDot(b) && RootsOf(d.roots, a, b)
    requires (all == a || all == b) && PartOf(part, all, d.roots) && i < |part|
    ensures Declared(d.roots, part[i])
  {
    PartRow(part, all, d.roots, i);
    var p := part[i].path;
    var r :| r in d.roots && Needs(r, p);
    assert IsRoot(a, b, r) && r.path != ".";
    if !Touches(r, p) && p != r.path {
      AncestorIsDirectory(a, b, r, p);
    }
  }

  lemma PartClean(pol: Policy, a: seq<Entry>, b: seq<Entry>, all: seq<Entry>, part: seq<Entry>, roots: seq<Root>)
    requires Clean(pol, a, b) && (all == a || all == b) && PartOf(part, all, roots)
    ensures FoldsApart(pol, part) && forall i :: 0 <= i < |part| ==> pol.entryPath(part[i].path)
  {
    forall i | 0 <= i < |part| ensures Has(a, b, part[i].path) { PartRow(part, all, roots, i); }
    forall i, j | 0 <= i < j < |part| ensures pol.fold(part[i].path) != pol.fold(part[j].path) {
      LessIrreflexive(part[i].path);
    }
  }

  lemma PartNonNegative(part: seq<Entry>, all: seq<Entry>, roots: seq<Root>)
    requires PartOf(part, all, roots) && NonNegative(all)
    ensures NonNegative(part) && Bytes(part) >= 0
  {
    forall i | 0 <= i < |part| ensures part[i].value.size >= 0 { PartRow(part, all, roots, i); }
    BytesMonotone(part, 0, |part|);
    assert part[..0] == [] && part[..|part|] == part;
  }

  lemma PartTreeOk(pol: Policy, a: seq<Entry>, b: seq<Entry>, d: Bundle, all: seq<Entry>, part: seq<Entry>,
                   initial: nat, limit: int)
    requires SoundPair(pol, a, b) && RootsOf(d.roots, a, b) && (all == a || all == b) && PartOf(part, all, d.roots)
    requires limit <= MaxInt64 && Fits(part, initial, limit)
    ensures TreeOk(pol, part, d.roots)
  {
    PartValid(pol.checks, part, all, d.roots);
    PartClean(pol, a, b, all, part, d.roots);
    forall i | 0 <= i < |part| ensures Declared(d.roots, part[i]) { PartDeclared(a, b, d, all, part, i); }
  }

  lemma GeneratedValue(a: seq<Entry>, b: seq<Entry>, d: Bundle, i: nat)
    requires DeltaOf(d, a, b) && i < |d.roots|
    ensures ValueOk(d, d.roots[i])
  {
    var r := d.roots[i];
    assert r in d.roots && Touches(r, r.path);
    TouchedPart(d.base, a, d.roots, i, r.path);
    TouchedPart(d.remote, b, d.roots, i, r.path);
  }

  /** Within the limits, the delta of two sound manifests is a valid bundle. */
  lemma GeneratedBundleValid(pol: Policy, a: seq<Entry>, b: seq<Entry>, d: Bundle, maxBytes: int)
    requires SoundPair(pol, a, b) && DeltaOf(d, a, b)
    requires |d.roots| <= MaxChangeEntries && |d.base| <= MaxChangeEntries && |d.remote| <= MaxChangeEntries
    requires 0 <= maxBytes <= MaxInt64 && Fits(d.base, 0, maxBytes) && Fits(d.remote, Bytes(d.base), maxBytes)
    ensures ValidBundle(pol, d) && 0 <= d.bytes <= maxBytes
  {
    PartNonNegative(d.base, a, d.roots);
    PartNonNegative(d.remote, b, d.roots);
    GeneratedRoots(pol, a, b, d);
    PartTreeOk(pol, a, b, d, a, d.base, 0, maxBytes);
    PartTreeOk(pol, a, b, d, b, d.remote, Bytes(d.base), maxBytes);
    forall i | 0 <= i < |d.roots| ensures ValueOk(d, d.roots[i]) { GeneratedValue(a, b, d, i); }
    FitsIsTotal(d.base, 0, maxBytes);
    FitsIsTotal(d.remote, Bytes(d.base), maxBytes);
  }
}

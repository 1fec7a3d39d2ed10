/** From two snapshots to a change bundle: the topmost changed paths and the entries they need. */
module Delta {
  import opened Paths
  import opened Rows
  import opened Manifests
  import opened Flat
  import opened Merge
  import opened MergeRoots
  import opened Subtrees

  datatype Bundle = Bundle(roots: seq<Root>, base: seq<Entry>, remote: seq<Entry>, bytes: int)

  datatype Limit = TooManyEntries | TooManyBytes
  datatype DeltaResult = Selected(bundle: Bundle) | Exceeds(limit: Limit)

  const MaxChangeEntries: nat := 100_000

  // ---- Roots ----

  predicate Changed(a: seq<Entry>, b: seq<Entry>, p: string) { Find(a, p) != Find(b, p) }

  /** A directory on both sides. */
  predicate MetadataOnly(a: seq<Entry>, b: seq<Entry>, p: string) {
    Is(Find(a, p), Directory) && Is(Find(b, p), Directory)
  }

  predicate ContentChange(a: seq<Entry>, b: seq<Entry>, p: string) { Changed(a, b, p) && !MetadataOnly(a, b, p) }

  /** Some ancestor of `p` has itself a content change. */
  ghost predicate Covered(a: seq<Entry>, b: seq<Entry>, p: string) {
    exists q :: q != "." && q != p && AtOrBelow(p, q) && ContentChange(a, b, q)
  }

  /** The roots of a delta: changed directories, and the topmost of all other changed paths. */
  ghost predicate IsRoot(a: seq<Entry>, b: seq<Entry>, r: Root) {
    Changed(a, b, r.path) && r.metadata == MetadataOnly(a, b, r.path) && (r.metadata || !Covered(a, b, r.path))
  }

  predicate Ascending(roots: seq<Root>) { forall i, j :: 0 <= i < j < |roots| ==> Less(roots[i].path, roots[j].path) }

  ghost predicate RootsOf(roots: seq<Root>, a: seq<Entry>, b: seq<Entry>) {
    Ascending(roots) && forall r :: r in roots <==> IsRoot(a, b, r)
  }

  /** Does the walk over the proper ancestors of `p` meet one of `tops`? */
  method AnyAncestorIn(p: string, tops: set<string>) returns (found: bool)
    ensures found <==> exists q :: q in tops && q != "." && q != p && AtOrBelow(p, q)
  {
    found := false;
    var parent := Dir(p);
    ProperAncestors(p);
    while parent != "."
      invariant !found
      invariant parent != "." ==> parent != p && AtOrBelow(p, parent)
      invariant forall q :: q in tops && q != "." && q != p && AtOrBelow(p, q) ==> AtOrBelow(parent, q)
      decreases Height(parent)
    {
      if parent in tops { return true; }
      DirHeight(parent);
      ProperAncestors(parent);
      UpOne(p, parent);
      parent := Dir(parent);
    }
    NothingAboveDot();
  }

  /** Every content change among the first edits is at or below one of the content roots so far. */
  ghost predicate Topped(a: seq<Entry>, b: seq<Entry>, edits: seq<Edit<Meta>>, tops: set<string>) {
    && (forall i :: 0 <= i < |edits| && edits[i].path != "." && ContentChange(a, b, edits[i].path) ==>
          exists q :: q in tops && q != "." && AtOrBelow(edits[i].path, q))
    && (forall q :: q in tops ==> ContentChange(a, b, q))
  }

  predicate Named(edits: seq<Edit<Meta>>, p: string) { exists i :: 0 <= i < |edits| && edits[i].path == p }

  ghost predicate RootsSoFar(a: seq<Entry>, b: seq<Entry>, edits: seq<Edit<Meta>>, roots: seq<Root>) {
    && Ascending(roots)
    && (forall r :: r in roots <==> IsRoot(a, b, r) && Named(edits, r.path))
  }

  /** For the next path, an ancestor among the content roots is as good as any changed ancestor. */
  lemma CoveredByTop(a: seq<Entry>, b: seq<Entry>, n: nat, tops: set<string>)
    requires Sorted(a) && Sorted(b) && n < |Diff(a, b)| && Topped(a, b, Diff(a, b)[..n], tops)
    ensures var p := Diff(a, b)[n].path;
      Covered(a, b, p) <==> exists q :: q in tops && q != "." && q != p && AtOrBelow(p, q)
  {
    var edits := Diff(a, b);
    var p := edits[n].path;
    forall q | q != "." && q != p && AtOrBelow(p, q) && ContentChange(a, b, q)
      ensures exists t :: t in tops && t != "." && t != p && AtOrBelow(p, t)
    {
      var i := ChangedEarlier(a, b, n, q);
      assert edits[..n][i].path == q;
      var t :| t in tops && t != "." && AtOrBelow(q, t);
      BelowTransitive(p, q, t);
      if t == p { BelowAntisymmetric(p, q); }
    }
  }

  /** A changed ancestor comes before the path in the edit list. */
  lemma ChangedEarlier(a: seq<Entry>, b: seq<Entry>, n: nat, q: string) returns (i: nat)
    requires Sorted(a) && Sorted(b) && n < |Diff(a, b)|
    requires q != Diff(a, b)[n].path && AtOrBelow(Diff(a, b)[n].path, q) && Changed(a, b, q)
    ensures i < n && Diff(a, b)[i].path == q
  {
    var edits := Diff(a, b);
    EditsAreChanges(a, b);
    i := Position(edits, q);
    AncestorLess(edits[n].path, q);
    SortedBefore(edits, i, n);
  }

  lemma Position(edits: seq<Edit<Meta>>, q: string) returns (i: nat)
    requires Named(edits, q)
    ensures i < |edits| && edits[i].path == q
  {
    var k: nat :| k < |edits| && edits[k].path == q;
    i := k;
  }

  lemma SortedBefore(edits: seq<Edit<Meta>>, i: nat, n: nat)
    requires Sorted(edits) && i < |edits| && n < |edits| && Less(edits[i].path, edits[n].path)
    ensures i < n
  {
    LessIrreflexive(edits[i].path);
    if n < i { LessTransitive(edits[i].path, edits[n].path, edits[i].path); }
  }

  lemma EditsAreChanges(a: seq<Entry>, b: seq<Entry>)
    requires Sorted(a) && Sorted(b)
    ensures Sorted(Diff(a, b))
    ensures forall p :: Changed(a, b, p) <==> Named(Diff(a, b), p)
  {
    DiffSorted(a, b);
    forall p ensures Changed(a, b, p) <==> Named(Diff(a, b), p) {
      DiffFind(a, b, p);
      FindMember(Diff(a, b), p);
    }
  }

  lemma NextTops(a: seq<Entry>, b: seq<Entry>, n: nat, tops: set<string>, covered: bool)
    requires Sorted(a) && Sorted(b) && n < |Diff(a, b)| && Topped(a, b, Diff(a, b)[..n], tops)
    requires covered <==> Covered(a, b, Diff(a, b)[n].path)
    ensures var p := Diff(a, b)[n].path;
      Topped(a, b, Diff(a, b)[..n + 1], if ContentChange(a, b, p) && !covered then tops + {p} else tops)
  {
    var edits := Diff(a, b);
    var p := edits[n].path;
    var tops' := if ContentChange(a, b, p) && !covered then tops + {p} else tops;
    CoveredByTop(a, b, n, tops);
    forall i | 0 <= i < n + 1 && edits[i].path != "." && ContentChange(a, b, edits[i].path)
      ensures exists q :: q in tops' && q != "." && AtOrBelow(edits[i].path, q)
    {
      if i < n {
        assert edits[..n][i] == edits[i];
        var q :| q in tops && q != "." && AtOrBelow(edits[i].path, q);
        assert q in tops';
      } else if !covered {
        BelowReflexive(p);
        assert p in tops';
      }
    }
  }

  lemma NextRoots(a: seq<Entry>, b: seq<Entry>, n: nat, roots: seq<Root>, r: Root)
    requires Sorted(a) && Sorted(b) && n < |Diff(a, b)| && RootsSoFar(a, b, Diff(a, b)[..n], roots)
    requires r == Root(Diff(a, b)[n].path, MetadataOnly(a, b, Diff(a, b)[n].path))
    ensures RootsSoFar(a, b, Diff(a, b)[..n + 1], if IsRoot(a, b, r) then roots + [r] else roots)
  {
    var edits := Diff(a, b);
    var roots' := if IsRoot(a, b, r) then roots + [r] else roots;
    DiffSorted(a, b);
    forall i | 0 <= i < |roots| ensures Less(roots[i].path, r.path) {
      assert roots[i] in roots;
      assert Named(edits[..n], roots[i].path);
    }
    forall x ensures x in roots' <==> IsRoot(a, b, x) && Named(edits[..n + 1], x.path) {
      SoFarExtends(edits, n, x.path);
      assert x in roots' <==> x in roots || (IsRoot(a, b, r) && x == r);
    }
  }

  lemma SoFarExtends(edits: seq<Edit<Meta>>, n: nat, p: string)
    requires n < |edits|
    ensures Named(edits[..n + 1], p) <==> Named(edits[..n], p) || edits[n].path == p
  {
    assert edits[..n + 1] == edits[..n] + [edits[n]];
    if Named(edits[..n], p) {
      var i :| 0 <= i < n && edits[..n][i].path == p;
      assert edits[..n + 1][i].path == p;
    }
    assert edits[..n + 1][n] == edits[n];
  }

  /** The changed paths that become roots. */
  method SelectRoots(a: seq<Entry>, b: seq<Entry>) returns (roots: seq<Root>)
    requires Sorted(a) && Sorted(b)
    ensures RootsOf(roots, a, b)
  {
    var edits := DiffEntries(a, b);
    EditsAreChanges(a, b);
    roots := [];
    var tops: set<string> := {};
    for n := 0 to |edits|
      invariant RootsSoFar(a, b, edits[..n], roots)
      invariant Topped(a, b, edits[..n], tops)
    {
      var p := edits[n].path;
      var metadata := MetadataOnly(a, b, p);
      var covered := AnyAncestorIn(p, tops);
      CoveredByTop(a, b, n, tops);
      NextTops(a, b, n, tops, covered);
      NextRoots(a, b, n, roots, Root(p, metadata));
      if metadata || !covered {
        roots := roots + [Root(p, metadata)];
        if !metadata { tops := tops + {p}; }
      }
    }
    assert edits[..|edits|] == edits;
  }

  // ---- Entries ----

  /** What a delta carries for a root: what it touches, and its ancestors. */
  predicate Needs(r: Root, p: string) { Touches(r, p) || (p != "." && AtOrBelow(r.path, p)) }

  ghost predicate Chosen(roots: seq<Root>, p: string) { exists r :: r in roots && Needs(r, p) }

  /** The chosen part of a snapshot, as it is collected. */
  ghost predicate Collects(t: Tree, all: seq<Entry>, roots: seq<Root>) {
    forall p :: At(t, p) == if Chosen(roots, p) then Find(all, p) else None
  }

  lemma ChosenExtends(roots: seq<Root>, r: Root, p: string)
    ensures Chosen(roots + [r], p) <==> Chosen(roots, p) || Needs(r, p)
  {
    if Chosen(roots, p) {
      var x :| x in roots && Needs(x, p);
      assert x in roots + [r];
    }
    assert r in roots + [r];
  }

  /** Add every entry of a sorted list. */
  method AddRows(t: Tree, rows: seq<Entry>) returns (out: Tree)
    requires Sorted(rows)
    ensures forall p :: At(out, p) == if Find(rows, p).Some? then Find(rows, p) else At(t, p)
  {
    out := t;
    for i := 0 to |rows|
      invariant forall p :: At(out, p) == if Find(rows[..i], p).Some? then Find(rows[..i], p) else At(t, p)
    {
      ghost var out0 := out;
      out := out[rows[i].path := rows[i].value];
      forall p ensures At(out, p) == if Find(rows[..i + 1], p).Some? then Find(rows[..i + 1], p) else At(t, p) {
        FindNext(rows, i, p);
        assert At(out0, p) == if Find(rows[..i], p).Some? then Find(rows[..i], p) else At(t, p);
      }
    }
    assert rows[..|rows|] == rows;
  }

  /** Add the entries that the walk over the proper ancestors of `name` finds. */
  method SelectAncestors(t: Tree, all: seq<Entry>, name: string) returns (out: Tree)
    requires forall p :: p in t ==> At(t, p) == Find(all, p)
    ensures forall p :: At(out, p) == if p in t || (p != "." && p != name && AtOrBelow(name, p)) then
        Find(all, p) else None
  {
    out := t;
    var parent := Dir(name);
    ProperAncestors(name);
    while parent != "."
      invariant parent != "." ==> parent != name && AtOrBelow(name, parent)
      invariant forall p :: p in out ==> At(out, p) == Find(all, p)
      invariant forall p :: p in out ==> p in t || (p != "." && p != name && AtOrBelow(name, p))
      invariant forall p :: p in t ==> p in out
      invariant forall p :: p != "." && p != name && AtOrBelow(name, p) && Find(all, p).Some? ==>
          p in out || AtOrBelow(parent, p)
      decreases Height(parent)
    {
      if parent !in out {
        var e := Find(all, parent);
        if e.Some? { out := out[parent := e.value]; }
      }
      DirHeight(parent);
      ProperAncestors(parent);
      UpOne(name, parent);
      parent := Dir(parent);
    }
    NothingAboveDot();
  }

  method SelectRoot(t: Tree, all: seq<Entry>, r: Root, ghost roots: seq<Root>) returns (out: Tree)
    requires Sorted(all) && Collects(t, all, roots)
    ensures Collects(out, all, roots + [r])
  {
    if r.metadata {
      var e := Find(all, r.path);
      out := if e.Some? then t[r.path := e.value] else t;
    } else {
      var sub := SubtreeManifest(all, r.path);
      out := AddRows(t, sub);
    }
    assert forall p :: At(out, p) == if Chosen(roots, p) || Touches(r, p) then Find(all, p) else None;
    out := SelectAncestors(out, all, r.path);
    forall p ensures At(out, p) == if Chosen(roots + [r], p) then Find(all, p) else None { ChosenExtends(roots, r, p); }
  }

  method SelectEntries(all: seq<Entry>, roots: seq<Root>) returns (t: Tree)
    requires Sorted(all)
    ensures Collects(t, all, roots)
  {
    t := map[];
    for n := 0 to |roots|
      invariant Collects(t, all, roots[..n])
    {
      t := SelectRoot(t, all, roots[n], roots[..n]);
      assert roots[..n + 1] == roots[..n] + [roots[n]];
    }
    assert roots[..|roots|] == roots;
  }

  // ---- Counting bytes ----

  function SizeOf(e: Entry): int { if e.value.kind == File then e.value.size else 0 }

  function Bytes(rows: seq<Entry>): int {
    if rows == [] then 0 else Bytes(rows[..|rows| - 1]) + SizeOf(rows[|rows| - 1])
  }

  /** No file passes the limit when the entries are added up in order. */
  predicate Fits(rows: seq<Entry>, initial: int, limit: int) {
    forall i :: 0 <= i < |rows| && rows[i].value.kind == File ==> initial + Bytes(rows[..i + 1]) <= limit
  }

  lemma BytesExtend(rows: seq<Entry>, i: nat)
    requires i < |rows|
    ensures Bytes(rows[..i + 1]) == Bytes(rows[..i]) + SizeOf(rows[i])
  {
    var r := rows[..i + 1];
    assert r[..|r| - 1] == rows[..i] && r[|r| - 1] == rows[i];
  }

  predicate NonNegative(rows: seq<Entry>) { forall i :: 0 <= i < |rows| ==> rows[i].value.size >= 0 }

  lemma {:induction false} BytesMonotone(rows: seq<Entry>, i: nat, n: nat)
    requires NonNegative(rows) && i <= n <= |rows|
    ensures Bytes(rows[..i]) <= Bytes(rows[..n])
    decreases n
  {
    if i < n {
      BytesMonotone(rows, i, n - 1);
      BytesExtend(rows, n - 1);
    }
  }

  /** For valid sizes the running check is a check of the total. */
  lemma FitsIsTotal(rows: seq<Entry>, initial: int, limit: int)
    requires NonNegative(rows) && initial <= limit
    ensures Fits(rows, initial, limit) <==> initial + Bytes(rows) <= limit
  {
    assert rows[..|rows|] == rows;
    if initial + Bytes(rows) <= limit {
      forall i | 0 <= i < |rows| && rows[i].value.kind == File ensures initial + Bytes(rows[..i + 1]) <= limit {
        BytesMonotone(rows, i + 1, |rows|);
      }
    } else {
      var i := LastFile(rows, |rows|);
      BytesExtend(rows, i);
      assert initial + Bytes(rows[..i + 1]) > limit;
    }
  }

  lemma {:induction false} LastFile(rows: seq<Entry>, n: nat) returns (i: nat)
    requires NonNegative(rows) && n <= |rows| && Bytes(rows[..n]) > 0
    ensures i < n && rows[i].value.kind == File && Bytes(rows[..i + 1]) == Bytes(rows[..n])
    decreases n
  {
    BytesExtend(rows, n - 1);
    if rows[n - 1].value.kind == File { return n - 1; }
    i := LastFile(rows, n - 1);
  }

  method SelectedManifest(t: Tree, maxBytes: int, initial: int) returns (ok: bool, rows: seq<Entry>, bytes: int)
    ensures Sorted(rows) && (forall p :: Find(rows, p) == At(t, p))
    ensures ok <==> maxBytes < 0 || Fits(rows, initial, maxBytes)
    ensures ok ==> bytes == initial + Bytes(rows)
  {
    rows := SortRows(t);
    forall p ensures Find(rows, p) == At(t, p) {}
    bytes := initial;
    for i := 0 to |rows|
      invariant bytes == initial + Bytes(rows[..i])
      invariant maxBytes >= 0 ==> forall j :: 0 <= j < i && rows[j].value.kind == File ==>
          initial + Bytes(rows[..j + 1]) <= maxBytes
    {
      BytesExtend(rows, i);
      if rows[i].value.kind == File {
        if maxBytes >= 0 && rows[i].value.size > maxBytes - bytes { return false, rows, bytes; }
        bytes := bytes + rows[i].value.size;
      }
    }
    assert rows[..|rows|] == rows;
    ok := true;
  }

  // ---- The delta ----

  /** `part` is what the roots need of `all`. */
  ghost predicate PartOf(part: seq<Entry>, all: seq<Entry>, roots: seq<Root>) {
    Sorted(part) && forall p :: Find(part, p) == if Chosen(roots, p) then Find(all, p) else None
  }

  ghost predicate DeltaOf(d: Bundle, a: seq<Entry>, b: seq<Entry>) {
    RootsOf(d.roots, a, b) && PartOf(d.base, a, d.roots) && PartOf(d.remote, b, d.roots) &&
        d.bytes == Bytes(d.base) + Bytes(d.remote)
  }

  lemma CollectedPart(part: seq<Entry>, t: Tree, all: seq<Entry>, roots: seq<Root>)
    requires Sorted(part) && (forall p :: Find(part, p) == At(t, p)) && Collects(t, all, roots)
    ensures PartOf(part, all, roots)
  {
  }

  /** `selectSnapshotDelta`: fails exactly when the roots or the file sizes pass their limits. */
  method SelectSnapshotDelta(a: seq<Entry>, b: seq<Entry>, maxBytes: int) returns (r: DeltaResult)
    requires Sorted(a) && Sorted(b)
    ensures r.Selected? ==> DeltaOf(r.bundle, a, b) && |r.bundle.roots| <= MaxChangeEntries
    ensures r.Selected? && maxBytes >= 0 ==>
        Fits(r.bundle.base, 0, maxBytes) && Fits(r.bundle.remote, Bytes(r.bundle.base), maxBytes)
    ensures r == Exceeds(TooManyEntries) ==> forall roots :: RootsOf(roots, a, b) ==> |roots| > MaxChangeEntries
    ensures r == Exceeds(TooManyBytes) ==> maxBytes >= 0 && forall d :: DeltaOf(d, a, b) ==>
      !(Fits(d.base, 0, maxBytes) && Fits(d.remote, Bytes(d.base), maxBytes))
  {
    var roots := SelectRoots(a, b);
    if |roots| > MaxChangeEntries {
      forall other | RootsOf(other, a, b) ensures other == roots { RootsUnique(roots, other, a, b); }
      return Exceeds(TooManyEntries);
    }
    var before := SelectEntries(a, roots);
    var after := SelectEntries(b, roots);
    var ok, base, bytes := SelectedManifest(before, maxBytes, 0);
    CollectedPart(base, before, a, roots);
    if !ok {
      forall d | DeltaOf(d, a, b) ensures d.base == base { PartsUnique(d, roots, base, a, b); }
      return Exceeds(TooManyBytes);
    }
    var ok', remote, bytes' := SelectedManifest(after, maxBytes, bytes);
    CollectedPart(remote, after, b, roots);
    if !ok' {
      forall d | DeltaOf(d, a, b) ensures d.base == base && d.remote == remote {
        PartsUnique(d, roots, base, a, b);
        RootsUnique(roots, d.roots, a, b);
        PartUnique(remote, d.remote, b, roots);
      }
      return Exceeds(TooManyBytes);
    }
    return Selected(Bundle(roots, base, remote, bytes'));
  }

  lemma PartUnique(x: seq<Entry>, y: seq<Entry>, all: seq<Entry>, roots: seq<Root>)
    requires PartOf(x, all, roots) && PartOf(y, all, roots)
    ensures x == y
  {
    SortedExtensional(x, y);
  }

  lemma PartsUnique(d: Bundle, roots: seq<Root>, base: seq<Entry>, a: seq<Entry>, b: seq<Entry>)
    requires DeltaOf(d, a, b) && RootsOf(roots, a, b) && PartOf(base, a, roots)
    ensures d.roots == roots && d.base == base
  {
    RootsUnique(roots, d.roots, a, b);
    PartUnique(base, d.base, a, roots);
  }

  /** There is only one list of roots. */
  lemma {:induction false} RootsUnique(x: seq<Root>, y: seq<Root>, a: seq<Entry>, b: seq<Entry>)
    requires RootsOf(x, a, b) && RootsOf(y, a, b)
    ensures x == y
  {
    AscendingUnique(x, y);
  }

  lemma {:induction false} AscendingUnique(x: seq<Root>, y: seq<Root>)
    requires Ascending(x) && Ascending(y) && forall r :: r in x <==> r in y
    ensures x == y
  {
    assert (x != [] ==> x[0] in x) && (y != [] ==> y[0] in y);
    if x != [] && y != [] {
      var i :| 0 <= i < |y| && y[i] == x[0];
      var j :| 0 <= j < |x| && x[j] == y[0];
      LessIrreflexive(x[0].path);
      if i > 0 && j > 0 { LessTransitive(x[0].path, y[0].path, x[0].path); }
      assert x == [x[0]] + x[1..] && y == [y[0]] + y[1..];
      forall r ensures r in x[1..] <==> r in y[1..] {
        OnlyFirst(x, r);
        OnlyFirst(y, r);
      }
      AscendingUnique(x[1..], y[1..]);
    }
  }

  lemma OnlyFirst(x: seq<Root>, r: Root)
    requires Ascending(x) && x != []
    ensures r in x[1..] <==> r in x && r != x[0]
  {
    LessIrreflexive(x[0].path);
    assert x == [x[0]] + x[1..];
  }
}

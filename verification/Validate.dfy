/** Manifest validation: the map-based check of any archive, and the fast check of sorted snapshots. */
module Validate {
  import opened Paths
  import opened Rows
  import opened Manifests
  import opened Subtrees

  /** The checks of single entries: path and fields, and where a symlink leads. */
  datatype Checks = Checks(entry: Entry -> bool, link: Entry -> bool)

  predicate LinkOk(c: Checks, e: Entry) { e.value.kind == Symlink ==> c.link(e) }

  predicate AllOk(c: Checks, m: seq<Entry>) { forall i :: 0 <= i < |m| ==> c.entry(m[i]) && LinkOk(c, m[i]) }

  predicate Distinct(m: seq<Entry>) { forall i, j :: 0 <= i < j < |m| ==> m[i].path != m[j].path }

  /** The path, where listed, is a directory. */
  predicate NoObstacle(m: seq<Entry>, dir: string) {
    forall j :: 0 <= j < |m| && m[j].path == dir ==> m[j].value.kind == Directory
  }

  /** No listed proper ancestor of the path is anything but a directory. */
  ghost predicate Reachable(m: seq<Entry>, p: string) {
    forall dir :: dir != "." && dir != p && AtOrBelow(p, dir) ==> NoObstacle(m, dir)
  }

  ghost predicate Hierarchical(m: seq<Entry>) { forall i :: 0 <= i < |m| ==> Reachable(m, m[i].path) }

  ghost predicate Valid(c: Checks, m: seq<Entry>) { AllOk(c, m) && Distinct(m) && Hierarchical(m) }

  // ---- The general check ----

  predicate Listed(m: seq<Entry>, p: string) { exists j :: 0 <= j < |m| && m[j].path == p }

  predicate Indexes(seen: map<string, Kind>, m: seq<Entry>) {
    && (forall j :: 0 <= j < |m| ==> m[j].path in seen && seen[m[j].path] == m[j].value.kind)
    && (forall p :: p in seen ==> Listed(m, p))
  }

  /** Walk the proper ancestors of a path through the map. */
  method PassesThrough(seen: map<string, Kind>, m: seq<Entry>, p: string) returns (ok: bool)
    requires Indexes(seen, m)
    ensures ok <==> Reachable(m, p)
  {
    var dir := Dir(p);
    ProperAncestors(p);
    while dir != "."
      invariant dir != "." ==> dir != p && AtOrBelow(p, dir)
      invariant forall q :: q != "." && q != p && AtOrBelow(p, q) ==> NoObstacle(m, q) || AtOrBelow(dir, q)
      decreases Height(dir)
    {
      SeenObstacle(seen, m, dir);
      if dir in seen && seen[dir] != Directory { return false; }
      ProperAncestors(dir);
      UpOne(p, dir);
      DirHeight(dir);
      dir := Dir(dir);
    }
    NothingAboveDot();
    ok := true;
  }

  lemma SeenObstacle(seen: map<string, Kind>, m: seq<Entry>, dir: string)
    requires Indexes(seen, m)
    ensures NoObstacle(m, dir) <==> dir !in seen || seen[dir] == Directory
  {
    if dir in seen {
      var j :| 0 <= j < |m| && m[j].path == dir;
    }
  }

  /** `ValidateContext`. */
  method ValidateAny(c: Checks, m: seq<Entry>) returns (ok: bool)
    ensures ok <==> Valid(c, m)
  {
    var seen: map<string, Kind> := map[];
    for i := 0 to |m|
      invariant Indexes(seen, m[..i]) && Distinct(m[..i])
      invariant forall k :: 0 <= k < i ==> c.entry(m[k])
    {
      if !c.entry(m[i]) || m[i].path in seen {
        if m[i].path in seen { DuplicateFound(seen, m, i); }
        return false;
      }
      assert m[..i + 1] == m[..i] + [m[i]];
      NextIndexed(seen, m, i);
      seen := seen[m[i].path := m[i].value.kind];
    }
    assert m[..|m|] == m;
    for i := 0 to |m|
      invariant forall k :: 0 <= k < i ==> Reachable(m, m[k].path) && LinkOk(c, m[k])
    {
      var passes := PassesThrough(seen, m, m[i].path);
      if !passes || !LinkOk(c, m[i]) { return false; }
    }
    ok := true;
  }

  lemma DuplicateFound(seen: map<string, Kind>, m: seq<Entry>, i: nat)
    requires i < |m| && Indexes(seen, m[..i]) && m[i].path in seen
    ensures !Distinct(m)
  {
    var j :| 0 <= j < i && m[..i][j].path == m[i].path;
    assert m[j].path == m[i].path;
  }

  lemma NextIndexed(seen: map<string, Kind>, m: seq<Entry>, i: nat)
    requires i < |m| && Indexes(seen, m[..i]) && Distinct(m[..i]) && m[i].path !in seen
    ensures Indexes(seen[m[i].path := m[i].value.kind], m[..i + 1]) && Distinct(m[..i + 1])
  {
    var seen' := seen[m[i].path := m[i].value.kind];
    assert m[..i + 1] == m[..i] + [m[i]];
    forall j | 0 <= j < i ensures m[j].path != m[i].path { assert m[..i][j] == m[j]; }
    forall p | p in seen' ensures Listed(m[..i + 1], p) {
      if p == m[i].path {
        assert m[..i + 1][i].path == p;
      } else {
        var j :| 0 <= j < |m[..i]| && m[..i][j].path == p;
        assert m[..i + 1][j].path == p;
      }
    }
  }

  // ---- The check of sorted manifests ----

  /** A cached ancestor: it lies above an entry already checked, and nothing above it obstructs. */
  ghost predicate Cached(m: seq<Entry>, i: nat, p: string)
    requires i <= |m|
  {
    && (exists k :: 0 <= k < i && p != m[k].path && AtOrBelow(m[k].path, p))
    && (forall q :: q != "." && AtOrBelow(p, q) ==> NoObstacle(m[..i], q))
  }

  /** An ancestor of a checked entry can only be listed before it. */
  lemma AncestorsEarlier(m: seq<Entry>, k: nat, q: string, j: nat)
    requires Sorted(m) && k < |m| && j < |m| && q != m[k].path && AtOrBelow(m[k].path, q) && m[j].path == q
    ensures j < k
  {
    AncestorLess(m[k].path, q);
    LessIrreflexive(q);
    if k < j { LessTransitive(q, m[k].path, q); }
  }

  /** What was free of obstacles among the earlier entries stays so. */
  lemma StaysClear(m: seq<Entry>, i: nat, n: nat, k: nat, q: string)
    requires k < i <= n <= |m| && Sorted(m[..n]) && q != m[k].path && AtOrBelow(m[k].path, q) && NoObstacle(m[..i], q)
    ensures NoObstacle(m[..n], q)
  {
    forall j | 0 <= j < n && m[..n][j].path == q ensures m[..n][j].value.kind == Directory {
      AncestorsEarlier(m[..n], k, q, j);
      assert m[..i][j] == m[j];
    }
  }

  lemma StaysCached(m: seq<Entry>, i: nat, p: string)
    requires i < |m| && Sorted(m[..i + 1]) && Cached(m, i, p)
    ensures Cached(m, i + 1, p)
  {
    var k: nat :| k < i && p != m[k].path && AtOrBelow(m[k].path, p);
    forall q | q != "." && AtOrBelow(p, q) ensures NoObstacle(m[..i + 1], q) {
      BelowTransitive(m[k].path, p, q);
      if q == m[k].path { BelowAntisymmetric(p, q); }
      StaysClear(m, i, i + 1, k, q);
    }
  }

  /** The ancestor at `dir` of the entry at `i`, looked up by binary search among earlier entries. */
  method Obstructed(m: seq<Entry>, i: nat, dir: string) returns (yes: bool)
    requires i <= |m| && Sorted(m[..i])
    ensures yes <==> !NoObstacle(m[..i], dir)
  {
    var j := LowerBound(m[..i], dir);
    yes := j < i && m[j].path == dir && m[j].value.kind != Directory;
    LessIrreflexive(dir);
    if yes {
      assert m[..i][j] == m[j];
    } else {
      forall k | 0 <= k < i && m[..i][k].path == dir ensures m[..i][k].value.kind == Directory {
        assert k >= j;
        if k > j { LessTotal(m[..i][j].path, dir); }
      }
    }
  }

  /** The entry at `i` is no obstacle for its own ancestors. */
  lemma NotItself(m: seq<Entry>, i: nat, q: string)
    requires i < |m| && q != m[i].path
    ensures NoObstacle(m[..i + 1], q) <==> NoObstacle(m[..i], q)
  {
    assert m[..i + 1] == m[..i] + [m[i]];
    assert forall j :: 0 <= j < i ==> m[..i + 1][j] == m[..i][j];
  }

  /** Check the ancestors of the entry at `i`, up to the first one already cached, and cache them. */
  method CheckAncestors(m: seq<Entry>, i: nat, parents: set<string>) returns (ok: bool, cached: set<string>)
    requires i < |m| && Sorted(m[..i]) && forall p :: p in parents ==> Cached(m, i + 1, p)
    ensures ok <==> Reachable(m[..i + 1], m[i].path)
    ensures ok ==> forall p :: p in cached ==> Cached(m, i + 1, p)
  {
    var name := m[i].path;
    var dir := Dir(name);
    cached := parents;
    ProperAncestors(name);
    while dir != "." && dir !in cached
      invariant dir != "." ==> dir != name && AtOrBelow(name, dir)
      invariant forall q :: q != "." && q != name && AtOrBelow(name, q) ==>
          NoObstacle(m[..i + 1], q) || AtOrBelow(dir, q)
      invariant forall v :: v in cached ==>
          v in parents || (v != name && v != "." && AtOrBelow(name, v) && Height(dir) < Height(v))
      decreases Height(dir)
    {
      NotItself(m, i, dir);
      var yes := Obstructed(m, i, dir);
      if yes { return false, cached; }
      cached := cached + {dir};
      ProperAncestors(dir);
      UpOne(name, dir);
      DirHeight(dir);
      dir := Dir(dir);
    }
    NothingAboveDot();
    ok := true;
    assert Reachable(m[..i + 1], name);
    forall v | v in cached && v !in parents ensures Cached(m, i + 1, v) { NewlyCached(m, i, v); }
  }

  lemma NewlyCached(m: seq<Entry>, i: nat, v: string)
    requires i < |m| && Reachable(m[..i + 1], m[i].path) && v != m[i].path && v != "." && AtOrBelow(m[i].path, v)
    ensures Cached(m, i + 1, v)
  {
    forall q | q != "." && AtOrBelow(v, q) ensures NoObstacle(m[..i + 1], q) {
      BelowTransitive(m[i].path, v, q);
      if q == m[i].path { BelowAntisymmetric(v, q); }
    }
  }

  lemma StaysReachable(m: seq<Entry>, i: nat, k: nat)
    requires k < i < |m| && Sorted(m[..i + 1]) && Reachable(m[..i], m[k].path)
    ensures Reachable(m[..i + 1], m[k].path)
  {
    forall q | q != "." && q != m[k].path && AtOrBelow(m[k].path, q) ensures NoObstacle(m[..i + 1], q) {
      StaysClear(m, i, i + 1, k, q);
    }
  }

  lemma ObstacleRemains(m: seq<Entry>, n: nat, i: nat)
    requires i < n <= |m| && !Reachable(m[..n], m[i].path)
    ensures !Hierarchical(m)
  {
    var q :| q != "." && q != m[i].path && AtOrBelow(m[i].path, q) && !NoObstacle(m[..n], q);
    var j :| 0 <= j < n && m[..n][j].path == q && m[..n][j].value.kind != Directory;
    assert m[j] == m[..n][j];
    assert !NoObstacle(m, q) && !Reachable(m, m[i].path);
  }

  lemma SortedDistinct(m: seq<Entry>)
    requires Sorted(m)
    ensures Distinct(m)
  {
    forall i, j | 0 <= i < j < |m| ensures m[i].path != m[j].path { LessIrreflexive(m[i].path); }
  }

  /** `ValidateSortedContext`: accepts a manifest exactly when it is sorted and the general check accepts it. */
  method ValidateSorted(c: Checks, m: seq<Entry>) returns (ok: bool)
    ensures ok <==> Sorted(m) && Valid(c, m)
  {
    var parents: set<string> := {};
    for i := 0 to |m|
      invariant Sorted(m[..i]) && forall p :: p in parents ==> Cached(m, i, p)
      invariant forall k :: 0 <= k < i ==> c.entry(m[k]) && LinkOk(c, m[k])
      invariant forall k :: 0 <= k < i ==> Reachable(m[..i], m[k].path)
    {
      if i > 0 && !Less(m[i - 1].path, m[i].path) { return false; }
      AdjacentSorted(m, i);
      if !c.entry(m[i]) || !LinkOk(c, m[i]) { return false; }
      forall p | p in parents ensures Cached(m, i + 1, p) { StaysCached(m, i, p); }
      forall k | 0 <= k < i ensures Reachable(m[..i + 1], m[k].path) { StaysReachable(m, i, k); }
      ok, parents := CheckAncestors(m, i, parents);
      if !ok {
        ObstacleRemains(m, i + 1, i);
        return;
      }
    }
    assert m[..|m|] == m;
    SortedDistinct(m);
    ok := true;
  }

  /** The two validators agree on every sorted manifest. */
  method BothValidators(c: Checks, m: seq<Entry>) returns (fast: bool, general: bool)
    ensures fast <==> general && Sorted(m)
  {
    fast := ValidateSorted(c, m);
    general := ValidateAny(c, m);
  }
}

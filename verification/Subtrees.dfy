/** The part of a sorted manifest at or below a path, found by binary searches. */
module Subtrees {
  import opened Paths
  import opened Rows
  import opened Manifests

  /** `sub` holds exactly the entries of `all` at or below `root`. */
  ghost predicate IsSubtree(sub: seq<Entry>, all: seq<Entry>, root: string) {
    Sorted(sub) && forall p :: Find(sub, p) == if AtOrBelow(p, root) then Find(all, p) else None
  }

  predicate Monotone(n: nat, f: nat -> bool) { forall j, k :: 0 <= j <= k < n && f(j) ==> f(k) }

  /** `sort.Search`. */
  method Search(n: nat, f: nat -> bool) returns (i: nat)
    requires Monotone(n, f)
    ensures i <= n
    ensures forall j :: 0 <= j < i ==> !f(j)
    ensures forall j :: i <= j < n ==> f(j)
  {
    i := 0;
    var high := n;
    while i < high
      invariant i <= high <= n
      invariant forall j :: 0 <= j < i ==> !f(j)
      invariant forall j :: high <= j < n ==> f(j)
    {
      var mid := (i + high) / 2;
      if f(mid) { high := mid; } else { i := mid + 1; }
    }
  }

  /** The first entry not before `key`. */
  method LowerBound(rows: seq<Entry>, key: string) returns (i: nat)
    requires Sorted(rows)
    ensures i <= |rows|
    ensures forall j :: 0 <= j < i ==> Less(rows[j].path, key)
    ensures forall j :: i <= j < |rows| ==> !Less(rows[j].path, key)
  {
    var f := (j: nat) => j < |rows| && !Less(rows[j].path, key);
    forall j, k | 0 <= j <= k < |rows| && f(j) ensures f(k) {
      if j < k && Less(rows[k].path, key) { LessTransitive(rows[j].path, rows[k].path, key); }
    }
    i := Search(|rows|, f);
    forall j | 0 <= j < i ensures Less(rows[j].path, key) { assert !f(j); }
    forall j | i <= j < |rows| ensures !Less(rows[j].path, key) { assert f(j); }
  }

  /** From the first entry not before `prefix`, the entries with that prefix come first. */
  lemma PrefixedTogether(rows: seq<Entry>, prefix: string, j: nat, k: nat)
    requires Sorted(rows) && j <= k < |rows| && !Less(rows[j].path, prefix) && prefix <= rows[k].path
    ensures prefix <= rows[j].path
  {
    if j < k {
      LessIrreflexive(rows[j].path);
      if Less(rows[k].path, rows[j].path) { LessTransitive(rows[j].path, rows[k].path, rows[j].path); }
      PrefixInterval(prefix, prefix, rows[j].path, rows[k].path);
    }
  }

  method PrefixEnd(rows: seq<Entry>, prefix: string, start: nat) returns (end: nat)
    requires Sorted(rows) && start <= |rows| && forall j :: start <= j < |rows| ==> !Less(rows[j].path, prefix)
    ensures start <= end <= |rows|
    ensures forall j :: start <= j < end ==> prefix <= rows[j].path
    ensures forall j :: end <= j < |rows| ==> !(prefix <= rows[j].path)
  {
    var f := (j: nat) => j < |rows| - start && !(prefix <= rows[start + j].path);
    forall j, k | 0 <= j <= k < |rows| - start && f(j) ensures f(k) {
      if prefix <= rows[start + k].path { PrefixedTogether(rows, prefix, start + j, start + k); }
    }
    var n := Search(|rows| - start, f);
    end := start + n;
    forall j | start <= j < end ensures prefix <= rows[j].path { assert !f(j - start); }
    forall j | end <= j < |rows| ensures !(prefix <= rows[j].path) { assert f(j - start); }
  }

  lemma NotPrefixed(p: string, prefix: string)
    requires Less(p, prefix)
    ensures !(prefix <= p)
  {
    LessIrreflexive(p);
    if prefix <= p && prefix != p {
      PrefixLess(prefix, p);
      LessTransitive(p, prefix, p);
    }
  }

  /** Selecting rows by position selects by path. */
  lemma Selects(sub: seq<Entry>, all: seq<Entry>, root: string)
    requires Sorted(sub) && Sorted(all)
    requires forall i :: 0 <= i < |sub| ==> sub[i] in all && AtOrBelow(sub[i].path, root)
    requires forall i :: 0 <= i < |all| && AtOrBelow(all[i].path, root) ==> all[i] in sub
    ensures IsSubtree(sub, all, root)
  {
    forall p ensures Find(sub, p) == if AtOrBelow(p, root) then Find(all, p) else None {
      FindMember(sub, p);
      FindMember(all, p);
      if Find(all, p).Some? && AtOrBelow(p, root) { FindIff(sub, p, Find(all, p).value); }
    }
  }

  /** `subtreeManifest`. */
  method SubtreeManifest(all: seq<Entry>, root: string) returns (sub: seq<Entry>)
    requires Sorted(all)
    ensures IsSubtree(sub, all, root)
  {
    var exact := LowerBound(all, root);
    var prefix := root + "/";
    var start := LowerBound(all, prefix);
    var end := PrefixEnd(all, prefix, start);
    var hasExact := exact < |all| && all[exact].path == root;
    PrefixLess(root, prefix);
    LessIrreflexive(prefix);
    if !hasExact {
      sub := all[start..end];
    } else if start == exact + 1 {
      sub := all[exact..end];
    } else {
      sub := [all[exact]] + all[start..end];
    }
    assert hasExact ==> exact < start;
    assert sub == (if hasExact then [all[exact]] else []) + all[start..end];
    IntervalSelected(sub, all, root, exact, start, end);
  }

  lemma IntervalSelected(sub: seq<Entry>, all: seq<Entry>, root: string, exact: nat, start: nat, end: nat)
    requires Sorted(all) && exact <= |all| && start <= end <= |all|
    requires forall j :: 0 <= j < exact ==> Less(all[j].path, root)
    requires forall j :: exact <= j < |all| ==> !Less(all[j].path, root)
    requires forall j :: 0 <= j < start ==> Less(all[j].path, root + "/")
    requires forall j :: start <= j < end ==> root + "/" <= all[j].path
    requires forall j :: end <= j < |all| ==> !(root + "/" <= all[j].path)
    requires var hasExact := exact < |all| && all[exact].path == root;
      sub == (if hasExact then [all[exact]] else []) + all[start..end] && (hasExact ==> exact < start)
    ensures IsSubtree(sub, all, root)
  {
    var hasExact := exact < |all| && all[exact].path == root;
    var head := if hasExact then [all[exact]] else [];
    forall i | 0 <= i < |all| && AtOrBelow(all[i].path, root) ensures all[i] in sub {
      if all[i].path == root {
        LessIrreflexive(root);
        assert i == exact;
        assert head[0] == all[exact];
      } else {
        if i < start { NotPrefixed(all[i].path, root + "/"); }
        assert all[start..end][i - start] == all[i];
      }
    }
    Selects(sub, all, root);
  }
}

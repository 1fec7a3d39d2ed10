/** Folding an applied bundle into the accepted source: installed paths outside conflicts take the
    remote entry, everything else keeps its old base entry. */
module Accept {
  import opened Paths
  import opened Rows
  import opened Manifests
  import opened Merge
  import opened MergeRoots
  import opened Subtrees
  import opened Delta

  /** What applying a bundle reported: the roots installed and the conflicts left. */
  datatype Report = Report(refused: bool, installed: set<string>, conflicts: set<string>)

  predicate IsMetadata(d: Bundle, p: string) { Root(p, true) in d.roots }

  /** A conflict at the path, or a content conflict above it. */
  ghost predicate Blocked(d: Bundle, o: Report, p: string) {
    exists c :: c in o.conflicts && c != "." && AtOrBelow(p, c) && (c == p || !IsMetadata(d, c))
  }

  ghost predicate Installed(d: Bundle, o: Report, p: string) {
    exists q :: q in o.installed && if IsMetadata(d, q) then p == q else q != "." && AtOrBelow(p, q)
  }

  ghost predicate Accepts(d: Bundle, o: Report, p: string) { !o.refused && !Blocked(d, o, p) && Installed(d, o, p) }

  /** The entry the next base has at a path. */
  ghost function Next(base: seq<Entry>, d: Bundle, o: Report, p: string): Option<Meta> {
    if Accepts(d, o, p) then Find(d.remote, p) else Find(base, p)
  }

  ghost predicate NextBase(next: seq<Entry>, base: seq<Entry>, d: Bundle, o: Report) {
    Sorted(next) && forall p :: Find(next, p) == Next(base, d, o, p)
  }

  /** The next base, if the bundle was made from this one.  A sorted list is determined by its lookups. */
  ghost function Accepted(base: seq<Entry>, d: Bundle, o: Report): Option<seq<Entry>> {
    if BasesMatch(base, d) && exists next :: NextBase(next, base, d, o) then
      var next :| NextBase(next, base, d, o);
      Some(next)
    else None
  }

  lemma AcceptedOnly(next: seq<Entry>, base: seq<Entry>, d: Bundle, o: Report)
    requires BasesMatch(base, d) && NextBase(next, base, d, o)
    ensures Accepted(base, d, o) == Some(next)
  {
    var other := Accepted(base, d, o).value;
    SortedExtensional(next, other);
  }

  /** The bundle's merge bases are the checkpoint's entries. */
  ghost predicate BasesMatch(base: seq<Entry>, d: Bundle) {
    forall i, p :: 0 <= i < |d.roots| && Touches(d.roots[i], p) ==> Find(base, p) == Find(d.base, p)
  }

  method ValidateSourceMergeBases(base: seq<Entry>, d: Bundle) returns (ok: bool)
    requires Sorted(base) && Sorted(d.base)
    ensures ok <==> BasesMatch(base, d)
  {
    for n := 0 to |d.roots|
      invariant forall i, p :: 0 <= i < n && Touches(d.roots[i], p) ==> Find(base, p) == Find(d.base, p)
    {
      var r := d.roots[n];
      if r.metadata {
        if Find(base, r.path) != Find(d.base, r.path) { return false; }
      } else {
        var left := SubtreeManifest(base, r.path);
        var right := SubtreeManifest(d.base, r.path);
        SubtreesEqual(left, right, base, d.base, r.path);
        if left != right { return false; }
      }
    }
    ok := true;
  }

  lemma SubtreesEqual(x: seq<Entry>, y: seq<Entry>, a: seq<Entry>, b: seq<Entry>, root: string)
    requires IsSubtree(x, a, root) && IsSubtree(y, b, root)
    ensures x == y <==> forall p :: AtOrBelow(p, root) ==> Find(a, p) == Find(b, p)
  {
    if forall p :: AtOrBelow(p, root) ==> Find(a, p) == Find(b, p) { SortedExtensional(x, y); }
    if x == y {
      forall p | AtOrBelow(p, root) ensures Find(a, p) == Find(b, p) { assert Find(x, p) == Find(y, p); }
    }
  }

  /** The walk up from a path that decides whether its entry is replaced. */
  method Replaced(d: Bundle, o: Report, name: string) returns (accepted: bool)
    requires !o.refused
    ensures accepted <==> Accepts(d, o, name)
  {
    accepted := name in o.installed && IsMetadata(d, name);
    var current := name;
    while current != "."
      invariant current != "." ==> AtOrBelow(name, current)
      invariant accepted ==> Installed(d, o, name)
      invariant Installed(d, o, name) ==>
          accepted || exists q :: q in o.installed && q != "." && !IsMetadata(d, q) && AtOrBelow(current, q)
      invariant Blocked(d, o, name) ==>
          exists c :: c in o.conflicts && c != "." && AtOrBelow(current, c) && (c == name || !IsMetadata(d, c))
      decreases Height(current)
    {
      if current in o.conflicts && (current == name || !IsMetadata(d, current)) { return false; }
      if current in o.installed && !IsMetadata(d, current) { accepted := true; }
      ProperAncestors(current);
      if Dir(current) != "." { BelowTransitive(name, current, Dir(current)); }
      DirHeight(current);
      current := Dir(current);
    }
    NothingAboveDot();
  }

  // ---- Merging the two sorted lists ----

  /** The rows taken so far: right as far as they go, in order, and before all that is to come. */
  ghost predicate Taken(next: seq<Entry>, base: seq<Entry>, d: Bundle, o: Report) {
    && Sorted(next)
    && (forall k :: 0 <= k < |next| ==> Next(base, d, o, next[k].path) == Some(next[k].value))
  }

  ghost predicate Passed(next: seq<Entry>, base: seq<Entry>, d: Bundle, o: Report, i: nat, j: nat)
    requires i <= |base| && j <= |d.remote|
  {
    && (forall k :: 0 <= k < i && !Accepts(d, o, base[k].path) ==> base[k] in next)
    && (forall k :: 0 <= k < j && Accepts(d, o, d.remote[k].path) ==> d.remote[k] in next)
  }

  ghost predicate Before(next: seq<Entry>, base: seq<Entry>, d: Bundle, o: Report, i: nat, j: nat)
    requires i <= |base| && j <= |d.remote|
  {
    && (forall k, l :: 0 <= k < |next| && i <= l < |base| ==> Less(next[k].path, base[l].path))
    && (forall k, l :: 0 <= k < |next| && j <= l < |d.remote| && Accepts(d, o, d.remote[l].path) ==>
        Less(next[k].path, d.remote[l].path))
  }

  lemma BaseRow(next: seq<Entry>, base: seq<Entry>, d: Bundle, o: Report, i: nat, j: nat)
    requires Sorted(base) && Sorted(d.remote) && i < |base| && j <= |d.remote|
    requires Taken(next, base, d, o) && Passed(next, base, d, o, i, j) && Before(next, base, d, o, i, j)
    requires j == |d.remote| || !Less(d.remote[j].path, base[i].path)
    ensures var next' := if Accepts(d, o, base[i].path) then next else next + [base[i]];
      Taken(next', base, d, o) && Passed(next', base, d, o, i + 1, j) && Before(next', base, d, o, i + 1, j)
  {
    if !Accepts(d, o, base[i].path) {
      FindAt(base, i);
      BaseRowBefore(next, base, d, o, i, j);
    }
  }

  lemma BaseRowBefore(next: seq<Entry>, base: seq<Entry>, d: Bundle, o: Report, i: nat, j: nat)
    requires Sorted(base) && Sorted(d.remote) && i < |base| && j <= |d.remote| && !Accepts(d, o, base[i].path)
    requires Before(next, base, d, o, i, j) && (j == |d.remote| || !Less(d.remote[j].path, base[i].path))
    ensures Before(next + [base[i]], base, d, o, i + 1, j)
  {
    var next' := next + [base[i]];
    forall k, l | 0 <= k < |next'| && i + 1 <= l < |base| ensures Less(next'[k].path, base[l].path) {
      if k < |next| { assert next'[k] == next[k]; }
    }
    forall k, l | 0 <= k < |next'| && j <= l < |d.remote| && Accepts(d, o, d.remote[l].path)
      ensures Less(next'[k].path, d.remote[l].path)
    {
      if k < |next| { assert next'[k] == next[k]; } else { NotAfter(d.remote, base[i].path, j, l); }
    }
  }

  /** A path not after the row at `j` is before every later row of another path. */
  lemma NotAfter(rows: seq<Entry>, p: string, j: nat, l: nat)
    requires Sorted(rows) && j <= l < |rows| && !Less(rows[j].path, p) && rows[l].path != p
    ensures Less(p, rows[l].path)
  {
    LessTotal(p, rows[j].path);
    if j < l && p != rows[j].path { LessTransitive(p, rows[j].path, rows[l].path); }
  }

  lemma RemoteRow(next: seq<Entry>, base: seq<Entry>, d: Bundle, o: Report, i: nat, j: nat)
    requires Sorted(base) && Sorted(d.remote) && i <= |base| && j < |d.remote|
    requires Taken(next, base, d, o) && Passed(next, base, d, o, i, j) && Before(next, base, d, o, i, j)
    requires i == |base| || Less(d.remote[j].path, base[i].path)
    ensures var next' := if Accepts(d, o, d.remote[j].path) then next + [d.remote[j]] else next;
      Taken(next', base, d, o) && Passed(next', base, d, o, i, j + 1) && Before(next', base, d, o, i, j + 1)
  {
    if Accepts(d, o, d.remote[j].path) {
      FindAt(d.remote, j);
      RemoteRowBefore(next, base, d, o, i, j);
    }
  }

  lemma RemoteRowBefore(next: seq<Entry>, base: seq<Entry>, d: Bundle, o: Report, i: nat, j: nat)
    requires Sorted(base) && Sorted(d.remote) && i <= |base| && j < |d.remote| && Accepts(d, o, d.remote[j].path)
    requires Before(next, base, d, o, i, j) && (i == |base| || Less(d.remote[j].path, base[i].path))
    ensures Before(next + [d.remote[j]], base, d, o, i, j + 1)
  {
    forall l | i <= l < |base| ensures Less(d.remote[j].path, base[l].path) {
      if i < l { LessTransitive(d.remote[j].path, base[i].path, base[l].path); }
    }
  }

  lemma AllTaken(next: seq<Entry>, base: seq<Entry>, d: Bundle, o: Report)
    requires Sorted(base) && Sorted(d.remote) && Taken(next, base, d, o) && Passed(next, base, d, o, |base|, |d.remote|)
    ensures NextBase(next, base, d, o)
  {
    forall p ensures Find(next, p) == Next(base, d, o, p) {
      FindMember(next, p);
      FindMember(base, p);
      FindMember(d.remote, p);
      if Next(base, d, o, p).Some? { FindIff(next, p, Next(base, d, o, p).value); }
    }
  }

  /** `mergeAcceptedSourceContext`: no result exactly when the merge bases differ from the checkpoint. */
  method MergeAcceptedSource(base: seq<Entry>, d: Bundle, o: Report) returns (r: Option<seq<Entry>>)
    requires Sorted(base) && Sorted(d.base) && Sorted(d.remote)
    ensures r.Some? <==> BasesMatch(base, d)
    ensures r.Some? ==> NextBase(r.value, base, d, o)
    ensures r == Accepted(base, d, o)
  {
    var ok := ValidateSourceMergeBases(base, d);
    if !ok { return None; }
    if o.refused || o.installed == {} {
      AcceptedOnly(base, base, d, o);
      return Some(base);
    }
    var next: seq<Entry> := [];
    var i, j := 0, 0;
    while i < |base| || j < |d.remote|
      invariant i <= |base| && j <= |d.remote|
      invariant Taken(next, base, d, o) && Passed(next, base, d, o, i, j) && Before(next, base, d, o, i, j)
      decreases |base| - i + |d.remote| - j
    {
      if i < |base| && (j == |d.remote| || !Less(d.remote[j].path, base[i].path)) {
        BaseRow(next, base, d, o, i, j);
        var replaced := Replaced(d, o, base[i].path);
        if !replaced { next := next + [base[i]]; }
        i := i + 1;
      } else {
        RemoteRow(next, base, d, o, i, j);
        var replaced := Replaced(d, o, d.remote[j].path);
        if replaced { next := next + [d.remote[j]]; }
        j := j + 1;
      }
    }
    AllTaken(next, base, d, o);
    AcceptedOnly(next, base, d, o);
    r := Some(next);
  }
}

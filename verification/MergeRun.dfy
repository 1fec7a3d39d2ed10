/** The merge as it runs: trees are compared once, then each change root is walked from the top,
    writing a scratch tree and recording conflicts. */
module MergeRun {
  import opened Paths
  import opened Rows
  import opened Manifests
  import opened Merge

  // ---- Which subtrees changed ----

  /** Mark a path and all its ancestors. */
  method Mark(changed: set<string>, name: string) returns (marked: set<string>)
    ensures forall n :: n in marked <==> n in changed || (n != "." && AtOrBelow(name, n))
  {
    marked := changed;
    var current := name;
    while current != "."
      invariant forall n :: (n in marked || (n != "." && AtOrBelow(current, n))) <==>
          (n in changed || (n != "." && AtOrBelow(name, n)))
      decreases Height(current)
    {
      forall n | n != "." ensures AtOrBelow(current, n) <==> current == n || AtOrBelow(Dir(current), n) {
        BelowParent(current, n);
      }
      DirHeight(current);
      marked := marked + {current};
      current := Dir(current);
    }
    NothingAboveDot();
  }

  /** Some path among `names` differs at or below `n`. */
  ghost predicate DiffersIn(x: Tree, y: Tree, names: set<string>, n: string) {
    exists q :: q in names && AtOrBelow(q, n) && At(x, q) != At(y, q)
  }

  /** One direction of the comparison: the entries of `x` that `y` lacks or has otherwise. */
  method MarkChanged(changed: set<string>, x: Tree, y: Tree) returns (marked: set<string>)
    ensures forall n :: n in marked <==> n in changed || (n != "." && DiffersIn(x, y, x.Keys, n))
  {
    marked := changed;
    var todo := x.Keys;
    while todo != {}
      invariant todo <= x.Keys
      invariant forall n :: n in marked <==> n in changed || (n != "." && DiffersIn(x, y, x.Keys - todo, n))
      decreases |todo|
    {
      var name :| name in todo;
      ghost var before := marked;
      if At(y, name) != At(x, name) { marked := Mark(marked, name); }
      forall n ensures DiffersIn(x, y, x.Keys - (todo - {name}), n)
        <==> DiffersIn(x, y, x.Keys - todo, n) || (AtOrBelow(name, n) && At(x, name) != At(y, name))
      {
        OneMoreName(x, y, x.Keys - todo, name, n);
        assert x.Keys - (todo - {name}) == x.Keys - todo + {name};
      }
      todo := todo - {name};
    }
    assert x.Keys - todo == x.Keys;
  }

  lemma OneMoreName(x: Tree, y: Tree, names: set<string>, name: string, n: string)
    ensures DiffersIn(x, y, names + {name}, n) <==>
        DiffersIn(x, y, names, n) || (AtOrBelow(name, n) && At(x, name) != At(y, name))
  {
    if DiffersIn(x, y, names, n) {
      var q :| q in names && AtOrBelow(q, n) && At(x, q) != At(y, q);
      assert q in names + {name};
    }
    if AtOrBelow(name, n) && At(x, name) != At(y, name) { assert name in names + {name}; }
  }

  method ChangedSubtrees(x: Tree, y: Tree) returns (changed: set<string>)
    ensures forall n :: n in changed <==> n != "." && Differs(x, y, n)
  {
    changed := MarkChanged({}, x, y);
    changed := MarkChanged(changed, y, x);
    forall n ensures Differs(x, y, n) <==> DiffersIn(x, y, x.Keys, n) || DiffersIn(y, x, y.Keys, n) {
      if Differs(x, y, n) {
        var q :| AtOrBelow(q, n) && At(x, q) != At(y, q);
        assert q in x.Keys || q in y.Keys;
      }
    }
  }

  // ---- Children ----

  function Names(s: Sides): set<string> { s.base.Keys + s.ours.Keys + s.remote.Keys }

  function Children(s: Sides, name: string): set<string> { set k | k in Names(s) && Dir(k) == name }

  lemma SiblingsDisjoint(name: string, a: string, b: string, p: string)
    requires name != "." && Dir(a) == name == Dir(b) && AtOrBelow(p, a) && AtOrBelow(p, b)
    ensures a == b
  {
    AncestorsNested(p, a, b);
    if a != b {
      ChildNotAbove(name, a);
      ChildNotAbove(name, b);
      BelowParent(a, b);
      BelowParent(b, a);
    }
  }

  /** A child is below its directory and not above it. */
  lemma ChildNotAbove(name: string, k: string)
    requires name != "." && Dir(k) == name
    ensures AtOrBelow(k, name) && k != name && !AtOrBelow(name, k) && k != "." && |name| < |k|
  {
    DirHeight(k);
    DirAbove(k);
  }

  /** The child of `name` on the way down to `p`. */
  ghost function Toward(name: string, p: string): (k: string)
    requires name != "." && AtOrBelow(p, name) && p != name
    ensures Dir(k) == name && AtOrBelow(p, k)
    decreases |p|
  {
    BelowParent(p, name);
    DirHeight(p);
    if Dir(p) == name then p else
      var k := Toward(name, Dir(p));
      ChildNotAbove(name, k);
      BelowParent(p, k);
      k
  }

  /** Below a descended directory each child decides for itself. */
  lemma {:induction false} FateOfChild(s: Sides, merge: FileMerge, name: string, k: string, p: string)
    requires name != "." && k != "." && Decide(s, merge, name).Descend? && Dir(k) == name && AtOrBelow(p, k)
    requires AtOrBelow(p, name)
    ensures FateOf(s, merge, name, p) == FateOf(s, merge, k, p)
    decreases |p|
  {
    ChildNotAbove(name, k);
    BelowParent(p, name);
    if p == name { BelowAntisymmetric(p, k); }
    DirHeight(p);
    if p != k {
      BelowParent(p, k);
      FateOfChild(s, merge, name, k, Dir(p));
    }
  }

  /** Where no tree has an entry, nothing is merged. */
  lemma NothingMerged(s: Sides, merge: FileMerge, name: string, k: string, p: string, materialize: bool)
    requires Closed(s, name) && name != "." && Decide(s, merge, name).Descend? && Dir(k) == name && AtOrBelow(p, k)
    requires AtOrBelow(p, name)
    requires k !in Names(s)
    ensures Merged(s, merge, name, p, materialize) == None && !ConflictAt(s, merge, name, p)
  {
    ChildNotAbove(name, k);
    FateOfChild(s, merge, name, k, p);
    ClosedDown(s, name, k);
    forall q | AtOrBelow(q, k) ensures q !in Names(s) { NoneBelow(s, k, q); }
    assert Decide(s, merge, k) == KeepOurs;
    FateInherited(s, merge, k, k, p);
    assert AtOrBelow(p, k);
  }

  lemma NoneBelow(s: Sides, k: string, q: string)
    requires Closed(s, k) && k != "." && AtOrBelow(q, k) && k !in Names(s)
    ensures q !in Names(s)
  {
    if q != k {
      if q in s.base { NothingBelow(s.base, k, q); }
      if q in s.ours { NothingBelow(s.ours, k, q); }
      if q in s.remote { NothingBelow(s.remote, k, q); }
    }
  }

  // ---- What a walk leaves behind ----

  /** At or below `name` the scratch tree holds the merge; elsewhere it is as before. */
  ghost predicate Writes(files: Tree, before: Tree, s: Sides, merge: FileMerge, name: string, materialize: bool)
    requires name != "."
  {
    forall p :: At(files, p) == if AtOrBelow(p, name) then Merged(s, merge, name, p, materialize) else At(before, p)
  }

  ghost predicate Reports(conflicts: set<string>, before: set<string>, s: Sides, merge: FileMerge, name: string)
    requires name != "."
  {
    forall c :: c in conflicts <==> c in before || ConflictAt(s, merge, name, c)
  }

  ghost predicate ChildrenWritten(files: Tree, before: Tree, s: Sides, merge: FileMerge, done: set<string>,
                                  materialize: bool) {
    && (forall k, p :: k in done && k != "." && AtOrBelow(p, k) ==> At(files, p) == Merged(s, merge, k, p, materialize))
    && (forall p :: (forall k :: k in done ==> !AtOrBelow(p, k)) ==> At(files, p) == At(before, p))
  }

  ghost predicate ChildrenReported(conflicts: set<string>, before: set<string>, s: Sides, merge: FileMerge,
                                   done: set<string>) {
    forall c :: c in conflicts <==> c in before || exists k :: k in done && k != "." && ConflictAt(s, merge, k, c)
  }

  ghost predicate Walked(files: Tree, conflicts: set<string>, files0: Tree, conflicts0: set<string>,
                         s: Sides, merge: FileMerge, done: set<string>, materialize: bool)
  {
    ChildrenWritten(files, files0, s, merge, done, materialize) &&
        ChildrenReported(conflicts, conflicts0, s, merge, done)
  }

  /** The children are those walked and those still to walk. */
  ghost predicate Divides(done: set<string>, todo: set<string>, s: Sides, name: string) {
    done + todo == Children(s, name) && done * todo == {}
  }

  lemma NextChild(done: set<string>, todo: set<string>, s: Sides, name: string, k: string, depth: nat)
    requires name != "." && Divides(done, todo, s, name) && k in todo && WithinDepth(s, depth)
    ensures done <= Children(s, name) && k in Children(s, name) && k !in done
    ensures Divides(done + {k}, todo - {k}, s, name) && Left(depth, k) < Left(depth, name)
  {
    assert k in done + todo && k !in done * todo;
    forall c | c in done ensures c in Children(s, name) { assert c in done + todo; }
    ChildNotAbove(name, k);
    assert done + {k} + (todo - {k}) == done + todo;
    forall c | c in done && c in todo - {k} ensures c in done * todo {}
    assert (done + {k}) * (todo - {k}) == {};
  }

  lemma NoChildrenYet(files: Tree, conflicts: set<string>, s: Sides, merge: FileMerge, materialize: bool)
    ensures Walked(files, conflicts, files, conflicts, s, merge, {}, materialize)
  {
  }

  lemma OneMoreChild(files: Tree, after: Tree, before: Tree, s: Sides, merge: FileMerge, name: string,
                     done: set<string>, k: string, materialize: bool)
    requires name != "." && k != "." && done <= Children(s, name) && k in Children(s, name) && k !in done
    requires ChildrenWritten(files, before, s, merge, done, materialize)
    requires Writes(after, files, s, merge, k, materialize)
    ensures ChildrenWritten(after, before, s, merge, done + {k}, materialize)
  {
    forall j, p | j in done + {k} && j != "." && AtOrBelow(p, j)
      ensures At(after, p) == Merged(s, merge, j, p, materialize)
    {
      if j != k && AtOrBelow(p, k) { SiblingsDisjoint(name, j, k, p); }
    }
    forall p | forall j :: j in done + {k} ==> !AtOrBelow(p, j) ensures At(after, p) == At(before, p) {
      assert k in done + {k};
      assert forall j :: j in done ==> j in done + {k};
    }
  }

  lemma OneMoreReport(conflicts: set<string>, after: set<string>, before: set<string>, s: Sides, merge: FileMerge,
                      done: set<string>, k: string)
    requires k != "." && ChildrenReported(conflicts, before, s, merge, done) && Reports(after, conflicts, s, merge, k)
    ensures ChildrenReported(after, before, s, merge, done + {k})
  {
    forall c
      ensures c in after <==> c in before || exists j :: j in done + {k} && j != "." && ConflictAt(s, merge, j, c)
    {
      if ConflictAt(s, merge, k, c) { assert k in done + {k}; }
      if exists j :: j in done && j != "." && ConflictAt(s, merge, j, c) {
        var j :| j in done && j != "." && ConflictAt(s, merge, j, c);
        assert j in done + {k};
      }
    }
  }

  /** All children walked: the directory is merged. */
  lemma AllChildren(files: Tree, before: Tree, s: Sides, merge: FileMerge, name: string, materialize: bool)
    requires Closed(s, name) && name != "." && Decide(s, merge, name).Descend?
    requires forall p :: AtOrBelow(p, name) ==> p !in before
    requires ChildrenWritten(files, before[name := DirMeta(Decide(s, merge, name).mode)], s, merge, Children(s, name),
        materialize)
    ensures Writes(files, before, s, merge, name, materialize)
  {
    var made := before[name := DirMeta(Decide(s, merge, name).mode)];
    forall p
      ensures At(files, p) == if AtOrBelow(p, name) then Merged(s, merge, name, p, materialize) else At(before, p)
    {
      if !AtOrBelow(p, name) || p == name {
        forall k | k in Children(s, name) ensures !AtOrBelow(p, k) {
          ChildNotAbove(name, k);
          if AtOrBelow(p, k) { BelowTransitive(p, k, name); }
        }
      } else {
        var k := Toward(name, p);
        ChildNotAbove(name, k);
        if k in Names(s) {
          FateOfChild(s, merge, name, k, p);
        } else {
          NothingMerged(s, merge, name, k, p, materialize);
          forall j | j in Children(s, name) ensures !AtOrBelow(p, j) {
            if AtOrBelow(p, j) { SiblingsDisjoint(name, j, k, p); }
          }
        }
      }
    }
  }

  lemma AllReported(conflicts: set<string>, before: set<string>, s: Sides, merge: FileMerge, name: string)
    requires Closed(s, name) && name != "." && Decide(s, merge, name).Descend?
    requires ChildrenReported(conflicts, before, s, merge, Children(s, name))
    ensures Reports(conflicts, before, s, merge, name)
  {
    forall c
      ensures ConflictAt(s, merge, name, c) <==>
          exists k :: k in Children(s, name) && k != "." && ConflictAt(s, merge, k, c)
    {
      if exists k :: k in Children(s, name) && k != "." && ConflictAt(s, merge, k, c) {
        var k :| k in Children(s, name) && k != "." && ConflictAt(s, merge, k, c);
        ChildNotAbove(name, k);
        BelowTransitive(c, k, name);
        FateOfChild(s, merge, name, k, c);
      }
      if ConflictAt(s, merge, name, c) {
        var k := Toward(name, c);
        ChildNotAbove(name, k);
        FateOfChild(s, merge, name, k, c);
        if k !in Names(s) { NothingMerged(s, merge, name, k, c, false); }
        assert k in Children(s, name);
      }
    }
  }

  /** A verdict that stops the walk governs everything below. */
  lemma Stops(s: Sides, merge: FileMerge, name: string, p: string)
    requires name != "." && !Decide(s, merge, name).Descend?
    ensures AtOrBelow(p, name) ==> FateOf(s, merge, name, p) == Fate(Decide(s, merge, name), name)
    ensures ConflictAt(s, merge, name, p) <==> p == name && Decide(s, merge, name).Conflict?
  {
    if AtOrBelow(p, name) { FateInherited(s, merge, name, name, p); }
  }

  lemma StopsWriting(files: Tree, before: Tree, s: Sides, merge: FileMerge, name: string, materialize: bool)
    requires name != "." && !Decide(s, merge, name).Descend?
    requires forall p :: At(files, p) == if AtOrBelow(p, name) then
        Outcome(s, Decide(s, merge, name), name, p, materialize) else At(before, p)
    ensures Writes(files, before, s, merge, name, materialize)
  {
    forall p | AtOrBelow(p, name) ensures At(files, p) == Merged(s, merge, name, p, materialize) {
      Stops(s, merge, name, p);
    }
  }

  lemma StopsReporting(conflicts: set<string>, before: set<string>, s: Sides, merge: FileMerge, name: string)
    requires name != "." && !Decide(s, merge, name).Descend?
    requires conflicts == if Decide(s, merge, name).Conflict? then before + {name} else before
    ensures Reports(conflicts, before, s, merge, name)
  {
    forall c ensures c in conflicts <==> c in before || ConflictAt(s, merge, name, c) { Stops(s, merge, name, c); }
  }

  // ---- The walk ----

  /** Which subtrees of each pair of trees differ. */
  datatype Deltas = Deltas(baseOurs: set<string>, baseRemote: set<string>, oursRemote: set<string>)

  ghost predicate Compares(d: Deltas, s: Sides) {
    && (forall n :: n in d.baseOurs <==> n != "." && Differs(s.base, s.ours, n))
    && (forall n :: n in d.baseRemote <==> n != "." && Differs(s.base, s.remote, n))
    && (forall n :: n in d.oursRemote <==> n != "." && Differs(s.ours, s.remote, n))
  }

  predicate WithinDepth(s: Sides, depth: nat) { forall k :: k in Names(s) ==> |k| <= depth }

  ghost function Left(depth: nat, name: string): nat { if |name| <= depth then depth - |name| else 0 }

  /** A closed tree without an entry for the top has none below it. */
  lemma TopNeeded(t: Tree, name: string)
    requires ClosedBelow(t, name) && name != "."
    ensures name !in t ==> forall p :: AtOrBelow(p, name) ==> p !in t
  {
    forall p | AtOrBelow(p, name) && p in t && p != name ensures name in t { NothingBelow(t, name, p); }
  }

  /** The merged scratch tree and the conflicts found so far. */
  class Scratch {
    var files: Tree
    var conflicts: set<string>

    constructor ()
      ensures files == map[] && conflicts == {}
    {
      files, conflicts := map[], {};
    }

    /** Copies the subtree if the source has its top; without it nothing is copied. */
    method CopySubtree(source: Tree, name: string)
      modifies this`files
      ensures forall p :: name in source && AtOrBelow(p, name) && p in source ==> At(files, p) == At(source, p)
      ensures forall p :: name !in source || !AtOrBelow(p, name) || p !in source ==> At(files, p) == old(At(files, p))
    {
      if name !in source { return; }
      files := files + map p | p in source && AtOrBelow(p, name) :: source[p];
    }

    /** Stop at `name` with what its verdict leaves. */
    method Stop(s: Sides, v: Verdict, name: string, materialize: bool)
      requires Closed(s, name) && name != "." && !v.Descend? && forall p :: AtOrBelow(p, name) ==> p !in files
      modifies this
      ensures forall p :: At(files, p) == if AtOrBelow(p, name) then
          Outcome(s, v, name, p, materialize) else old(At(files, p))
      ensures conflicts == if v.Conflict? then old(conflicts) + {name} else old(conflicts)
    {
      TopNeeded(s.ours, name);
      TopNeeded(s.remote, name);
      match v
      case KeepOurs => CopySubtree(s.ours, name);
      case TakeRemote => CopySubtree(s.remote, name);
      case Write(e) => files := files[name := e];
      case Conflict(w) =>
        conflicts := conflicts + {name};
        if materialize {
          if w.None? { CopySubtree(s.ours, name); } else { files := files[name := w.value]; }
        }
    }

    method MergeTreePath(s: Sides, merge: FileMerge, d: Deltas, name: string, materialize: bool, ghost depth: nat)
      requires Closed(s, name) && name != "." && Compares(d, s) && WithinDepth(s, depth)
      requires forall p :: AtOrBelow(p, name) ==> p !in files
      modifies this
      ensures Writes(files, old(files), s, merge, name, materialize)
      ensures Reports(conflicts, old(conflicts), s, merge, name)
      decreases Left(depth, name), 1
    {
      var v := Choose(name in d.oursRemote, name in d.baseOurs, name in d.baseRemote, At(s.base, name),
          At(s.ours, name), At(s.remote, name), merge);
      assert v == Decide(s, merge, name);
      if v.Descend? {
        files := files[name := DirMeta(v.mode)];
        MergeChildren(s, merge, d, name, materialize, depth);
        AllChildren(files, old(files), s, merge, name, materialize);
        AllReported(conflicts, old(conflicts), s, merge, name);
      } else {
        Stop(s, v, name, materialize);
        StopsWriting(files, old(files), s, merge, name, materialize);
        StopsReporting(conflicts, old(conflicts), s, merge, name);
      }
    }

    /** Merge every child; their order does not matter. */
    method MergeChildren(s: Sides, merge: FileMerge, d: Deltas, name: string, materialize: bool, ghost depth: nat)
      requires Closed(s, name) && name != "." && Compares(d, s) && WithinDepth(s, depth)
      requires forall p :: AtOrBelow(p, name) && p != name ==> p !in files
      modifies this
      ensures Walked(files, conflicts, old(files), old(conflicts), s, merge, Children(s, name), materialize)
      decreases Left(depth, name), 0
    {
      var todo := Children(s, name);
      ghost var done: set<string> := {};
      assert done + todo == todo;
      NoChildrenYet(files, conflicts, s, merge, materialize);
      while todo != {}
        invariant Divides(done, todo, s, name)
        invariant Walked(files, conflicts, old(files), old(conflicts), s, merge, done, materialize)
        decreases |todo|
      {
        var k :| k in todo;
        NextChild(done, todo, s, name, k, depth);
        MergeChild(s, merge, d, name, k, materialize, depth, done, old(files), old(conflicts));
        done, todo := done + {k}, todo - {k};
      }
      assert done == done + todo;
    }

    method MergeChild(s: Sides, merge: FileMerge, d: Deltas, name: string, k: string, materialize: bool,
                      ghost depth: nat,
                      ghost done: set<string>, ghost files0: Tree, ghost conflicts0: set<string>)
      requires Closed(s, name) && name != "." && Compares(d, s) && WithinDepth(s, depth)
      requires done <= Children(s, name) && k in Children(s, name) && k !in done
      requires forall p :: AtOrBelow(p, name) && p != name ==> p !in files0
      requires Walked(files, conflicts, files0, conflicts0, s, merge, done, materialize)
      modifies this
      ensures Walked(files, conflicts, files0, conflicts0, s, merge, done + {k}, materialize)
      decreases Left(depth, k), 2
    {
      ChildNotAbove(name, k);
      ClosedDown(s, name, k);
      ChildUntouched(files, files0, s, merge, name, done, k, materialize);
      MergeTreePath(s, merge, d, k, materialize, depth);
      OneMoreChild(old(files), files, files0, s, merge, name, done, k, materialize);
      OneMoreReport(old(conflicts), conflicts, conflicts0, s, merge, done, k);
    }
  }

  /** Nothing has been written below a child that is still to come. */
  lemma ChildUntouched(files: Tree, before: Tree, s: Sides, merge: FileMerge, name: string, done: set<string>,
                       k: string, materialize: bool)
    requires name != "." && done <= Children(s, name) && Dir(k) == name && k !in done
    requires ChildrenWritten(files, before, s, merge, done, materialize)
    requires forall p :: AtOrBelow(p, name) && p != name ==> p !in before
    ensures forall p :: AtOrBelow(p, k) ==> p !in files
  {
    ChildNotAbove(name, k);
    forall p | AtOrBelow(p, k) ensures p !in files {
      forall j | j in done ensures !AtOrBelow(p, j) {
        if AtOrBelow(p, j) { SiblingsDisjoint(name, j, k, p); }
      }
      BelowTransitive(p, k, name);
      assert At(files, p) == At(before, p);
    }
  }
}

/** Three-way merge of change roots: a local tree and a remote tree against their common base. */
module Merge {
  import opened Paths
  import opened Rows
  import opened Manifests

  type Tree = map<string, Meta>

  function At(t: Tree, p: string): Option<Meta> { if p in t then Some(t[p]) else None }

  datatype Sides = Sides(base: Tree, ours: Tree, remote: Tree)

  /** Below the root every entry lies in a directory entry.  What is above the root need not be listed. */
  predicate ClosedBelow(t: Tree, root: string) {
    forall p :: p in t && AtOrBelow(p, root) && p != root ==> Dir(p) in t && t[Dir(p)].kind == Directory
  }

  predicate Closed(s: Sides, root: string) {
    ClosedBelow(s.base, root) && ClosedBelow(s.ours, root) && ClosedBelow(s.remote, root)
  }

  lemma ClosedFurtherDown(t: Tree, root: string, p: string)
    requires ClosedBelow(t, root) && AtOrBelow(p, root)
    ensures ClosedBelow(t, p)
  {
    forall q | q in t && AtOrBelow(q, p) && q != p ensures Dir(q) in t && t[Dir(q)].kind == Directory {
      BelowTransitive(q, p, root);
      if q == root { BelowAntisymmetric(p, q); }
    }
  }

  lemma ClosedDown(s: Sides, root: string, p: string)
    requires Closed(s, root) && AtOrBelow(p, root)
    ensures Closed(s, p)
  {
    ClosedFurtherDown(s.base, root, p);
    ClosedFurtherDown(s.ours, root, p);
    ClosedFurtherDown(s.remote, root, p);
  }

  /** Directory entries carry a mode and nothing else. */
  function DirMeta(mode: nat): Meta { Meta(Directory, mode, 0, "", "") }

  predicate PlainDirs(t: Tree) { forall p :: p in t && t[p].kind == Directory ==> t[p] == DirMeta(t[p].mode) }

  /** Something at or below the path differs. */
  ghost predicate Differs(x: Tree, y: Tree, name: string) {
    exists q :: AtOrBelow(q, name) && At(x, q) != At(y, q)
  }

  // ---- Deciding one path ----

  /** The content of a merged regular file. */
  datatype Content = Content(size: int, sha256: string)

  datatype Merging = Clean(content: Content) | TextConflict(content: Content) | BinaryConflict

  /** Merges local, base and remote content. */
  type FileMerge = (string, string, string) -> Merging

  datatype Verdict =
    | KeepOurs                          // the local subtree stays
    | TakeRemote                        // the remote subtree replaces it
    | Descend(mode: nat)                // a directory on both sides, merged child by child
    | Write(entry: Meta)                // a merged file or link
    | Conflict(written: Option<Meta>)   // what a materialized conflict shows; None is the local subtree

  function MergeMode(base: Option<nat>, ours: nat, remote: nat): Option<nat> {
    if ours == remote then Some(ours)
    else if base.None? then None
    else if ours == base.value then Some(remote)
    else if remote == base.value then Some(ours)
    else None
  }

  function MergeString(base: string, ours: string, remote: string): Option<string> {
    if ours == remote then Some(ours) else if ours == base then Some(remote) else if remote == base then
        Some(ours) else None
  }

  predicate Is(e: Option<Meta>, kind: Kind) { e.Some? && e.value.kind == kind }

  predicate All(b: Option<Meta>, o: Option<Meta>, r: Option<Meta>, kind: Kind) {
    Is(b, kind) && Is(o, kind) && Is(r, kind)
  }

  function FileMeta(mode: nat, c: Content): Meta { Meta(File, mode, c.size, c.sha256, "") }

  function MergeFiles(b: Meta, o: Meta, r: Meta, merge: FileMerge): Verdict {
    var mode := MergeMode(Some(b.mode), o.mode, r.mode);
    match merge(o.sha256, b.sha256, r.sha256)
    case Clean(c) => if mode.Some? then Write(FileMeta(mode.value, c)) else Conflict(Some(FileMeta(o.mode, c)))
    case TextConflict(c) => Conflict(Some(FileMeta(if mode.Some? then mode.value else o.mode, c)))
    case BinaryConflict => Conflict(None)
  }

  function MergeLinks(b: Meta, o: Meta, r: Meta): Verdict {
    var target := MergeString(b.target, o.target, r.target);
    var mode := MergeMode(Some(b.mode), o.mode, r.mode);
    if target.Some? && mode.Some? then Write(Meta(Symlink, mode.value, 0, "", target.value)) else Conflict(None)
  }

  /** The branch taken at one path, given which pairs of trees differ at or below it. */
  function Choose(oursRemote: bool, baseOurs: bool, baseRemote: bool,
                  b: Option<Meta>, o: Option<Meta>, r: Option<Meta>, merge: FileMerge): Verdict
  {
    if !oursRemote then KeepOurs
    else if !baseOurs then TakeRemote
    else if !baseRemote then KeepOurs
    else if Is(o, Directory) && Is(r, Directory) && (b.None? || Is(b, Directory)) then
      var mode := MergeMode(if b.Some? then Some(b.value.mode) else None, o.value.mode, r.value.mode);
      if mode.Some? then Descend(mode.value) else Conflict(None)
    else if All(b, o, r, File) then MergeFiles(b.value, o.value, r.value, merge)
    else if All(b, o, r, Symlink) then MergeLinks(b.value, o.value, r.value)
    else Conflict(None)
  }

  ghost function Decide(s: Sides, merge: FileMerge, name: string): Verdict {
    Choose(Differs(s.ours, s.remote, name), Differs(s.base, s.ours, name), Differs(s.base, s.remote, name),
      At(s.base, name), At(s.ours, name), At(s.remote, name), merge)
  }

  // ---- What becomes of every path below a root ----

  /** The verdict that governs a path, and where it was reached. */
  datatype Fate = Fate(verdict: Verdict, at: string)

  ghost function FateOf(s: Sides, merge: FileMerge, root: string, p: string): Fate
    requires root != "." && AtOrBelow(p, root)
    decreases |p|
  {
    if p == root then Fate(Decide(s, merge, root), root) else
      BelowParent(p, root);
      DirHeight(p);
      var above := FateOf(s, merge, root, Dir(p));
      if above.verdict.Descend? then Fate(Decide(s, merge, p), p) else above
  }

  /** The entry a verdict reached at `at` leaves at `p`. */
  function Outcome(s: Sides, v: Verdict, at: string, p: string, materialize: bool): Option<Meta> {
    match v
    case KeepOurs => At(s.ours, p)
    case TakeRemote => At(s.remote, p)
    case Descend(mode) => if p == at then Some(DirMeta(mode)) else None
    case Write(e) => if p == at then Some(e) else None
    case Conflict(w) =>
      if !materialize then None else if w.None? then At(s.ours, p) else if p == at then w else None
  }

  /** The merged tree. */
  ghost function Merged(s: Sides, merge: FileMerge, root: string, p: string, materialize: bool): Option<Meta>
    requires root != "." && AtOrBelow(p, root)
  {
    var f := FateOf(s, merge, root, p);
    Outcome(s, f.verdict, f.at, p, materialize)
  }

  /** `c` is reported as a conflict. */
  ghost predicate ConflictAt(s: Sides, merge: FileMerge, root: string, c: string)
    requires root != "."
  {
    AtOrBelow(c, root) && FateOf(s, merge, root, c) == Fate(Decide(s, merge, c), c) && Decide(s, merge, c).Conflict?
  }

  /** No reported conflict is at or above `p`. */
  ghost predicate Unconflicted(s: Sides, merge: FileMerge, root: string, p: string)
    requires root != "."
  {
    forall c :: AtOrBelow(p, c) ==> !ConflictAt(s, merge, root, c)
  }

  // ---- Fates ----

  /** The verdict was reached at or above the path; above it, every directory was descended into. */
  lemma {:induction false} FatePlace(s: Sides, merge: FileMerge, root: string, p: string)
    requires root != "." && AtOrBelow(p, root)
    ensures var f := FateOf(s, merge, root, p);
      && AtOrBelow(p, f.at) && AtOrBelow(f.at, root) && f.verdict == Decide(s, merge, f.at)
      && FateOf(s, merge, root, f.at) == f && (f.verdict.Descend? ==> f.at == p)
    decreases |p|
  {
    if p != root {
      BelowParent(p, root);
      DirHeight(p);
      FatePlace(s, merge, root, Dir(p));
      var above := FateOf(s, merge, root, Dir(p));
      BelowParent(p, above.at);
    }
  }

  /** Below a path where the merge stopped, its verdict governs. */
  lemma {:induction false} FateInherited(s: Sides, merge: FileMerge, root: string, c: string, p: string)
    requires root != "." && AtOrBelow(c, root) && AtOrBelow(p, c) && AtOrBelow(p, root) && c != "."
    requires !FateOf(s, merge, root, c).verdict.Descend?
    ensures FateOf(s, merge, root, p) == FateOf(s, merge, root, c)
    decreases |p|
  {
    if p != c {
      BelowParent(p, c);
      BelowParent(p, root);
      DirHeight(p);
      if p == root { BelowAntisymmetric(p, c); }
      FateInherited(s, merge, root, c, Dir(p));
    }
  }

  /** A conflict governs exactly the paths at or below it. */
  lemma ConflictGoverns(s: Sides, merge: FileMerge, root: string, p: string)
    requires root != "." && AtOrBelow(p, root)
    ensures Unconflicted(s, merge, root, p) <==> !FateOf(s, merge, root, p).verdict.Conflict?
  {
    FatePlace(s, merge, root, p);
    var f := FateOf(s, merge, root, p);
    if f.verdict.Conflict? { assert ConflictAt(s, merge, root, f.at); }
    forall c | AtOrBelow(p, c) && ConflictAt(s, merge, root, c) ensures f.verdict.Conflict? {
      RootBelowDot(c, root);
      FateInherited(s, merge, root, c, p);
    }
  }

  /** Reported conflicts are never nested. */
  lemma ConflictsDisjoint(s: Sides, merge: FileMerge, root: string, c: string, d: string)
    requires root != "." && ConflictAt(s, merge, root, c) && ConflictAt(s, merge, root, d) && AtOrBelow(d, c)
    ensures c == d
  {
    RootBelowDot(c, root);
    FateInherited(s, merge, root, c, d);
  }

  // ---- The merge law ----

  /** In a closed tree nothing lies below what is not a directory. */
  lemma {:induction false} NothingBelow(t: Tree, p: string, q: string)
    requires ClosedBelow(t, p) && AtOrBelow(q, p) && q != p && q in t && p != "."
    ensures p in t && t[p].kind == Directory
    decreases |q|
  {
    BelowParent(q, p);
    DirHeight(q);
    if Dir(q) == "." { RootBelowDot(Dir(q), p); }
    if Dir(q) != p { NothingBelow(t, p, Dir(q)); }
  }

  /** Trees that agree on something other than a directory agree on everything below it. */
  lemma LeavesAgree(x: Tree, y: Tree, p: string)
    requires ClosedBelow(x, p) && ClosedBelow(y, p) && p != "." && At(x, p) == At(y, p) && !Is(At(x, p), Directory)
    ensures !Differs(x, y, p)
  {
    forall q | AtOrBelow(q, p) ensures At(x, q) == At(y, q) {
      if q != p && q in x { NothingBelow(x, p, q); }
      if q != p && q in y { NothingBelow(y, p, q); }
    }
  }

  /** Which sides must agree for a subtree to be taken whole. */
  lemma ChooseTaken(oursRemote: bool, baseOurs: bool, baseRemote: bool,
                    b: Option<Meta>, o: Option<Meta>, r: Option<Meta>, merge: FileMerge)
    ensures var v := Choose(oursRemote, baseOurs, baseRemote, b, o, r, merge);
      && (v.KeepOurs? ==> !oursRemote || !baseRemote) && (v.TakeRemote? ==> !baseOurs)
      && (!v.KeepOurs? && !v.TakeRemote? ==> oursRemote && baseOurs && baseRemote)
  {
  }

  lemma Agree(x: Tree, y: Tree, at: string, p: string)
    requires !Differs(x, y, at) && AtOrBelow(p, at)
    ensures At(x, p) == At(y, p)
  {
  }

  /** Where the verdict came from above, the entry is the chosen side's. */
  lemma TakenSide(s: Sides, merge: FileMerge, at: string, p: string)
    requires AtOrBelow(p, at)
    ensures var v := Decide(s, merge, at);
      && (v.KeepOurs? ==> At(s.ours, p) == At(s.remote, p) || At(s.base, p) == At(s.remote, p))
      && (v.TakeRemote? ==> At(s.base, p) == At(s.ours, p))
  {
    ChooseTaken(Differs(s.ours, s.remote, at), Differs(s.base, s.ours, at), Differs(s.base, s.remote, at),
      At(s.base, at), At(s.ours, at), At(s.remote, at), merge);
    if !Differs(s.ours, s.remote, at) { Agree(s.ours, s.remote, at, p); }
    if !Differs(s.base, s.remote, at) { Agree(s.base, s.remote, at, p); }
    if !Differs(s.base, s.ours, at) { Agree(s.base, s.ours, at, p); }
  }

  /** Directories merge like their modes. */
  lemma DirectoriesYield(b: Option<Meta>, o: Option<Meta>, r: Option<Meta>, oursRemote: bool, baseOurs: bool,
                         baseRemote: bool, merge: FileMerge)
    requires Is(o, Directory) ==> o.value == DirMeta(o.value.mode)
    requires Is(r, Directory) ==> r.value == DirMeta(r.value.mode)
    requires Choose(oursRemote, baseOurs, baseRemote, b, o, r, merge).Descend?
    ensures var m := Some(DirMeta(Choose(oursRemote, baseOurs, baseRemote, b, o, r, merge).mode));
      && (o == b ==> m == r) && (r == b ==> m == o) && (o == r ==> m == o)
  {
  }

  /** Files and links are merged only where all three sides differ. */
  lemma WrittenDiffers(s: Sides, merge: FileMerge, p: string)
    requires Closed(s, p) && p != "." && Decide(s, merge, p).Write?
    ensures At(s.ours, p) != At(s.base, p) && At(s.remote, p) != At(s.base, p) && At(s.ours, p) != At(s.remote, p)
  {
    ChooseTaken(Differs(s.ours, s.remote, p), Differs(s.base, s.ours, p), Differs(s.base, s.remote, p),
      At(s.base, p), At(s.ours, p), At(s.remote, p), merge);
    if At(s.ours, p) == At(s.base, p) { LeavesAgree(s.base, s.ours, p); }
    if At(s.remote, p) == At(s.base, p) { LeavesAgree(s.base, s.remote, p); }
    if At(s.ours, p) == At(s.remote, p) { LeavesAgree(s.ours, s.remote, p); }
  }

  /** At a descended or merged path, an unchanged side yields to the other. */
  lemma YieldsAt(s: Sides, merge: FileMerge, p: string)
    requires Closed(s, p) && PlainDirs(s.ours) && PlainDirs(s.remote) && p != "."
    requires Decide(s, merge, p).Descend? || Decide(s, merge, p).Write?
    ensures var m := Outcome(s, Decide(s, merge, p), p, p, false);
      && (At(s.ours, p) == At(s.base, p) ==> m == At(s.remote, p))
      && (At(s.remote, p) == At(s.base, p) ==> m == At(s.ours, p))
      && (At(s.ours, p) == At(s.remote, p) ==> m == At(s.ours, p))
  {
    if Decide(s, merge, p).Write? {
      WrittenDiffers(s, merge, p);
    } else {
      DirectoriesYield(At(s.base, p), At(s.ours, p), At(s.remote, p),
        Differs(s.ours, s.remote, p), Differs(s.base, s.ours, p), Differs(s.base, s.remote, p), merge);
    }
  }

  /** Nothing is merged below a merged file or link. */
  lemma BelowWritten(s: Sides, merge: FileMerge, at: string, p: string)
    requires Closed(s, at) && at != "." && AtOrBelow(p, at) && p != at && Decide(s, merge, at).Write?
    ensures At(s.base, p) == At(s.ours, p) == At(s.remote, p) == None
  {
    if p in s.base { NothingBelow(s.base, at, p); }
    if p in s.ours { NothingBelow(s.ours, at, p); }
    if p in s.remote { NothingBelow(s.remote, at, p); }
  }

  /** At every path that is not at or below a conflict, an unchanged side takes the other's entry. */
  lemma MergeLaw(s: Sides, merge: FileMerge, root: string, p: string, materialize: bool)
    requires Closed(s, root) && PlainDirs(s.ours) && PlainDirs(s.remote)
    requires root != "." && AtOrBelow(p, root) && Unconflicted(s, merge, root, p)
    ensures At(s.ours, p) == At(s.base, p) ==> Merged(s, merge, root, p, materialize) == At(s.remote, p)
    ensures At(s.remote, p) == At(s.base, p) ==> Merged(s, merge, root, p, materialize) == At(s.ours, p)
    ensures At(s.ours, p) == At(s.remote, p) ==> Merged(s, merge, root, p, materialize) == At(s.ours, p)
  {
    FatePlace(s, merge, root, p);
    ConflictGoverns(s, merge, root, p);
    var f := FateOf(s, merge, root, p);
    RootBelowDot(f.at, root);
    TakenSide(s, merge, f.at, p);
    ClosedDown(s, root, f.at);
    if f.verdict.Descend? || (f.verdict.Write? && f.at == p) {
      YieldsAt(s, merge, p);
    } else if f.verdict.Write? {
      BelowWritten(s, merge, f.at, p);
    }
  }

  // ---- Swapping the sides ----

  function Swap(s: Sides): Sides { Sides(s.base, s.remote, s.ours) }

  /** The file merge finds the same clean result from either side. */
  ghost predicate Symmetric(merge: FileMerge) {
    forall o, b, r :: merge(o, b, r).Clean? ==> merge(r, b, o) == merge(o, b, r)
  }

  predicate TakesSide(v: Verdict) { v.KeepOurs? || v.TakeRemote? }

  /** The same decision, seen from the other side. */
  predicate Mirrors(v: Verdict, w: Verdict) {
    (v.Conflict? && w.Conflict?) || (TakesSide(v) && TakesSide(w)) || (v == w && (v.Descend? || v.Write?))
  }

  lemma DiffersSwap(x: Tree, y: Tree, p: string)
    ensures Differs(x, y, p) <==> Differs(y, x, p)
  {
  }

  lemma ChooseSwap(oursRemote: bool, baseOurs: bool, baseRemote: bool,
                   b: Option<Meta>, o: Option<Meta>, r: Option<Meta>, merge: FileMerge)
    requires Symmetric(merge)
    ensures Mirrors(Choose(oursRemote, baseOurs, baseRemote, b, o, r, merge),
        Choose(oursRemote, baseRemote, baseOurs, b, r, o, merge))
  {
    if All(b, o, r, File) {
      assert merge(o.value.sha256, b.value.sha256, r.value.sha256).Clean?
        <==> merge(r.value.sha256, b.value.sha256, o.value.sha256).Clean?;
    }
  }

  lemma DecideSwap(s: Sides, merge: FileMerge, p: string)
    requires Symmetric(merge)
    ensures Mirrors(Decide(s, merge, p), Decide(Swap(s), merge, p))
  {
    DiffersSwap(s.ours, s.remote, p);
    ChooseSwap(Differs(s.ours, s.remote, p), Differs(s.base, s.ours, p), Differs(s.base, s.remote, p),
      At(s.base, p), At(s.ours, p), At(s.remote, p), merge);
  }

  lemma {:induction false} FateSwap(s: Sides, merge: FileMerge, root: string, p: string)
    requires Symmetric(merge) && root != "." && AtOrBelow(p, root)
    ensures var f, g := FateOf(s, merge, root, p), FateOf(Swap(s), merge, root, p);
      f.at == g.at && Mirrors(f.verdict, g.verdict)
    decreases |p|
  {
    DecideSwap(s, merge, p);
    if p != root {
      BelowParent(p, root);
      DirHeight(p);
      FateSwap(s, merge, root, Dir(p));
    }
  }

  /** Whichever side is taken, it is the same entry. */
  lemma SideSwap(s: Sides, merge: FileMerge, at: string, p: string, materialize: bool)
    requires AtOrBelow(p, at) && TakesSide(Decide(s, merge, at)) && TakesSide(Decide(Swap(s), merge, at))
    ensures Outcome(s, Decide(s, merge, at), at, p, materialize)
      == Outcome(Swap(s), Decide(Swap(s), merge, at), at, p, materialize)
  {
    DiffersSwap(s.ours, s.remote, at);
    if !Differs(s.ours, s.remote, at) {
      assert At(s.ours, p) == At(s.remote, p);
    } else if !Differs(s.base, s.ours, at) && !Differs(s.base, s.remote, at) {
      BothUnchanged(s, at);
    }
  }

  lemma BothUnchanged(s: Sides, at: string)
    requires !Differs(s.base, s.ours, at) && !Differs(s.base, s.remote, at)
    ensures !Differs(s.ours, s.remote, at)
  {
    forall q | AtOrBelow(q, at) ensures At(s.ours, q) == At(s.remote, q) {
      assert At(s.base, q) == At(s.ours, q);
    }
  }

  /** Swapping the sides reports the same conflicts and merges every other path to the same entry. */
  lemma MergeSymmetric(s: Sides, merge: FileMerge, root: string, p: string, materialize: bool)
    requires Symmetric(merge) && root != "." && AtOrBelow(p, root)
    ensures ConflictAt(s, merge, root, p) <==> ConflictAt(Swap(s), merge, root, p)
    ensures Unconflicted(s, merge, root, p) ==>
      Merged(s, merge, root, p, materialize) == Merged(Swap(s), merge, root, p, materialize)
  {
    FateSwap(s, merge, root, p);
    FatePlace(s, merge, root, p);
    FatePlace(Swap(s), merge, root, p);
    ConflictGoverns(s, merge, root, p);
    var f := FateOf(s, merge, root, p);
    if TakesSide(f.verdict) { SideSwap(s, merge, f.at, p, materialize); }
  }
}

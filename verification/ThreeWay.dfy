/** The three-way merge where all three sides differ: what is merged, what is a conflict, and what a
    conflict shows. */
module ThreeWay {
  import opened Paths
  import opened Rows
  import opened Manifests
  import opened Merge
  import opened MergeRoots

  // ---- What can be merged ----

  /** The sides agree, or one of them kept the base. */
  predicate Reconcilable<T(==)>(base: Option<T>, ours: T, remote: T) {
    ours == remote || base == Some(ours) || base == Some(remote)
  }

  /** The merged value is the one that a change was made to. */
  predicate Reconciled<T(==)>(base: Option<T>, ours: T, remote: T, merged: T) {
    && Reconcilable(base, ours, remote)
    && (base == Some(ours) ==> merged == remote) && (base == Some(remote) ==> merged == ours)
    && (ours == remote ==> merged == ours)
  }

  function ModeOf(e: Option<Meta>): Option<nat> { if e.Some? then Some(e.value.mode) else None }

  /** Two directories, made or kept by both sides, whose modes were not changed apart. */
  predicate MergeableDirs(b: Option<Meta>, o: Option<Meta>, r: Option<Meta>) {
    Is(o, Directory) && Is(r, Directory) && (b.Some? ==> Is(b, Directory)) &&
        Reconcilable(ModeOf(b), o.value.mode, r.value.mode)
  }

  predicate MergeableFiles(b: Option<Meta>, o: Option<Meta>, r: Option<Meta>, merge: FileMerge) {
    All(b, o, r, File) && merge(o.value.sha256, b.value.sha256, r.value.sha256).Clean? &&
        Reconcilable(ModeOf(b), o.value.mode, r.value.mode)
  }

  predicate MergeableLinks(b: Option<Meta>, o: Option<Meta>, r: Option<Meta>) {
    All(b, o, r, Symlink) && Reconcilable(Some(b.value.target), o.value.target, r.value.target) &&
        Reconcilable(ModeOf(b), o.value.mode, r.value.mode)
  }

  /** The subtrees of all three sides differ. */
  ghost predicate SubtreesDiffer(s: Sides, p: string) {
    Differs(s.ours, s.remote, p) && Differs(s.base, s.ours, p) && Differs(s.base, s.remote, p)
  }

  /** Every side has another entry at the path itself. */
  predicate EntriesDiffer(s: Sides, p: string) {
    At(s.ours, p) != At(s.remote, p) && At(s.base, p) != At(s.ours, p) && At(s.base, p) != At(s.remote, p)
  }

  ghost predicate ConflictAbove(s: Sides, merge: FileMerge, root: string, p: string)
    requires root != "."
  {
    exists c :: AtOrBelow(p, c) && c != p && ConflictAt(s, merge, root, c)
  }

  // ---- Which paths are decided on their own ----

  lemma DiffersUp(x: Tree, y: Tree, p: string, q: string)
    requires Differs(x, y, p) && AtOrBelow(p, q)
    ensures Differs(x, y, q)
  {
    var w :| AtOrBelow(w, p) && At(x, w) != At(y, w);
    BelowTransitive(w, p, q);
  }

  lemma EntriesThenSubtrees(s: Sides, p: string)
    requires EntriesDiffer(s, p)
    ensures SubtreesDiffer(s, p)
  {
    BelowReflexive(p);
  }

  /** Below a merged file or link nothing differs. */
  lemma SameBelowWritten(s: Sides, merge: FileMerge, at: string, p: string)
    requires Closed(s, at) && at != "." && AtOrBelow(p, at) && p != at && Decide(s, merge, at).Write?
    ensures !Differs(s.ours, s.remote, p)
  {
    forall q | AtOrBelow(q, p) ensures At(s.ours, q) == At(s.remote, q) {
      BelowTransitive(q, p, at);
      if q == at { BelowAntisymmetric(p, at); }
      BelowWritten(s, merge, at, q);
    }
  }

  /** Where all subtrees differ, those above differ too, and no side was taken whole. */
  lemma NotTaken(s: Sides, merge: FileMerge, at: string, p: string)
    requires SubtreesDiffer(s, p) && AtOrBelow(p, at)
    ensures !Decide(s, merge, at).KeepOurs? && !Decide(s, merge, at).TakeRemote?
  {
    DiffersUp(s.ours, s.remote, p, at);
    DiffersUp(s.base, s.ours, p, at);
    DiffersUp(s.base, s.remote, p, at);
    ChooseTaken(true, true, true, At(s.base, at), At(s.ours, at), At(s.remote, at), merge);
  }

  /** With no conflict above it, a path where all subtrees differ is reached by the walk. */
  lemma Reached(s: Sides, merge: FileMerge, root: string, p: string)
    requires Closed(s, root) && root != "." && AtOrBelow(p, root)
    requires SubtreesDiffer(s, p) && !ConflictAbove(s, merge, root, p)
    ensures FateOf(s, merge, root, p) == Fate(Decide(s, merge, p), p)
  {
    FatePlace(s, merge, root, p);
    var f := FateOf(s, merge, root, p);
    if f.at != p {
      NotTaken(s, merge, f.at, p);
      if f.verdict.Write? {
        RootBelowDot(f.at, root);
        ClosedDown(s, root, f.at);
        SameBelowWritten(s, merge, f.at, p);
      }
    }
  }

  // ---- Conflicts ----

  /** Outside other conflicts, a path is a conflict exactly if the subtrees of all sides differ and its
      entries can be merged neither as directories nor as files nor as links. */
  lemma ConflictExactly(s: Sides, merge: FileMerge, root: string, p: string)
    requires Closed(s, root) && root != "." && AtOrBelow(p, root) && !ConflictAbove(s, merge, root, p)
    ensures var b, o, r := At(s.base, p), At(s.ours, p), At(s.remote, p);
      ConflictAt(s, merge, root, p) <==>
        SubtreesDiffer(s, p) && !MergeableDirs(b, o, r) && !MergeableFiles(b, o, r, merge) && !MergeableLinks(b, o, r)
  {
    if SubtreesDiffer(s, p) { Reached(s, merge, root, p); }
  }

  // ---- Values ----

  /** Three different files: their contents are merged, and a mode that one side changed is taken. */
  lemma FilesMerge(s: Sides, merge: FileMerge, root: string, p: string, materialize: bool)
    requires Closed(s, root) && root != "." && AtOrBelow(p, root) && !ConflictAbove(s, merge, root, p)
    requires EntriesDiffer(s, p) && All(At(s.base, p), At(s.ours, p), At(s.remote, p), File)
    ensures var b, o, r := s.base[p], s.ours[p], s.remote[p];
      var result, modes := merge(o.sha256, b.sha256, r.sha256), Reconcilable(Some(b.mode), o.mode, r.mode);
      var m := Merged(s, merge, root, p, materialize);
      && (ConflictAt(s, merge, root, p) <==> !result.Clean? || !modes)
      && (result.Clean? && modes ==> IsFile(m, result.content, b.mode, o.mode, r.mode))
      && (!(result.Clean? && modes) && !materialize ==> m == None)
      && (materialize && result.BinaryConflict? ==> m == Some(o))
      && (materialize && !result.BinaryConflict? && modes ==> IsFile(m, result.content, b.mode, o.mode, r.mode))
      && (materialize && !result.BinaryConflict? && !modes ==>
            m == Some(Meta(File, o.mode, result.content.size, result.content.sha256, "")))
  {
    EntriesThenSubtrees(s, p);
    Reached(s, merge, root, p);
  }

  predicate IsFile(m: Option<Meta>, c: Content, base: nat, ours: nat, remote: nat) {
    Is(m, File) && m.value.size == c.size && m.value.sha256 == c.sha256 && m.value.target == "" &&
        Reconciled(Some(base), ours, remote, m.value.mode)
  }

  /** Three different links: target and mode are each merged, or the link is a conflict. */
  lemma LinksMerge(s: Sides, merge: FileMerge, root: string, p: string, materialize: bool)
    requires Closed(s, root) && root != "." && AtOrBelow(p, root) && !ConflictAbove(s, merge, root, p)
    requires EntriesDiffer(s, p) && All(At(s.base, p), At(s.ours, p), At(s.remote, p), Symlink)
    ensures var b, o, r := s.base[p], s.ours[p], s.remote[p];
      var m := Merged(s, merge, root, p, materialize);
      && (ConflictAt(s, merge, root, p) <==>
            !Reconcilable(Some(b.target), o.target, r.target) || !Reconcilable(Some(b.mode), o.mode, r.mode))
      && (ConflictAt(s, merge, root, p) ==> m == if materialize then Some(o) else None)
      && (!ConflictAt(s, merge, root, p) ==>
            Is(m, Symlink) && Reconciled(Some(b.target), o.target, r.target, m.value.target) &&
            Reconciled(Some(b.mode), o.mode, r.mode, m.value.mode))
  {
    EntriesThenSubtrees(s, p);
    Reached(s, merge, root, p);
  }

  /** Directories of three modes, or two made apart, and entries of different types or missing on a side:
      a conflict over the whole subtree, of which the local one is shown. */
  lemma OthersConflict(s: Sides, merge: FileMerge, root: string, p: string, q: string, materialize: bool)
    requires Closed(s, root) && PlainDirs(s.base) && PlainDirs(s.ours) && PlainDirs(s.remote)
    requires root != "." && AtOrBelow(p, root) && !ConflictAbove(s, merge, root, p) && EntriesDiffer(s, p)
    requires !All(At(s.base, p), At(s.ours, p), At(s.remote, p), File)
    requires !All(At(s.base, p), At(s.ours, p), At(s.remote, p), Symlink)
    requires AtOrBelow(q, p)
    ensures ConflictAt(s, merge, root, p) && AtOrBelow(q, root)
    ensures Merged(s, merge, root, q, materialize) == if materialize then At(s.ours, q) else None
  {
    EntriesThenSubtrees(s, p);
    Reached(s, merge, root, p);
    BelowTransitive(q, p, root);
    RootBelowDot(p, root);
    FateInherited(s, merge, root, p, q);
  }

  /** A directory that both sides changed is merged child by child, under the mode that was changed. */
  lemma DirectoriesMerge(s: Sides, merge: FileMerge, root: string, p: string, materialize: bool)
    requires Closed(s, root) && root != "." && AtOrBelow(p, root) && !ConflictAbove(s, merge, root, p)
    requires SubtreesDiffer(s, p) && MergeableDirs(At(s.base, p), At(s.ours, p), At(s.remote, p))
    ensures var m := Merged(s, merge, root, p, materialize);
      m.Some? && m.value == DirMeta(m.value.mode) &&
      Reconciled(ModeOf(At(s.base, p)), s.ours[p].mode, s.remote[p].mode, m.value.mode)
    ensures forall q :: AtOrBelow(q, p) && q != p && Dir(q) == p ==>
      AtOrBelow(q, root) && FateOf(s, merge, root, q) == Fate(Decide(s, merge, q), q)
  {
    Reached(s, merge, root, p);
    forall q | AtOrBelow(q, p) && q != p && Dir(q) == p
      ensures AtOrBelow(q, root) && FateOf(s, merge, root, q) == Fate(Decide(s, merge, q), q)
    {
      BelowTransitive(q, p, root);
      if q == root { BelowAntisymmetric(q, p); }
    }
  }

  // ---- Metadata roots ----

  /** A metadata root is a conflict exactly if an entry is no directory or the modes were changed apart. */
  lemma MetadataMerge(s: Sides, merge: FileMerge, r: Root, materialize: bool)
    requires r.metadata && r.path != "."
    ensures var p := r.path;
      var b, o, m := At(s.base, p), At(s.ours, p), At(s.remote, p);
      var v := RootValue(s, merge, r, p, materialize);
      var dirs := All(b, o, m, Directory);
      var merged := dirs && Reconcilable(ModeOf(b), o.value.mode, m.value.mode);
      && (RootConflict(s, merge, r, p) <==> !merged)
      && (merged ==> v.Some? && v.value == DirMeta(v.value.mode))
      && (merged ==> Reconciled(ModeOf(b), o.value.mode, m.value.mode, v.value.mode))
      && (!merged && !materialize ==> v == None)
      && (!merged && materialize ==> v == if dirs then Some(DirMeta(o.value.mode)) else o)
  {
  }
}

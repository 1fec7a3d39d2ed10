/** The canonical persistent tree: paths order the entries, hashed paths order the priorities.
    Updates copy the search path; differences skip subtrees with equal digests. */
module Treap {
  import opened Paths
  import opened Rows
  import opened Manifests

  type Digest = int

  const ZERO_DIGEST: Digest := 0

  datatype Node = Nil | Node(entry: Entry, content: Digest, digest: Digest, left: Node, right: Node, count: nat)

  function InOrder(n: Node): seq<Entry> {
    if n.Nil? then [] else InOrder(n.left) + [n.entry] + InOrder(n.right)
  }

  function NodeDigest(n: Node): Digest { if n.Nil? then ZERO_DIGEST else n.digest }

  function NodeCount(n: Node): nat { if n.Nil? then 0 else n.count }

  /** The hash functions the tree is built from.  Priorities are arbitrary. */
  datatype Hashing = Hashing(priority: string -> int, entry: Entry -> Digest, node: (Digest, Digest, Digest) -> Digest)
  {
    /** No two inputs share a digest and no node hashes to the digest of the empty tree. */
    ghost predicate CollisionFree() {
      && (forall x, y :: entry(x) == entry(y) ==> x == y)
      && (forall l, c, r, l', c', r' :: node(l, c, r) == node(l', c', r') ==> l == l' && c == c' && r == r')
      && (forall l, c, r :: node(l, c, r) != ZERO_DIGEST)
    }

    predicate Higher(p: string, q: string) {
      priority(p) < priority(q) || (priority(p) == priority(q) && Less(p, q))
    }

    lemma HigherOrder(p: string, q: string)
      ensures Higher(p, q) || p == q || Higher(q, p)
      ensures !(Higher(p, q) && Higher(q, p)) && !Higher(p, p)
    {
      LessTotal(p, q);
      LessIrreflexive(p);
      if Less(p, q) && Less(q, p) { LessTransitive(p, q, p); }
    }

    lemma HigherTransitive(p: string, q: string, r: string)
      requires Higher(p, q) && Higher(q, r)
      ensures Higher(p, r)
    {
      if Less(p, q) && Less(q, r) { LessTransitive(p, q, r); }
    }

    /** A node with its content digest, subtree digest and count computed (`rehash`). */
    function Make(e: Entry, l: Node, r: Node): Node {
      Node(e, entry(e), node(NodeDigest(l), entry(e), NodeDigest(r)), l, r, 1 + NodeCount(l) + NodeCount(r))
    }

    /** The path outranks every row. */
    predicate Dominates(p: string, rows: seq<Entry>) {
      forall i :: 0 <= i < |rows| ==> Higher(p, rows[i].path)
    }

    /** Each node outranks its whole subtree, and carries its own digests and count. */
    predicate Heap(n: Node) {
      n.Node? ==>
        && n == Make(n.entry, n.left, n.right)
        && Dominates(n.entry.path, InOrder(n.left)) && Dominates(n.entry.path, InOrder(n.right))
        && Heap(n.left) && Heap(n.right)
    }

    /** Path-ordered, priority-ordered, and hashed. */
    predicate Canonical(n: Node) { Sorted(InOrder(n)) && Heap(n) }

    lemma CanonicalChildren(n: Node)
      requires Canonical(n) && n.Node?
      ensures Canonical(n.left) && Canonical(n.right)
      ensures Below(InOrder(n.left), n.entry.path) && Above(InOrder(n.right), n.entry.path)
    {
      var l, r := InOrder(n.left), InOrder(n.right);
      SortedParts(l + [n.entry], r);
      SortedParts(l, [n.entry]);
      assert (l + [n.entry])[|l|] == n.entry;
      assert [n.entry][0] == n.entry;
    }

    lemma MakeCanonical(e: Entry, l: Node, r: Node)
      requires Canonical(l) && Canonical(r)
      requires Below(InOrder(l), e.path) && Above(InOrder(r), e.path)
      requires Dominates(e.path, InOrder(l)) && Dominates(e.path, InOrder(r))
      ensures Canonical(Make(e, l, r))
    {
      SortedAround(InOrder(l), e, InOrder(r));
    }

    // ---- Uniqueness ----

    /** The root is the row that outranks all others. */
    lemma {:induction false} CanonicalUnique(a: Node, b: Node)
      requires Canonical(a) && Canonical(b) && InOrder(a) == InOrder(b)
      ensures a == b
    {
      if a.Node? && b.Node? {
        var rows := InOrder(a);
        var i, j := |InOrder(a.left)|, |InOrder(b.left)|;
        assert rows[i] == a.entry && InOrder(b)[j] == b.entry;
        SameRoot(a, b);
        assert i == j by { LessIrreflexive(rows[i].path); }
        assert InOrder(a.left) == rows[..i] == InOrder(b.left);
        assert InOrder(a.right) == rows[i+1..] == InOrder(b.right);
        CanonicalChildren(a);
        CanonicalChildren(b);
        CanonicalUnique(a.left, b.left);
        CanonicalUnique(a.right, b.right);
      }
    }

    /** A row of a canonical tree is its root or outranked by it. */
    lemma RootOutranks(n: Node, i: nat)
      requires Heap(n) && i < |InOrder(n)|
      ensures n.Node? && (InOrder(n)[i] == n.entry || Higher(n.entry.path, InOrder(n)[i].path))
    {
      var k := |InOrder(n.left)|;
      if i < k {
        assert InOrder(n)[i] == InOrder(n.left)[i];
      } else if i > k {
        assert InOrder(n)[i] == InOrder(n.right)[i - k - 1];
      }
    }

    lemma SameRoot(a: Node, b: Node)
      requires Heap(a) && Heap(b) && a.Node? && b.Node? && InOrder(a) == InOrder(b)
      ensures a.entry == b.entry
    {
      var i, j := |InOrder(a.left)|, |InOrder(b.left)|;
      assert InOrder(a)[i] == a.entry && InOrder(b)[j] == b.entry;
      RootOutranks(a, j);
      RootOutranks(b, i);
      HigherOrder(a.entry.path, b.entry.path);
    }

    /** A root outranking another tree's root is absent from that tree. */
    lemma AbsentRoot(p: string, n: Node)
      requires Heap(n) && n.Node? && Higher(p, n.entry.path)
      ensures Find(InOrder(n), p) == None
    {
      FindMember(InOrder(n), p);
      HigherOrder(p, n.entry.path);
      if i :| 0 <= i < |InOrder(n)| && InOrder(n)[i].path == p { RootOutranks(n, i); }
    }

    lemma {:induction false} CountIsLength(n: Node)
      requires Heap(n)
      ensures NodeCount(n) == |InOrder(n)|
    {
      if n.Node? {
        CountIsLength(n.left);
        CountIsLength(n.right);
      }
    }

    lemma {:induction false} DigestInjective(a: Node, b: Node)
      requires CollisionFree() && Heap(a) && Heap(b) && NodeDigest(a) == NodeDigest(b)
      ensures a == b
    {
      if a.Node? && b.Node? {
        DigestInjective(a.left, b.left);
        DigestInjective(a.right, b.right);
      }
    }

    // ---- Construction from a sorted list ----

    /** The tree an open stack stands for: each node's right child is the rest of the stack. */
    function Spine(stack: seq<Open>): Node {
      if stack == [] then Nil else Make(stack[0].entry, stack[0].left, Spine(stack[1..]))
    }

    /** The tree of a stack once its top has been closed over `closed`. */
    function SpineOver(stack: seq<Open>, closed: Node): Node {
      if stack == [] then closed else Make(stack[0].entry, stack[0].left, SpineOver(stack[1..], closed))
    }

    lemma {:induction false} SpinePop(stack: seq<Open>, closed: Node)
      requires stack != []
      ensures var top := stack[|stack|-1];
        SpineOver(stack, closed) == SpineOver(stack[..|stack|-1], Make(top.entry, top.left, closed))
    {
      if |stack| > 1 {
        SpinePop(stack[1..], closed);
        assert stack[1..][..|stack|-2] == stack[..|stack|-1][1..];
      } else {
        assert stack[1..] == [] && stack[..|stack|-1] == [];
      }
    }

    /** What remains below the popped part, and the popped part itself, are canonical. */
    lemma {:induction false} SpineParts(stack: seq<Open>, closed: Node)
      requires Canonical(SpineOver(stack, closed))
      ensures Canonical(closed)
      ensures stack != [] ==> Dominates(stack[|stack|-1].entry.path, InOrder(closed))
    {
      if stack != [] {
        CanonicalChildren(SpineOver(stack, closed));
        SpineParts(stack[1..], closed);
        if |stack| == 1 { assert SpineOver(stack[1..], closed) == closed; }
      }
    }

    lemma TopOutranked(stack: seq<Open>, closed: Node)
      requires Heap(SpineOver(stack, closed)) && |stack| > 1
      ensures Higher(stack[0].entry.path, stack[1].entry.path)
    {
      var rest := SpineOver(stack[1..], closed);
      assert InOrder(rest)[|InOrder(rest.left)|] == rest.entry;
    }

    /** The new entry takes the popped part as its left subtree and becomes the top. */
    lemma {:induction false} SpinePush(stack: seq<Open>, closed: Node, e: Entry)
      requires Canonical(SpineOver(stack, closed)) && Below(InOrder(SpineOver(stack, closed)), e.path)
      requires Dominates(e.path, InOrder(closed))
      requires stack != [] ==> Higher(stack[|stack|-1].entry.path, e.path)
      ensures Canonical(Spine(stack + [Open(e, closed)]))
      ensures InOrder(Spine(stack + [Open(e, closed)])) == InOrder(SpineOver(stack, closed)) + [e]
      ensures stack != [] ==> Higher(stack[0].entry.path, e.path)
    {
      var pushed := stack + [Open(e, closed)];
      if stack == [] {
        assert pushed[1..] == [];
        MakeCanonical(e, closed, Nil);
      } else {
        var prior := SpineOver(stack, closed);
        CanonicalChildren(prior);
        RightBelow(prior, e.path);
        SpinePush(stack[1..], closed, e);
        assert pushed[1..] == stack[1..] + [Open(e, closed)];
        if |stack| > 1 {
          TopOutranked(stack, closed);
          HigherTransitive(stack[0].entry.path, stack[1].entry.path, e.path);
        }
        MakeExtended(prior, Spine(pushed[1..]), e);
      }
    }

    lemma RightBelow(n: Node, p: string)
      requires n.Node? && Below(InOrder(n), p)
      ensures Below(InOrder(n.right), p) && Less(n.entry.path, p)
    {
      var k := |InOrder(n.left)|;
      assert InOrder(n)[k] == n.entry;
      forall i | 0 <= i < |InOrder(n.right)| ensures Less(InOrder(n.right)[i].path, p) {
        assert InOrder(n)[k + 1 + i] == InOrder(n.right)[i];
      }
    }

    /** Extending the right subtree by one lower-ranked last row. */
    lemma MakeExtended(n: Node, r: Node, e: Entry)
      requires Canonical(n) && n.Node? && Canonical(r) && InOrder(r) == InOrder(n.right) + [e]
      requires Less(n.entry.path, e.path) && Higher(n.entry.path, e.path)
      ensures Canonical(Make(n.entry, n.left, r)) && InOrder(Make(n.entry, n.left, r)) == InOrder(n) + [e]
    {
      CanonicalChildren(n);
      MakeCanonical(n.entry, n.left, r);
      Regroup(InOrder(n.left) + [n.entry], InOrder(n.right), [e]);
    }

    lemma {:induction false} SpineOverNil(stack: seq<Open>)
      ensures SpineOver(stack, Nil) == Spine(stack)
    {
      if stack != [] { SpineOverNil(stack[1..]); }
    }

    /** The linear stack builder yields the canonical tree of the sorted list. */
    method NewTree(entries: seq<Entry>) returns (root: Node)
      requires Sorted(entries)
      ensures Canonical(root) && InOrder(root) == entries
    {
      var stack: seq<Open> := [];
      for i := 0 to |entries|
        invariant Canonical(Spine(stack)) && InOrder(Spine(stack)) == entries[..i]
      {
        var e := entries[i];
        var closed := Nil;
        SpineOverNil(stack);
        while |stack| > 0 && Higher(e.path, stack[|stack|-1].entry.path)
          invariant Canonical(SpineOver(stack, closed)) && InOrder(SpineOver(stack, closed)) == entries[..i]
          invariant Dominates(e.path, InOrder(closed))
          decreases |stack|
        {
          var top := stack[|stack|-1];
          SpinePop(stack, closed);
          closed := Make(top.entry, top.left, closed);
          stack := stack[..|stack|-1];
          SpineParts(stack, closed);
          OutranksMade(e.path, closed);
        }
        PushReady(stack, closed, entries, i);
        SpinePush(stack, closed, e);
        stack := stack + [Open(e, closed)];
        assert entries[..i+1] == entries[..i] + [e];
      }
      root := Nil;
      var k := |stack|;
      SpineOverNil(stack);
      assert stack[..k] == stack;
      while k > 0
        invariant 0 <= k <= |stack| && SpineOver(stack[..k], root) == Spine(stack)
      {
        SpinePop(stack[..k], root);
        assert stack[..k][..k-1] == stack[..k-1];
        root := Make(stack[k-1].entry, stack[k-1].left, root);
        k := k - 1;
      }
      assert entries[..|entries|] == entries;
    }

    /** When the loop stops popping, the top outranks the new entry. */
    lemma PushReady(stack: seq<Open>, closed: Node, entries: seq<Entry>, i: nat)
      requires Sorted(entries) && i < |entries| && InOrder(SpineOver(stack, closed)) == entries[..i]
      requires stack != [] ==> !Higher(entries[i].path, stack[|stack|-1].entry.path)
      ensures Below(InOrder(SpineOver(stack, closed)), entries[i].path)
      ensures stack != [] ==> Higher(stack[|stack|-1].entry.path, entries[i].path)
    {
      if stack != [] {
        HigherOrder(entries[i].path, stack[|stack|-1].entry.path);
        TopPresent(stack, closed, entries[..i]);
        LessIrreflexive(entries[i].path);
      }
    }

    /** Outranking the root outranks the tree. */
    lemma OutranksMade(p: string, n: Node)
      requires Heap(n) && n.Node? && Higher(p, n.entry.path)
      ensures Dominates(p, InOrder(n))
    {
      forall i | 0 <= i < |InOrder(n)| ensures Higher(p, InOrder(n)[i].path) {
        RootOutranks(n, i);
        if InOrder(n)[i] != n.entry { HigherTransitive(p, n.entry.path, InOrder(n)[i].path); }
      }
    }

    lemma {:induction false} TopPresent(stack: seq<Open>, closed: Node, rows: seq<Entry>)
      requires stack != [] && InOrder(SpineOver(stack, closed)) == rows
      ensures stack[|stack|-1].entry in rows
    {
      if |stack| > 1 {
        TopPresent(stack[1..], closed, InOrder(SpineOver(stack[1..], closed)));
      }
    }
  }

  /** A stack element: a node whose right subtree is still open. */
  datatype Open = Open(entry: Entry, left: Node)
}

/** Slash-separated manifest paths: their byte order and their ancestor chains. */
module Paths {

  /** Go's `<` on strings: lexicographic order. */
  predicate Less(a: string, b: string)
  {
    b != "" && (a == "" || a[0] < b[0] || (a[0] == b[0] && Less(a[1..], b[1..])))
  }

  lemma {:induction false} LessIrreflexive(a: string)
    ensures !Less(a, a)
  {
    if a != "" { LessIrreflexive(a[1..]); }
  }

  lemma {:induction false} LessTransitive(a: string, b: string, c: string)
    requires Less(a, b) && Less(b, c)
    ensures Less(a, c)
  {
    if a != "" && a[0] == b[0] == c[0] { LessTransitive(a[1..], b[1..], c[1..]); }
  }

  lemma {:induction false} LessTotal(a: string, b: string)
    ensures Less(a, b) || a == b || Less(b, a)
  {
    if a != "" && b != "" && a[0] == b[0] {
      LessTotal(a[1..], b[1..]);
      assert a == [a[0]] + a[1..] && b == [b[0]] + b[1..];
    }
  }

  // ---- Ancestors ----

  /** `p` is `root` or lies in the subtree below it. */
  predicate AtOrBelow(p: string, root: string) { p == root || root + "/" <= p }

  function LastSlash(p: string): (k: int)
    ensures -1 <= k < |p|
    ensures k >= 0 ==> p[k] == '/'
    ensures forall j :: k < j < |p| ==> p[j] != '/'
  {
    if p == "" then -1 else if p[|p| - 1] == '/' then |p| - 1 else LastSlash(p[..|p| - 1])
  }

  /** `path.Dir` of a clean relative path. */
  function Dir(p: string): (d: string) {
    if LastSlash(p) < 0 then "." else p[..LastSlash(p)]
  }

  /** How far the walk `p`, `Dir(p)`, ... is from its end at ".". */
  function Height(p: string): nat { if p == "." then 0 else |p| + 1 }

  lemma DirHeight(p: string)
    ensures p != "." ==> Height(Dir(p)) < Height(p)
    ensures Dir(p) != "." ==> |Dir(p)| < |p|
  {
  }

  lemma BelowReflexive(p: string)
    ensures AtOrBelow(p, p)
  {
  }

  lemma BelowTransitive(p: string, q: string, r: string)
    requires AtOrBelow(p, q) && AtOrBelow(q, r)
    ensures AtOrBelow(p, r)
  {
    if q != r && p != q { assert (r + "/") <= q <= p; }
  }

  lemma BelowAntisymmetric(p: string, q: string)
    requires AtOrBelow(p, q) && AtOrBelow(q, p)
    ensures p == q
  {
  }

  /** Two ancestors of one path lie one below the other. */
  lemma AncestorsNested(p: string, q: string, r: string)
    requires AtOrBelow(p, q) && AtOrBelow(p, r)
    ensures AtOrBelow(q, r) || AtOrBelow(r, q)
  {
    if p != q && p != r {
      if |q| < |r| {
        assert p[..|r|] == r && p[|q|] == '/' && p[..|q|] == q;
        assert r[..|q| + 1] == p[..|q| + 1] == q + "/";
      } else if |r| < |q| {
        assert p[..|q|] == q && p[|r|] == '/' && p[..|r|] == r;
        assert q[..|r| + 1] == p[..|r| + 1] == r + "/";
      } else {
        assert q == p[..|q|] == r;
      }
    }
  }

  /** Strictly below a directory means at or below it from the parent up. */
  lemma BelowParent(p: string, root: string)
    requires root != "."
    ensures AtOrBelow(p, root) <==> p == root || (p != "." && AtOrBelow(Dir(p), root))
  {
    var k := LastSlash(p);
    if root + "/" <= p {
      assert p[|root|] == '/' && p[..|root|] == root && k >= |root|;
      if k > |root| {
        assert Dir(p)[..|root| + 1] == p[..|root| + 1] == root + "/";
      }
    }
    if p != root && p != "." && k >= 0 && AtOrBelow(Dir(p), root) {
      if Dir(p) == root { assert p[..k + 1] == root + "/"; }
      assert root + "/" <= p[..k + 1] <= p;
    }
  }

  /** The parent of a path is above it. */
  lemma DirAbove(p: string)
    requires Dir(p) != "."
    ensures AtOrBelow(p, Dir(p))
  {
    var k := LastSlash(p);
    assert p[..k + 1] == Dir(p) + "/";
  }

  /** Nothing lies above the top. */
  lemma RootBelowDot(c: string, root: string)
    requires AtOrBelow(c, root) && root != "."
    ensures c != "."
  {
    if root + "/" <= c { assert c[|root|] == '/'; }
  }

  lemma NothingAboveDot()
    ensures forall q :: q != "." ==> !AtOrBelow(".", q)
  {
    forall q | q != "." && AtOrBelow(".", q) ensures false { RootBelowDot(".", q); }
  }

  /** The proper ancestors of a path are its parent and what is above that. */
  lemma ProperAncestors(p: string)
    ensures forall q :: q != "." && q != p && AtOrBelow(p, q) ==> AtOrBelow(Dir(p), q)
    ensures Dir(p) != "." ==> Dir(p) != p && AtOrBelow(p, Dir(p))
  {
    forall q | q != "." && q != p && AtOrBelow(p, q) ensures AtOrBelow(Dir(p), q) { BelowParent(p, q); }
    if Dir(p) != "." {
      DirHeight(p);
      DirAbove(p);
    }
  }

  lemma UpOne(p: string, parent: string)
    requires parent != "." && parent != p && AtOrBelow(p, parent)
    ensures Dir(parent) != "." ==> Dir(parent) != p && AtOrBelow(p, Dir(parent))
  {
    if Dir(parent) != "." {
      DirHeight(parent);
      DirAbove(parent);
      BelowTransitive(p, parent, Dir(parent));
    }
  }

  // ---- Ancestors and the byte order ----

  lemma {:induction false} PrefixLess(a: string, b: string)
    requires a <= b && a != b
    ensures Less(a, b)
  {
    if a != "" { PrefixLess(a[1..], b[1..]); }
  }

  lemma AncestorLess(p: string, root: string)
    requires AtOrBelow(p, root) && p != root
    ensures Less(root, p)
  {
    PrefixLess(root, p);
  }

  /** What lies between two strings with a common prefix has that prefix. */
  lemma {:induction false} PrefixInterval(x: string, a: string, b: string, c: string)
    requires x <= a && x <= c && !Less(b, a) && !Less(c, b)
    ensures x <= b
  {
    if x != "" {
      assert b[0] == x[0];
      PrefixInterval(x[1..], a[1..], b[1..], c[1..]);
      assert b == [b[0]] + b[1..] && x == [x[0]] + x[1..];
    }
  }
}

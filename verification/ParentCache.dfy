/** Retained parent-directory handles, lent to copying workers and evicted leaf first. */
module ParentCache {
  import opened Paths
  import opened Rows

  const StagingWorkers: nat := 16

  datatype Retained = Retained(handle: nat, used: nat, borrowers: nat)

  /** A worker's loan of a retained handle. */
  datatype Lease = Lease(key: string, handle: nat)

  /** A handle that was closed, and the keys retained besides it at that moment. */
  datatype Closing = Closing(handle: nat, key: string, others: set<string>)

  /** No retained key lies below this one. */
  predicate Leaf(keys: set<string>, key: string) { forall k :: k in keys && k != key ==> !AtOrBelow(k, key) }

  // ---- What holds of the retained, the lent and the closed handles ----

  /** Handles are told apart and none is from the future. */
  predicate Numbered(parents: map<string, Retained>, issued: nat) {
    && (forall k :: k in parents ==> parents[k].handle < issued)
    && (forall k, l :: k in parents && l in parents && k != l ==> parents[k].handle != parents[l].handle)
  }

  /** The loans are exactly the borrowers, so a lent handle is retained. */
  predicate Lent(parents: map<string, Retained>, leases: multiset<Lease>) {
    && (forall k :: k in parents ==> leases[Lease(k, parents[k].handle)] == parents[k].borrowers)
    && (forall l :: l in leases ==> l.key in parents && parents[l.key].handle == l.handle)
  }

  /** Closed handles are no longer retained, were closed once, and before every ancestor of theirs. */
  predicate Closed(parents: map<string, Retained>, issued: nat, closings: seq<Closing>) {
    && (forall i :: 0 <= i < |closings| ==> closings[i].handle < issued && Leaf(closings[i].others, closings[i].key))
    && (forall i, j :: 0 <= i < j < |closings| ==> closings[i].handle != closings[j].handle)
    && (forall i, k :: 0 <= i < |closings| && k in parents ==> closings[i].handle != parents[k].handle)
  }

  predicate IsClosed(closings: seq<Closing>, h: nat) { exists i :: 0 <= i < |closings| && closings[i].handle == h }

  predicate IsRetained(parents: map<string, Retained>, h: nat) { exists k :: k in parents && parents[k].handle == h }

  /** No handle leaks. */
  predicate Accounted(parents: map<string, Retained>, issued: nat, closings: seq<Closing>) {
    forall h: nat :: h < issued ==> IsRetained(parents, h) || IsClosed(closings, h)
  }

  predicate Sound(parents: map<string, Retained>, issued: nat, leases: multiset<Lease>, closings: seq<Closing>) {
    Numbered(parents, issued) && Lent(parents, leases) && Closed(parents, issued, closings) &&
        Accounted(parents, issued, closings)
  }

  lemma CloseSound(parents: map<string, Retained>, issued: nat, leases: multiset<Lease>, closings: seq<Closing>,
                   key: string)
    requires Sound(parents, issued, leases, closings) && key in parents && parents[key].borrowers == 0
    requires Leaf(parents.Keys, key)
    ensures Sound(parents - {key}, issued, leases, closings + [Closing(parents[key].handle, key, parents.Keys - {key})])
  {
    var rest, all := parents - {key}, closings + [Closing(parents[key].handle, key, parents.Keys - {key})];
    forall h: nat | h < issued ensures IsRetained(rest, h) || IsClosed(all, h) {
      if IsClosed(closings, h) {
        var i :| 0 <= i < |closings| && closings[i].handle == h;
        assert all[i].handle == h;
      } else if parents[key].handle == h {
        assert all[|closings|].handle == h;
      } else {
        var k :| k in parents && parents[k].handle == h;
        assert k in rest && rest[k].handle == h;
      }
    }
    forall l | l in leases ensures l.key in rest && rest[l.key].handle == l.handle {
      assert l == Lease(l.key, parents[l.key].handle);
    }
  }

  lemma OpenSound(parents: map<string, Retained>, issued: nat, leases: multiset<Lease>, closings: seq<Closing>,
                  key: string, used: nat)
    requires Sound(parents, issued, leases, closings) && key !in parents
    ensures Sound(parents[key := Retained(issued, used, 1)], issued + 1, leases + multiset{Lease(key, issued)},
        closings)
  {
    var more, lent := parents[key := Retained(issued, used, 1)], leases + multiset{Lease(key, issued)};
    assert forall l :: l in leases ==> l.key != key;
    forall h: nat | h < issued + 1 ensures IsRetained(more, h) || IsClosed(closings, h) {
      if h == issued {
        assert more[key].handle == h;
      } else if IsRetained(parents, h) {
        var k :| k in parents && parents[k].handle == h;
        assert more[k].handle == h;
      }
    }
  }

  lemma BorrowSound(parents: map<string, Retained>, issued: nat, leases: multiset<Lease>, closings: seq<Closing>,
                    key: string, used: nat)
    requires Sound(parents, issued, leases, closings) && key in parents
    ensures var p := parents[key];
      Sound(parents[key := Retained(p.handle, used, p.borrowers + 1)], issued, leases + multiset{Lease(key, p.handle)},
          closings)
  {
    SameHandles(parents, issued, closings, key, Retained(parents[key].handle, used, parents[key].borrowers + 1));
  }

  lemma ReleaseSound(parents: map<string, Retained>, issued: nat, leases: multiset<Lease>, closings: seq<Closing>,
                     l: Lease)
    requires Sound(parents, issued, leases, closings) && l in leases
    ensures parents[l.key].borrowers > 0
    ensures var p := parents[l.key];
      Sound(parents[l.key := Retained(p.handle, p.used, p.borrowers - 1)], issued, leases - multiset{l}, closings)
  {
    assert l == Lease(l.key, parents[l.key].handle);
    SameHandles(parents, issued, closings, l.key,
        Retained(parents[l.key].handle, parents[l.key].used, parents[l.key].borrowers - 1));
  }

  /** Lending changes no handle. */
  lemma SameHandles(parents: map<string, Retained>, issued: nat, closings: seq<Closing>, key: string, p: Retained)
    requires Numbered(parents, issued) && Closed(parents, issued, closings) && Accounted(parents, issued, closings)
    requires key in parents && p.handle == parents[key].handle
    ensures Numbered(parents[key := p], issued) && Closed(parents[key := p], issued, closings)
    ensures Accounted(parents[key := p], issued, closings)
  {
    forall h: nat | h < issued && IsRetained(parents, h) ensures IsRetained(parents[key := p], h) {
      var k :| k in parents && parents[k].handle == h;
      assert parents[key := p][k].handle == h;
    }
  }

  /** Some retained key has nothing below it: a longest one. */
  lemma LeafExists(keys: set<string>) returns (key: string)
    requires keys != {}
    ensures key in keys && Leaf(keys, key)
  {
    key := Longest(keys);
    forall k | k in keys && k != key ensures !AtOrBelow(k, key) { assert |k| <= |key|; }
  }

  lemma {:induction false} Longest(keys: set<string>) returns (key: string)
    requires keys != {}
    ensures key in keys && forall k :: k in keys ==> |k| <= |key|
    decreases |keys|
  {
    key :| key in keys;
    var rest := keys - {key};
    if rest != {} {
      var other := Longest(rest);
      if |other| > |key| {
        forall k | k in keys ensures |k| <= |other| { assert k == key || k in rest; }
        key := other;
      } else {
        forall k | k in keys ensures |k| <= |key| { assert k == key || k in rest; }
      }
    }
  }

  predicate Evictable(parents: map<string, Retained>, key: string) {
    key in parents && parents[key].borrowers == 0 && Leaf(parents.Keys, key)
  }

  /** The path lies at the root or in one of its directories. */
  predicate Shallow(name: string) { LastSlash(name) < 0 || LastSlash(Dir(name)) < 0 }

  predicate Full(parents: map<string, Retained>) { |parents| >= StagingWorkers }

  predicate NothingEvictable(parents: map<string, Retained>) { forall k :: k in parents ==> !Evictable(parents, k) }

  predicate LeastUsed(parents: map<string, Retained>, key: string) {
    Evictable(parents, key) && forall k :: k in parents && Evictable(parents, k) ==>
        parents[key].used <= parents[k].used
  }

  /** One handle was closed: an evictable one, used least recently. */
  predicate ClosesOldest(parents: map<string, Retained>, before: seq<Closing>, after: seq<Closing>) {
    exists key :: key in parents && LeastUsed(parents, key)
      && after == before + [Closing(parents[key].handle, key, parents.Keys - {key})]
  }

  datatype Outcome = Direct | Leased(lease: Lease) | Failed

  lemma OneFewer(parents: map<string, Retained>, key: string)
    requires key in parents
    ensures |parents - {key}| == |parents| - 1
  {
    assert (parents - {key}).Keys == parents.Keys - {key};
    assert |(parents - {key}).Keys| == |parents - {key}| && |parents.Keys| == |parents|;
  }

  class MaterializationPaths {
    var parents: map<string, Retained>
    var clock: nat
    var issued: nat
    ghost var leases: multiset<Lease>
    ghost var closings: seq<Closing>

    ghost predicate Valid()
      reads this
    { |parents| <= StagingWorkers && Sound(parents, issued, leases, closings) }

    constructor ()
      ensures Valid() && parents == map[] && leases == multiset{} && closings == []
    {
      parents, clock, issued, leases, closings := map[], 0, 0, multiset{}, [];
    }

    /** The least recently used handle that is neither lent nor above another. */
    method OldestLeaf() returns (victim: Option<string>)
      ensures victim.None? ==> forall k :: !Evictable(parents, k)
      ensures victim.Some? ==> Evictable(parents, victim.value)
      ensures victim.Some? ==> forall k :: Evictable(parents, k) ==> parents[victim.value].used <= parents[k].used
    {
      victim := None;
      var todo := parents.Keys;
      while todo != {}
        invariant todo <= parents.Keys
        invariant victim.None? ==> forall k :: k in parents.Keys - todo ==> !Evictable(parents, k)
        invariant victim.Some? ==> Evictable(parents, victim.value)
        invariant victim.Some? ==> forall k :: k in parents.Keys - todo && Evictable(parents, k) ==>
            parents[victim.value].used <= parents[k].used
        decreases |todo|
      {
        var key :| key in todo;
        todo := todo - {key};
        if parents[key].borrowers == 0 && Leaf(parents.Keys, key) &&
            (victim.None? || parents[key].used < parents[victim.value].used) {
          victim := Some(key);
        }
      }
    }

    /** Close one handle; an identity check may report that its directory was replaced. */
    method CloseParent(key: string, verified: bool) returns (ok: bool)
      requires Valid() && Evictable(parents, key)
      modifies this
      ensures Valid() && parents == old(parents) - {key} && leases == old(leases) && issued == old(issued)
      ensures ok == verified
      ensures closings == old(closings) + [Closing(old(parents)[key].handle, key, old(parents).Keys - {key})]
    {
      CloseSound(parents, issued, leases, closings, key);
      closings := closings + [Closing(parents[key].handle, key, parents.Keys - {key})];
      parents := parents - {key};
      ok := verified;
    }

    /** Lend the handle of the directory that a path lies in.  Paths at most one directory deep use the
        root.  Otherwise the handle is opened and retained if there is room or something to evict. */
    method Parent(name: string, opens: bool, verified: bool) returns (r: Outcome)
      requires Valid()
      modifies this
      ensures Valid()
      ensures r.Leased? ==> !Shallow(name) && r.lease.key == Dir(name) && leases == old(leases) + multiset{r.lease}
      ensures !r.Leased? ==> leases == old(leases)
      ensures r == Direct <==>
          Shallow(name) || (Dir(name) !in old(parents) && Full(old(parents)) && NothingEvictable(old(parents)))
      ensures !Shallow(name) && Dir(name) in old(parents) ==>
          r == Leased(Lease(Dir(name), old(parents)[Dir(name)].handle))
      ensures closings == old(closings) ||
        (!Shallow(name) && Dir(name) !in old(parents) && Full(old(parents)) &&
            ClosesOldest(old(parents), old(closings), closings))
    {
      var slash := LastSlash(name);
      if slash < 0 || LastSlash(name[..slash]) < 0 { return Direct; }
      r := Borrow(name[..slash], opens, verified);
    }

    method Borrow(key: string, opens: bool, verified: bool) returns (r: Outcome)
      requires Valid()
      modifies this
      ensures Valid()
      ensures r.Leased? ==> r.lease.key == key && leases == old(leases) + multiset{r.lease}
      ensures !r.Leased? ==> leases == old(leases)
      ensures r == Direct <==> key !in old(parents) && Full(old(parents)) && NothingEvictable(old(parents))
      ensures key in old(parents) ==> r == Leased(Lease(key, old(parents)[key].handle))
      ensures closings == old(closings) ||
        (key !in old(parents) && Full(old(parents)) && ClosesOldest(old(parents), old(closings), closings))
    {
      clock := clock + 1;
      if key in parents {
        r := LendRetained(key);
        return;
      }
      if |parents| >= StagingWorkers {
        var evicted, ok := Evict(verified);
        if !evicted { return Direct; }
        if !ok { return Failed; }
      }
      if !opens { return Failed; }
      r := OpenNew(key);
    }

    /** Close the least recently used handle that can be closed, if there is one. */
    method Evict(verified: bool) returns (evicted: bool, ok: bool)
      requires Valid()
      modifies this
      ensures Valid() && leases == old(leases) && parents.Keys <= old(parents).Keys
      ensures evicted <==> !NothingEvictable(old(parents))
      ensures evicted ==> |parents| < |old(parents)| && ClosesOldest(old(parents), old(closings), closings)
      ensures !evicted ==> parents == old(parents) && closings == old(closings)
    {
      var victim := OldestLeaf();
      if victim.None? { return false, true; }
      assert LeastUsed(parents, victim.value);
      assert |parents - {victim.value}| == |parents| - 1 by { OneFewer(parents, victim.value); }
      ok := CloseParent(victim.value, verified);
      evicted := true;
    }

    method LendRetained(key: string) returns (r: Outcome)
      requires Valid() && key in parents
      modifies this`parents, this`leases
      ensures Valid() && r == Leased(Lease(key, old(parents)[key].handle)) && leases == old(leases) + multiset{r.lease}
    {
      var p := parents[key];
      BorrowSound(parents, issued, leases, closings, key, clock);
      parents := parents[key := Retained(p.handle, clock, p.borrowers + 1)];
      leases := leases + multiset{Lease(key, p.handle)};
      return Leased(Lease(key, p.handle));
    }

    method OpenNew(key: string) returns (r: Outcome)
      requires Valid() && key !in parents && |parents| < StagingWorkers
      modifies this`parents, this`leases, this`issued
      ensures Valid() && r == Leased(Lease(key, old(issued))) && leases == old(leases) + multiset{r.lease}
      ensures issued == old(issued) + 1
    {
      OpenSound(parents, issued, leases, closings, key, clock);
      r := Leased(Lease(key, issued));
      parents := parents[key := Retained(issued, clock, 1)];
      leases := leases + multiset{Lease(key, issued)};
      issued := issued + 1;
    }

    method Release(l: Lease)
      requires Valid() && l in leases
      modifies this
      ensures Valid() && leases == old(leases) - multiset{l} && closings == old(closings)
      ensures l.key in old(parents) && old(parents)[l.key].handle == l.handle
    {
      ReleaseSound(parents, issued, leases, closings, l);
      var p := parents[l.key];
      parents := parents[l.key := Retained(p.handle, p.used, p.borrowers - 1)];
      leases := leases - multiset{l};
    }

    /** With every loan returned, all handles are closed, each exactly once. */
    method Close(verified: map<string, bool>) returns (ok: bool)
      requires Valid()
      modifies this
      ensures Valid() && leases == old(leases) && issued == old(issued)
      ensures leases == multiset{} ==> parents == map[] && forall h: nat :: h < issued ==> IsClosed(closings, h)
    {
      ok := true;
      while |parents| > 0
        invariant Valid() && leases == old(leases) && issued == old(issued)
        decreases |parents|
      {
        var victim := OldestLeaf();
        if victim.None? {
          if leases == multiset{} { SomethingEvictable(parents, leases); }
          return false;
        }
        var key := victim.value;
        var same := CloseParent(key, key in verified ==> verified[key]);
        ok := ok && same;
      }
    }
  }

  lemma SomethingEvictable(parents: map<string, Retained>, leases: multiset<Lease>)
    requires parents != map[] && Lent(parents, leases) && leases == multiset{}
    ensures exists k :: Evictable(parents, k)
  {
    var key := LeafExists(parents.Keys);
    assert Evictable(parents, key);
  }
}

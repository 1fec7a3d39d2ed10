/** A cache of decoded checkpoint records, bounded in number and in bytes, least recently used out first. */
module RecencyCache {
  import opened Paths
  import opened Rows

  datatype Cached<+R> = Cached(path: string, record: R, size: nat)

  function Total<R>(list: seq<Cached<R>>): nat {
    if list == [] then 0 else Total(list[..|list| - 1]) + list[|list| - 1].size
  }

  predicate Distinct<R>(list: seq<Cached<R>>) { forall i, j :: 0 <= i < j < |list| ==> list[i].path != list[j].path }

  /** The list without the records of some paths. */
  function Without<R>(list: seq<Cached<R>>, drop: set<string>): seq<Cached<R>> {
    if list == [] then [] else
      var rest := Without(list[..|list| - 1], drop);
      if list[|list| - 1].path in drop then rest else rest + [list[|list| - 1]]
  }

  /** Room for one more record of `size` bytes. */
  predicate HasRoom<R>(list: seq<Cached<R>>, maxRecords: int, maxBytes: int, size: nat) {
    |list| < maxRecords && Total(list) <= maxBytes - size
  }

  /** What is left after evicting from the back until there is room. */
  function Evicted<R>(list: seq<Cached<R>>, maxRecords: int, maxBytes: int, size: nat): seq<Cached<R>>
    requires 0 < maxRecords && size <= maxBytes
  {
    if HasRoom(list, maxRecords, maxBytes, size) || list == [] then list
    else Evicted(list[..|list| - 1], maxRecords, maxBytes, size)
  }

  /** Eviction stops at the longest front part that leaves room. */
  lemma {:induction false} EvictsLeast<R>(list: seq<Cached<R>>, maxRecords: int, maxBytes: int, size: nat, n: nat)
    requires 0 < maxRecords && size <= maxBytes && n <= |list|
    ensures var kept := Evicted(list, maxRecords, maxBytes, size);
      && kept <= list && HasRoom(kept, maxRecords, maxBytes, size)
      && (HasRoom(list[..n], maxRecords, maxBytes, size) ==> n <= |kept|)
    decreases |list|
  {
    if !HasRoom(list, maxRecords, maxBytes, size) && list != [] {
      var front := list[..|list| - 1];
      if n == |list| {
        assert list[..n] == list;
        EvictsLeast(front, maxRecords, maxBytes, size, 0);
      } else {
        assert front[..n] == list[..n];
        EvictsLeast(front, maxRecords, maxBytes, size, n);
      }
    } else if n == |list| {
      assert list[..n] == list;
    }
  }

  lemma {:induction false} WithoutMember<R>(list: seq<Cached<R>>, drop: set<string>, c: Cached<R>)
    ensures c in Without(list, drop) <==> c in list && c.path !in drop
  {
    if list != [] {
      WithoutMember(list[..|list| - 1], drop, c);
      assert list == list[..|list| - 1] + [list[|list| - 1]];
    }
  }

  lemma {:induction false} WithoutShrinks<R>(list: seq<Cached<R>>, drop: set<string>)
    requires Distinct(list)
    ensures Distinct(Without(list, drop)) && |Without(list, drop)| <= |list|
    ensures Total(Without(list, drop)) <= Total(list)
  {
    if list != [] {
      var front, last := list[..|list| - 1], list[|list| - 1];
      WithoutShrinks(front, drop);
      var rest := Without(front, drop);
      if last.path !in drop {
        assert (rest + [last])[..|rest|] == rest;
        forall i | 0 <= i < |rest| ensures rest[i].path != last.path {
          WithoutMember(front, drop, rest[i]);
          var j :| 0 <= j < |front| && front[j] == rest[i];
          assert list[j] == rest[i];
        }
      }
    }
  }

  lemma {:induction false} TotalFront<R>(c: Cached<R>, list: seq<Cached<R>>)
    ensures Total([c] + list) == c.size + Total(list)
  {
    if list == [] {
      assert [c] + list == [c] && [c][..0] == [];
    } else {
      assert ([c] + list)[..|list|] == [c] + list[..|list| - 1];
      TotalFront(c, list[..|list| - 1]);
    }
  }

  /** The map holds exactly the listed records. */
  predicate Mirrors<R(==)>(records: map<string, Cached<R>>, list: seq<Cached<R>>) {
    && (forall c :: c in list ==> c.path in records && records[c.path] == c)
    && (forall p :: p in records ==> records[p].path == p && records[p] in list)
  }

  /** The map and the list agree and the byte count is exact. */
  predicate Held<R(==)>(records: map<string, Cached<R>>, list: seq<Cached<R>>, bytes: int) {
    Mirrors(records, list) && Distinct(list) && bytes == Total(list)
  }

  lemma RemoveHeld<R>(records: map<string, Cached<R>>, list: seq<Cached<R>>, bytes: int, c: Cached<R>)
    requires Held(records, list, bytes) && c in list
    ensures Held(records - {c.path}, Without(list, {c.path}), bytes - c.size) && |Without(list, {c.path})| == |list| - 1
  {
    RemoveMirrors(records, list, c.path);
    WithoutShrinks(list, {c.path});
    TotalWithout(list, c);
  }

  lemma RemoveMirrors<R>(records: map<string, Cached<R>>, list: seq<Cached<R>>, path: string)
    requires Mirrors(records, list)
    ensures Mirrors(records - {path}, Without(list, {path}))
  {
    forall c | c in Without(list, {path}) ensures c.path in records - {path} && records[c.path] == c {
      WithoutMember(list, {path}, c);
    }
    forall p | p in records - {path} ensures records[p] in Without(list, {path}) {
      WithoutMember(list, {path}, records[p]);
    }
  }

  lemma MoveHeld<R>(records: map<string, Cached<R>>, list: seq<Cached<R>>, bytes: int, c: Cached<R>)
    requires Held(records, list, bytes) && c in list
    ensures Held(records, [c] + Without(list, {c.path}), bytes) && |[c] + Without(list, {c.path})| == |list|
  {
    RemoveHeld(records, list, bytes, c);
    AddHeld(records - {c.path}, Without(list, {c.path}), bytes - c.size, c);
    assert (records - {c.path})[c.path := c] == records;
  }

  lemma AddHeld<R>(records: map<string, Cached<R>>, list: seq<Cached<R>>, bytes: int, c: Cached<R>)
    requires Held(records, list, bytes) && c.path !in records
    ensures Held(records[c.path := c], [c] + list, bytes + c.size)
  {
    TotalFront(c, list);
    forall i | 0 <= i < |list| ensures list[i].path != c.path { assert list[i] in list; }
  }

  lemma {:induction false} TotalWithout<R>(list: seq<Cached<R>>, c: Cached<R>)
    requires Distinct(list) && c in list
    ensures Total(Without(list, {c.path})) == Total(list) - c.size
    ensures |Without(list, {c.path})| == |list| - 1
  {
    var front, last := list[..|list| - 1], list[|list| - 1];
    assert list == front + [last];
    if last == c {
      NothingDropped(front, {c.path});
    } else {
      TotalWithout(front, c);
      var rest := Without(front, {c.path});
      assert (rest + [last])[..|rest|] == rest;
    }
  }

  lemma {:induction false} NothingDropped<R>(list: seq<Cached<R>>, drop: set<string>)
    requires forall i :: 0 <= i < |list| ==> list[i].path !in drop
    ensures Without(list, drop) == list
  {
    if list != [] {
      NothingDropped(list[..|list| - 1], drop);
      assert list == list[..|list| - 1] + [list[|list| - 1]];
    }
  }

  /** The paths below a directory. */
  function Within(paths: set<string>, dir: string): set<string> { set p | p in paths && dir + "/" <= p }

  lemma {:induction false} WithoutTwice<R>(list: seq<Cached<R>>, drop: set<string>, p: string)
    ensures Without(Without(list, drop), {p}) == Without(list, drop + {p})
  {
    if list != [] {
      var front, last := list[..|list| - 1], list[|list| - 1];
      WithoutTwice(front, drop, p);
      var rest := Without(front, drop);
      assert (rest + [last])[..|rest|] == rest;
    }
  }

  lemma Regrouped(done: set<string>, todo: set<string>, p: string)
    requires p in todo
    ensures done + {p} + (todo - {p}) == done + todo
  {
  }

  class CheckpointCache<R(==)> {
    const maxRecords: int
    const maxBytes: int
    var bytes: int
    var records: map<string, Cached<R>>
    var lru: seq<Cached<R>>   // most recently used first

    /** The map and the list agree, the byte count is exact and both limits hold. */
    ghost predicate Valid()
      reads this
    { Held(records, lru, bytes) && (lru != [] ==> |lru| <= maxRecords && bytes <= maxBytes) }

    constructor (maxRecords: int, maxBytes: int)
      ensures Valid() && lru == [] && this.maxRecords == maxRecords && this.maxBytes == maxBytes
    {
      this.maxRecords, this.maxBytes, bytes, records, lru := maxRecords, maxBytes, 0, map[], [];
    }

    method Remove(c: Cached<R>)
      requires Held(records, lru, bytes) && c in lru
      modifies this`bytes, this`records, this`lru
      ensures Held(records, lru, bytes) && records == old(records) - {c.path} && lru == Without(old(lru), {c.path})
      ensures |lru| == |old(lru)| - 1 && bytes == old(bytes) - c.size
    {
      RemoveHeld(records, lru, bytes, c);
      records := records - {c.path};
      bytes := bytes - c.size;
      lru := Without(lru, {c.path});
    }

    method Get(path: string) returns (r: Option<R>)
      requires Valid()
      modifies this`lru
      ensures Valid()
      ensures r.Some? <==> path in records
      ensures r.Some? ==> lru == [records[path]] + Without(old(lru), {path}) && r.value == records[path].record
      ensures r.None? ==> lru == old(lru)
    {
      if path !in records { return None; }
      var c := records[path];
      MoveHeld(records, lru, bytes, c);
      lru := [c] + Without(lru, {path});
      return Some(c.record);
    }

    /** Retain a record: it comes first, and only as much as needed is evicted, oldest first. */
    method Put(path: string, record: R, size: nat)
      requires Valid()
      modifies this`bytes, this`records, this`lru
      ensures Valid()
      ensures var rest := Without(old(lru), {path});
        lru == if maxRecords <= 0 || size > maxBytes then
            rest else [Cached(path, record, size)] + Evicted(rest, maxRecords, maxBytes, size)
    {
      Forget(path);
      if maxRecords <= 0 || size > maxBytes { return; }
      ghost var rest := lru;
      MakeRoom(path, size);
      AddHeld(records, lru, bytes, Cached(path, record, size));
      records := records[path := Cached(path, record, size)];
      lru := [Cached(path, record, size)] + lru;
      bytes := bytes + size;
    }

    /** Evict from the back; with an empty list there is always room. */
    method MakeRoom(path: string, size: nat)
      requires Held(records, lru, bytes) && 0 < maxRecords && size <= maxBytes && path !in records
      modifies this`bytes, this`records, this`lru
      ensures Held(records, lru, bytes) && path !in records
      ensures lru == Evicted(old(lru), maxRecords, maxBytes, size) && HasRoom(lru, maxRecords, maxBytes, size)
    {
      while |lru| >= maxRecords || bytes > maxBytes - size
        invariant Held(records, lru, bytes) && path !in records
        invariant Evicted(lru, maxRecords, maxBytes, size) == Evicted(old(lru), maxRecords, maxBytes, size)
        decreases |lru|
      {
        DropLast(lru);
        Remove(lru[|lru| - 1]);
      }
    }

    method Forget(path: string)
      requires Valid()
      modifies this`bytes, this`records, this`lru
      ensures Valid() && lru == Without(old(lru), {path}) && records == old(records) - {path}
    {
      if path in records {
        Remove(records[path]);
      } else {
        forall i | 0 <= i < |lru| ensures lru[i].path != path { assert lru[i] in lru; }
        NothingDropped(lru, {path});
      }
    }

    /** Forget every record below a directory. */
    method ForgetDirectory(dir: string)
      requires Valid()
      modifies this`bytes, this`records, this`lru
      ensures Valid() && lru == Without(old(lru), Within(old(records).Keys, dir))
    {
      var todo := Within(records.Keys, dir);
      ghost var all, done: set<string> := todo, {};
      NothingDropped(lru, done);
      while todo != {}
        invariant Valid() && done + todo == all && todo <= records.Keys && lru == Without(old(lru), done)
        decreases |todo|
      {
        var p :| p in todo;
        WithoutTwice(old(lru), done, p);
        Forget(p);
        Regrouped(done, todo, p);
        done, todo := done + {p}, todo - {p};
      }
      assert done == done + todo;
    }
  }

  /** Removing the last record keeps the rest in place. */
  lemma DropLast<R>(list: seq<Cached<R>>)
    requires Distinct(list) && list != []
    ensures Without(list, {list[|list| - 1].path}) == list[..|list| - 1]
  {
    NothingDropped(list[..|list| - 1], {list[|list| - 1].path});
  }
}

/**
 One eviction pass over the cache directory, as the loop that the populating
 agent runs among others.  `busy` holds the keys the pass cannot delete when
 their turn comes: another agent has the lock at that moment, or opening the
 lock file or removing the marker fails.  Such a key keeps its marker and does
 not count against the surplus.  Every key has one turn, so one set describes
 locks that come and go during the pass.
 */
module CacheEviction {
  import opened Common
  import opened RepoCache

  /** The modification time of a marker; one deleted underneath the pass sorts as oldest. */
  function ReadyTime(ready: map<Key, real>, k: Key): real {
    if k in ready then ready[k] else 0.0
  }

  function Insert(k: Key, sorted: seq<Key>, ready: map<Key, real>): seq<Key> {
    if sorted == [] || ReadyTime(ready, k) <= ReadyTime(ready, sorted[0]) then [k] + sorted
    else [sorted[0]] + Insert(k, sorted[1..], ready)
  }

  /** The listing, oldest marker first; equal times keep their listing order. */
  function ByAge(listing: seq<Key>, ready: map<Key, real>): seq<Key> {
    if listing == [] then [] else Insert(listing[0], ByAge(listing[1..], ready), ready)
  }

  /** The first marker is no younger than the second.  A listed key whose marker is gone counts as
      written at time zero. */
  predicate NoYounger(ready: map<Key, real>, a: Key, b: Key) {
    && (a in ready && b in ready ==> ready[a] <= ready[b])
    && (a in ready && b !in ready ==> ready[a] <= 0.0)
    && (a !in ready && b in ready ==> 0.0 <= ready[b])
  }

  ghost predicate OldestFirst(keys: seq<Key>, ready: map<Key, real>) {
    forall i, j | 0 <= i < j < |keys| :: NoYounger(ready, keys[i], keys[j])
  }

  function KeySet(keys: seq<Key>): set<Key> {
    set k | k in keys
  }

  lemma {:induction false} InsertAddsKey(k: Key, sorted: seq<Key>, ready: map<Key, real>)
    ensures var r := Insert(k, sorted, ready);
      |r| == |sorted| + 1 && forall x :: x in r <==> x == k || x in sorted
  {
    if sorted != [] && ReadyTime(ready, k) > ReadyTime(ready, sorted[0]) {
      InsertAddsKey(k, sorted[1..], ready);
      assert sorted == [sorted[0]] + sorted[1..];
    }
  }

  lemma {:induction false} InsertSorts(k: Key, sorted: seq<Key>, ready: map<Key, real>)
    requires OldestFirst(sorted, ready) && Distinct(sorted) && k !in sorted
    ensures OldestFirst(Insert(k, sorted, ready), ready) && Distinct(Insert(k, sorted, ready))
  {
    if sorted != [] && ReadyTime(ready, k) > ReadyTime(ready, sorted[0]) {
      var rest := sorted[1..];
      InsertSorts(k, rest, ready);
      InsertAddsKey(k, rest, ready);
      var tail := Insert(k, rest, ready);
      forall x | x in tail ensures NoYounger(ready, sorted[0], x) && x != sorted[0] {
        assert x == k || x in rest;
      }
    }
  }

  /** Sorting keeps the keys of the listing. */
  lemma {:induction false} ByAgeSorts(listing: seq<Key>, ready: map<Key, real>)
    requires Distinct(listing)
    ensures var order := ByAge(listing, ready);
      OldestFirst(order, ready) && Distinct(order) && |order| == |listing| && KeySet(order) == KeySet(listing)
  {
    if listing != [] {
      ByAgeSorts(listing[1..], ready);
      assert listing == [listing[0]] + listing[1..];
      assert listing[0] !in KeySet(listing[1..]);
      assert listing[0] !in ByAge(listing[1..], ready) by {
        assert forall x | x in ByAge(listing[1..], ready) :: x in KeySet(ByAge(listing[1..], ready));
      }
      InsertSorts(listing[0], ByAge(listing[1..], ready), ready);
      InsertAddsKey(listing[0], ByAge(listing[1..], ready), ready);
      assert KeySet(ByAge(listing, ready)) == {listing[0]} + KeySet(ByAge(listing[1..], ready));
      assert KeySet(listing) == {listing[0]} + KeySet(listing[1..]);
    }
  }

  /** The keys a pass deletes while it has a surplus, in order: not the kept one, and not busy. */
  function Evictable(order: seq<Key>, keep: Key, busy: set<Key>): seq<Key> {
    if order == [] then []
    else if order[0] == keep || order[0] in busy then Evictable(order[1..], keep, busy)
    else [order[0]] + Evictable(order[1..], keep, busy)
  }

  /** What the pass deletes: the oldest evictable keys, as many as exceed the limit. */
  function Victims(listing: seq<Key>, ready: map<Key, real>, limit: Option<int>, keep: Key, busy: set<Key>): seq<Key> {
    if limit.None? || limit.value <= 0 then []
    else FirstOf(Evictable(ByAge(listing, ready), keep, busy), |listing| - limit.value)
  }

  lemma NextVictim(order: seq<Key>, i: nat, keep: Key, busy: set<Key>, n: int)
    requires i < |order| && n > 0
    ensures FirstOf(Evictable(order[i..], keep, busy), n)
         == if order[i] == keep || order[i] in busy then FirstOf(Evictable(order[i + 1..], keep, busy), n)
            else [order[i]] + FirstOf(Evictable(order[i + 1..], keep, busy), n - 1)
  {
    assert order[i..][1..] == order[i + 1..];
  }

  lemma RemoveNothing<V>(m: map<Key, V>)
    ensures m - KeySet([]) == m
  {
  }

  lemma RemoveOneMore<V>(m: map<Key, V>, gone: seq<Key>, k: Key)
    ensures m - KeySet(gone) - {k} == m - KeySet(gone + [k])
  {
    assert KeySet(gone + [k]) == KeySet(gone) + {k};
  }

  class CacheDir {
    var ready: map<Key, real>
    var trees: map<Key, Tree>

    constructor (ready: map<Key, real>, trees: map<Key, Tree>)
      ensures this.ready == ready && this.trees == trees
    {
      this.ready, this.trees := ready, trees;
    }

    /** The directory is the given one without the keys in `gone`. */
    ghost predicate Without(ready0: map<Key, real>, trees0: map<Key, Tree>, gone: seq<Key>)
      reads this
    {
      ready == ready0 - KeySet(gone) && trees == trees0 - KeySet(gone)
    }

    /** Marker first, then the tree. */
    method Delete(key: Key, ghost ready0: map<Key, real>, ghost trees0: map<Key, Tree>, ghost gone: seq<Key>)
      requires Without(ready0, trees0, gone)
      modifies this
      ensures Without(ready0, trees0, gone + [key])
    {
      RemoveOneMore(ready0, gone, key);
      RemoveOneMore(trees0, gone, key);
      ready := ready - {key};
      trees := trees - {key};
    }

    /** The loop over the markers, oldest first. */
    method DeleteOldest(order: seq<Key>, surplus: int, keep: Key, busy: set<Key>)
      modifies this
      ensures Without(old(ready), old(trees), FirstOf(Evictable(order, keep, busy), surplus))
    {
      RemoveNothing(ready);
      RemoveNothing(trees);
      var excess := surplus;
      ghost var victims := FirstOf(Evictable(order, keep, busy), surplus);
      ghost var gone, left := [], victims;
      assert order[0..] == order;
      for i := 0 to |order|
        invariant left == FirstOf(Evictable(order[i..], keep, busy), excess)
        invariant victims == gone + left
        invariant Without(old(ready), old(trees), gone)
      {
        if excess <= 0 {
          return;
        }
        var key := order[i];
        NextVictim(order, i, keep, busy, excess);
        if key == keep || key in busy {
          continue;
        }
        Delete(key, old(ready), old(trees), gone);
        excess := excess - 1;
        gone, left := gone + [key], left[1..];
      }
    }

    method EvictExcessEntries(listing: seq<Key>, limit: Option<int>, keep: Key, busy: set<Key>)
      modifies this
      ensures Without(old(ready), old(trees), Victims(listing, old(ready), limit, keep, busy))
    {
      if limit.None? || limit.value <= 0 {
        RemoveNothing(ready);
        RemoveNothing(trees);
        return;
      }
      DeleteOldest(ByAge(listing, ready), |listing| - limit.value, keep, busy);
    }
  }

  /** Evictable keys are listed, neither kept nor busy, distinct, and in age order. */
  lemma {:induction false} EvictableKeepsOrder(order: seq<Key>, ready: map<Key, real>, keep: Key, busy: set<Key>)
    requires Distinct(order)
    requires OldestFirst(order, ready)
    ensures var e := Evictable(order, keep, busy);
      && OldestFirst(e, ready)
      && Distinct(e)
      && forall k :: k in e <==> k in order && k != keep && k !in busy
  {
    if order != [] {
      EvictableKeepsOrder(order[1..], ready, keep, busy);
      assert order == [order[0]] + order[1..];
      var e := Evictable(order[1..], keep, busy);
      assert forall i | 0 <= i < |e| :: e[i] in order[1..];
    }
  }

  /** A pass deletes only listed keys that are neither kept nor busy, and by marker time never a
      younger key while an older deletable one stays. */
  lemma EvictionIsOldestFirst(listing: seq<Key>, ready: map<Key, real>, limit: Option<int>, keep: Key, busy: set<Key>)
    requires Distinct(listing)
    ensures var gone := Victims(listing, ready, limit, keep, busy);
      && (forall k | k in gone :: k in listing && k != keep && k !in busy)
      && forall k, other | k in gone && other in listing && other != keep && other !in busy && other !in gone ::
           NoYounger(ready, k, other)
  {
    var order := ByAge(listing, ready);
    ByAgeSorts(listing, ready);
    EvictableKeepsOrder(order, ready, keep, busy);
    forall k | k in Victims(listing, ready, limit, keep, busy)
      ensures k in listing && k != keep && k !in busy
    {
      assert k in Evictable(order, keep, busy);
      assert k in KeySet(order);
    }
    forall other | other in listing ensures other in order {
      assert other in KeySet(listing);
    }
  }

  function Excess(markers: nat, limit: Option<int>): nat {
    if limit.None? || limit.value <= 0 then 0 else AtLeastZero(markers - limit.value)
  }

  function Smaller(a: nat, b: nat): nat {
    if a <= b then a else b
  }

  /** The keys nobody holds and the pass does not keep. */
  function Deletable(listing: seq<Key>, keep: Key, busy: set<Key>): set<Key> {
    KeySet(listing) - busy - {keep}
  }

  lemma EvictableCount(listing: seq<Key>, ready: map<Key, real>, keep: Key, busy: set<Key>)
    requires Distinct(listing)
    ensures var e := Evictable(ByAge(listing, ready), keep, busy);
      Distinct(e) && KeySet(e) == Deletable(listing, keep, busy) && |e| == |Deletable(listing, keep, busy)|
  {
    var order := ByAge(listing, ready);
    ByAgeSorts(listing, ready);
    EvictableKeepsOrder(order, ready, keep, busy);
    forall k ensures k in order <==> k in KeySet(listing) {
      assert k in order <==> k in KeySet(order);
    }
    DistinctCount(Evictable(order, keep, busy));
  }

  lemma VictimsCount(listing: seq<Key>, ready: map<Key, real>, limit: Option<int>, keep: Key, busy: set<Key>)
    requires Distinct(listing)
    ensures var gone := Victims(listing, ready, limit, keep, busy);
      && Distinct(gone) && (forall k | k in gone :: k in Deletable(listing, keep, busy))
      && |gone| == Smaller(|Deletable(listing, keep, busy)|, Excess(|listing|, limit))
  {
    var e, gone := Evictable(ByAge(listing, ready), keep, busy), Victims(listing, ready, limit, keep, busy);
    EvictableCount(listing, ready, keep, busy);
    assert gone <= e;
    forall k | k in gone ensures k in Deletable(listing, keep, busy) {
      assert k in e;
      assert k in KeySet(e);
    }
  }

  /** How many markers a pass leaves, whatever is busy: it removes as many as exceed the limit, or
      all it may delete if those are fewer, and never a kept or busy one. */
  lemma EvictionLeavesExactly(listing: seq<Key>, ready: map<Key, real>, limit: Option<int>, keep: Key, busy: set<Key>)
    requires Distinct(listing)
    requires forall k :: k in ready <==> k in listing
    ensures var left := ready - KeySet(Victims(listing, ready, limit, keep, busy));
      && |left| == |ready| - Smaller(|Deletable(listing, keep, busy)|, Excess(|ready|, limit))
      && forall k | k in ready && (k == keep || k in busy) :: k in left
  {
    var gone := Victims(listing, ready, limit, keep, busy);
    VictimsCount(listing, ready, limit, keep, busy);
    DistinctCount(listing);
    DistinctCount(gone);
    assert forall k | k in gone :: k in KeySet(listing);
    RemovalCount(ready, listing, gone);
  }

  /** With no lock in the way a pass ends with exactly the smaller of the number of markers and the
      limit, and still has the kept key if it was there. */
  lemma UncontendedEvictionReachesLimit(listing: seq<Key>, ready: map<Key, real>, limit: int, keep: Key)
    requires Distinct(listing)
    requires forall k :: k in ready <==> k in listing
    requires limit > 0
    ensures var left := ready - KeySet(Victims(listing, ready, Some(limit), keep, {}));
      (keep in ready ==> keep in left) && |left| == Smaller(|ready|, limit)
  {
    EvictionLeavesExactly(listing, ready, Some(limit), keep, {});
    AllButKeptDeletable(listing, ready, keep);
  }

  lemma AllButKeptDeletable(listing: seq<Key>, ready: map<Key, real>, keep: Key)
    requires forall k :: k in ready <==> k in listing
    ensures |Deletable(listing, keep, {})| == |ready| - if keep in ready then 1 else 0
  {
    RemovalCount(ready, listing, []);
    assert keep in ready <==> keep in KeySet(listing);
    assert Deletable(listing, keep, {}) == KeySet(listing) - {keep};
  }

  lemma RemovalCount(ready: map<Key, real>, listing: seq<Key>, gone: seq<Key>)
    requires forall k :: k in ready <==> k in listing
    requires forall k | k in gone :: k in listing
    ensures |ready| == |KeySet(listing)| && |ready - KeySet(gone)| == |ready| - |KeySet(gone)|
  {
    assert KeySet(listing) == ready.Keys;
    assert (ready - KeySet(gone)).Keys == ready.Keys - KeySet(gone);
    assert KeySet(gone) <= ready.Keys;
  }

  lemma {:induction false} DistinctCount(keys: seq<Key>)
    requires Distinct(keys)
    ensures |KeySet(keys)| == |keys|
  {
    if keys != [] {
      DistinctCount(keys[1..]);
      assert KeySet(keys) == {keys[0]} + KeySet(keys[1..]);
    }
  }
}

/**
 What a worker is given when it asks the queue: the first unit that is still
 wanted, and what became of the units in front of it.
 */
module WorkQueuePulls {
  import opened Common
  import opened WorkQueue
  import opened WorkQueueRuns

  /** The pool-one units go before the pool-two units, and earlier ones before later ones. */
  predicate NotAfter(a: Item, b: Item) {
    if a.request.pool == b.request.pool then a.number <= b.number else a.request.pool == PoolOne
  }

  lemma FirstIsFirst(items: seq<Item>)
    requires items != []
    ensures forall x | x in items :: NotAfter(items[FirstIndex(items)], x)
  {
    var i := FirstIndex(items);
    forall x | x in items ensures NotAfter(items[i], x) {
      var j :| 0 <= j < |items| && items[j] == x;
      assert !Before(items[j], items[i]);
    }
  }

  /** A request is wanted while its king is the current one and no cancellation of it is queued. */
  predicate Wanted(q: Queue, r: Request) {
    q.king == Some(r.king) && (r in q.cancel ==> q.cancel[r] <= 0)
  }

  lemma OneDrop(q: Queue, r: Request)
    requires !Wanted(q, r)
    ensures Unwanted(q, r)
    ensures var q' := Drop(q, r);
      && q' == q.(inFlight := q'.inFlight, cancel := q'.cancel)
      && (forall s :: Slots(q', s) == if s == r then (if Slots(q, s) < 1 then 0 else Slots(q, s) - 1) else Slots(q, s))
      && (forall s :: Cancels(q', s) == Cancels(q, s) - if s == r && q.king == Some(r.king) then 1 else 0)
  {
  }

  /** What dropping a list of units does to the counters: every unit gives its slot back, and one of the
      current king spends a cancellation, of which there was one for each. */
  ghost predicate Dropped(q: Queue, q': Queue, gone: seq<Item>) {
    && q'.king == q.king && q'.next == q.next
    && (forall r :: Slots(q', r) == Slots(q, r) - Units(gone, r))
    && (forall r: Request :: Cancels(q', r) == Cancels(q, r) - if q.king == Some(r.king) then Units(gone, r) else 0)
    && (forall r: Request | q.king == Some(r.king) && Units(gone, r) > 0 :: Cancels(q, r) >= Units(gone, r))
  }

  /** The units of a queue each have a slot. */
  ghost predicate Backed(q: Queue, items: seq<Item>) {
    forall r :: Slots(q, r) >= Units(items, r)
  }

  function Given(item: Option<Item>): multiset<Item> {
    if item.Some? then multiset{item.value} else multiset{}
  }

  /** The queue went to the units in `gone`, the given one if any, and those left, in this order. */
  ghost predicate Split(items: seq<Item>, gone: seq<Item>, given: Option<Item>, left: seq<Item>) {
    && multiset(items) == multiset(gone) + Given(given) + multiset(left)
    && (forall x, y | x in gone && y in left :: NotAfter(x, y))
    && (given.Some? ==> forall y | y in left :: NotAfter(given.value, y))
    && (given.Some? ==> forall x | x in gone :: NotAfter(x, given.value))
    && (given.None? ==> left == [])
  }

  lemma RemovedOne(items: seq<Item>, i: nat)
    requires i < |items|
    ensures multiset(items) == multiset{items[i]} + multiset(RemoveAt(items, i))
  {
    assert items == items[..i] + [items[i]] + items[i + 1..];
  }

  lemma SplitOneMore(items: seq<Item>, gone: seq<Item>, given: Option<Item>, left: seq<Item>)
    requires items != [] && Split(RemoveAt(items, FirstIndex(items)), gone, given, left)
    ensures Split(items, gone + [items[FirstIndex(items)]], given, left)
  {
    var i := FirstIndex(items);
    FirstIsFirst(items);
    RemovedOne(items, i);
    var rest := RemoveAt(items, i);
    forall x | x in left || x in Given(given) ensures NotAfter(items[i], x) {
      assert x in multiset(left) + Given(given);
      assert x in multiset(rest);
      assert x in multiset(items);
    }
  }

  lemma SplitAtFirst(items: seq<Item>)
    requires items != []
    ensures Split(items, [], Some(items[FirstIndex(items)]), RemoveAt(items, FirstIndex(items)))
  {
    var i := FirstIndex(items);
    FirstIsFirst(items);
    RemovedOne(items, i);
    forall x | x in RemoveAt(items, i) ensures NotAfter(items[i], x) {
      assert x in items;
    }
  }

  lemma DroppedOneMore(q: Queue, q1: Queue, q2: Queue, item: Item, gone: seq<Item>)
    requires Dropped(q, q1, [item]) && Dropped(q1, q2, gone)
    ensures Dropped(q, q2, gone + [item])
  {
    UnitAdded([], item);
    assert [] + [item] == [item];
    UnitAdded(gone, item);
    forall r: Request | q.king == Some(r.king) && Units(gone + [item], r) > 0
      ensures Cancels(q, r) >= Units(gone + [item], r)
    {
      assert Units(gone + [item], r) == Units(gone, r) + Units([item], r);
      assert Cancels(q1, r) == Cancels(q, r) - Units([item], r);
      assert Units(gone, r) > 0 ==> Cancels(q1, r) >= Units(gone, r);
    }
  }

  lemma PulledUnit(q: Queue, popped: Queue, items: seq<Item>, i: nat)
    requires i < |items| && Backed(q, items)
    requires popped.inFlight == q.inFlight && popped.cancel == q.cancel && popped.king == q.king && popped.next == q.next
    ensures var r := items[i].request;
      var q' := if Unwanted(q, r) then Drop(popped, r) else popped;
      && q' == popped.(inFlight := q'.inFlight, cancel := q'.cancel)
      && (Unwanted(q, r) <==> !Wanted(q, r))
      && (Wanted(q, r) ==> Dropped(q, q', []))
      && (!Wanted(q, r) ==> Dropped(q, q', [items[i]]) && Backed(q', RemoveAt(items, i)))
  {
    var item := items[i];
    UnitRemoved(items, i);
    UnitAdded([], item);
    assert [] + [item] == [item];
    assert forall r :: Slots(popped, r) == Slots(q, r) && Cancels(popped, r) == Cancels(q, r);
    if !Wanted(q, item.request) {
      OneDrop(popped, item.request);
    }
  }

  /** The fetcher is given the first unit that is still wanted.  Exactly the units before it leave with
      their slots, each of the current king at the price of one queued cancellation; it waits only
      when nothing is left. */
  lemma {:induction false} FetcherGetsFirstWanted(q: Queue) returns (gone: seq<Item>, given: Option<Item>)
    requires Backed(q, q.toFetch)
    ensures var (q', result) := NextToFetch(q);
      && Split(q.toFetch, gone, given, q'.toFetch) && Dropped(q, q', gone)
      && result == (if given.Some? then Some(given.value.request) else None)
      && (given.Some? ==> Wanted(q', given.value.request))
      && q'.fingerprints == q.fingerprints && q'.toDescribe == q.toDescribe
    decreases |q.toFetch|
  {
    if q.toFetch == [] {
      return [], None;
    }
    var i := FirstIndex(q.toFetch);
    PulledUnit(q, q.(toFetch := RemoveAt(q.toFetch, i)), q.toFetch, i);
    var (q1, item) := PullFetch(q);
    if Wanted(q, item.request) {
      SplitAtFirst(q.toFetch);
      return [], Some(item);
    }
    gone, given := FetcherGetsFirstWanted(q1);
    SplitOneMore(q.toFetch, gone, given, NextToFetch(q1).0.toFetch);
    DroppedOneMore(q, q1, NextToFetch(q1).0, item, gone);
    gone := gone + [item];
  }

  lemma PullDescribeDrops(q: Queue)
    requires q.toDescribe != [] && Backed(q, q.toDescribe)
    ensures var (q', item) := PullDescribe(q);
      && q'.toDescribe == RemoveAt(q.toDescribe, FirstIndex(q.toDescribe)) && item == q.toDescribe[FirstIndex(q.toDescribe)]
      && q'.toFetch == q.toFetch && (Unwanted(q, item.request) <==> !Wanted(q, item.request))
      && (Wanted(q, item.request) ==> Dropped(q, q', []) && q'.fingerprints == q.fingerprints)
      && (!Wanted(q, item.request) ==>
            Dropped(q, q', [item]) && Backed(q', q'.toDescribe) && q'.fingerprints == q.fingerprints - {item.fingerprint})
  {
    var i := FirstIndex(q.toDescribe);
    var r := q.toDescribe[i].request;
    var popped := q.(toDescribe := RemoveAt(q.toDescribe, i));
    PulledUnit(q, popped, q.toDescribe, i);
    var q1, q' := (if Unwanted(q, r) then Drop(popped, r) else popped), PullDescribe(q).0;
    assert forall s :: Slots(q', s) == Slots(q1, s) && Cancels(q', s) == Cancels(q1, s);
  }

  lemma PrintsOfOneMore(items: seq<Item>, item: Item)
    ensures (set x | x in items + [item] :: x.fingerprint) == (set x | x in items :: x.fingerprint) + {item.fingerprint}
  {
    assert forall x :: x in items + [item] <==> x in items || x == item;
  }

  /** The same for a describer, and exactly the fingerprints of the units that left are free again. */
  lemma {:induction false} DescriberGetsFirstWanted(q: Queue) returns (gone: seq<Item>, given: Option<Item>)
    requires Backed(q, q.toDescribe)
    ensures var (q', result) := NextToDescribe(q);
      && Split(q.toDescribe, gone, given, q'.toDescribe) && Dropped(q, q', gone)
      && result == given && (given.Some? ==> Wanted(q', given.value.request))
      && q'.fingerprints == q.fingerprints - (set x | x in gone :: x.fingerprint) && q'.toFetch == q.toFetch
    decreases |q.toDescribe|
  {
    if q.toDescribe == [] {
      return [], None;
    }
    PullDescribeDrops(q);
    var (q1, item) := PullDescribe(q);
    if Wanted(q, item.request) {
      SplitAtFirst(q.toDescribe);
      return [], Some(item);
    }
    var rest: seq<Item>;
    rest, given := DescriberGetsFirstWanted(q1);
    SplitOneMore(q.toDescribe, rest, given, NextToDescribe(q1).0.toDescribe);
    DroppedOneMore(q, q1, NextToDescribe(q1).0, item, rest);
    PrintsOfOneMore(rest, item);
    gone := rest + [item];
  }

  // ---------------------------------------------------------------- in the pipeline

  /** Asking for a unit to fetch is a sequence of pulls, in every state of every run; the unit given, if
      any, is with the fetcher afterwards. */
  lemma {:induction false} AskingIsPulling(p: Pipeline) returns (run: seq<Pipeline>, events: seq<Event>)
    ensures |run| == |events| + 1 && run[0] == p
    ensures forall i | 0 <= i < |events| :: events[i] == Fetch && Allowed(run[i], Fetch) && run[i + 1] == Next(run[i], Fetch)
    ensures var (q', result) := NextToFetch(p.q);
      run[|events|] == p.(q := q', fetching := if result.Some? then p.fetching + [result.value] else p.fetching)
    decreases |p.q.toFetch|
  {
    if p.q.toFetch == [] {
      return [p], [];
    }
    var next := Next(p, Fetch);
    var item := PullFetch(p.q).1;
    if !Unwanted(p.q, item.request) {
      return [p, next], [Fetch];
    }
    var later, pulls := AskingIsPulling(next);
    run, events := [p] + later, [Fetch] + pulls;
    forall i | 0 <= i < |events|
      ensures events[i] == Fetch && Allowed(run[i], Fetch) && run[i + 1] == Next(run[i], Fetch)
    {
      if i > 0 {
        assert events[i] == pulls[i - 1] && run[i] == later[i - 1] && run[i + 1] == later[i];
      }
    }
  }
}

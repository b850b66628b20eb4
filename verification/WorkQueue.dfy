/**
 The task generator's work queue: in-flight slots, queued cancellations, and the
 fetch and describe queues.  `asyncio` methods run without interruption between
 their awaits, so each is one atomic section.
 */
module WorkQueue {
  import opened Common

  /** A request to produce one task for a king's pool; also the key of the slot counters. */
  datatype Request = Request(king: Id, pool: Pool)

  /** A queued unit; the fingerprint is empty until a commit has been fetched for it. */
  datatype Item = Item(number: nat, request: Request, fingerprint: string)

  datatype Deficit = Deficit(king: Id, pool: Pool, count: int)

  datatype Queue = Queue(
    king: Option<Id>, inFlight: map<Request, int>, cancel: map<Request, int>, fingerprints: set<string>,
    toFetch: seq<Item>, toDescribe: seq<Item>, next: nat)

  function Slots(q: Queue, r: Request): int {
    if r in q.inFlight then q.inFlight[r] else 0
  }

  function Cancels(q: Queue, r: Request): int {
    if r in q.cancel then q.cancel[r] else 0
  }

  // ---------------------------------------------------------------- priority queues

  /** Pool one before pool two, then insertion order. */
  predicate Before(a: Item, b: Item) {
    || (a.request.pool == b.request.pool && a.number < b.number)
    || (a.request.pool.PoolOne? && b.request.pool.PoolTwo?)
  }

  function FirstIndex(items: seq<Item>): (i: nat)
    requires items != []
    ensures i < |items| && forall j | 0 <= j < |items| :: !Before(items[j], items[i])
  {
    if |items| == 1 then 0
    else
      var rest := FirstIndex(items[1..]);
      assert forall j | 1 <= j < |items| :: items[j] == items[1..][j - 1];
      if Before(items[1..][rest], items[0]) then rest + 1 else 0
  }

  // ---------------------------------------------------------------- operations

  function Push(q: Queue, r: Request): Queue {
    q.(toFetch := q.toFetch + [Item(q.next, r, "")], next := q.next + 1)
  }

  function PushMany(q: Queue, r: Request, n: nat): Queue {
    if n == 0 then q else Push(PushMany(q, r, n - 1), r)
  }

  function Finish(q: Queue, r: Request): Queue {
    q.(inFlight := q.inFlight[r := if Slots(q, r) < 1 then 0 else Slots(q, r) - 1])
  }

  /** The deficit a poll lists for a pool of the reigning king; the last entry of a pool counts. */
  function Needed(deficits: seq<Deficit>, king: Id, pool: Pool): int {
    if deficits == [] then 0
    else
      var last := deficits[|deficits| - 1];
      if last.king == king && last.pool == pool then last.count
      else Needed(deficits[..|deficits| - 1], king, pool)
  }

  function SyncPool(q: Queue, r: Request, needed: int): Queue {
    var delta := needed - Slots(q, r);
    if delta > 0 then
      PushMany(q.(inFlight := q.inFlight[r := Slots(q, r) + delta]), r, delta).(cancel := q.cancel[r := 0])
    else q.(cancel := q.cancel[r := -delta])
  }

  function Sync(q: Queue, deficits: seq<Deficit>): Queue {
    if deficits == [] then q.(king := None)
    else
      var king := deficits[0].king;
      var one := SyncPool(q.(king := Some(king)), Request(king, PoolOne), Needed(deficits, king, PoolOne));
      SyncPool(one, Request(king, PoolTwo), Needed(deficits, king, PoolTwo))
  }

  predicate Unwanted(q: Queue, r: Request) {
    q.king != Some(r.king) || Cancels(q, r) > 0
  }

  /** Freeing an unwanted unit's slot; a cancellation is spent unless the unit is merely stale. */
  function Drop(q: Queue, r: Request): Queue {
    Finish(if q.king != Some(r.king) then q else q.(cancel := q.cancel[r := Cancels(q, r) - 1]), r)
  }

  /** One round of `next_to_fetch`: the first unit leaves the queue and is dropped or handed out. */
  function PullFetch(q: Queue): (Queue, Item)
    requires q.toFetch != []
  {
    var item := q.toFetch[FirstIndex(q.toFetch)];
    var popped := q.(toFetch := RemoveAt(q.toFetch, FirstIndex(q.toFetch)));
    (if Unwanted(q, item.request) then Drop(popped, item.request) else popped, item)
  }

  /** `None` stands for waiting on an empty queue. */
  function NextToFetch(q: Queue): (Queue, Option<Request>)
    decreases |q.toFetch|
  {
    if q.toFetch == [] then (q, None)
    else
      var (pulled, item) := PullFetch(q);
      if Unwanted(q, item.request) then NextToFetch(pulled) else (pulled, Some(item.request))
  }

  function Submit(q: Queue, r: Request, fingerprint: string): Queue {
    q.(toDescribe := q.toDescribe + [Item(q.next, r, fingerprint)], next := q.next + 1)
  }

  function ReleaseFingerprint(q: Queue, fingerprint: string): Queue {
    q.(fingerprints := q.fingerprints - {fingerprint})
  }

  function PullDescribe(q: Queue): (Queue, Item)
    requires q.toDescribe != []
  {
    var item := q.toDescribe[FirstIndex(q.toDescribe)];
    var popped := q.(toDescribe := RemoveAt(q.toDescribe, FirstIndex(q.toDescribe)));
    (if Unwanted(q, item.request) then ReleaseFingerprint(Drop(popped, item.request), item.fingerprint) else popped, item)
  }

  function NextToDescribe(q: Queue): (Queue, Option<Item>)
    decreases |q.toDescribe|
  {
    if q.toDescribe == [] then (q, None)
    else
      var (pulled, item) := PullDescribe(q);
      if Unwanted(q, item.request) then NextToDescribe(pulled) else (pulled, Some(item))
  }

  // ---------------------------------------------------------------- the object

  class TaskQueue {
    var currentKing: Option<Id>
    var inFlight: map<Request, int>
    var cancel: map<Request, int>
    var fingerprints: set<string>
    var toFetch: seq<Item>
    var toDescribe: seq<Item>
    var next: nat

    constructor ()
      ensures Contents() == Queue(None, map[], map[], {}, [], [], 0)
    {
      currentKing, inFlight, cancel, fingerprints := None, map[], map[], {};
      toFetch, toDescribe, next := [], [], 0;
    }

    function Contents(): Queue
      reads this
    {
      Queue(currentKing, inFlight, cancel, fingerprints, toFetch, toDescribe, next)
    }

    method PutRequest(r: Request)
      modifies this
      ensures Contents() == Push(old(Contents()), r)
    {
      toFetch := toFetch + [Item(next, r, "")];
      next := next + 1;
    }

    method SyncOnePool(r: Request, needed: int) returns (launched: nat)
      modifies this
      ensures Contents() == SyncPool(old(Contents()), r, needed)
      ensures launched == if needed > Slots(old(Contents()), r) then needed - Slots(old(Contents()), r) else 0
      ensures |toFetch| == |old(toFetch)| + launched
    {
      launched := 0;
      var delta := needed - Slots(Contents(), r);
      if delta > 0 {
        inFlight := inFlight[r := Slots(Contents(), r) + delta];
        ghost var counted := Contents();
        for i := 0 to delta
          invariant Contents() == PushMany(counted, r, i) && |toFetch| == |counted.toFetch| + i
        {
          PutRequest(r);
        }
        launched := delta;
        PushingKeepsCancels(counted, r, delta);
        cancel := cancel[r := 0];
      } else {
        cancel := cancel[r := -delta];
      }
    }

    method SyncToDeficits(deficits: seq<Deficit>) returns (launched: nat)
      modifies this
      ensures Contents() == Sync(old(Contents()), deficits)
      ensures |toFetch| == |old(toFetch)| + launched
    {
      launched := 0;
      currentKing := if deficits == [] then None else Some(deficits[0].king);
      if deficits == [] {
        return;
      }
      var king := deficits[0].king;
      var one := SyncOnePool(Request(king, PoolOne), Needed(deficits, king, PoolOne));
      var two := SyncOnePool(Request(king, PoolTwo), Needed(deficits, king, PoolTwo));
      launched := one + two;
    }

    method FinishUnit(r: Request)
      modifies this
      ensures Contents() == Finish(old(Contents()), r)
    {
      var slots := Slots(Contents(), r);
      inFlight := inFlight[r := if slots < 1 then 0 else slots - 1];
    }

    /** Whether a pulled unit is stale or takes one queued cancellation. */
    method TakeUnwanted(r: Request) returns (unwanted: bool)
      modifies this
      ensures unwanted == Unwanted(old(Contents()), r)
      ensures Contents() == if unwanted && old(currentKing) == Some(r.king)
        then old(Contents()).(cancel := old(cancel)[r := Cancels(old(Contents()), r) - 1]) else old(Contents())
    {
      if currentKing != Some(r.king) {
        return true;
      }
      if Cancels(Contents(), r) > 0 {
        cancel := cancel[r := Cancels(Contents(), r) - 1];
        return true;
      }
      return false;
    }

    method NextToFetchUnit() returns (request: Option<Request>)
      modifies this
      ensures (Contents(), request) == NextToFetch(old(Contents()))
    {
      while toFetch != []
        invariant NextToFetch(Contents()) == NextToFetch(old(Contents()))
        decreases |toFetch|
      {
        ghost var before := Contents();
        var i := FirstIndex(toFetch);
        var item := toFetch[i];
        toFetch := RemoveAt(toFetch, i);
        var unwanted := TakeUnwanted(item.request);
        if !unwanted {
          assert (Contents(), item) == PullFetch(before);
          return Some(item.request);
        }
        FinishUnit(item.request);
        assert (Contents(), item) == PullFetch(before);
      }
      return None;
    }

    method SubmitFetched(r: Request, fingerprint: string)
      modifies this
      ensures Contents() == Submit(old(Contents()), r, fingerprint)
    {
      toDescribe := toDescribe + [Item(next, r, fingerprint)];
      next := next + 1;
    }

    method NextToDescribeUnit() returns (unit: Option<Item>)
      modifies this
      ensures (Contents(), unit) == NextToDescribe(old(Contents()))
    {
      while toDescribe != []
        invariant NextToDescribe(Contents()) == NextToDescribe(old(Contents()))
        decreases |toDescribe|
      {
        ghost var before := Contents();
        var i := FirstIndex(toDescribe);
        var item := toDescribe[i];
        toDescribe := RemoveAt(toDescribe, i);
        var unwanted := TakeUnwanted(item.request);
        if !unwanted {
          assert (Contents(), item) == PullDescribe(before);
          return Some(item);
        }
        fingerprints := fingerprints - {item.fingerprint};
        FinishUnit(item.request);
        assert (Contents(), item) == PullDescribe(before);
      }
      return None;
    }

    method Reserve(fingerprint: string) returns (reserved: bool)
      modifies this
      ensures reserved <==> fingerprint !in old(fingerprints)
      ensures Contents() == old(Contents()).(fingerprints := old(fingerprints) + {fingerprint})
    {
      reserved := fingerprint !in fingerprints;
      fingerprints := fingerprints + {fingerprint};
    }
  }

  lemma {:induction false} PushingKeepsCancels(q: Queue, r: Request, n: nat)
    ensures PushMany(q, r, n).cancel == q.cancel
  {
    if n > 0 {
      PushingKeepsCancels(q, r, n - 1);
    }
  }
}

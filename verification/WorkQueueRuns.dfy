/**
 The queue together with the controller, the fetcher and the describers that
 drive it.  A unit a worker pulls is settled once (requeued, handed on, or
 finished) or, when an unexpected exception strikes between pulling and settling
 it, lost.
 */
module WorkQueueRuns {
  import opened Common
  import opened WorkQueue

  /** `fetching` are units pulled by the fetcher; `reserved` those it has reserved a fingerprint
      for but not handed on; `describing` those leased by describers; `lost` those the fetcher
      dropped on an exception.  `needed` is what the last poll asked for and `completed` the units
      finished since, per pool. */
  datatype Pipeline = Pipeline(
    q: Queue, fetching: seq<Request>, reserved: seq<Item>, describing: seq<Item>, lost: seq<Request>,
    needed: map<Pool, int>, completed: map<Pool, int>)

  datatype Event =
    | Poll(deficits: seq<Deficit>)
    | Fetch
    | FetchFails(index: nat)
    | Lose(index: nat)
    | Keep(index: nat, fingerprint: string)
    | HandOn(index: nat)
    | Describe
    | Settle(index: nat, inserted: bool)

  predicate Allowed(p: Pipeline, e: Event) {
    match e
    case Poll(_) => true
    case Fetch => p.q.toFetch != []
    case FetchFails(i) => i < |p.fetching|
    case Lose(i) => i < |p.fetching|
    case Keep(i, f) => i < |p.fetching| && f !in p.q.fingerprints
    case HandOn(i) => i < |p.reserved|
    case Describe => p.q.toDescribe != []
    case Settle(i, _) => i < |p.describing|
  }

  function Of(m: map<Pool, int>, pool: Pool): int {
    if pool in m then m[pool] else 0
  }

  function Next(p: Pipeline, e: Event): Pipeline
    requires Allowed(p, e)
  {
    match e
    case Poll(deficits) =>
      if deficits == [] then p.(q := Sync(p.q, deficits))
      else
        var king := deficits[0].king;
        p.(q := Sync(p.q, deficits), completed := map[],
           needed := map[PoolOne := Needed(deficits, king, PoolOne), PoolTwo := Needed(deficits, king, PoolTwo)])
    case Fetch =>
      var (q, item) := PullFetch(p.q);
      p.(q := q, fetching := if Unwanted(p.q, item.request) then p.fetching else p.fetching + [item.request])
    case FetchFails(i) => p.(q := Push(p.q, p.fetching[i]), fetching := RemoveAt(p.fetching, i))
    case Lose(i) => p.(fetching := RemoveAt(p.fetching, i), lost := p.lost + [p.fetching[i]])
    case Keep(i, f) =>
      p.(q := p.q.(fingerprints := p.q.fingerprints + {f}), fetching := RemoveAt(p.fetching, i),
         reserved := p.reserved + [Item(0, p.fetching[i], f)])
    case HandOn(i) =>
      p.(q := Submit(p.q, p.reserved[i].request, p.reserved[i].fingerprint), reserved := RemoveAt(p.reserved, i))
    case Describe =>
      var (q, item) := PullDescribe(p.q);
      p.(q := q, describing := if Unwanted(p.q, item.request) then p.describing else p.describing + [item])
    case Settle(i, inserted) =>
      var r := p.describing[i].request;
      var settled := if inserted then Finish(p.q, r) else Push(p.q, r);
      p.(q := ReleaseFingerprint(settled, p.describing[i].fingerprint), describing := RemoveAt(p.describing, i),
         completed := if inserted && p.q.king == Some(r.king)
           then p.completed[r.pool := Of(p.completed, r.pool) + 1] else p.completed)
  }

  // ---------------------------------------------------------------- counting units

  function RequestsOf(items: seq<Item>): seq<Request> {
    seq(|items|, i requires 0 <= i < |items| => items[i].request)
  }

  function PrintsOf(items: seq<Item>): seq<string> {
    seq(|items|, i requires 0 <= i < |items| => items[i].fingerprint)
  }

  function Units(items: seq<Item>, r: Request): nat {
    Count(RequestsOf(items), r)
  }

  function Prints(items: seq<Item>, f: string): nat {
    Count(PrintsOf(items), f)
  }

  lemma UnitAdded(items: seq<Item>, item: Item)
    ensures forall r :: Units(items + [item], r) == Units(items, r) + if item.request == r then 1 else 0
    ensures forall f :: Prints(items + [item], f) == Prints(items, f) + if item.fingerprint == f then 1 else 0
  {
    assert RequestsOf(items + [item]) == RequestsOf(items) + [item.request];
    assert PrintsOf(items + [item]) == PrintsOf(items) + [item.fingerprint];
    forall r ensures Units(items + [item], r) == Units(items, r) + if item.request == r then 1 else 0 {
      CountSplit(RequestsOf(items), [item.request], r);
    }
    forall f ensures Prints(items + [item], f) == Prints(items, f) + if item.fingerprint == f then 1 else 0 {
      CountSplit(PrintsOf(items), [item.fingerprint], f);
    }
  }

  lemma UnitRemoved(items: seq<Item>, i: nat)
    requires i < |items|
    ensures forall r :: Units(items, r) == Units(RemoveAt(items, i), r) + if items[i].request == r then 1 else 0
    ensures forall f :: Prints(items, f) == Prints(RemoveAt(items, i), f) + if items[i].fingerprint == f then 1 else 0
  {
    assert RequestsOf(RemoveAt(items, i)) == RemoveAt(RequestsOf(items), i);
    assert PrintsOf(RemoveAt(items, i)) == RemoveAt(PrintsOf(items), i);
    forall r ensures Units(items, r) == Units(RemoveAt(items, i), r) + if items[i].request == r then 1 else 0 {
      CountRemove(RequestsOf(items), i, r);
    }
    forall f ensures Prints(items, f) == Prints(RemoveAt(items, i), f) + if items[i].fingerprint == f then 1 else 0 {
      CountRemove(PrintsOf(items), i, f);
    }
  }

  lemma RequestAdded(rs: seq<Request>, s: Request)
    ensures forall r :: Count(rs + [s], r) == Count(rs, r) + if s == r then 1 else 0
  {
    forall r ensures Count(rs + [s], r) == Count(rs, r) + if s == r then 1 else 0 {
      CountSplit(rs, [s], r);
    }
  }

  lemma RequestRemoved(rs: seq<Request>, i: nat)
    requires i < |rs|
    ensures forall r :: Count(rs, r) == Count(RemoveAt(rs, i), r) + if rs[i] == r then 1 else 0
  {
    forall r ensures Count(rs, r) == Count(RemoveAt(rs, i), r) + if rs[i] == r then 1 else 0 {
      CountRemove(rs, i, r);
    }
  }

  /** Every unit of a pair that exists, wherever it is. */
  function AllUnits(p: Pipeline, r: Request): nat {
    Units(p.q.toFetch, r) + Units(p.q.toDescribe, r) + Count(p.fetching, r)
    + Units(p.reserved, r) + Units(p.describing, r)
  }

  /** How many units past reservation carry a fingerprint. */
  function HeldPrints(p: Pipeline, f: string): nat {
    Prints(p.q.toDescribe, f) + Prints(p.reserved, f) + Prints(p.describing, f)
  }

  // ---------------------------------------------------------------- invariants

  function Lost(p: Pipeline, r: Request): nat {
    Count(p.lost, r)
  }

  ghost predicate SlotsConserved(p: Pipeline) {
    forall r :: Slots(p.q, r) == AllUnits(p, r) + Lost(p, r)
  }

  ghost predicate PrintsExact(p: Pipeline) {
    forall f :: HeldPrints(p, f) == if f in p.q.fingerprints then 1 else 0
  }

  ghost predicate OnTarget(q: Queue, needed: map<Pool, int>, completed: map<Pool, int>) {
    && (forall r :: Cancels(q, r) >= 0)
    && (q.king.Some? ==> forall pool ::
          var r := Request(q.king.value, pool);
          Slots(q, r) - Cancels(q, r) == Of(needed, pool) - Of(completed, pool))
  }

  ghost predicate Inv(p: Pipeline) {
    SlotsConserved(p) && PrintsExact(p) && OnTarget(p.q, p.needed, p.completed)
  }

  lemma {:induction false} PushManyAdds(q: Queue, r: Request, n: nat)
    ensures var q' := PushMany(q, r, n);
      && q' == q.(toFetch := q'.toFetch, next := q'.next)
      && forall s :: Units(q'.toFetch, s) == Units(q.toFetch, s) + if s == r then n else 0
  {
    if n > 0 {
      PushManyAdds(q, r, n - 1);
      var q1 := PushMany(q, r, n - 1);
      UnitAdded(q1.toFetch, Item(q1.next, r, ""));
    }
  }

  /** Syncing a pool launches exactly as many units as it adds slots, and leaves slots less
      cancellations at what is needed. */
  lemma SyncPoolBalances(q: Queue, r: Request, needed: int)
    requires forall s :: Cancels(q, s) >= 0
    ensures var q' := SyncPool(q, r, needed);
      && q'.king == q.king && q'.fingerprints == q.fingerprints && q'.toDescribe == q.toDescribe
      && (forall s :: Slots(q', s) + Units(q.toFetch, s) == Slots(q, s) + Units(q'.toFetch, s))
      && (forall s | s != r :: Slots(q', s) == Slots(q, s) && Cancels(q', s) == Cancels(q, s))
      && Slots(q', r) - Cancels(q', r) == needed && Cancels(q', r) >= 0
  {
    var delta := needed - Slots(q, r);
    if delta > 0 {
      PushManyAdds(q.(inFlight := q.inFlight[r := Slots(q, r) + delta]), r, delta);
    }
  }

  lemma SyncBalances(q: Queue, deficits: seq<Deficit>)
    requires deficits != [] && forall s :: Cancels(q, s) >= 0
    ensures var q' := Sync(q, deficits);
      var king := deficits[0].king;
      && q'.king == Some(king) && q'.fingerprints == q.fingerprints && q'.toDescribe == q.toDescribe
      && (forall s :: Slots(q', s) + Units(q.toFetch, s) == Slots(q, s) + Units(q'.toFetch, s))
      && (forall s :: Cancels(q', s) >= 0)
      && forall pool :: Slots(q', Request(king, pool)) - Cancels(q', Request(king, pool)) == Needed(deficits, king, pool)
  {
    var king := deficits[0].king;
    var q0 := q.(king := Some(king));
    assert forall r :: Slots(q0, r) == Slots(q, r) && Cancels(q0, r) == Cancels(q, r);
    var one := Request(king, PoolOne);
    SyncPoolBalances(q0, one, Needed(deficits, king, PoolOne));
    var q1 := SyncPool(q0, one, Needed(deficits, king, PoolOne));
    assert forall s :: Cancels(q1, s) >= 0;
    SyncPoolBalances(q1, Request(king, PoolTwo), Needed(deficits, king, PoolTwo));
    var q2 := Sync(q, deficits);
    forall pool
      ensures Slots(q2, Request(king, pool)) - Cancels(q2, Request(king, pool)) == Needed(deficits, king, pool)
    {
      match pool
      case PoolOne => assert Slots(q2, one) == Slots(q1, one);
      case PoolTwo =>
    }
    forall s ensures Cancels(q2, s) >= 0 {
      assert s != Request(king, PoolTwo) ==> Cancels(q2, s) == Cancels(q1, s);
    }
  }

  lemma PollKeepsInv(p: Pipeline, deficits: seq<Deficit>)
    requires Inv(p)
    ensures Inv(Next(p, Poll(deficits)))
  {
    var p' := Next(p, Poll(deficits));
    if deficits != [] {
      SyncBalances(p.q, deficits);
      forall pool ensures Of(p'.needed, pool) == Needed(deficits, deficits[0].king, pool) {
        match pool
        case PoolOne =>
        case PoolTwo =>
      }
      assert OnTarget(p'.q, p'.needed, p'.completed);
    } else {
      assert forall r :: Slots(p'.q, r) == Slots(p.q, r) && Cancels(p'.q, r) == Cancels(p.q, r);
    }
    forall r ensures Slots(p'.q, r) == AllUnits(p', r) + Lost(p', r) {
      assert Slots(p.q, r) == AllUnits(p, r) + Lost(p, r);
    }
    forall f ensures HeldPrints(p', f) == if f in p'.q.fingerprints then 1 else 0 {
      assert HeldPrints(p', f) == HeldPrints(p, f);
    }
  }

  /** Finishing a unit that exists frees exactly its slot: the floor never bites. */
  lemma FinishFreesOneSlot(q: Queue, r: Request)
    requires Slots(q, r) >= 1
    ensures var q' := Finish(q, r);
      && q' == q.(inFlight := q'.inFlight)
      && (forall s :: Slots(q', s) == Slots(q, s) - if s == r then 1 else 0)
      && forall s :: Cancels(q', s) == Cancels(q, s)
  {
  }

  lemma DropBalances(q: Queue, r: Request)
    requires Slots(q, r) >= 1 && Unwanted(q, r) && forall s :: Cancels(q, s) >= 0
    ensures var q' := Drop(q, r);
      && q' == q.(inFlight := q'.inFlight, cancel := q'.cancel)
      && (forall s :: Slots(q', s) == Slots(q, s) - if s == r then 1 else 0)
      && (forall s :: Cancels(q', s) >= 0)
      && (forall s: Request | q.king == Some(s.king) :: Slots(q', s) - Cancels(q', s) == Slots(q, s) - Cancels(q, s))
  {
    var spent := if q.king != Some(r.king) then q else q.(cancel := q.cancel[r := Cancels(q, r) - 1]);
    assert forall s :: Slots(spent, s) == Slots(q, s);
    assert forall s :: Cancels(spent, s) == Cancels(q, s) - if q.king == Some(r.king) && s == r then 1 else 0;
    FinishFreesOneSlot(spent, r);
  }

  /** A pulled unit either moves to a worker or disappears with its slot. */
  lemma PulledBalances(q: Queue, popped: Queue, r: Request, needed: map<Pool, int>, completed: map<Pool, int>)
    requires Slots(q, r) >= 1 && OnTarget(q, needed, completed)
    requires popped.inFlight == q.inFlight && popped.cancel == q.cancel && popped.king == q.king
    ensures var q' := if Unwanted(q, r) then Drop(popped, r) else popped;
      && q' == popped.(inFlight := q'.inFlight, cancel := q'.cancel)
      && (forall s :: Slots(q', s) == Slots(q, s) - if s == r && Unwanted(q, r) then 1 else 0)
      && OnTarget(q', needed, completed)
  {
    assert forall s :: Slots(popped, s) == Slots(q, s) && Cancels(popped, s) == Cancels(q, s);
    if Unwanted(q, r) {
      DropBalances(popped, r);
    }
  }

  lemma FetchKeepsInv(p: Pipeline)
    requires Inv(p) && Allowed(p, Fetch)
    ensures Inv(Next(p, Fetch))
  {
    var p' := Next(p, Fetch);
    var i := FirstIndex(p.q.toFetch);
    var r := p.q.toFetch[i].request;
    UnitRemoved(p.q.toFetch, i);
    RequestAdded(p.fetching, r);
    assert Slots(p.q, r) == AllUnits(p, r) + Lost(p, r) >= 1;
    PulledBalances(p.q, p.q.(toFetch := RemoveAt(p.q.toFetch, i)), r, p.needed, p.completed);
    forall s ensures Slots(p'.q, s) == AllUnits(p', s) + Lost(p', s) {
      assert Slots(p.q, s) == AllUnits(p, s) + Lost(p, s);
    }
    forall f ensures HeldPrints(p', f) == if f in p'.q.fingerprints then 1 else 0 {
      assert HeldPrints(p', f) == HeldPrints(p, f);
    }
  }

  lemma DescribeKeepsInv(p: Pipeline)
    requires Inv(p) && Allowed(p, Describe)
    ensures Inv(Next(p, Describe))
  {
    var p' := Next(p, Describe);
    var i := FirstIndex(p.q.toDescribe);
    var item := p.q.toDescribe[i];
    UnitRemoved(p.q.toDescribe, i);
    UnitAdded(p.describing, item);
    assert Slots(p.q, item.request) == AllUnits(p, item.request) + Lost(p, item.request) >= 1;
    PulledBalances(p.q, p.q.(toDescribe := RemoveAt(p.q.toDescribe, i)), item.request, p.needed, p.completed);
    forall s ensures Slots(p'.q, s) == AllUnits(p', s) + Lost(p', s) {
      assert Slots(p.q, s) == AllUnits(p, s) + Lost(p, s);
      if Unwanted(p.q, item.request) {
        var dropped := Drop(p.q.(toDescribe := RemoveAt(p.q.toDescribe, i)), item.request);
        assert Slots(p'.q, s) == Slots(dropped, s);
      }
    }
    SameTarget(p, p', item, i);
    forall f ensures HeldPrints(p', f) == if f in p'.q.fingerprints then 1 else 0 {
      assert HeldPrints(p, f) == if f in p.q.fingerprints then 1 else 0;
    }
  }

  lemma SameTarget(p: Pipeline, p': Pipeline, item: Item, i: nat)
    requires i < |p.q.toDescribe|
    requires var popped := p.q.(toDescribe := RemoveAt(p.q.toDescribe, i));
      var q' := if Unwanted(p.q, item.request) then Drop(popped, item.request) else popped;
      && OnTarget(q', p.needed, p.completed)
      && p'.q == q'.(fingerprints := p'.q.fingerprints) && p'.needed == p.needed && p'.completed == p.completed
    ensures OnTarget(p'.q, p'.needed, p'.completed)
  {
    var popped := p.q.(toDescribe := RemoveAt(p.q.toDescribe, i));
    var q' := if Unwanted(p.q, item.request) then Drop(popped, item.request) else popped;
    assert forall s :: Slots(p'.q, s) == Slots(q', s) && Cancels(p'.q, s) == Cancels(q', s);
  }

  lemma FetcherKeepsInv(p: Pipeline, e: Event)
    requires Inv(p) && Allowed(p, e) && (e.FetchFails? || e.Lose? || e.Keep? || e.HandOn?)
    ensures Inv(Next(p, e))
  {
    var p' := Next(p, e);
    match e {
      case FetchFails(i) =>
        RequestRemoved(p.fetching, i);
        UnitAdded(p.q.toFetch, Item(p.q.next, p.fetching[i], ""));
      case Lose(i) =>
        RequestRemoved(p.fetching, i);
        RequestAdded(p.lost, p.fetching[i]);
      case Keep(i, f) =>
        RequestRemoved(p.fetching, i);
        UnitAdded(p.reserved, Item(0, p.fetching[i], f));
      case HandOn(i) =>
        UnitRemoved(p.reserved, i);
        UnitAdded(p.q.toDescribe, Item(p.q.next, p.reserved[i].request, p.reserved[i].fingerprint));
    }
    assert forall s :: Slots(p'.q, s) == Slots(p.q, s) && Cancels(p'.q, s) == Cancels(p.q, s);
    forall s ensures Slots(p'.q, s) == AllUnits(p', s) + Lost(p', s) {
      assert Slots(p.q, s) == AllUnits(p, s) + Lost(p, s);
    }
    forall f ensures HeldPrints(p', f) == if f in p'.q.fingerprints then 1 else 0 {
      assert HeldPrints(p, f) == if f in p.q.fingerprints then 1 else 0;
    }
  }

  lemma SettleKeepsPrints(p: Pipeline, i: nat, inserted: bool)
    requires PrintsExact(p) && Allowed(p, Settle(i, inserted))
    ensures PrintsExact(Next(p, Settle(i, inserted)))
  {
    var p' := Next(p, Settle(i, inserted));
    var item := p.describing[i];
    UnitRemoved(p.describing, i);
    UnitAdded(p.q.toFetch, Item(p.q.next, item.request, ""));
    forall f ensures HeldPrints(p', f) == if f in p'.q.fingerprints then 1 else 0 {
      assert HeldPrints(p, f) == if f in p.q.fingerprints then 1 else 0;
    }
  }

  lemma SettleKeepsSlots(p: Pipeline, i: nat, inserted: bool)
    requires SlotsConserved(p) && Allowed(p, Settle(i, inserted))
    ensures SlotsConserved(Next(p, Settle(i, inserted)))
  {
    var p' := Next(p, Settle(i, inserted));
    var item := p.describing[i];
    UnitRemoved(p.describing, i);
    UnitAdded(p.q.toFetch, Item(p.q.next, item.request, ""));
    assert Slots(p.q, item.request) == AllUnits(p, item.request) + Lost(p, item.request) >= 1;
    FinishFreesOneSlot(p.q, item.request);
    forall s ensures Slots(p'.q, s) == AllUnits(p', s) + Lost(p', s) {
      assert Slots(p.q, s) == AllUnits(p, s) + Lost(p, s);
    }
  }

  lemma SettleKeepsInv(p: Pipeline, i: nat, inserted: bool)
    requires Inv(p) && Allowed(p, Settle(i, inserted))
    ensures Inv(Next(p, Settle(i, inserted)))
  {
    var p' := Next(p, Settle(i, inserted));
    var item := p.describing[i];
    SettleKeepsPrints(p, i, inserted);
    SettleKeepsSlots(p, i, inserted);
    UnitRemoved(p.describing, i);
    assert Slots(p.q, item.request) == AllUnits(p, item.request) + Lost(p, item.request) >= 1;
    FinishFreesOneSlot(p.q, item.request);
    assert forall s :: Slots(p'.q, s) == Slots(p.q, s) - (if inserted && s == item.request then 1 else 0);
    assert forall s :: Cancels(p'.q, s) == Cancels(p.q, s);
  }

  lemma EventKeepsInv(p: Pipeline, e: Event)
    requires Inv(p) && Allowed(p, e)
    ensures Inv(Next(p, e))
  {
    match e
    case Poll(deficits) => PollKeepsInv(p, deficits);
    case Fetch => FetchKeepsInv(p);
    case Describe => DescribeKeepsInv(p);
    case Settle(i, inserted) => SettleKeepsInv(p, i, inserted);
    case _ => FetcherKeepsInv(p, e);
  }

  const EMPTY := Pipeline(Queue(None, map[], map[], {}, [], [], 0), [], [], [], [], map[], map[])

  ghost predicate IsRun(run: seq<Pipeline>, events: seq<Event>) {
    && |run| == |events| + 1 && run[0] == EMPTY
    && forall i | 0 <= i < |events| :: Allowed(run[i], events[i]) && run[i + 1] == Next(run[i], events[i])
  }

  /** In every run: each pair's slot counter is the number of its units, queued or held, plus those
      ever lost; the reserved fingerprints are those of the units past reservation, each held once;
      and while a king reigns, slots less cancellations are what the last poll needed less what was
      finished since. */
  lemma {:induction false} WorkIsConserved(run: seq<Pipeline>, events: seq<Event>, i: nat)
    requires IsRun(run, events) && i < |run|
    ensures SlotsConserved(run[i]) && PrintsExact(run[i]) && OnTarget(run[i].q, run[i].needed, run[i].completed)
  {
    if i > 0 {
      WorkIsConserved(run, events, i - 1);
      EventKeepsInv(run[i - 1], events[i - 1]);
    }
  }

  // ---------------------------------------------------------------- lost units

  /** A worker loses a unit of the pair at step `m`. */
  predicate LosesOne(p: Pipeline, e: Event, r: Request) {
    e.Lose? && e.index < |p.fetching| && p.fetching[e.index] == r
  }

  lemma StepCountsLosses(p: Pipeline, e: Event, r: Request)
    requires Allowed(p, e)
    ensures Lost(Next(p, e), r) == Lost(p, r) + if LosesOne(p, e, r) then 1 else 0
  {
    if e.Lose? {
      RequestAdded(p.lost, p.fetching[e.index]);
    }
  }

  /** A slot counter is exactly the units that exist as long as no unit of its pair was ever lost,
      and from the first loss on it is too high for good. */
  lemma {:induction false} SlotsAreExactUntilALoss(run: seq<Pipeline>, events: seq<Event>, i: nat, r: Request)
    requires IsRun(run, events) && i < |run|
    ensures Slots(run[i].q, r) == AllUnits(run[i], r) <==> forall m | 0 <= m < i :: !LosesOne(run[m], events[m], r)
    ensures Slots(run[i].q, r) >= AllUnits(run[i], r)
  {
    WorkIsConserved(run, events, i);
    LossesAddUp(run, events, i, r);
  }

  lemma {:induction false} LossesAddUp(run: seq<Pipeline>, events: seq<Event>, i: nat, r: Request)
    requires IsRun(run, events) && i < |run|
    ensures Lost(run[i], r) == 0 <==> forall m | 0 <= m < i :: !LosesOne(run[m], events[m], r)
  {
    if i > 0 {
      var last := i - 1;
      LossesAddUp(run, events, last, r);
      StepCountsLosses(run[last], events[last], r);
    }
  }

  /** Losses are permanent: the surplus of a counter over its units never shrinks. */
  lemma {:induction false} LeaksNeverClose(run: seq<Pipeline>, events: seq<Event>, i: nat, j: nat, r: Request)
    requires IsRun(run, events) && i <= j < |run|
    ensures Slots(run[i].q, r) - AllUnits(run[i], r) <= Slots(run[j].q, r) - AllUnits(run[j], r)
    decreases j
  {
    WorkIsConserved(run, events, j);
    if i < j {
      var last := j - 1;
      LeaksNeverClose(run, events, i, last, r);
      WorkIsConserved(run, events, last);
      StepCountsLosses(run[last], events[last], r);
    }
  }

  /** Every later poll is short by what was lost: while a king reigns, the wanted units of each pool
      are what the last poll needed, less what was finished since, less all units ever lost.  Once
      that many are lost the pool has no wanted unit at all. */
  lemma LostUnitsAreNeverReplaced(run: seq<Pipeline>, events: seq<Event>, i: nat, pool: Pool)
    requires IsRun(run, events) && i < |run| && run[i].q.king.Some?
    ensures var p := run[i];
      var r := Request(p.q.king.value, pool);
      AllUnits(p, r) - Cancels(p.q, r) == Of(p.needed, pool) - Of(p.completed, pool) - Lost(p, r)
  {
    WorkIsConserved(run, events, i);
  }

  // ---------------------------------------------------------------- order

  /** Insertion numbers grow along each queue, so the unit pulled is the earliest of the first pool. */
  ghost predicate Numbered(items: seq<Item>, next: nat) {
    && (forall i, j | 0 <= i < j < |items| :: items[i].number < items[j].number)
    && forall i | 0 <= i < |items| :: items[i].number < next
  }

  lemma {:induction false} QueuesStayNumbered(run: seq<Pipeline>, events: seq<Event>, i: nat)
    requires IsRun(run, events) && i < |run|
    ensures Numbered(run[i].q.toFetch, run[i].q.next) && Numbered(run[i].q.toDescribe, run[i].q.next)
  {
    if i > 0 {
      QueuesStayNumbered(run, events, i - 1);
      StepStaysNumbered(run[i - 1], events[i - 1]);
    }
  }

  lemma {:induction false} PushManyStaysNumbered(q: Queue, r: Request, n: nat)
    requires Numbered(q.toFetch, q.next) && Numbered(q.toDescribe, q.next)
    ensures var q' := PushMany(q, r, n);
      Numbered(q'.toFetch, q'.next) && Numbered(q'.toDescribe, q'.next)
  {
    if n > 0 {
      PushManyStaysNumbered(q, r, n - 1);
    }
  }

  lemma SyncPoolStaysNumbered(q: Queue, r: Request, needed: int)
    requires Numbered(q.toFetch, q.next) && Numbered(q.toDescribe, q.next)
    ensures var q' := SyncPool(q, r, needed);
      Numbered(q'.toFetch, q'.next) && Numbered(q'.toDescribe, q'.next)
  {
    if needed > Slots(q, r) {
      PushManyStaysNumbered(q.(inFlight := q.inFlight[r := needed]), r, needed - Slots(q, r));
    }
  }

  lemma SyncStaysNumbered(q: Queue, deficits: seq<Deficit>)
    requires Numbered(q.toFetch, q.next) && Numbered(q.toDescribe, q.next)
    ensures var q' := Sync(q, deficits);
      Numbered(q'.toFetch, q'.next) && Numbered(q'.toDescribe, q'.next)
  {
    if deficits != [] {
      var king := deficits[0].king;
      var q0 := q.(king := Some(king));
      SyncPoolStaysNumbered(q0, Request(king, PoolOne), Needed(deficits, king, PoolOne));
      var q1 := SyncPool(q0, Request(king, PoolOne), Needed(deficits, king, PoolOne));
      SyncPoolStaysNumbered(q1, Request(king, PoolTwo), Needed(deficits, king, PoolTwo));
    }
  }

  lemma RemovalStaysNumbered(items: seq<Item>, next: nat, i: nat)
    requires Numbered(items, next) && i < |items|
    ensures Numbered(RemoveAt(items, i), next)
  {
  }

  lemma PullLeavesRest(q: Queue)
    ensures q.toFetch != [] ==>
      var q' := PullFetch(q).0;
      q'.toFetch == RemoveAt(q.toFetch, FirstIndex(q.toFetch)) && q'.toDescribe == q.toDescribe && q'.next == q.next
    ensures q.toDescribe != [] ==>
      var q' := PullDescribe(q).0;
      q'.toDescribe == RemoveAt(q.toDescribe, FirstIndex(q.toDescribe)) && q'.toFetch == q.toFetch && q'.next == q.next
  {
  }

  lemma StepStaysNumbered(p: Pipeline, e: Event)
    requires Numbered(p.q.toFetch, p.q.next) && Numbered(p.q.toDescribe, p.q.next) && Allowed(p, e)
    ensures var q' := Next(p, e).q;
      Numbered(q'.toFetch, q'.next) && Numbered(q'.toDescribe, q'.next)
  {
    match e
    case Poll(deficits) => SyncStaysNumbered(p.q, deficits);
    case Fetch =>
      PullLeavesRest(p.q);
      RemovalStaysNumbered(p.q.toFetch, p.q.next, FirstIndex(p.q.toFetch));
    case Describe =>
      PullLeavesRest(p.q);
      RemovalStaysNumbered(p.q.toDescribe, p.q.next, FirstIndex(p.q.toDescribe));
    case _ =>
  }

  /** The fetcher is always given the first pool's earliest unit: nothing queued comes before it,
      a retry goes behind its own pool's units but ahead of the other pool's. */
  lemma FetchTakesFirst(run: seq<Pipeline>, events: seq<Event>, i: nat, j: nat)
    requires IsRun(run, events) && i < |events| && events[i].Fetch? && j < |run[i].q.toFetch|
    ensures var items := run[i].q.toFetch;
      var first := FirstIndex(items);
      j == first || Before(items[first], items[j])
  {
    QueuesStayNumbered(run, events, i);
  }
}

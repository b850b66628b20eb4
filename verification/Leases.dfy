/**
 The lease protocol between the proxies and the router.  A handler thread of a
 proxy that has no endpoint yet acquires one from the router and then publishes
 it on its proxy; the two are separate lock sections, so several handlers and
 `stop` interleave.  The router's per-endpoint counter must equal the leases that
 exist.
 */
module Leases {
  import opened Common

  type Url = string
  type Proxy = nat
  type Thread = nat

  datatype Pc =
    | Idle
    | Choosing(proxy: Proxy)            // saw no published endpoint
    | Holding(proxy: Proxy, url: Url)   // acquired, not published
    | Returning(url: Url)               // lost the race, or stopping: about to release

  datatype State = State(inFlight: map<Url, int>, routed: map<Proxy, Url>, threads: map<Thread, Pc>)

  datatype Event =
    | Arrive(thread: Thread, proxy: Proxy)
    | Acquire(thread: Thread, url: Url)
    | Publish(thread: Thread)
    | Stop(thread: Thread, proxy: Proxy)
    | Release(thread: Thread)

  function PcOf(s: State, t: Thread): Pc {
    if t in s.threads then s.threads[t] else Idle
  }

  function InFlight(s: State, u: Url): int {
    if u in s.inFlight then s.inFlight[u] else 0
  }

  predicate Enabled(s: State, e: Event) {
    match e
    case Arrive(t, _) => PcOf(s, t).Idle?
    case Acquire(t, _) => PcOf(s, t).Choosing?
    case Publish(t) => PcOf(s, t).Holding?
    case Stop(t, _) => PcOf(s, t).Idle?
    case Release(t) => PcOf(s, t).Returning?
  }

  function Goto(s: State, t: Thread, pc: Pc): State {
    s.(threads := s.threads[t := pc])
  }

  function Next(s: State, e: Event): State
    requires Enabled(s, e)
  {
    match e
    case Arrive(t, p) => if p in s.routed then s else Goto(s, t, Choosing(p))
    case Acquire(t, u) =>
      Goto(s, t, Holding(PcOf(s, t).proxy, u)).(inFlight := s.inFlight[u := InFlight(s, u) + 1])
    case Publish(t) =>
      var Holding(p, u) := PcOf(s, t);
      if p in s.routed then Goto(s, t, Returning(u))
      else Goto(s, t, Idle).(routed := s.routed[p := u])
    case Stop(t, p) =>
      if p in s.routed then Goto(s, t, Returning(s.routed[p])).(routed := s.routed - {p}) else s
    case Release(t) =>
      var u := PcOf(s, t).url;
      Goto(s, t, Idle).(inFlight := s.inFlight[u := if InFlight(s, u) < 1 then 0 else InFlight(s, u) - 1])
  }

  /** The proxies that publish an endpoint, and the threads that hold an unpublished lease on it. */
  function RoutedTo(s: State, u: Url): set<Proxy> {
    set p | p in s.routed && s.routed[p] == u
  }

  predicate Owes(pc: Pc, u: Url) {
    (pc.Holding? || pc.Returning?) && pc.url == u
  }

  function OwedBy(s: State, u: Url): set<Thread> {
    set t | t in s.threads && Owes(s.threads[t], u)
  }

  ghost predicate Conserved(s: State) {
    forall u :: InFlight(s, u) == |RoutedTo(s, u)| + |OwedBy(s, u)|
  }

  /** Moving one thread changes what threads owe by that thread's lease alone. */
  lemma OwedAfterGoto(s: State, t: Thread, pc: Pc, u: Url)
    ensures |OwedBy(Goto(s, t, pc), u)|
         == |OwedBy(s, u)| - (if Owes(PcOf(s, t), u) then 1 else 0) + (if Owes(pc, u) then 1 else 0)
  {
    OthersOweTheSame(s, t, pc, u);
    SplitOff(OwedBy(s, u), t);
    SplitOff(OwedBy(Goto(s, t, pc), u), t);
  }

  lemma OthersOweTheSame(s: State, t: Thread, pc: Pc, u: Url)
    ensures OwedBy(Goto(s, t, pc), u) - {t} == OwedBy(s, u) - {t}
    ensures t in OwedBy(s, u) <==> Owes(PcOf(s, t), u)
    ensures t in OwedBy(Goto(s, t, pc), u) <==> Owes(pc, u)
  {
  }

  lemma SplitOff(ts: set<Thread>, t: Thread)
    ensures |ts| == |ts - {t}| + if t in ts then 1 else 0
  {
    if t in ts {
      assert ts == (ts - {t}) + {t};
    } else {
      assert ts == ts - {t};
    }
  }

  lemma RoutedAfterPublish(s: State, p: Proxy, u: Url, v: Url)
    requires p !in s.routed
    ensures |RoutedTo(s.(routed := s.routed[p := u]), v)| == |RoutedTo(s, v)| + if u == v then 1 else 0
  {
    assert RoutedTo(s.(routed := s.routed[p := u]), v) == RoutedTo(s, v) + if u == v then {p} else {};
  }

  lemma RoutedAfterStop(s: State, p: Proxy, v: Url)
    requires p in s.routed
    ensures |RoutedTo(s.(routed := s.routed - {p}), v)| == |RoutedTo(s, v)| - if s.routed[p] == v then 1 else 0
  {
    assert RoutedTo(s, v) == RoutedTo(s.(routed := s.routed - {p}), v) + if s.routed[p] == v then {p} else {};
  }

  /** Every step keeps the count, and a release always finds a lease to give back, so flooring
      the counter at zero never hides anything. */
  lemma StepConserves(s: State, e: Event)
    requires Conserved(s) && Enabled(s, e)
    ensures Conserved(Next(s, e))
    ensures e.Release? ==> InFlight(s, PcOf(s, e.thread).url) >= 1
  {
    var s' := Next(s, e);
    var t := e.thread;
    if e.Release? {
      assert t in OwedBy(s, PcOf(s, t).url);
    }
    forall u
      ensures InFlight(s', u) == |RoutedTo(s', u)| + |OwedBy(s', u)|
    {
      if s'.threads == s.threads {
      } else {
        OwedAfterGoto(s, t, PcOf(s', t), u);
        assert OwedBy(s', u) == OwedBy(Goto(s, t, PcOf(s', t)), u);
        match e
        case Publish(_) =>
          if PcOf(s', t).Idle? {
            RoutedAfterPublish(s, PcOf(s, t).proxy, PcOf(s, t).url, u);
            assert RoutedTo(s', u) == RoutedTo(s.(routed := s'.routed), u);
          } else {
            assert RoutedTo(s', u) == RoutedTo(s, u);
          }
        case Stop(_, p) =>
          RoutedAfterStop(s, p, u);
          assert RoutedTo(s', u) == RoutedTo(s.(routed := s'.routed), u);
        case _ => assert RoutedTo(s', u) == RoutedTo(s, u);
      }
    }
  }

  ghost predicate IsRun(run: seq<State>, events: seq<Event>) {
    && |run| == |events| + 1 && run[0] == State(map[], map[], map[])
    && forall i | 0 <= i < |events| :: Enabled(run[i], events[i]) && run[i + 1] == Next(run[i], events[i])
  }

  /** Lease conservation: in every interleaving of handlers and stops of any number of proxies,
      each endpoint's counter is the number of proxies routed to it plus the threads holding an
      unpublished lease on it. */
  lemma {:induction false} LeasesAreConserved(run: seq<State>, events: seq<Event>, i: nat)
    requires IsRun(run, events) && i < |run|
    ensures Conserved(run[i])
  {
    if i == 0 {
      forall u ensures InFlight(run[0], u) == |RoutedTo(run[0], u)| + |OwedBy(run[0], u)| {
        assert RoutedTo(run[0], u) == {} && OwedBy(run[0], u) == {};
      }
    } else {
      LeasesAreConserved(run, events, i - 1);
      StepConserves(run[i - 1], events[i - 1]);
    }
  }

  /** Exactly when every counter is back to zero: no proxy publishes an endpoint and no thread
      holds or returns a lease. */
  lemma AllReturnedExactly(run: seq<State>, events: seq<Event>, i: nat)
    requires IsRun(run, events) && i < |run|
    ensures (forall u :: InFlight(run[i], u) == 0)
      <==> run[i].routed == map[] && forall t | t in run[i].threads :: !run[i].threads[t].Holding? && !run[i].threads[t].Returning?
  {
    LeasesAreConserved(run, events, i);
    var s := run[i];
    forall p | p in s.routed ensures InFlight(s, s.routed[p]) >= 1 {
      assert p in RoutedTo(s, s.routed[p]);
    }
    forall t | t in s.threads && (s.threads[t].Holding? || s.threads[t].Returning?)
      ensures InFlight(s, s.threads[t].url) >= 1
    {
      assert t in OwedBy(s, s.threads[t].url);
    }
    forall u ensures InFlight(s, u) == 0 || RoutedTo(s, u) != {} || OwedBy(s, u) != {} {
    }
    if s.routed != map[] {
      assert s.routed.Keys != {};
      var p :| p in s.routed;
    }
  }

  // ---------------------------------------------------------------- after a stop

  /** The thread publishes for the proxy in this step. */
  predicate PublishesFor(s: State, e: Event, p: Proxy) {
    e.Publish? && PcOf(s, e.thread).Holding? && PcOf(s, e.thread).proxy == p
  }

  predicate Stops(e: Event, p: Proxy) {
    e.Stop? && e.proxy == p
  }

  /** Stopping before the handlers are done leaves a lease behind: whenever a handler of the proxy
      is between acquire and publish, its publish routes the stopped proxy again, before or after
      the stop has returned the endpoint it took, if it took one. */
  lemma StopCanComeTooEarly(s: State, t: Thread, stopper: Thread)
    requires PcOf(s, t).Holding? && PcOf(s, stopper).Idle?
    ensures var p := PcOf(s, t).proxy;
      && Enabled(s, Stop(stopper, p))
      && var s1 := Next(s, Stop(stopper, p));
         && Enabled(s1, Publish(t)) && p in Next(s1, Publish(t)).routed
         && (p in s.routed ==>
               Enabled(s1, Release(stopper))
               && var s2 := Next(s1, Release(stopper));
                  Enabled(s2, Publish(t)) && p in Next(s2, Publish(t)).routed)
  {
    assert t != stopper;
  }

  /** An unrouted proxy becomes routed only by a publish of its own handlers, and until it is stopped
      again any such publish keeps it routed. */
  lemma {:induction false} OnlyPublishRoutes(run: seq<State>, events: seq<Event>, i: nat, j: nat, p: Proxy)
    requires IsRun(run, events) && i <= j < |run| && p !in run[i].routed
    ensures p in run[j].routed ==> exists m :: i <= m < j && PublishesFor(run[m], events[m], p)
    ensures (forall m | i <= m < j :: !Stops(events[m], p)) ==>
      (p in run[j].routed <==> exists m :: i <= m < j && PublishesFor(run[m], events[m], p))
    decreases j
  {
    if i < j {
      var last := j - 1;
      assert Enabled(run[last], events[last]) && run[last + 1] == Next(run[last], events[last]);
      OnlyPublishRoutes(run, events, i, last, p);
    }
  }

  /** After a stop, and until the next one, the proxy is routed exactly when one of its own handlers
      has published since. */
  lemma RoutedAgainExactlyByPublishing(run: seq<State>, events: seq<Event>, i: nat, j: nat, p: Proxy)
    requires IsRun(run, events) && i < j < |run| && Stops(events[i], p)
    requires forall m | i < m < j :: !Stops(events[m], p)
    ensures p in run[j].routed <==> exists m :: i < m < j && PublishesFor(run[m], events[m], p)
  {
    assert Enabled(run[i], events[i]) && run[i + 1] == Next(run[i], events[i]);
    OnlyPublishRoutes(run, events, i + 1, j, p);
  }

  /** A handler of the proxy has seen no endpoint, or holds one, and has not published yet. */
  predicate OnItsWay(pc: Pc, p: Proxy) {
    (pc.Choosing? || pc.Holding?) && pc.proxy == p
  }

  ghost predicate SomeoneOnItsWay(s: State, p: Proxy) {
    exists t | t in s.threads :: OnItsWay(s.threads[t], p)
  }

  predicate Arrives(e: Event, p: Proxy) {
    e.Arrive? && e.proxy == p
  }

  /** A continuation in which no further handler of the proxy starts and nobody stops it again. */
  ghost predicate Continues(s: State, run: seq<State>, events: seq<Event>, p: Proxy) {
    && |run| == |events| + 1 && run[0] == s
    && forall i | 0 <= i < |events| ::
      && Enabled(run[i], events[i]) && run[i + 1] == Next(run[i], events[i])
      && !Arrives(events[i], p) && !Stops(events[i], p)
  }

  lemma NobodyStarts(s: State, e: Event, p: Proxy)
    requires Enabled(s, e) && !Arrives(e, p) && !SomeoneOnItsWay(s, p) && p !in s.routed
    ensures !SomeoneOnItsWay(Next(s, e), p) && p !in Next(s, e).routed
  {
    var s' := Next(s, e);
    forall t | t in s'.threads ensures !OnItsWay(s'.threads[t], p) {
      if t in s.threads {
        assert !OnItsWay(s.threads[t], p);
      }
    }
    if e.Publish? {
      assert e.thread in s.threads && !OnItsWay(s.threads[e.thread], p);
    }
  }

  /** A stop that finds no handler on its way is final: the proxy stays unrouted as long as no
      further handler of it starts. */
  lemma {:induction false} QuietStopIsFinal(s: State, run: seq<State>, events: seq<Event>, p: Proxy, i: nat)
    requires Continues(s, run, events, p) && i < |run| && p !in s.routed && !SomeoneOnItsWay(s, p)
    ensures p !in run[i].routed && !SomeoneOnItsWay(run[i], p)
  {
    if i > 0 {
      QuietStopIsFinal(s, run, events, p, i - 1);
      NobodyStarts(run[i - 1], events[i - 1], p);
    }
  }

  /** A handler on its way can always go on to publish. */
  lemma HandlerPublishes(s: State, t: Thread, p: Proxy, u: Url) returns (run: seq<State>, events: seq<Event>)
    requires p !in s.routed && t in s.threads && OnItsWay(s.threads[t], p)
    ensures Continues(s, run, events, p) && p in run[|run| - 1].routed
  {
    if s.threads[t].Holding? {
      run, events := [s, Next(s, Publish(t))], [Publish(t)];
    } else {
      var s1 := Next(s, Acquire(t, u));
      run, events := [s, s1, Next(s1, Publish(t))], [Acquire(t, u), Publish(t)];
    }
  }

  ghost predicate MayBeRouted(s: State, p: Proxy) {
    exists run: seq<State>, events: seq<Event> :: Continues(s, run, events, p) && p in run[|run| - 1].routed
  }

  /** What `stop` needs, readable the moment it has taken the endpoint, whether or not there was one:
      the stopped proxy can become routed again without a new handler exactly when some handler is
      still on its way. */
  lemma StopIsFinalExactly(s: State, p: Proxy)
    requires p !in s.routed
    ensures MayBeRouted(s, p) <==> SomeoneOnItsWay(s, p)
  {
    if t :| t in s.threads && OnItsWay(s.threads[t], p) {
      var run, events := HandlerPublishes(s, t, p, "");
    } else if MayBeRouted(s, p) {
      var run: seq<State>, events: seq<Event> :| Continues(s, run, events, p) && p in run[|run| - 1].routed;
      QuietStopIsFinal(s, run, events, p, |run| - 1);
    }
  }

  ghost predicate AllStoppedQuietly(s: State) {
    s.routed == map[] && forall p :: !SomeoneOnItsWay(s, p)
  }

  /** All leases come back: once every proxy is stopped and no handler of any is on its way, the
      counters are the leases being returned right now, and all zero when none is. */
  lemma StoppedProxiesReturnEverything(run: seq<State>, events: seq<Event>, i: nat)
    requires IsRun(run, events) && i < |run| && AllStoppedQuietly(run[i])
    ensures (forall u :: InFlight(run[i], u) == 0) <==> forall t | t in run[i].threads :: run[i].threads[t].Idle?
  {
    AllReturnedExactly(run, events, i);
    forall t | t in run[i].threads ensures !run[i].threads[t].Holding? && !run[i].threads[t].Choosing? {
      var pc := run[i].threads[t];
      assert !run[i].threads[t].Idle? && !pc.Returning? ==> !SomeoneOnItsWay(run[i], pc.proxy);
    }
  }
}

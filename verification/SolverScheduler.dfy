/**
 The solver's slot scheduler: which jobs run, which cool down, and what every run
 of it keeps.  The offered rows and queue are whatever the database holds at each
 tick; finished futures are whatever the pool reports.
 */
module SolverScheduler {
  import opened Common
  import opened SolverJobs

  datatype State = State(inFlight: map<nat, JobKey>, cooldown: map<JobKey, real>, next: nat)

  datatype Settings = Settings(cap: nat, poll: real)

  /** One tick: the clock, the finished futures, what the database offers, and whether the poll
      succeeds. */
  datatype Tick = Tick(now: real, done: seq<nat>, rows: seq<DuelRow>, queue: seq<JobKey>, answers: bool)

  ghost predicate Allowed(s: State, e: Tick) {
    && Distinct(e.done) && (forall f | f in e.done :: f in s.inFlight)
    && IsTable(e.rows) && IsQueue(e.queue)
  }

  function KeysOf(s: State, done: seq<nat>): set<JobKey> {
    set f | f in done && f in s.inFlight :: s.inFlight[f]
  }

  /** Finished futures leave; their keys cool down for one poll interval. */
  function FinishAll(s: State, done: seq<nat>, until: real): State {
    var keys := KeysOf(s, done);
    s.(inFlight := map f | f in s.inFlight && f !in done :: s.inFlight[f],
       cooldown := map k | k in s.cooldown.Keys + keys :: if k in keys then until else s.cooldown[k])
  }

  function Prune(s: State, now: real): State {
    s.(cooldown := map k | k in s.cooldown && s.cooldown[k] > now :: s.cooldown[k])
  }

  function Collected(cfg: Settings, s: State, e: Tick): State {
    Prune(FinishAll(s, e.done, e.now + cfg.poll), e.now)
  }

  function Busy(s: State): set<JobKey> {
    s.inFlight.Values + s.cooldown.Keys
  }

  /** Each submitted job gets a fresh future. */
  function Launch(s: State, work: seq<JobKey>): State {
    if work == [] then s
    else
      var before := Launch(s, work[..|work| - 1]);
      before.(inFlight := before.inFlight[before.next := work[|work| - 1]], next := before.next + 1)
  }

  /** The free slots to fill; a poll that fails fills none. */
  function Slots(cfg: Settings, s: State, e: Tick): nat {
    if e.answers then AtLeastZero(cfg.cap - |s.inFlight|) else 0
  }

  function Work(cfg: Settings, s: State, e: Tick): seq<JobKey> {
    PendingWork(e.rows, e.queue, Slots(cfg, s, e), Busy(s))
  }

  function Next(cfg: Settings, s: State, e: Tick): State {
    var collected := Collected(cfg, s, e);
    Launch(collected, Work(cfg, collected, e))
  }

  lemma FinishNone(s: State, until: real)
    ensures FinishAll(s, [], until) == s
  {
    assert KeysOf(s, []) == {};
  }

  lemma OneMoreKey(s: State, done: seq<nat>, i: nat)
    requires i < |done| && done[i] in s.inFlight
    ensures KeysOf(s, done[..i + 1]) == KeysOf(s, done[..i]) + {s.inFlight[done[i]]}
    ensures forall f :: f in done[..i + 1] <==> f in done[..i] || f == done[i]
  {
    assert done[..i + 1] == done[..i] + [done[i]];
  }

  lemma OneFewerInFlight(s: State, done: seq<nat>, i: nat, until: real)
    requires i < |done| && done[i] in s.inFlight && done[i] !in done[..i]
    ensures var (before, after) := (FinishAll(s, done[..i], until).inFlight, FinishAll(s, done[..i + 1], until).inFlight);
      done[i] in before && before[done[i]] == s.inFlight[done[i]] && after == before - {done[i]}
  {
    OneMoreKey(s, done, i);
  }

  lemma OneMoreCools(s: State, done: seq<nat>, i: nat, until: real)
    requires i < |done| && done[i] in s.inFlight
    ensures FinishAll(s, done[..i + 1], until).cooldown
         == FinishAll(s, done[..i], until).cooldown[s.inFlight[done[i]] := until]
  {
    OneMoreKey(s, done, i);
  }

  lemma FinishOneMore(s: State, done: seq<nat>, i: nat, until: real)
    requires i < |done| && done[i] in s.inFlight && Distinct(done)
    ensures var (before, after) := (FinishAll(s, done[..i], until), FinishAll(s, done[..i + 1], until));
      && done[i] in before.inFlight
      && after == State(before.inFlight - {done[i]}, before.cooldown[before.inFlight[done[i]] := until], before.next)
  {
    assert done[i] !in done[..i];
    OneFewerInFlight(s, done, i, until);
    OneMoreCools(s, done, i, until);
  }

  class Scheduler {
    const cfg: Settings
    var inFlight: map<nat, JobKey>
    var cooldown: map<JobKey, real>
    var submitted: nat

    constructor (cfg: Settings)
      ensures this.cfg == cfg && Contents() == State(map[], map[], 0)
    {
      this.cfg := cfg;
      inFlight, cooldown, submitted := map[], map[], 0;
    }

    ghost function Contents(): State
      reads this
    {
      State(inFlight, cooldown, submitted)
    }

    method Collect(done: seq<nat>, until: real)
      requires Distinct(done) && forall f | f in done :: f in inFlight
      modifies this
      ensures Contents() == FinishAll(old(Contents()), done, until)
    {
      ghost var s := Contents();
      FinishNone(s, until);
      for i := 0 to |done|
        invariant Contents() == FinishAll(s, done[..i], until)
      {
        var future := done[i];
        FinishOneMore(s, done, i, until);
        var key := inFlight[future];
        inFlight := inFlight - {future};
        cooldown := cooldown[key := until];
      }
      assert done[..|done|] == done;
    }

    method DropExpired(now: real)
      modifies this
      ensures Contents() == Prune(old(Contents()), now)
    {
      cooldown := map k | k in cooldown && cooldown[k] > now :: cooldown[k];
    }

    method Submit(work: seq<JobKey>)
      modifies this
      ensures Contents() == Launch(old(Contents()), work)
    {
      ghost var s := Contents();
      for i := 0 to |work|
        invariant Contents() == Launch(s, work[..i])
      {
        assert work[..i + 1][..i] == work[..i];
        inFlight := inFlight[submitted := work[i]];
        submitted := submitted + 1;
      }
      assert work[..|work|] == work;
    }

    /** The jobs to launch now; a poll that fails launches none. */
    method Poll(e: Tick) returns (work: seq<JobKey>)
      ensures work == Work(cfg, Contents(), e)
    {
      var slots := cfg.cap - |inFlight|;
      work := [];
      if slots > 0 && e.answers {
        work := PendingWork(e.rows, e.queue, slots, inFlight.Values + cooldown.Keys);
      }
    }

    method Step(e: Tick)
      requires Distinct(e.done) && forall f | f in e.done :: f in inFlight
      modifies this
      ensures Contents() == Next(cfg, old(Contents()), e)
    {
      Collect(e.done, e.now + cfg.poll);
      DropExpired(e.now);
      ghost var collected := Contents();
      assert collected == Collected(cfg, old(Contents()), e);
      var work := Poll(e);
      assert work == Work(cfg, collected, e);
      Submit(work);
    }
  }

  // ---------------------------------------------------------------- what a tick keeps

  ghost predicate KeysDistinct(inFlight: map<nat, JobKey>) {
    forall f, g | f in inFlight && g in inFlight && f != g :: inFlight[f] != inFlight[g]
  }

  ghost predicate Inv(cfg: Settings, s: State) {
    && KeysDistinct(s.inFlight)
    && |s.inFlight| <= cfg.cap
    && (forall f | f in s.inFlight :: f < s.next && s.inFlight[f] !in s.cooldown)
  }

  lemma FinishAllKeepsInv(cfg: Settings, s: State, done: seq<nat>, until: real)
    requires Inv(cfg, s)
    ensures Inv(cfg, FinishAll(s, done, until))
  {
    var left := FinishAll(s, done, until).inFlight;
    SubsetCount(left.Keys, s.inFlight.Keys);
    assert |left| == |left.Keys| && |s.inFlight| == |s.inFlight.Keys|;
  }

  lemma OneMoreRuns(inFlight: map<nat, JobKey>, f: nat, key: JobKey)
    requires f !in inFlight
    ensures |inFlight[f := key]| == |inFlight| + 1
  {
    var more := inFlight[f := key];
    assert more.Keys == inFlight.Keys + {f};
    assert |more| == |more.Keys| && |inFlight| == |inFlight.Keys|;
  }

  lemma OneMoreValue(inFlight: map<nat, JobKey>, f: nat, key: JobKey)
    requires f !in inFlight
    ensures forall k :: k in inFlight[f := key].Values <==> k in inFlight.Values || k == key
  {
    var more := inFlight[f := key];
    assert more[f] == key;
    forall k | k in inFlight.Values ensures k in more.Values {
      var g :| g in inFlight && inFlight[g] == k;
      assert more[g] == k;
    }
  }

  function LaunchOne(s: State, key: JobKey): State {
    s.(inFlight := s.inFlight[s.next := key], next := s.next + 1)
  }

  lemma OneMoreStaysDistinct(inFlight: map<nat, JobKey>, f: nat, key: JobKey)
    requires KeysDistinct(inFlight) && f !in inFlight && key !in inFlight.Values
    ensures KeysDistinct(inFlight[f := key])
  {
    forall g | g in inFlight ensures inFlight[g] != key {
      assert inFlight[g] in inFlight.Values;
    }
  }

  lemma LaunchOneKeepsInv(cfg: Settings, s: State, key: JobKey)
    requires Inv(cfg, s) && |s.inFlight| < cfg.cap && key !in Busy(s)
    ensures Inv(cfg, LaunchOne(s, key))
  {
    OneMoreRuns(s.inFlight, s.next, key);
    OneMoreStaysDistinct(s.inFlight, s.next, key);
  }

  lemma {:induction false} LaunchAdds(s: State, work: seq<JobKey>)
    requires forall f | f in s.inFlight :: f < s.next
    ensures var s' := Launch(s, work);
      && s'.cooldown == s.cooldown
      && (forall f | f in s'.inFlight :: f < s'.next)
      && |s'.inFlight| == |s.inFlight| + |work|
      && forall k :: k in s'.inFlight.Values <==> k in s.inFlight.Values || k in work
  {
    if work != [] {
      var before, last := work[..|work| - 1], work[|work| - 1];
      assert work == before + [last];
      LaunchAdds(s, before);
      var launched := Launch(s, before);
      OneMoreRuns(launched.inFlight, launched.next, last);
      OneMoreValue(launched.inFlight, launched.next, last);
    }
  }

  lemma {:induction false} LaunchKeepsInv(cfg: Settings, s: State, work: seq<JobKey>)
    requires Inv(cfg, s) && Distinct(work) && |s.inFlight| + |work| <= cfg.cap && forall k | k in work :: k !in Busy(s)
    ensures Inv(cfg, Launch(s, work))
  {
    if work != [] {
      var before, last := work[..|work| - 1], work[|work| - 1];
      LaunchKeepsInv(cfg, s, before);
      LaunchAdds(s, before);
      assert last in work && last !in before;
      LaunchOneKeepsInv(cfg, Launch(s, before), last);
      assert Launch(s, work) == LaunchOne(Launch(s, before), last);
    }
  }

  lemma PruneKeepsInv(cfg: Settings, s: State, now: real)
    requires Inv(cfg, s)
    ensures Inv(cfg, Prune(s, now))
  {
  }

  lemma CollectKeepsInv(cfg: Settings, s: State, e: Tick)
    requires Inv(cfg, s) && Allowed(s, e)
    ensures Inv(cfg, Collected(cfg, s, e))
  {
    FinishAllKeepsInv(cfg, s, e.done, e.now + cfg.poll);
    PruneKeepsInv(cfg, FinishAll(s, e.done, e.now + cfg.poll), e.now);
  }

  lemma WorkFits(cfg: Settings, s: State, e: Tick)
    requires |s.inFlight| <= cfg.cap && IsTable(e.rows) && IsQueue(e.queue)
    ensures AreFresh(Work(cfg, s, e), Slots(cfg, s, e), Busy(s))
  {
    PendingWorkIsFresh(e.rows, e.queue, Slots(cfg, s, e), Busy(s));
  }

  lemma TickKeepsInv(cfg: Settings, s: State, e: Tick)
    requires Inv(cfg, s) && Allowed(s, e)
    ensures var (collected, s') := (Collected(cfg, s, e), Next(cfg, s, e));
      && Inv(cfg, s') && s'.cooldown == collected.cooldown
      && forall k :: k in s'.inFlight.Values <==> k in collected.inFlight.Values || k in Work(cfg, collected, e)
  {
    CollectKeepsInv(cfg, s, e);
    WorkFits(cfg, Collected(cfg, s, e), e);
    LaunchKeepsInv(cfg, Collected(cfg, s, e), Work(cfg, Collected(cfg, s, e), e));
    LaunchAdds(Collected(cfg, s, e), Work(cfg, Collected(cfg, s, e), e));
  }

  // ---------------------------------------------------------------- all runs

  ghost predicate IsRun(cfg: Settings, run: seq<State>, ticks: seq<Tick>) {
    && |run| == |ticks| + 1 && run[0] == State(map[], map[], 0)
    && forall i | 0 <= i < |ticks| :: Allowed(run[i], ticks[i]) && run[i + 1] == Next(cfg, run[i], ticks[i])
  }

  /** In every run the jobs in flight are all different, at most `cap`, and none is cooling down. */
  lemma {:induction false} JobsStayDistinctAndCapped(cfg: Settings, run: seq<State>, ticks: seq<Tick>, i: nat)
    requires IsRun(cfg, run, ticks) && i < |run|
    ensures Inv(cfg, run[i])
  {
    if i > 0 {
      JobsStayDistinctAndCapped(cfg, run, ticks, i - 1);
      TickKeepsInv(cfg, run[i - 1], ticks[i - 1]);
    }
  }

  ghost predicate Cooling(s: State, k: JobKey, until: real) {
    k in s.cooldown && s.cooldown[k] == until && k !in s.inFlight.Values
  }

  lemma CoolingSurvivesCollecting(cfg: Settings, s: State, e: Tick, k: JobKey, until: real)
    requires Inv(cfg, s) && Allowed(s, e) && until > e.now && Cooling(s, k, until)
    ensures Cooling(Collected(cfg, s, e), k, until)
  {
    forall f | f in s.inFlight ensures s.inFlight[f] != k {
      assert s.inFlight[f] in s.inFlight.Values;
    }
  }

  lemma FinishedKeyCools(cfg: Settings, s: State, e: Tick, k: JobKey)
    requires Inv(cfg, s) && Allowed(s, e) && cfg.poll > 0.0 && k in KeysOf(s, e.done)
    ensures Cooling(Collected(cfg, s, e), k, e.now + cfg.poll)
  {
  }

  lemma CoolingKeyIsNotLaunched(cfg: Settings, s: State, e: Tick, k: JobKey, until: real)
    requires Inv(cfg, s) && Allowed(s, e) && Cooling(Collected(cfg, s, e), k, until)
    ensures Cooling(Next(cfg, s, e), k, until)
  {
    CollectKeepsInv(cfg, s, e);
    WorkFits(cfg, Collected(cfg, s, e), e);
    TickKeepsInv(cfg, s, e);
    assert k in Busy(Collected(cfg, s, e));
  }

  lemma RunTick(cfg: Settings, run: seq<State>, ticks: seq<Tick>, i: nat)
    requires IsRun(cfg, run, ticks) && i < |ticks|
    ensures Inv(cfg, run[i]) && Allowed(run[i], ticks[i]) && run[i + 1] == Next(cfg, run[i], ticks[i])
  {
    JobsStayDistinctAndCapped(cfg, run, ticks, i);
  }

  /** A job that finishes is not launched again before one poll interval has passed, whatever the
      database keeps offering: until then it stays in the cooldown table and out of flight. */
  lemma {:induction false} FinishedJobsRest(cfg: Settings, run: seq<State>, ticks: seq<Tick>, i: nat, j: nat, k: JobKey)
    requires IsRun(cfg, run, ticks) && i < j <= |ticks| && k in KeysOf(run[i], ticks[i].done)
    requires forall m | i <= m < j :: ticks[m].now < ticks[i].now + cfg.poll
    ensures Cooling(run[j], k, ticks[i].now + cfg.poll)
    decreases j
  {
    var before := j - 1;
    RunTick(cfg, run, ticks, before);
    if i < before {
      FinishedJobsRest(cfg, run, ticks, i, before, k);
      CoolingSurvivesCollecting(cfg, run[before], ticks[before], k, ticks[i].now + cfg.poll);
    } else {
      FinishedKeyCools(cfg, run[before], ticks[before], k);
    }
    CoolingKeyIsNotLaunched(cfg, run[before], ticks[before], k, ticks[i].now + cfg.poll);
  }

  // ---------------------------------------------------------------- starving duels

  ghost predicate NoDuels(s: State) {
    forall k | k in Busy(s) :: k.QualificationKey?
  }

  lemma CollectingKeepsNoDuels(cfg: Settings, s: State, e: Tick)
    requires NoDuels(s)
    ensures NoDuels(Collected(cfg, s, e))
  {
    var collected := Collected(cfg, s, e);
    forall k | k in Busy(collected) ensures k.QualificationKey? {
      assert k in collected.inFlight.Values || k in s.cooldown || k in KeysOf(s, e.done);
      assert k in Busy(s);
    }
  }

  /** A tick that launches no duel job while none is busy. */
  predicate Starved(cfg: Settings, s: State, e: Tick) {
    var n := Slots(cfg, Collected(cfg, s, e), e);
    n == 0 || e.rows == [] || (n == 1 && FirstTwoArePairs(e.rows))
  }

  lemma WorkHasDuelsExactly(cfg: Settings, s: State, e: Tick)
    requires IsTable(e.rows) && IsQueue(e.queue)
    ensures (exists k | k in Work(cfg, s, e) :: k.DuelKey?) <==> DuelWork(e.rows, Slots(cfg, s, e), Busy(s)) != []
  {
    PendingDuelsExactly(e.rows, e.queue, Slots(cfg, s, e), Busy(s));
  }

  /** Exactly when a tick launches a duel job, whatever is running or cooling down: some slot is free,
      some missing side is fresh, and it is not a single slot stuck behind pairs. */
  lemma TickLaunchesDuelExactly(cfg: Settings, s: State, e: Tick)
    requires IsTable(e.rows) && IsQueue(e.queue)
    ensures (exists k | k in Work(cfg, s, e) :: k.DuelKey?)
      <==> Slots(cfg, s, e) > 0 && Without(AllSides(e.rows), Busy(s)) != []
           && !(Slots(cfg, s, e) == 1 && Stuck(e.rows, Busy(s)))
  {
    WorkHasDuelsExactly(cfg, s, e);
    NoDuelWorkExactly(e.rows, Slots(cfg, s, e), Busy(s));
  }

  lemma NoDuelsAfterLaunchExactly(s: State, s': State, work: seq<JobKey>)
    requires NoDuels(s) && s'.cooldown == s.cooldown
    requires forall k :: k in s'.inFlight.Values <==> k in s.inFlight.Values || k in work
    ensures NoDuels(s') <==> forall k | k in work :: k.QualificationKey?
  {
    forall k | k in work ensures k in Busy(s') {
      assert k in s'.inFlight.Values;
    }
    forall k | k in Busy(s') ensures k in work || k in Busy(s) {
    }
  }

  lemma TickKeepsNoDuelsExactly(cfg: Settings, s: State, e: Tick)
    requires Inv(cfg, s) && Allowed(s, e) && NoDuels(s)
    ensures NoDuels(Next(cfg, s, e)) <==> Starved(cfg, s, e)
  {
    var collected := Collected(cfg, s, e);
    CollectingKeepsNoDuels(cfg, s, e);
    TickKeepsInv(cfg, s, e);
    assert ExcludedDuels(Busy(collected)) == {};
    IdleDuelsLaunchNoneExactly(e.rows, Slots(cfg, collected, e), Busy(collected));
    WorkHasDuelsExactly(cfg, collected, e);
    NoDuelsAfterLaunchExactly(collected, Next(cfg, s, e), Work(cfg, collected, e));
  }

  lemma StepStarvesExactly(cfg: Settings, run: seq<State>, ticks: seq<Tick>, i: nat)
    requires IsRun(cfg, run, ticks) && i < |ticks|
    ensures NoDuels(run[i]) ==> (NoDuels(run[i + 1]) <==> Starved(cfg, run[i], ticks[i]))
  {
    RunTick(cfg, run, ticks, i);
    if NoDuels(run[i]) {
      TickKeepsNoDuelsExactly(cfg, run[i], ticks[i]);
    }
  }

  lemma NobodyBusyAtStart(cfg: Settings, run: seq<State>, ticks: seq<Tick>)
    requires IsRun(cfg, run, ticks)
    ensures NoDuels(run[0])
  {
  }

  /** What the pairing rule costs, exactly: a run never launches a duel job as long as at every tick no
      slot is free, no row waits, or the one free slot looks at two rows that lack both sides, as all
      rows do when a duel opens. */
  lemma {:induction false} DuelsStarveExactly(cfg: Settings, run: seq<State>, ticks: seq<Tick>, i: nat)
    requires IsRun(cfg, run, ticks) && i < |run|
    ensures (forall m | 0 <= m <= i :: NoDuels(run[m])) <==> (forall m | 0 <= m < i :: Starved(cfg, run[m], ticks[m]))
  {
    if i == 0 {
      NobodyBusyAtStart(cfg, run, ticks);
    } else {
      var last := i - 1;
      DuelsStarveExactly(cfg, run, ticks, last);
      StepStarvesExactly(cfg, run, ticks, last);
    }
  }

  /** In particular a solver with a single slot never launches a duel job while every waiting task
      lacks both sides. */
  lemma OneFreeSlotStarvesDuels(cfg: Settings, run: seq<State>, ticks: seq<Tick>, i: nat)
    requires IsRun(cfg, run, ticks) && i < |run|
    requires forall m | 0 <= m < |ticks| :: cfg.cap - |Collected(cfg, run[m], ticks[m]).inFlight| <= 1
    requires forall m, r | 0 <= m < |ticks| && 0 <= r < |ticks[m].rows| :: BothMissing(ticks[m].rows[r])
    ensures NoDuels(run[i])
  {
    DuelsStarveExactly(cfg, run, ticks, i);
    assert forall m | 0 <= m < i :: Starved(cfg, run[m], ticks[m]);
  }

  /** Starving takes a single slot: a poll with at least two launches a duel job whenever some side in
      the table is missing and neither running nor cooling down. */
  lemma TwoFreeSlotsLaunchADuel(cfg: Settings, s: State, e: Tick)
    requires IsTable(e.rows) && Slots(cfg, s, e) >= 2
    requires Without(AllSides(e.rows), Busy(s)) != []
    ensures exists k | k in Work(cfg, s, e) :: k.DuelKey?
  {
    var duels := DuelWork(e.rows, Slots(cfg, s, e), Busy(s));
    DuelsComeFirst(e.rows, Slots(cfg, s, e), Busy(s));
    DuelWorkIsFresh(e.rows, Slots(cfg, s, e), Busy(s));
    assert duels[0] in duels && duels[0] in Work(cfg, s, e);
  }

  // ---------------------------------------------------------------- cooling exactly, and filling the slots

  /** The job is among those whose futures a tick collects. */
  ghost predicate FinishesAt(s: State, e: Tick, k: JobKey) {
    exists f :: f in e.done && f in s.inFlight && s.inFlight[f] == k
  }

  lemma CoolingAfterTick(cfg: Settings, s: State, e: Tick, k: JobKey)
    requires Inv(cfg, s) && Allowed(s, e) && k in Next(cfg, s, e).cooldown
    ensures Next(cfg, s, e).cooldown[k] > e.now
    ensures if FinishesAt(s, e, k) then Next(cfg, s, e).cooldown[k] == e.now + cfg.poll
            else k in s.cooldown && Next(cfg, s, e).cooldown[k] == s.cooldown[k]
  {
    TickKeepsInv(cfg, s, e);
    CoolingAfterCollecting(cfg, s, e, k);
  }

  lemma CoolingAfterCollecting(cfg: Settings, s: State, e: Tick, k: JobKey)
    requires k in Collected(cfg, s, e).cooldown
    ensures Collected(cfg, s, e).cooldown[k] > e.now
    ensures if FinishesAt(s, e, k) then Collected(cfg, s, e).cooldown[k] == e.now + cfg.poll
            else k in s.cooldown && Collected(cfg, s, e).cooldown[k] == s.cooldown[k]
  {
    assert k in KeysOf(s, e.done) <==> FinishesAt(s, e, k);
  }

  /** What a cooldown entry after a tick owes to it. */
  ghost predicate Linked(cfg: Settings, run: seq<State>, ticks: seq<Tick>, i: nat, k: JobKey)
    requires |run| == |ticks| + 1 && i < |ticks|
  {
    k in run[i + 1].cooldown ==>
      var (s, e, until) := (run[i], ticks[i], run[i + 1].cooldown[k]);
      && until > e.now
      && if FinishesAt(s, e, k) then until == e.now + cfg.poll else k in s.cooldown && until == s.cooldown[k]
  }

  lemma CoolingIsLinked(cfg: Settings, run: seq<State>, ticks: seq<Tick>, i: nat, k: JobKey)
    requires IsRun(cfg, run, ticks) && i < |ticks|
    ensures Linked(cfg, run, ticks, i, k)
  {
    RunTick(cfg, run, ticks, i);
    if k in run[i + 1].cooldown {
      CoolingAfterTick(cfg, run[i], ticks[i], k);
    }
  }

  ghost predicate AllBefore(ticks: seq<Tick>, i: nat, j: nat, until: real)
    requires j <= |ticks|
  {
    forall m | i <= m < j :: ticks[m].now < until
  }

  lemma OneMoreBefore(ticks: seq<Tick>, i: nat, j: nat, until: real)
    requires j < |ticks| && AllBefore(ticks, i, j, until) && ticks[j].now < until
    ensures AllBefore(ticks, i, j + 1, until)
  {
  }

  lemma {:induction false} LinksReachBack(cfg: Settings, run: seq<State>, ticks: seq<Tick>, j: nat, k: JobKey)
    returns (i: nat)
    requires |run| == |ticks| + 1 && j < |run| && k in run[j].cooldown && k !in run[0].cooldown
    requires forall n: nat | n < |ticks| :: Linked(cfg, run, ticks, n, k)
    ensures i < j && FinishesAt(run[i], ticks[i], k) && run[j].cooldown[k] == ticks[i].now + cfg.poll
    ensures AllBefore(ticks, i, j, ticks[i].now + cfg.poll)
    decreases j
  {
    var last := j - 1;
    assert Linked(cfg, run, ticks, last, k);
    if FinishesAt(run[last], ticks[last], k) {
      return last;
    }
    i := LinksReachBack(cfg, run, ticks, last, k);
    OneMoreBefore(ticks, i, last, ticks[i].now + cfg.poll);
  }

  /** And no job rests longer: whatever is cooling down finished at some tick, less than one poll interval
      before every tick since. */
  lemma CoolingJobsJustFinished(cfg: Settings, run: seq<State>, ticks: seq<Tick>, j: nat, k: JobKey) returns (i: nat)
    requires IsRun(cfg, run, ticks) && j < |run| && k in run[j].cooldown
    ensures i < j && FinishesAt(run[i], ticks[i], k) && run[j].cooldown[k] == ticks[i].now + cfg.poll
    ensures AllBefore(ticks, i, j, ticks[i].now + cfg.poll)
  {
    forall n: nat | n < |ticks| ensures Linked(cfg, run, ticks, n, k) {
      CoolingIsLinked(cfg, run, ticks, n, k);
    }
    i := LinksReachBack(cfg, run, ticks, j, k);
  }

  lemma DuelsInFull(rows: seq<DuelRow>, limit: nat, exclude: set<JobKey>)
    requires IsTable(rows)
    ensures var duels := DuelWork(rows, limit, exclude);
      |duels| <= limit && (|duels| >= limit - 1 || forall k | k in AllSides(rows) :: k in exclude || k in duels)
  {
    DuelsComeFirst(rows, limit, exclude);
    DuelWorkIsFresh(rows, limit, exclude);
    WithoutKeeps(AllSides(rows), exclude);
  }

  lemma QualificationsInFull(queue: seq<JobKey>, remaining: nat, exclude: set<JobKey>)
    requires IsQueue(queue)
    ensures var jobs := QualificationWork(queue, remaining, exclude);
      |jobs| == remaining || (|jobs| < remaining && forall k | k in queue :: k in exclude || k in jobs)
  {
    QualificationIsExact(queue, remaining, exclude);
    WithoutKeeps(queue, exclude);
  }

  lemma OfferedInFull(rows: seq<DuelRow>, queue: seq<JobKey>, limit: nat, exclude: set<JobKey>)
    requires IsTable(rows) && IsQueue(queue)
    ensures var work := PendingWork(rows, queue, limit, exclude);
      || |work| == limit
      || ((forall k | k in queue :: k in exclude || k in work)
          && (|work| == limit - 1 || forall k | k in AllSides(rows) :: k in exclude || k in work))
  {
    var duels := DuelWork(rows, limit, exclude);
    var remaining := AtLeastZero(limit - |duels|);
    DuelsInFull(rows, limit, exclude);
    QualificationsInFull(queue, remaining, exclude);
    assert PendingWork(rows, queue, limit, exclude) == duels + QualificationWork(queue, remaining, exclude);
  }

  lemma LaunchedAreBusy(s: State, work: seq<JobKey>)
    requires forall f | f in s.inFlight :: f < s.next
    ensures |Launch(s, work).inFlight| == |s.inFlight| + |work|
    ensures forall k | k in Busy(s) || k in work :: k in Busy(Launch(s, work))
  {
    LaunchAdds(s, work);
  }

  /** No slot is free, or nothing that fits one is left to do. */
  ghost predicate Filled(s: State, cap: nat, rows: seq<DuelRow>, queue: seq<JobKey>) {
    || |s.inFlight| == cap
    || ((forall k | k in queue :: k in Busy(s))
        && (|s.inFlight| == cap - 1 || forall k | k in AllSides(rows) :: k in Busy(s)))
  }

  lemma LaunchFills(s: State, cap: nat, rows: seq<DuelRow>, queue: seq<JobKey>, work: seq<JobKey>)
    requires |s.inFlight| <= cap && IsTable(rows) && IsQueue(queue) && forall f | f in s.inFlight :: f < s.next
    requires work == PendingWork(rows, queue, cap - |s.inFlight|, Busy(s))
    ensures Filled(Launch(s, work), cap, rows, queue)
  {
    LaunchedAreBusy(s, work);
    OfferedInFull(rows, queue, cap - |s.inFlight|, Busy(s));
    var s' := Launch(s, work);
    assert forall k | k in Busy(s) || k in work :: k in Busy(s');
  }

  lemma SuccessfulPoll(cfg: Settings, c: State, e: Tick)
    requires e.answers && |c.inFlight| <= cfg.cap
    ensures Work(cfg, c, e) == PendingWork(e.rows, e.queue, cfg.cap - |c.inFlight|, Busy(c))
  {
    assert Slots(cfg, c, e) == cfg.cap - |c.inFlight|;
  }

  lemma PollFills(cfg: Settings, c: State, e: Tick)
    requires e.answers && IsTable(e.rows) && IsQueue(e.queue)
    requires |c.inFlight| <= cfg.cap && forall f | f in c.inFlight :: f < c.next
    ensures Filled(Launch(c, Work(cfg, c, e)), cfg.cap, e.rows, e.queue)
  {
    SuccessfulPoll(cfg, c, e);
    LaunchFills(c, cfg.cap, e.rows, e.queue, Work(cfg, c, e));
  }

  lemma TickIsLaunch(cfg: Settings, s: State, e: Tick)
    ensures Next(cfg, s, e) == Launch(Collected(cfg, s, e), Work(cfg, Collected(cfg, s, e), e))
  {
  }

  /** A tick whose poll succeeds leaves a slot free only for want of work: every queued qualification job is
      then busy, and every missing side too unless a single slot is left, which no pair fits. */
  lemma TicksFillSlots(cfg: Settings, s: State, e: Tick)
    requires Inv(cfg, s) && Allowed(s, e) && e.answers
    ensures Filled(Next(cfg, s, e), cfg.cap, e.rows, e.queue)
  {
    CollectKeepsInv(cfg, s, e);
    TickIsLaunch(cfg, s, e);
    PollFills(cfg, Collected(cfg, s, e), e);
  }
}

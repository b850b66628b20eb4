/**
 The life of a task: how far its pool fills, how often its screen may fail, and
 how long it waits in between.
 */
module TaskLife {
  import opened Common
  import opened Arena
  import opened ArenaRuns

  /** In every run a pool never exceeds its target of qualified tasks, every task awaiting its
      screen has a screening row (so the missing-row errors cannot happen) with a failed run to
      spare, and no task is charged more failed screens than allowed. */
  lemma TasksStayWithinBounds(cfg: Config, founding: seq<Id>, run: seq<State>, events: seq<Event>, i: nat)
    requires IsRun(cfg, founding, run, events) && i < |run|
    ensures var db := run[i].db;
      && (forall k, pool :: |TasksIn(db.tasks, k, pool, Qualified)| <= cfg.targets.Of(pool))
      && (forall t | t in db.tasks && db.tasks[t].status == PendingScreen ::
            t in db.screenings && db.screenings[t].failedRuns < MaxRuns(cfg))
      && (forall t | t in db.screenings :: db.screenings[t].failedRuns <= MaxRuns(cfg))
  {
    RunKeepsInv(cfg, founding, run, events, i);
  }

  /** The passing decision that finds or makes a pool full leaves no unfinished task in it. */
  lemma FillingAPoolClearsIt(cfg: Config, db: Tables, t: TaskId, k: Id, reason: string)
    requires PoolsCapped(cfg, db) && IsReigningTask(db, t, k, PendingScreen) && t in db.screenings
    ensures var db' := SaveDecision(db, cfg.targets, t, k, true, reason);
      var pool := db.tasks[t].pool;
      |TasksIn(db'.tasks, k, pool, Qualified)| >= cfg.targets.Of(pool) ==> Surplus(db'.tasks, k, pool) == {}
  {
    var pool := db.tasks[t].pool;
    if QualifiedCount(db, t) < cfg.targets.Of(pool) {
      AdmissionCounts(cfg, db, t, reason);
    }
  }

  lemma NextDelay(base: real, cap: real, n: nat)
    requires base >= 0.0 && n > 0
    ensures RetryDelay(base, cap, n) <= RetryDelay(base, cap, n + 1) <= cap
  {
    var p := Power2(n - 1) as real;
    assert Power2(n) as real == p + p;
    var wait := base * p;
    assert wait >= 0.0 && base * (p + p) == wait + wait;
  }

  /** Waits between failed screens never shrink and never exceed the cap. */
  lemma {:induction false} RetryDelaysGrow(base: real, cap: real, n: nat, m: nat)
    requires base >= 0.0 && 0 < n <= m
    ensures RetryDelay(base, cap, n) <= RetryDelay(base, cap, m) <= cap
    decreases m
  {
    if n < m {
      RetryDelaysGrow(base, cap, n, m - 1);
      NextDelay(base, cap, m - 1);
    }
  }

  lemma FailingOnce(cfg: Config, db: Tables, t: TaskId, retry: real)
    requires t in db.tasks && db.tasks[t].status == PendingScreen
    requires t in db.screenings && db.screenings[t].failedRuns < MaxRuns(cfg)
    ensures var db' := FailOnce(db, cfg.maxFailedRuns, t, retry);
      var runs := db'.screenings[t].failedRuns;
      && t in db'.tasks
      && runs == db.screenings[t].failedRuns + 1
      && (db'.tasks[t].status == Disqualified <==> runs == MaxRuns(cfg))
      && (db'.tasks[t].status != Disqualified ==> db'.screenings[t].nextRetry == Some(retry))
  {
    var runs := db.screenings[t].failedRuns + 1;
    assert runs >= cfg.maxFailedRuns <==> runs == MaxRuns(cfg);
    var db' := FailOnce(db, cfg.maxFailedRuns, t, retry);
    assert db'.screenings[t].failedRuns == runs;
    assert db'.tasks == if runs >= cfg.maxFailedRuns then SetTask(db, t, Disqualified).tasks else db.tasks;
  }

  /** A due failed screen of the reigning king's task counts once, and ends the task exactly
      when it uses up the allowed runs; otherwise the task waits the delay of that run. */
  lemma FailedScreenCounts(cfg: Config, db: Tables, base: real, cap: real, t: TaskId, k: Id, now: real)
    requires ScreeningRows(cfg, db) && IsReigningTask(db, t, k, PendingScreen) && RetryIsDue(db.screenings[t], now)
    ensures var db' := SaveError(db, cfg.maxFailedRuns, base, cap, t, k, now);
      var runs := db'.screenings[t].failedRuns;
      && runs == db.screenings[t].failedRuns + 1
      && (db'.tasks[t].status == Disqualified <==> runs == MaxRuns(cfg))
      && (db'.tasks[t].status != Disqualified ==>
            db'.screenings[t].nextRetry == Some(now + RetryDelay(base, cap, runs)))
  {
    FailingOnce(cfg, db, t, now + RetryDelay(base, cap, db.screenings[t].failedRuns + 1));
  }

  // ---------------------------------------------------------------- the waits of one task in a run

  predicate Pending(db: Tables, t: TaskId) {
    t in db.tasks && db.tasks[t].status == PendingScreen
  }

  /** The event is a failed screen of the task that counts: it is the reigning king's, pending and due. */
  predicate Counts(db: Tables, e: Event, t: TaskId) {
    && e.Worker? && e.work.ScreenFails? && e.work.task == t
    && IsReigningTask(db, t, e.work.king, PendingScreen)
    && t in db.screenings && RetryIsDue(db.screenings[t], e.work.now)
  }

  /** All screeners use the same backoff. */
  ghost predicate SameBackoff(events: seq<Event>, base: real, cap: real) {
    forall i | 0 <= i < |events| && events[i].Worker? && events[i].work.ScreenFails? ::
      events[i].work.base == base && events[i].work.cap == cap
  }

  lemma WorkLeavesScreening(cfg: Config, db: Tables, w: Work, t: TaskId)
    requires Pending(db, t) && Pending(DoWork(db, cfg, w), t) && t in db.screenings && !Counts(db, Worker(w), t)
    ensures t in DoWork(db, cfg, w).screenings && DoWork(db, cfg, w).screenings[t] == db.screenings[t]
  {
    match w
    case Screen(u, k, pass, reason) => ScreenLeavesOthers(cfg, db, u, k, pass, reason, t);
    case _ =>
  }

  lemma DroppingLeavesPending(db: Tables, king: Id, pool: Pool, t: TaskId)
    requires t in db.tasks && t in db.screenings && Pending(DropSurplus(db, king, pool), t)
    ensures DropSurplus(db, king, pool).screenings[t] == db.screenings[t]
  {
  }

  lemma SettlingLeavesOthers(db: Tables, u: TaskId, status: TaskStatus, reason: string, t: TaskId)
    requires u in db.tasks && u in db.screenings && t in db.tasks && t in db.screenings && t != u
    ensures var db' := Settle(db, u, status, reason);
      && t in db'.tasks && t in db'.screenings
      && db'.tasks[t] == db.tasks[t] && db'.screenings[t] == db.screenings[t]
  {
  }

  lemma DecisionLeavesOthers(db: Tables, target: nat, u: TaskId, k: Id, pass: bool, reason: string, t: TaskId)
    requires u in db.tasks && u in db.screenings && t in db.tasks && t in db.screenings && t != u
    requires Pending(Decision(db, target, u, k, pass, reason), t)
    ensures Decision(db, target, u, k, pass, reason).screenings[t] == db.screenings[t]
  {
    var pool, count := db.tasks[u].pool, QualifiedCount(db, u);
    var full := pass && count >= target;
    var status := if pass && !full then Qualified else Disqualified;
    var why := if full then "pool_full_surplus" else reason;
    var saved := Settle(db, u, status, why);
    SettlingLeavesOthers(db, u, status, why, t);
    if pass && (full || count + 1 == target) {
      DroppingLeavesPending(saved, k, pool, t);
    }
  }

  lemma ScreenedIsNotPending(db: Tables, target: nat, u: TaskId, k: Id, pass: bool, reason: string)
    requires u in db.tasks && u in db.screenings
    ensures !Pending(Decision(db, target, u, k, pass, reason), u)
  {
  }

  lemma ScreenLeavesOthers(cfg: Config, db: Tables, u: TaskId, k: Id, pass: bool, reason: string, t: TaskId)
    requires Pending(db, t) && Pending(SaveDecision(db, cfg.targets, u, k, pass, reason), t) && t in db.screenings
    ensures var db' := SaveDecision(db, cfg.targets, u, k, pass, reason);
      t in db'.screenings && db'.screenings[t] == db.screenings[t]
  {
    if IsReigningTask(db, u, k, PendingScreen) && u in db.screenings {
      var target := cfg.targets.Of(db.tasks[u].pool);
      ScreenedIsNotPending(db, target, u, k, pass, reason);
      DecisionLeavesOthers(db, target, u, k, pass, reason, t);
    }
  }
  lemma StepLeavesScreening(cfg: Config, s: State, e: Event, t: TaskId)
    requires Allowed(s, e) && Pending(s.db, t) && Pending(Next(cfg, s, e).db, t)
    requires t in s.db.screenings && !Counts(s.db, e, t)
    ensures t in Next(cfg, s, e).db.screenings && Next(cfg, s, e).db.screenings[t] == s.db.screenings[t]
  {
    match e
    case Worker(w) => WorkLeavesScreening(cfg, s.db, w, t);
    case Apply(o) => ActionLeavesTasks(s.db, o.action);
    case _ =>
  }

  lemma FailingOnceAndPending(db: Tables, maxFailedRuns: int, t: TaskId, retry: real)
    requires t in db.tasks && t in db.screenings && Pending(FailOnce(db, maxFailedRuns, t, retry), t)
    ensures var s := FailOnce(db, maxFailedRuns, t, retry).screenings;
      s[t].failedRuns == db.screenings[t].failedRuns + 1 && s[t].nextRetry == Some(retry)
  {
  }

  lemma CountedFailure(cfg: Config, db: Tables, e: Event, t: TaskId)
    requires Counts(db, e, t) && Pending(DoWork(db, cfg, e.work), t)
    ensures var s := DoWork(db, cfg, e.work).screenings;
      && t in s && s[t].failedRuns == db.screenings[t].failedRuns + 1
      && s[t].nextRetry == Some(e.work.now + RetryDelay(e.work.base, e.work.cap, s[t].failedRuns))
  {
    FailingOnceAndPending(
      db, cfg.maxFailedRuns, t, e.work.now + RetryDelay(e.work.base, e.work.cap, db.screenings[t].failedRuns + 1));
  }

  lemma StaysPending(
    cfg: Config, founding: seq<Id>, run: seq<State>, events: seq<Event>, i: nat, m: nat, j: nat, t: TaskId)
    requires IsRun(cfg, founding, run, events) && i <= m <= j < |run| && Pending(run[i].db, t) && Pending(run[j].db, t)
    ensures Pending(run[m].db, t) && t in run[m].db.screenings
  {
    RunGrows(cfg, founding, run, events, i, m);
    RunGrows(cfg, founding, run, events, m, j);
    RunKeepsInv(cfg, founding, run, events, m);
  }

  /** While a task stays pending its failed runs only grow, and its screening row changes only when a
      failure counts. */
  lemma {:induction false} ScreeningRowMovesByFailures(
    cfg: Config, founding: seq<Id>, run: seq<State>, events: seq<Event>, i: nat, j: nat, t: TaskId)
    requires IsRun(cfg, founding, run, events) && i <= j < |run| && Pending(run[i].db, t) && Pending(run[j].db, t)
    ensures t in run[i].db.screenings && t in run[j].db.screenings
    ensures run[i].db.screenings[t].failedRuns <= run[j].db.screenings[t].failedRuns
    ensures (forall m | i <= m < j :: !Counts(run[m].db, events[m], t)) ==>
      run[j].db.screenings[t] == run[i].db.screenings[t]
    decreases j
  {
    StaysPending(cfg, founding, run, events, i, i, j, t);
    StaysPending(cfg, founding, run, events, i, j, j, t);
    if i < j {
      var last := j - 1;
      StaysPending(cfg, founding, run, events, i, last, j, t);
      ScreeningRowMovesByFailures(cfg, founding, run, events, i, last, t);
      assert Allowed(run[last], events[last]) && run[last + 1] == Next(cfg, run[last], events[last]);
      if Counts(run[last].db, events[last], t) {
        CountedFailure(cfg, run[last].db, events[last], t);
      } else {
        StepLeavesScreening(cfg, run[last], events[last], t);
      }
    }
  }

  /** The wait that the failure at step `i` imposes. */
  function Wait(run: seq<State>, i: nat, t: TaskId, base: real, cap: real): real
    requires i + 1 < |run| && t in run[i + 1].db.screenings && run[i + 1].db.screenings[t].failedRuns > 0
  {
    RetryDelay(base, cap, run[i + 1].db.screenings[t].failedRuns)
  }

  /** Over a run, two counted failures of a task with none between them are at least the first one's
      wait apart; and the waits its failures impose never shrink and never exceed the cap. */
  lemma RetriesAreSpaced(
    cfg: Config, founding: seq<Id>, run: seq<State>, events: seq<Event>, i: nat, j: nat, t: TaskId, base: real, cap: real)
    requires IsRun(cfg, founding, run, events) && SameBackoff(events, base, cap) && base >= 0.0
    requires i < j < |events| && Counts(run[i].db, events[i], t) && Counts(run[j].db, events[j], t)
    ensures t in run[i + 1].db.screenings && run[i + 1].db.screenings[t].failedRuns > 0
    ensures (forall m | i < m < j :: !Counts(run[m].db, events[m], t)) ==>
      events[j].work.now >= events[i].work.now + Wait(run, i, t, base, cap)
    ensures Pending(run[j + 1].db, t) ==>
      && t in run[j + 1].db.screenings && run[j + 1].db.screenings[t].failedRuns > 0
      && Wait(run, i, t, base, cap) <= Wait(run, j, t, base, cap) <= cap
  {
    assert Allowed(run[i], events[i]) && run[i + 1] == Next(cfg, run[i], events[i]);
    assert Allowed(run[j], events[j]) && run[j + 1] == Next(cfg, run[j], events[j]);
    StaysPending(cfg, founding, run, events, i, i + 1, j, t);
    CountedFailure(cfg, run[i].db, events[i], t);
    ScreeningRowMovesByFailures(cfg, founding, run, events, i + 1, j, t);
    if Pending(run[j + 1].db, t) {
      CountedFailure(cfg, run[j].db, events[j], t);
      RetryDelaysGrow(base, cap, run[i + 1].db.screenings[t].failedRuns, run[j + 1].db.screenings[t].failedRuns);
    }
  }
}

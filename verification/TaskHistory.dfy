/**
 How every task came to its status: the exact effect of each task transaction on
 the rows, and over runs the events behind a status, a solution and a judgement.
 */
module TaskHistory {
  import opened Common
  import opened Arena
  import opened ArenaRuns

  predicate Reigns(db: Tables, k: Id) {
    db.kings != [] && db.kings[|db.kings| - 1] == k
  }

  function QualifiedTasks(db: Tables, k: Id, pool: Pool): set<TaskId> {
    set t | t in db.tasks && db.tasks[t].king == k && db.tasks[t].pool == pool && db.tasks[t].status.Qualified?
  }

  /** A task of the reigning king in this status. */
  predicate Handles(db: Tables, t: TaskId, k: Id, status: TaskStatus) {
    Reigns(db, k) && t in db.tasks && db.tasks[t].king == k && db.tasks[t].status == status
  }

  /** Not yet screened to the end. */
  predicate Unfinished(task: Task) {
    task.status.Candidate? || task.status.PendingScreen?
  }

  // ---------------------------------------------------------------- what each transaction does

  /** A mined commit becomes a candidate exactly if its fingerprint and id are new. */
  lemma InsertOutcome(db: Tables, t: TaskId, k: Id, pool: Pool, fingerprint: string)
    ensures var isNew := t !in db.tasks && forall u | u in db.tasks :: db.tasks[u].fingerprint != fingerprint;
      InsertTask(db, t, k, pool, fingerprint)
      == if isNew then db.(tasks := db.tasks[t := Task(k, pool, Candidate, fingerprint)]) else db
  {
  }

  lemma QualifyOutcome(db: Tables, t: TaskId, k: Id, viable: bool)
    ensures var db' := FinishQualification(db, t, k, viable);
      if !Handles(db, t, k, Candidate) then db' == db
      else
        && db'.tasks == db.tasks[t := db.tasks[t].(status := if viable then PendingScreen else Disqualified)]
        && db'.screenings == (if viable then db.screenings[t := Screening(k, 0, None, None)] else db.screenings)
  {
  }

  /** The screened row itself: qualified exactly by passing into a pool that is short, with the
      caller's reason unless a pass met a full pool. */
  ghost predicate Screened(db: Tables, db': Tables, target: nat, t: TaskId, pass: bool, reason: string)
    requires t in db.tasks && t in db.screenings
  {
    var short := |QualifiedTasks(db, db.tasks[t].king, db.tasks[t].pool)| < target;
    && t in db'.tasks && t in db'.screenings
    && db'.tasks[t] == db.tasks[t].(status := if pass && short then Qualified else Disqualified)
    && db'.screenings[t] == db.screenings[t].(
         nextRetry := None, reason := Some(if pass && !short then "pool_full_surplus" else reason))
  }

  /** Another row: dropped exactly if a pass fills or finds full the pool it is unfinished in. */
  ghost predicate OtherDropped(db: Tables, db': Tables, target: nat, t: TaskId, pass: bool, u: TaskId)
    requires t in db.tasks && u in db.tasks
  {
    var k, pool := db.tasks[t].king, db.tasks[t].pool;
    var gone :=
      && pass && |QualifiedTasks(db, k, pool)| + 1 >= target
      && db.tasks[u].king == k && db.tasks[u].pool == pool && Unfinished(db.tasks[u]);
    && u in db'.tasks && db'.tasks[u] == (if gone then db.tasks[u].(status := Disqualified) else db.tasks[u])
    && (u in db.screenings ==>
          u in db'.screenings && db'.screenings[u] ==
            if gone then db.screenings[u].(nextRetry := None, reason := Some("pool_full_surplus")) else db.screenings[u])
  }

  ghost predicate OthersDropped(db: Tables, db': Tables, target: nat, t: TaskId, pass: bool)
    requires t in db.tasks
  {
    && db'.tasks.Keys == db.tasks.Keys && db'.screenings.Keys == db.screenings.Keys
    && forall u | u in db.tasks && u != t :: OtherDropped(db, db', target, t, pass, u)
  }

  lemma SettleScreens(db: Tables, target: nat, t: TaskId, k: Id, pass: bool, reason: string)
    requires t in db.tasks && t in db.screenings && db.tasks[t].king == k
    ensures Screened(db, Decision(db, target, t, k, pass, reason), target, t, pass, reason)
  {
    assert QualifiedTasks(db, k, db.tasks[t].pool) == TasksIn(db.tasks, k, db.tasks[t].pool, Qualified);
  }

  lemma DroppedRow(db: Tables, k: Id, pool: Pool, u: TaskId)
    requires u in db.tasks
    ensures var (db', gone) := (DropSurplus(db, k, pool),
                                db.tasks[u].king == k && db.tasks[u].pool == pool && Unfinished(db.tasks[u]));
      && db'.tasks.Keys == db.tasks.Keys && db'.screenings.Keys == db.screenings.Keys
      && db'.tasks[u] == (if gone then db.tasks[u].(status := Disqualified) else db.tasks[u])
      && (u in db.screenings ==>
            db'.screenings[u] ==
              if gone then db.screenings[u].(nextRetry := None, reason := Some("pool_full_surplus"))
              else db.screenings[u])
  {
  }

  lemma SettledRow(db: Tables, t: TaskId, status: TaskStatus, reason: string, u: TaskId)
    requires t in db.tasks && t in db.screenings && u in db.tasks && u != t
    ensures var db' := Settle(db, t, status, reason);
      && db'.tasks.Keys == db.tasks.Keys && db'.screenings.Keys == db.screenings.Keys
      && db'.tasks[u] == db.tasks[u] && (u in db.screenings ==> db'.screenings[u] == db.screenings[u])
  {
  }

  lemma SettleDrops(db: Tables, target: nat, t: TaskId, k: Id, pass: bool, reason: string)
    requires t in db.tasks && t in db.screenings && db.tasks[t].king == k
    ensures OthersDropped(db, Decision(db, target, t, k, pass, reason), target, t, pass)
  {
    var pool := db.tasks[t].pool;
    var full := pass && |QualifiedTasks(db, k, pool)| >= target;
    assert QualifiedTasks(db, k, pool) == TasksIn(db.tasks, k, pool, Qualified);
    var status := if pass && !full then Qualified else Disqualified;
    var why := if full then "pool_full_surplus" else reason;
    var saved := Settle(db, t, status, why);
    assert saved.tasks.Keys == db.tasks.Keys && saved.screenings.Keys == db.screenings.Keys;
    DroppedRow(saved, k, pool, t);
    forall u | u in db.tasks && u != t ensures OtherDropped(db, Decision(db, target, t, k, pass, reason), target, t, pass, u) {
      SettledRow(db, t, status, why, u);
      DroppedRow(saved, k, pool, u);
    }
  }

  /** What a final screen does to every row. */
  ghost predicate ScreenedRows(db: Tables, db': Tables, target: nat, t: TaskId, pass: bool, reason: string) {
    && t in db.tasks && t in db.screenings
    && Screened(db, db', target, t, pass, reason) && OthersDropped(db, db', target, t, pass)
  }

  lemma DecisionScreens(db: Tables, target: nat, t: TaskId, k: Id, pass: bool, reason: string)
    requires t in db.tasks && t in db.screenings && db.tasks[t].king == k
    ensures ScreenedRows(db, Decision(db, target, t, k, pass, reason), target, t, pass, reason)
  {
    SettleScreens(db, target, t, k, pass, reason);
    SettleDrops(db, target, t, k, pass, reason);
  }

  /** A final screen of a pending task of the reigning king changes just these rows, and any other
      screen nothing. */
  lemma ScreenOutcome(db: Tables, targets: Targets, t: TaskId, k: Id, pass: bool, reason: string)
    ensures var db' := SaveDecision(db, targets, t, k, pass, reason);
      if !Handles(db, t, k, PendingScreen) || t !in db.screenings then db' == db
      else
        var target := if db.tasks[t].pool == PoolOne then targets.one else targets.two;
        ScreenedRows(db, db', target, t, pass, reason)
  {
    if Handles(db, t, k, PendingScreen) && t in db.screenings {
      DecisionScreens(db, targets.Of(db.tasks[t].pool), t, k, pass, reason);
    }
  }

  /** A failed screen counts only for a pending task of the reigning king whose retry is due; the
      last allowed one ends the task, and any other defers it. */
  lemma FailureOutcome(db: Tables, maxFailedRuns: int, base: real, cap: real, t: TaskId, k: Id, now: real)
    ensures var db' := SaveError(db, maxFailedRuns, base, cap, t, k, now);
      if !Handles(db, t, k, PendingScreen) || t !in db.screenings
         || (db.screenings[t].nextRetry.Some? && db.screenings[t].nextRetry.value > now) then db' == db
      else
        var runs := db.screenings[t].failedRuns + 1;
        var last := runs >= maxFailedRuns;
        && db'.tasks == (if last then db.tasks[t := db.tasks[t].(status := Disqualified)] else db.tasks)
        && db'.screenings == db.screenings[t := db.screenings[t].(
             failedRuns := runs,
             nextRetry := if last then None else Some(now + RetryDelay(base, cap, runs)),
             reason := if last then Some("screening_exhausted") else None)]
  {
  }

  /** The first wait is the base and every further one twice the one before, up to the cap. */
  lemma DelaysDouble(base: real, cap: real, n: nat)
    requires base >= 0.0 && n > 0
    ensures RetryDelay(base, cap, 1) == if base < cap then base else cap
    ensures var twice := 2.0 * RetryDelay(base, cap, n);
      cap >= 0.0 ==> RetryDelay(base, cap, n + 1) == if twice < cap then twice else cap
  {
    var p := Power2(n - 1) as real;
    assert Power2(n) as real == 2.0 * p;
    assert base * (2.0 * p) == 2.0 * (base * p);
    assert Power2(0) as real == 1.0 && base * 1.0 == base;
    assert base * p >= 0.0;
  }

  // ---------------------------------------------------------------- the cause of a status

  /** What event on which tables brings a task to its status. */
  ghost predicate Cause(cfg: Config, db: Tables, e: Event, t: TaskId, task: Task) {
    && e.Worker?
    && var target := if task.pool == PoolOne then cfg.targets.one else cfg.targets.two;
    && var count := |QualifiedTasks(db, task.king, task.pool)|;
    match task.status
    case Candidate => e.work == Generate(t, task.king, task.pool, task.fingerprint) && t !in db.tasks
    case PendingScreen => e.work == Qualify(t, task.king, true) && Handles(db, t, task.king, Candidate)
    case Qualified =>
      && Handles(db, t, task.king, PendingScreen) && count < target
      && e.work.Screen? && e.work.task == t && e.work.king == task.king && e.work.pass
    case Disqualified =>
      Reigns(db, task.king) && t in db.tasks && DropsTask(cfg, db, e.work, t, task, count, target)
  }

  /** The four ways to lose a task: the gate, the screen, too many failed screens, and a full pool. */
  ghost predicate DropsTask(cfg: Config, db: Tables, w: Work, t: TaskId, task: Task, count: nat, target: nat) {
    || w == Qualify(t, task.king, false)
    || (w.Screen? && w.task == t && w.king == task.king && (!w.pass || count >= target))
    || (w.ScreenFails? && w.task == t && t in db.screenings && db.screenings[t].failedRuns + 1 >= cfg.maxFailedRuns)
    || (w.Screen? && w.pass && w.task != t && w.task in db.tasks && count + 1 >= target
        && db.tasks[w.task].king == task.king && db.tasks[w.task].pool == task.pool)
  }

  /** One step: the row stays, or its status changes for a cause and nothing else of it does. */
  ghost predicate Moves(cfg: Config, db: Tables, db': Tables, e: Event, t: TaskId) {
    && (t in db.tasks ==> t in db'.tasks)
    && (t in db'.tasks ==>
          || (t in db.tasks && db'.tasks[t] == db.tasks[t])
          || (Cause(cfg, db, e, t, db'.tasks[t])
              && (t in db.tasks ==> db'.tasks[t] == db.tasks[t].(status := db'.tasks[t].status))))
  }

  lemma ScreenedMoves(cfg: Config, db: Tables, w: Work)
    requires w.Screen? && Handles(db, w.task, w.king, PendingScreen) && w.task in db.screenings
    requires Screened(db, DoWork(db, cfg, w), cfg.targets.Of(db.tasks[w.task].pool), w.task, w.pass, w.reason)
    ensures Moves(cfg, db, DoWork(db, cfg, w), Worker(w), w.task)
  {
    var task, task' := db.tasks[w.task], DoWork(db, cfg, w).tasks[w.task];
    assert task'.king == task.king && task'.pool == task.pool;
    assert Cause(cfg, db, Worker(w), w.task, task');
  }

  lemma DroppedMoves(cfg: Config, db: Tables, w: Work, u: TaskId)
    requires w.Screen? && Handles(db, w.task, w.king, PendingScreen) && u in db.tasks && u != w.task
    requires OtherDropped(db, DoWork(db, cfg, w), cfg.targets.Of(db.tasks[w.task].pool), w.task, w.pass, u)
    ensures Moves(cfg, db, DoWork(db, cfg, w), Worker(w), u)
  {
    var task, task' := db.tasks[u], DoWork(db, cfg, w).tasks[u];
    if task' != task {
      assert Cause(cfg, db, Worker(w), u, task');
    }
  }

  lemma ScreenMoves(cfg: Config, db: Tables, w: Work, t: TaskId)
    requires w.Screen?
    ensures Moves(cfg, db, DoWork(db, cfg, w), Worker(w), t)
  {
    ScreenOutcome(db, cfg.targets, w.task, w.king, w.pass, w.reason);
    if Handles(db, w.task, w.king, PendingScreen) && w.task in db.screenings {
      if t == w.task {
        ScreenedMoves(cfg, db, w);
      } else if t in db.tasks {
        DroppedMoves(cfg, db, w, t);
      }
    }
  }

  lemma WorkMoves(cfg: Config, db: Tables, w: Work, t: TaskId)
    ensures Moves(cfg, db, DoWork(db, cfg, w), Worker(w), t)
  {
    match w
    case Generate(u, k, pool, fingerprint) => InsertOutcome(db, u, k, pool, fingerprint);
    case Qualify(u, k, viable) => QualifyOutcome(db, u, k, viable);
    case Screen(_, _, _, _) => ScreenMoves(cfg, db, w, t);
    case ScreenFails(u, k, base, cap, now) => FailureOutcome(db, cfg.maxFailedRuns, base, cap, u, k, now);
    case _ =>
  }

  lemma StepMoves(cfg: Config, s: State, e: Event, t: TaskId)
    requires Allowed(s, e)
    ensures Moves(cfg, s.db, Next(cfg, s, e).db, e, t)
  {
    match e
    case Worker(w) => WorkMoves(cfg, s.db, w, t);
    case Apply(o) => ActionLeavesTasks(s.db, o.action);
    case _ =>
  }

  /** In every run each task's status was brought about by one event that justifies it: it was
      generated with its king, pool and fingerprint, found viable, screened with a pass while its
      pool was short, or dropped for one of four reasons; and it has kept the status since. */
  lemma {:induction false} EveryStatusHasItsCause(
    cfg: Config, founding: seq<Id>, run: seq<State>, events: seq<Event>, j: nat, t: TaskId) returns (m: nat)
    requires IsRun(cfg, founding, run, events) && j < |run| && t in run[j].db.tasks
    ensures m < j && Cause(cfg, run[m].db, events[m], t, run[j].db.tasks[t])
    ensures forall i | m < i <= j :: t in run[i].db.tasks && run[i].db.tasks[t] == run[j].db.tasks[t]
    decreases j
  {
    assert j > 0;
    var last := j - 1;
    assert Allowed(run[last], events[last]) && run[last + 1] == Next(cfg, run[last], events[last]);
    StepMoves(cfg, run[last], events[last], t);
    if t in run[last].db.tasks && run[last].db.tasks[t] == run[j].db.tasks[t] {
      m := EveryStatusHasItsCause(cfg, founding, run, events, last, t);
    } else {
      m := last;
    }
  }

  /** A qualified task was generated, then found viable, then passed its screen while its pool was
      short, each for the king that reigned then. */
  lemma QualifiedTasksEarnedIt(
    cfg: Config, founding: seq<Id>, run: seq<State>, events: seq<Event>, j: nat, t: TaskId)
    returns (a: nat, b: nat, c: nat)
    requires IsRun(cfg, founding, run, events) && j < |run| && t in run[j].db.tasks
    requires run[j].db.tasks[t].status == Qualified
    ensures a < b < c < j
    ensures var task := run[j].db.tasks[t];
      && events[a] == Worker(Generate(t, task.king, task.pool, task.fingerprint))
      && events[b] == Worker(Qualify(t, task.king, true)) && Reigns(run[b].db, task.king)
      && events[c].Worker? && events[c].work.Screen? && events[c].work.task == t && events[c].work.king == task.king
      && events[c].work.pass && Reigns(run[c].db, task.king)
      && |QualifiedTasks(run[c].db, task.king, task.pool)| < cfg.targets.Of(task.pool)
  {
    c := EveryStatusHasItsCause(cfg, founding, run, events, j, t);
    SameTask(cfg, founding, run, events, c, j, t);
    b := EveryStatusHasItsCause(cfg, founding, run, events, c, t);
    SameTask(cfg, founding, run, events, b, c, t);
    a := EveryStatusHasItsCause(cfg, founding, run, events, b, t);
  }

  /** A task's king, pool and fingerprint never change. */
  lemma {:induction false} SameTask(
    cfg: Config, founding: seq<Id>, run: seq<State>, events: seq<Event>, i: nat, j: nat, t: TaskId)
    requires IsRun(cfg, founding, run, events) && i <= j < |run| && t in run[i].db.tasks
    ensures t in run[j].db.tasks
    ensures run[j].db.tasks[t] == run[i].db.tasks[t].(status := run[j].db.tasks[t].status)
    decreases j
  {
    if i < j {
      var last := j - 1;
      SameTask(cfg, founding, run, events, i, last, t);
      assert Allowed(run[last], events[last]) && run[last + 1] == Next(cfg, run[last], events[last]);
      StepMoves(cfg, run[last], events[last], t);
    }
  }

  // ---------------------------------------------------------------- fingerprints

  ghost predicate UniqueFingerprints(tasks: map<TaskId, Task>) {
    forall t, u | t in tasks && u in tasks && tasks[t].fingerprint == tasks[u].fingerprint :: t == u
  }

  lemma NewTaskCause(cfg: Config, db: Tables, e: Event, t: TaskId, task: Task)
    requires Cause(cfg, db, e, t, task) && t !in db.tasks
    ensures e == Worker(Generate(t, task.king, task.pool, task.fingerprint))
  {
    match task.status
    case Candidate =>
    case _ =>
  }

  lemma NewTaskIsGenerated(cfg: Config, s: State, e: Event, t: TaskId)
    requires Allowed(s, e) && t in Next(cfg, s, e).db.tasks && t !in s.db.tasks
    ensures e.Worker? && e.work.Generate? && e.work.task == t
    ensures Next(cfg, s, e).db == InsertTask(s.db, t, e.work.king, e.work.pool, e.work.fingerprint)
  {
    StepMoves(cfg, s, e, t);
    var task := Next(cfg, s, e).db.tasks[t];
    NewTaskCause(cfg, s.db, e, t, task);
    assert Next(cfg, s, e).db == DoWork(s.db, cfg, e.work);
  }

  lemma InsertedIsFresh(db: Tables, t: TaskId, k: Id, pool: Pool, fingerprint: string, u: TaskId)
    requires t !in db.tasks && t in InsertTask(db, t, k, pool, fingerprint).tasks && u in db.tasks
    ensures InsertTask(db, t, k, pool, fingerprint).tasks[t].fingerprint != db.tasks[u].fingerprint
  {
    InsertOutcome(db, t, k, pool, fingerprint);
  }

  lemma NewFingerprintIsFresh(cfg: Config, s: State, e: Event, t: TaskId, u: TaskId)
    requires Allowed(s, e) && t in Next(cfg, s, e).db.tasks && t !in s.db.tasks && u in s.db.tasks
    ensures Next(cfg, s, e).db.tasks[t].fingerprint != s.db.tasks[u].fingerprint
  {
    NewTaskIsGenerated(cfg, s, e, t);
    InsertedIsFresh(s.db, t, e.work.king, e.work.pool, e.work.fingerprint, u);
  }

  lemma OneNewTask(cfg: Config, s: State, e: Event, t: TaskId, u: TaskId)
    requires Allowed(s, e) && t in Next(cfg, s, e).db.tasks && t !in s.db.tasks
    requires u in Next(cfg, s, e).db.tasks && u !in s.db.tasks
    ensures t == u
  {
    StepMoves(cfg, s, e, t);
    StepMoves(cfg, s, e, u);
  }

  lemma StepKeepsFingerprints(cfg: Config, s: State, e: Event)
    requires Allowed(s, e) && UniqueFingerprints(s.db.tasks)
    ensures UniqueFingerprints(Next(cfg, s, e).db.tasks)
  {
    var tasks, tasks' := s.db.tasks, Next(cfg, s, e).db.tasks;
    forall t, u | t in tasks' && u in tasks' && tasks'[t].fingerprint == tasks'[u].fingerprint
      ensures t == u
    {
      SameFingerprint(cfg, s, e, t);
      SameFingerprint(cfg, s, e, u);
      if t !in tasks && u !in tasks {
        OneNewTask(cfg, s, e, t, u);
      } else if t !in tasks {
        NewFingerprintIsFresh(cfg, s, e, t, u);
      } else if u !in tasks {
        NewFingerprintIsFresh(cfg, s, e, u, t);
      }
    }
  }

  lemma SameFingerprint(cfg: Config, s: State, e: Event, t: TaskId)
    requires Allowed(s, e)
    ensures t in s.db.tasks ==>
      t in Next(cfg, s, e).db.tasks && Next(cfg, s, e).db.tasks[t].fingerprint == s.db.tasks[t].fingerprint
  {
    StepMoves(cfg, s, e, t);
  }

  /** No commit is ever mined into two tasks. */
  lemma {:induction false} FingerprintsAreUnique(
    cfg: Config, founding: seq<Id>, run: seq<State>, events: seq<Event>, i: nat)
    requires IsRun(cfg, founding, run, events) && i < |run|
    ensures UniqueFingerprints(run[i].db.tasks)
  {
    if i > 0 {
      FingerprintsAreUnique(cfg, founding, run, events, i - 1);
      StepKeepsFingerprints(cfg, run[i - 1], events[i - 1]);
    }
  }

  // ---------------------------------------------------------------- solutions and judgements

  lemma StepStoresFirst(cfg: Config, s: State, e: Event)
    requires Allowed(s, e) && e.Worker?
    ensures var db' := Next(cfg, s, e).db;
      && (e.work.Solve? ==>
            var key := (e.work.task, e.work.challenger, e.work.submission);
            db'.solutions == if key in s.db.solutions then s.db.solutions else s.db.solutions[key := e.work.tokens])
      && (e.work.Judge? ==>
            var key := (e.work.task, e.work.king, e.work.challenger);
            db'.judgements == if key in s.db.judgements then s.db.judgements else s.db.judgements[key := e.work.judgement])
  {
  }

  /** What the judge says first of a round is what is stored for the rest of the run. */
  lemma FirstJudgementStands(
    cfg: Config, founding: seq<Id>, run: seq<State>, events: seq<Event>, i: nat, j: nat,
    t: TaskId, k: Id, c: Id, judgement: Judgement)
    requires IsRun(cfg, founding, run, events) && i < j < |run| && events[i] == Worker(Judge(t, k, c, judgement))
    requires (t, k, c) !in run[i].db.judgements
    ensures (t, k, c) in run[j].db.judgements && run[j].db.judgements[(t, k, c)] == judgement
  {
    assert Allowed(run[i], events[i]) && run[i + 1] == Next(cfg, run[i], events[i]);
    StepStoresFirst(cfg, run[i], events[i]);
    RunGrows(cfg, founding, run, events, i + 1, j);
  }

  /** The tokens of a side's first solve are what is stored for the rest of the run. */
  lemma FirstSolutionStands(
    cfg: Config, founding: seq<Id>, run: seq<State>, events: seq<Event>, i: nat, j: nat,
    t: TaskId, c: Id, side: Id, tokens: Option<int>)
    requires IsRun(cfg, founding, run, events) && i < j < |run| && events[i] == Worker(Solve(t, c, side, tokens))
    requires (t, c, side) !in run[i].db.solutions
    ensures (t, c, side) in run[j].db.solutions && run[j].db.solutions[(t, c, side)] == tokens
  {
    assert Allowed(run[i], events[i]) && run[i + 1] == Next(cfg, run[i], events[i]);
    StepStoresFirst(cfg, run[i], events[i]);
    RunGrows(cfg, founding, run, events, i + 1, j);
  }
}

/**
 All runs of the arena: any number of resolvers, each applying orders decided on
 snapshots as old as they like, interleaved with every other worker's
 transactions.  Registrations, the judge's answers and all job arguments are up
 to an adversary.
 */
module ArenaRuns {
  import opened Common
  import opened Duel
  import opened Arena

  /** A decision some resolver once took, with the judged rounds it saw. */
  datatype Order = Order(action: Action, rows: map<TaskId, Row>)

  /** `orders` and `requests` hold everything ever decided or handed to the judge. */
  datatype State = State(db: Tables, orders: set<Order>, requests: set<(TaskId, Id, Id)>)

  datatype Event =
    | TakeSnapshot(pick: Option<Id>, registered: bool, next: Option<Id>, paused: bool)
    | Apply(order: Order)
    | PollJudge
    | Worker(work: Work)

  ghost predicate Allowed(s: State, e: Event) {
    match e
    case TakeSnapshot(pick, _, next, _) => QueryResult(s.db, pick, next)
    case Apply(o) => o in s.orders
    case PollJudge => true
    case Worker(w) => w.Judge? ==> (w.task, w.king, w.challenger) in s.requests
  }

  function OrderNow(db: Tables, cfg: Config, pick: Option<Id>, registered: bool, next: Option<Id>, paused: bool): Order
    requires pick.Some? ==> DuelsReigningKing(db, pick.value)
  {
    var snapshot := SnapshotOf(db, cfg, pick, registered, next);
    Order(Decide(snapshot, cfg.rules, paused),
          if pick.Some? then
            var ch := db.challenges[pick.value];
            Rounds(db, ch.king, pick.value, ch.status.pool)
          else map[])
  }

  ghost function Next(cfg: Config, s: State, e: Event): State
    requires Allowed(s, e)
  {
    match e
    case TakeSnapshot(pick, registered, next, paused) =>
      s.(orders := s.orders + {OrderNow(s.db, cfg, pick, registered, next, paused)})
    case Apply(o) => s.(db := ApplyAction(s.db, o.action))
    case PollJudge => s.(requests := s.requests + JudgeRequests(s.db))
    case Worker(w) => s.(db := DoWork(s.db, cfg, w))
  }

  // ---------------------------------------------------------------- invariants of the tables

  ghost predicate PoolsCapped(cfg: Config, db: Tables) {
    forall k, pool :: |TasksIn(db.tasks, k, pool, Qualified)| <= cfg.targets.Of(pool)
  }

  function MaxRuns(cfg: Config): nat {
    if cfg.maxFailedRuns < 1 then 1 else cfg.maxFailedRuns
  }

  /** Candidates have no screening row; pending tasks have one with failed runs to spare. */
  ghost predicate ScreeningRows(cfg: Config, db: Tables) {
    && (forall t | t in db.tasks ::
          && (db.tasks[t].status == Candidate ==> t !in db.screenings)
          && (db.tasks[t].status == PendingScreen ==> t in db.screenings && db.screenings[t].failedRuns < MaxRuns(cfg)))
    && forall t | t in db.screenings :: t in db.tasks && db.screenings[t].failedRuns <= MaxRuns(cfg)
  }

  /** What makes a judgement of a task between two submissions legitimate. */
  predicate Judgeable(db: Tables, t: TaskId, k: Id, c: Id) {
    && t in db.tasks && db.tasks[t].king == k && db.tasks[t].status == Qualified
    && c in db.challenges && db.challenges[c].king == k
    && (t, c, k) in db.solutions && (t, c, c) in db.solutions
  }

  ghost predicate JudgedLegitimately(db: Tables) {
    forall t, k, c | (t, k, c) in db.judgements :: Judgeable(db, t, k, c)
  }

  predicate Verdicts(db: Tables, c: Id, one: Option<Outcome>, two: Option<Outcome>) {
    && (if one.None? then (c, PoolOne) !in db.resolutions
        else (c, PoolOne) in db.resolutions && db.resolutions[(c, PoolOne)].outcome == one.value)
    && (if two.None? then (c, PoolTwo) !in db.resolutions
        else (c, PoolTwo) in db.resolutions && db.resolutions[(c, PoolTwo)].outcome == two.value)
  }

  /** The resolution rows of a challenge match its status: none while it duels in pool one, a
      pool-one win while it duels in pool two, and one of five histories once it is closed. */
  predicate LegalHistory(db: Tables, c: Id)
    requires c in db.challenges
  {
    match db.challenges[c].status
    case Dueling(PoolOne) => Verdicts(db, c, None, None)
    case Dueling(PoolTwo) => Verdicts(db, c, Some(ChallengerWon), None)
    case Closed =>
      || Verdicts(db, c, Some(KingWon), None)
      || Verdicts(db, c, Some(ChallengerDeregistered), None)
      || Verdicts(db, c, Some(ChallengerWon), Some(KingWon))
      || Verdicts(db, c, Some(ChallengerWon), Some(ChallengerDeregistered))
      || Verdicts(db, c, Some(ChallengerWon), Some(ChallengerWon))
  }

  predicate WonPoolTwo(db: Tables, c: Id) {
    (c, PoolTwo) in db.resolutions && db.resolutions[(c, PoolTwo)].outcome == ChallengerWon
  }

  ghost predicate HistoriesLegal(db: Tables) {
    && (forall c | c in db.challenges :: LegalHistory(db, c))
    && forall c, pool | (c, pool) in db.resolutions :: c in db.challenges
  }

  /** The kings are the founding ones and the challengers that won pool two, each once. */
  ghost predicate KingsEarned(founding: set<Id>, db: Tables) {
    && Distinct(db.kings)
    && (forall k :: k in db.kings <==> k in founding || WonPoolTwo(db, k))
    && (forall c | c in db.challenges :: c !in founding)
  }

  ghost predicate FullPools(cfg: Config, db: Tables, k: Id) {
    forall pool :: |TasksIn(db.tasks, k, pool, Qualified)| == cfg.targets.Of(pool)
  }

  ghost predicate DuelsHaveFullPools(cfg: Config, db: Tables) {
    forall c | c in db.challenges :: db.challenges[c].king in db.kings && FullPools(cfg, db, db.challenges[c].king)
  }

  ghost predicate TablesInv(cfg: Config, founding: set<Id>, db: Tables) {
    && PoolsCapped(cfg, db)
    && ScreeningRows(cfg, db)
    && JudgedLegitimately(db)
    && HistoriesLegal(db)
    && KingsEarned(founding, db)
    && DuelsHaveFullPools(cfg, db)
  }

  // ---------------------------------------------------------------- what only grows

  predicate StatusMayBecome(prior: TaskStatus, next: TaskStatus) {
    prior == next || prior == Candidate || (prior == PendingScreen && next != Candidate)
  }

  predicate ChallengeMayBecome(prior: ChallengeStatus, next: ChallengeStatus) {
    prior == next || (prior == Dueling(PoolOne) && next == Dueling(PoolTwo)) || (prior.Dueling? && next == Closed)
  }

  ghost predicate Keeps<K, V>(m: map<K, V>, m': map<K, V>) {
    forall k | k in m :: k in m' && m'[k] == m[k]
  }

  ghost predicate TasksMove(tasks: map<TaskId, Task>, tasks': map<TaskId, Task>) {
    forall t | t in tasks ::
      t in tasks' && tasks'[t].king == tasks[t].king && tasks'[t].pool == tasks[t].pool
      && StatusMayBecome(tasks[t].status, tasks'[t].status)
  }

  ghost predicate ChallengesMove(chs: map<Id, Challenge>, chs': map<Id, Challenge>) {
    forall c | c in chs ::
      c in chs' && chs'[c].king == chs[c].king && ChallengeMayBecome(chs[c].status, chs'[c].status)
  }

  /** How the tables may change: tasks and challenges keep their identity and only move
      forward; verdicts, solutions, judgements and kings are never taken back or rewritten. */
  ghost predicate Grows(db: Tables, db': Tables) {
    && db.kings <= db'.kings
    && TasksMove(db.tasks, db'.tasks)
    && ChallengesMove(db.challenges, db'.challenges)
    && Keeps(db.resolutions, db'.resolutions)
    && Keeps(db.solutions, db'.solutions)
    && Keeps(db.judgements, db'.judgements)
  }

  lemma GrowsFromItself(db: Tables)
    ensures Grows(db, db)
  {
  }

  lemma GrowsTransitively(a: Tables, b: Tables, c: Tables)
    requires Grows(a, b) && Grows(b, c)
    ensures Grows(a, c)
  {
  }

  lemma SettleGrows(db: Tables, t: TaskId, status: TaskStatus, reason: string)
    requires t in db.tasks && t in db.screenings && db.tasks[t].status == PendingScreen && status != Candidate
    ensures Grows(db, Settle(db, t, status, reason))
  {
  }

  lemma DropSurplusGrows(db: Tables, k: Id, pool: Pool)
    ensures Grows(db, DropSurplus(db, k, pool))
  {
  }

  lemma ScreenGrows(db: Tables, targets: Targets, t: TaskId, k: Id, pass: bool, reason: string)
    ensures Grows(db, SaveDecision(db, targets, t, k, pass, reason))
  {
    if IsReigningTask(db, t, k, PendingScreen) && t in db.screenings {
      var pool := db.tasks[t].pool;
      var full := pass && QualifiedCount(db, t) >= targets.Of(pool);
      var status := if pass && !full then Qualified else Disqualified;
      var reason' := if full then "pool_full_surplus" else reason;
      SettleGrows(db, t, status, reason');
      var saved := Settle(db, t, status, reason');
      DropSurplusGrows(saved, k, pool);
      GrowsTransitively(db, saved, DropSurplus(saved, k, pool));
    }
  }

  lemma SetTaskGrows(db: Tables, t: TaskId, status: TaskStatus)
    requires t in db.tasks && StatusMayBecome(db.tasks[t].status, status)
    ensures Grows(db, SetTask(db, t, status))
  {
  }

  lemma QualifyGrows(db: Tables, t: TaskId, k: Id, viable: bool)
    ensures Grows(db, FinishQualification(db, t, k, viable))
  {
    if IsReigningTask(db, t, k, Candidate) {
      SetTaskGrows(db, t, if viable then PendingScreen else Disqualified);
    }
  }

  lemma ScreenErrorGrows(db: Tables, maxRuns: int, base: real, cap: real, t: TaskId, k: Id, now: real)
    ensures Grows(db, SaveError(db, maxRuns, base, cap, t, k, now))
  {
    if IsReigningTask(db, t, k, PendingScreen) {
      SetTaskGrows(db, t, Disqualified);
    }
  }

  lemma GenerateGrows(db: Tables, t: TaskId, k: Id, pool: Pool, fingerprint: string)
    ensures Grows(db, InsertTask(db, t, k, pool, fingerprint))
  {
  }

  lemma SolveGrows(db: Tables, t: TaskId, c: Id, submission: Id, tokens: Option<int>)
    ensures Grows(db, SaveSolution(db, t, c, submission, tokens))
  {
  }

  lemma JudgeGrows(db: Tables, t: TaskId, k: Id, c: Id, j: Judgement)
    ensures Grows(db, SaveJudgement(db, t, k, c, j))
  {
  }

  lemma WorkGrows(db: Tables, cfg: Config, w: Work)
    ensures Grows(db, DoWork(db, cfg, w))
  {
    match w
    case Generate(t, k, pool, fingerprint) => GenerateGrows(db, t, k, pool, fingerprint);
    case Solve(t, c, submission, tokens) => SolveGrows(db, t, c, submission, tokens);
    case Judge(t, k, c, j) => JudgeGrows(db, t, k, c, j);
    case Qualify(t, k, viable) => QualifyGrows(db, t, k, viable);
    case Screen(t, k, pass, reason) => ScreenGrows(db, cfg.targets, t, k, pass, reason);
    case ScreenFails(t, k, base, cap, now) => ScreenErrorGrows(db, cfg.maxFailedRuns, base, cap, t, k, now);
  }

  lemma TransitionGrows(db: Tables, a: ActiveChallenge, status: ChallengeStatus, outcome: Outcome)
    requires StillIn(db, a) && ChallengeMayBecome(Dueling(a.pool), status)
    ensures Grows(db, Transition(db, a, status, outcome))
  {
  }

  lemma ActionGrows(db: Tables, a: Action)
    requires a.AdvancePool? ==> a.challenge.pool == PoolOne
    ensures Grows(db, ApplyAction(db, a))
  {
    match a
    case AdvancePool(ch) => if StillIn(db, ch) { TransitionGrows(db, ch, Dueling(PoolTwo), ChallengerWon); }
    case CloseChallenge(ch, reason) => if StillIn(db, ch) { TransitionGrows(db, ch, Closed, CloseOutcome(reason)); }
    case Promote(ch) => if StillIn(db, ch) { TransitionGrows(db, ch, Closed, ChallengerWon); }
    case _ =>
  }

  // ---------------------------------------------------------------- the workers keep the tables' invariants

  lemma QualifiedGrow(tasks: map<TaskId, Task>, tasks': map<TaskId, Task>, k: Id, pool: Pool)
    requires TasksMove(tasks, tasks')
    ensures TasksIn(tasks, k, pool, Qualified) <= TasksIn(tasks', k, pool, Qualified)
    ensures |TasksIn(tasks, k, pool, Qualified)| <= |TasksIn(tasks', k, pool, Qualified)|
  {
    SubsetCount(TasksIn(tasks, k, pool, Qualified), TasksIn(tasks', k, pool, Qualified));
  }

  ghost predicate NoNewQualified(tasks: map<TaskId, Task>, tasks': map<TaskId, Task>) {
    forall t | t in tasks' && tasks'[t].status == Qualified :: t in tasks && tasks[t].status == Qualified
  }

  lemma CapKept(cfg: Config, db: Tables, db': Tables)
    requires PoolsCapped(cfg, db) && TasksMove(db.tasks, db'.tasks) && NoNewQualified(db.tasks, db'.tasks)
    ensures PoolsCapped(cfg, db')
  {
    forall k, pool
      ensures |TasksIn(db'.tasks, k, pool, Qualified)| <= cfg.targets.Of(pool)
    {
      assert TasksIn(db'.tasks, k, pool, Qualified) == TasksIn(db.tasks, k, pool, Qualified);
    }
  }

  lemma AdmittedSets(db: Tables, t: TaskId, reason: string, k: Id, pool: Pool)
    requires t in db.tasks && t in db.screenings && db.tasks[t].status == PendingScreen
    ensures TasksIn(Settle(db, t, Qualified, reason).tasks, k, pool, Qualified) == TasksIn(db.tasks, k, pool, Qualified)
         + if k == db.tasks[t].king && pool == db.tasks[t].pool then {t} else {}
  {
  }

  /** Admitting one task adds exactly one to its pool and nothing elsewhere. */
  lemma AdmissionCounts(cfg: Config, db: Tables, t: TaskId, reason: string)
    requires PoolsCapped(cfg, db) && t in db.tasks && t in db.screenings && db.tasks[t].status == PendingScreen
    requires QualifiedCount(db, t) < cfg.targets.Of(db.tasks[t].pool)
    ensures PoolsCapped(cfg, Settle(db, t, Qualified, reason))
    ensures QualifiedCount(Settle(db, t, Qualified, reason), t) == QualifiedCount(db, t) + 1
  {
    var db' := Settle(db, t, Qualified, reason);
    var own, pool := db.tasks[t].king, db.tasks[t].pool;
    AdmittedSets(db, t, reason, own, pool);
    assert t !in TasksIn(db.tasks, own, pool, Qualified);
    forall k, other
      ensures |TasksIn(db'.tasks, k, other, Qualified)| <= cfg.targets.Of(other)
    {
      AdmittedSets(db, t, reason, k, other);
      assert |TasksIn(db.tasks, k, other, Qualified)| <= cfg.targets.Of(other);
    }
  }

  lemma SettleKeepsScreening(cfg: Config, db: Tables, t: TaskId, status: TaskStatus, reason: string)
    requires ScreeningRows(cfg, db) && t in db.tasks && t in db.screenings && status in {Qualified, Disqualified}
    ensures ScreeningRows(cfg, Settle(db, t, status, reason))
  {
  }

  lemma DropSurplusKeeps(cfg: Config, db: Tables, k: Id, pool: Pool)
    requires PoolsCapped(cfg, db) && ScreeningRows(cfg, db)
    ensures PoolsCapped(cfg, DropSurplus(db, k, pool)) && ScreeningRows(cfg, DropSurplus(db, k, pool))
  {
    DropSurplusGrows(db, k, pool);
    CapKept(cfg, db, DropSurplus(db, k, pool));
  }

  lemma ScreenKeeps(cfg: Config, db: Tables, t: TaskId, k: Id, pass: bool, reason: string)
    requires PoolsCapped(cfg, db) && ScreeningRows(cfg, db)
    ensures var db' := SaveDecision(db, cfg.targets, t, k, pass, reason);
      PoolsCapped(cfg, db') && ScreeningRows(cfg, db')
  {
    if IsReigningTask(db, t, k, PendingScreen) && t in db.screenings {
      var pool := db.tasks[t].pool;
      var full := pass && QualifiedCount(db, t) >= cfg.targets.Of(pool);
      var status := if pass && !full then Qualified else Disqualified;
      var reason' := if full then "pool_full_surplus" else reason;
      var saved := Settle(db, t, status, reason');
      SettleKeepsScreening(cfg, db, t, status, reason');
      if status == Qualified {
        AdmissionCounts(cfg, db, t, reason');
      } else {
        SettleGrows(db, t, status, reason');
        CapKept(cfg, db, saved);
      }
      DropSurplusKeeps(cfg, saved, k, pool);
    }
  }

  lemma GenerateKeeps(cfg: Config, db: Tables, t: TaskId, k: Id, pool: Pool, fingerprint: string)
    requires ScreeningRows(cfg, db)
    ensures var db' := InsertTask(db, t, k, pool, fingerprint);
      ScreeningRows(cfg, db') && NoNewQualified(db.tasks, db'.tasks)
  {
  }

  lemma QualifyKeeps(cfg: Config, db: Tables, t: TaskId, k: Id, viable: bool)
    requires ScreeningRows(cfg, db)
    ensures var db' := FinishQualification(db, t, k, viable);
      ScreeningRows(cfg, db') && NoNewQualified(db.tasks, db'.tasks)
  {
  }

  lemma ScreenErrorKeeps(cfg: Config, db: Tables, base: real, cap: real, t: TaskId, k: Id, now: real)
    requires ScreeningRows(cfg, db)
    ensures var db' := SaveError(db, cfg.maxFailedRuns, base, cap, t, k, now);
      ScreeningRows(cfg, db') && NoNewQualified(db.tasks, db'.tasks)
  {
    if IsReigningTask(db, t, k, PendingScreen) && RetryIsDue(db.screenings[t], now) {
      var runs := db.screenings[t].failedRuns + 1;
      var db' := SaveError(db, cfg.maxFailedRuns, base, cap, t, k, now);
      assert db'.screenings == db.screenings[t := db'.screenings[t]] && db'.screenings[t].failedRuns == runs;
      assert db'.tasks == if runs >= cfg.maxFailedRuns then SetTask(db, t, Disqualified).tasks else db.tasks;
    }
  }

  lemma WorkKeepsTasks(cfg: Config, db: Tables, w: Work)
    requires PoolsCapped(cfg, db) && ScreeningRows(cfg, db)
    ensures PoolsCapped(cfg, DoWork(db, cfg, w)) && ScreeningRows(cfg, DoWork(db, cfg, w))
  {
    if w.Screen? {
      ScreenKeeps(cfg, db, w.task, w.king, w.pass, w.reason);
    } else {
      match w {
        case Generate(t, k, pool, fingerprint) => GenerateKeeps(cfg, db, t, k, pool, fingerprint);
        case Qualify(t, k, viable) => QualifyKeeps(cfg, db, t, k, viable);
        case ScreenFails(t, k, base, cap, now) => ScreenErrorKeeps(cfg, db, base, cap, t, k, now);
        case _ =>
      }
      WorkGrows(db, cfg, w);
      CapKept(cfg, db, DoWork(db, cfg, w));
    }
  }

  lemma JudgeableStays(db: Tables, db': Tables, t: TaskId, k: Id, c: Id)
    requires Grows(db, db') && Judgeable(db, t, k, c)
    ensures Judgeable(db', t, k, c)
  {
  }

  lemma JudgementsStayLegitimate(db: Tables, db': Tables)
    requires Grows(db, db') && JudgedLegitimately(db)
    requires forall t, k, c | (t, k, c) in db'.judgements :: (t, k, c) in db.judgements || Judgeable(db, t, k, c)
    ensures JudgedLegitimately(db')
  {
    forall t, k, c | (t, k, c) in db'.judgements ensures Judgeable(db', t, k, c) {
      JudgeableStays(db, db', t, k, c);
    }
  }

  lemma FullPoolsStay(cfg: Config, db: Tables, db': Tables, k: Id)
    requires Grows(db, db') && PoolsCapped(cfg, db') && FullPools(cfg, db, k)
    ensures FullPools(cfg, db', k)
  {
    forall pool ensures |TasksIn(db'.tasks, k, pool, Qualified)| == cfg.targets.Of(pool) {
      QualifiedGrow(db.tasks, db'.tasks, k, pool);
    }
  }

  predicate SameDuels(db: Tables, db': Tables) {
    db'.kings == db.kings && db'.challenges == db.challenges && db'.resolutions == db.resolutions
  }

  lemma ScreenLeavesDuels(db: Tables, targets: Targets, t: TaskId, k: Id, pass: bool, reason: string)
    ensures var db' := SaveDecision(db, targets, t, k, pass, reason);
      SameDuels(db, db') && db'.judgements == db.judgements
  {
  }

  lemma WorkLeavesDuels(cfg: Config, db: Tables, w: Work)
    ensures SameDuels(db, DoWork(db, cfg, w))
  {
    match w
    case Screen(t, k, pass, reason) => ScreenLeavesDuels(db, cfg.targets, t, k, pass, reason);
    case _ =>
  }

  lemma OnlyTheJudgeJudges(cfg: Config, db: Tables, w: Work)
    ensures forall t, k, c | (t, k, c) in DoWork(db, cfg, w).judgements ::
      (t, k, c) in db.judgements || (w.Judge? && (t, k, c) == (w.task, w.king, w.challenger))
  {
    match w
    case Screen(t, k, pass, reason) => ScreenLeavesDuels(db, cfg.targets, t, k, pass, reason);
    case _ =>
  }

  lemma DuelsKeepFullPools(cfg: Config, db: Tables, db': Tables)
    requires Grows(db, db') && PoolsCapped(cfg, db') && DuelsHaveFullPools(cfg, db)
    requires forall c | c in db'.challenges ::
      c in db.challenges || (db'.challenges[c].king in db.kings && FullPools(cfg, db, db'.challenges[c].king))
    ensures DuelsHaveFullPools(cfg, db')
  {
    forall c | c in db'.challenges
      ensures db'.challenges[c].king in db'.kings && FullPools(cfg, db', db'.challenges[c].king)
    {
      FullPoolsStay(cfg, db, db', db'.challenges[c].king);
    }
  }

  lemma SameDuelsStayLegal(cfg: Config, founding: set<Id>, db: Tables, db': Tables)
    requires HistoriesLegal(db) && KingsEarned(founding, db) && SameDuels(db, db')
    ensures HistoriesLegal(db') && KingsEarned(founding, db')
  {
    forall c | c in db'.challenges ensures LegalHistory(db', c) {
      assert LegalHistory(db, c);
    }
  }

  lemma WorkKeepsInv(cfg: Config, founding: set<Id>, db: Tables, db': Tables, w: Work)
    requires TablesInv(cfg, founding, db) && db' == DoWork(db, cfg, w)
    requires w.Judge? ==> Judgeable(db, w.task, w.king, w.challenger)
    ensures TablesInv(cfg, founding, db')
  {
    WorkGrows(db, cfg, w);
    WorkKeepsTasks(cfg, db, w);
    WorkLeavesDuels(cfg, db, w);
    OnlyTheJudgeJudges(cfg, db, w);
    SameDuelsStayLegal(cfg, founding, db, db');
    JudgementsStayLegitimate(db, db');
    DuelsKeepFullPools(cfg, db, db');
  }

  // ---------------------------------------------------------------- orders

  /** What is true of an order from the moment it is decided, however late it is applied. */
  ghost predicate OrderSound(cfg: Config, founding: set<Id>, db: Tables, o: Order) {
    match o.action
    case Nothing(_) => true
    case OpenChallenge(k, c) =>
      k in db.kings && FullPools(cfg, db, k) && c !in founding && (c in db.challenges || c !in db.kings)
    case AdvancePool(a) => DecisionSound(cfg, db, o, a)
    case Promote(a) => DecisionSound(cfg, db, o, a)
    case CloseChallenge(a, _) => DecisionSound(cfg, db, o, a)
  }

  /** The order follows from the rounds it was decided on, and those are still the verdicts. */
  ghost predicate DecisionSound(cfg: Config, db: Tables, o: Order, a: ActiveChallenge) {
    && a.challenger in db.challenges && db.challenges[a.challenger].king == a.king
    && a.poolTarget == cfg.targets.Of(a.pool)
    && a.tally == TallyRows(o.rows, cfg, a.pool)
    && o.action == DecideActive(a, cfg.rules)
    && Keeps(o.rows, Rounds(db, a.king, a.challenger, a.pool))
  }

  ghost predicate Inv(cfg: Config, founding: set<Id>, s: State) {
    && TablesInv(cfg, founding, s.db)
    && (forall o | o in s.orders :: OrderSound(cfg, founding, s.db, o))
    && forall r | r in s.requests :: Judgeable(s.db, r.0, r.1, r.2)
  }

  lemma RoundsKept(db: Tables, db': Tables, k: Id, c: Id, pool: Pool)
    requires Grows(db, db') && JudgedLegitimately(db)
    ensures Keeps(Rounds(db, k, c, pool), Rounds(db', k, c, pool))
  {
    forall t | t in Rounds(db, k, c, pool)
      ensures t in Rounds(db', k, c, pool) && Rounds(db', k, c, pool)[t] == Rounds(db, k, c, pool)[t]
    {
      assert Judgeable(db, t, k, c);
    }
  }

  lemma OrderStaysSound(cfg: Config, founding: set<Id>, db: Tables, db': Tables, o: Order)
    requires OrderSound(cfg, founding, db, o) && Grows(db, db') && JudgedLegitimately(db) && PoolsCapped(cfg, db')
    requires forall c | c in db'.kings && c !in db.kings :: c in db.challenges
    ensures OrderSound(cfg, founding, db', o)
  {
    match o.action
    case Nothing(_) =>
    case OpenChallenge(k, c) => FullPoolsStay(cfg, db, db', k);
    case AdvancePool(a) => RoundsKept(db, db', a.king, a.challenger, a.pool);
    case Promote(a) => RoundsKept(db, db', a.king, a.challenger, a.pool);
    case CloseChallenge(a, _) => RoundsKept(db, db', a.king, a.challenger, a.pool);
  }

  lemma DecisionIsSound(cfg: Config, db: Tables, c: Id, registered: bool)
    requires DuelsReigningKing(db, c)
    ensures var a := ActiveOf(db, cfg, c, registered);
      var o := Order(DecideActive(a, cfg.rules), Rounds(db, a.king, c, a.pool));
      DecisionSound(cfg, db, o, a)
  {
  }

  lemma OpeningIsSound(cfg: Config, founding: set<Id>, db: Tables, k: Id)
    requires PoolsCapped(cfg, db) && PoolsReady(db, k, cfg.targets)
    ensures FullPools(cfg, db, k)
  {
    forall pool ensures |TasksIn(db.tasks, k, pool, Qualified)| == cfg.targets.Of(pool) {
      match pool
      case PoolOne =>
      case PoolTwo =>
    }
  }

  lemma PickedOrderIsSound(cfg: Config, founding: set<Id>, db: Tables, c: Id, registered: bool, next: Option<Id>, paused: bool)
    requires DuelsReigningKing(db, c)
    ensures OrderSound(cfg, founding, db, OrderNow(db, cfg, Some(c), registered, next, paused))
  {
    var a := ActiveOf(db, cfg, c, registered);
    DecisionIsSound(cfg, db, c, registered);
    assert OrderNow(db, cfg, Some(c), registered, next, paused)
        == Order(DecideActive(a, cfg.rules), Rounds(db, a.king, c, a.pool));
  }

  lemma OpeningOrderIsSound(cfg: Config, founding: set<Id>, db: Tables, registered: bool, next: Option<Id>, paused: bool)
    requires TablesInv(cfg, founding, db) && QueryResult(db, None, next)
    ensures OrderSound(cfg, founding, db, OrderNow(db, cfg, None, registered, next, paused))
  {
    var action := OrderNow(db, cfg, None, registered, next, paused).action;
    if action.OpenChallenge? {
      OpeningIsSound(cfg, founding, db, action.king);
    }
  }

  lemma NewOrderIsSound(cfg: Config, founding: set<Id>, db: Tables, e: Event)
    requires TablesInv(cfg, founding, db) && e.TakeSnapshot? && QueryResult(db, e.pick, e.next)
    ensures OrderSound(cfg, founding, db, OrderNow(db, cfg, e.pick, e.registered, e.next, e.paused))
  {
    match e.pick
    case Some(c) => PickedOrderIsSound(cfg, founding, db, c, e.registered, e.next, e.paused);
    case None => OpeningOrderIsSound(cfg, founding, db, e.registered, e.next, e.paused);
  }

  // ---------------------------------------------------------------- applying an order

  /** The verdict of a transition is new: no row for that challenge and pool exists yet. */
  lemma VerdictIsNew(db: Tables, a: ActiveChallenge)
    requires HistoriesLegal(db) && StillIn(db, a)
    ensures (a.challenger, a.pool) !in db.resolutions
    ensures a.pool == PoolTwo ==> Verdicts(db, a.challenger, Some(ChallengerWon), None)
    ensures a.pool == PoolOne ==> Verdicts(db, a.challenger, None, None)
  {
    assert LegalHistory(db, a.challenger);
  }

  lemma TransitionKeepsHistories(db: Tables, a: ActiveChallenge, status: ChallengeStatus, outcome: Outcome)
    requires HistoriesLegal(db) && StillIn(db, a)
    requires status == Closed || (status == Dueling(PoolTwo) && a.pool == PoolOne && outcome == ChallengerWon)
    requires status == Closed && a.pool == PoolOne ==> outcome != ChallengerWon
    ensures HistoriesLegal(Transition(db, a, status, outcome))
  {
    var db' := Transition(db, a, status, outcome);
    VerdictIsNew(db, a);
    forall c | c in db'.challenges ensures LegalHistory(db', c) {
      assert LegalHistory(db, c);
    }
  }

  lemma OpenKeepsHistories(db: Tables, k: Id, c: Id)
    requires HistoriesLegal(db)
    ensures HistoriesLegal(Open(db, k, c))
  {
    var db' := Open(db, k, c);
    forall d | d in db'.challenges ensures LegalHistory(db', d) {
      if d in db.challenges { assert LegalHistory(db, d); }
    }
  }

  /** Advances concern pool one and promotions pool two. */
  predicate FitsPool(action: Action) {
    && (action.AdvancePool? ==> action.challenge.pool == PoolOne)
    && (action.Promote? ==> action.challenge.pool == PoolTwo)
  }

  lemma ActionKeepsHistories(db: Tables, action: Action)
    requires HistoriesLegal(db) && FitsPool(action)
    ensures HistoriesLegal(ApplyAction(db, action))
  {
    match action
    case AdvancePool(a) => if StillIn(db, a) { TransitionKeepsHistories(db, a, Dueling(PoolTwo), ChallengerWon); }
    case CloseChallenge(a, reason) =>
      if StillIn(db, a) { TransitionKeepsHistories(db, a, Closed, CloseOutcome(reason)); }
    case Promote(a) => if StillIn(db, a) { TransitionKeepsHistories(db, a, Closed, ChallengerWon); }
    case OpenChallenge(k, c) => OpenKeepsHistories(db, k, c);
    case Nothing(_) =>
  }

  lemma TransitionKeepsKings(founding: set<Id>, db: Tables, a: ActiveChallenge, status: ChallengeStatus, outcome: Outcome)
    requires KingsEarned(founding, db) && HistoriesLegal(db)
    requires outcome == ChallengerWon ==> a.pool == PoolOne
    ensures KingsEarned(founding, Transition(db, a, status, outcome))
  {
    if StillIn(db, a) {
      VerdictIsNew(db, a);
      var db' := Transition(db, a, status, outcome);
      assert forall k :: WonPoolTwo(db', k) <==> WonPoolTwo(db, k);
    }
  }

  lemma CrownKeepsKings(founding: set<Id>, db: Tables, a: ActiveChallenge)
    requires KingsEarned(founding, db) && HistoriesLegal(db) && StillIn(db, a) && a.pool == PoolTwo
    ensures KingsEarned(founding, Crown(db, a))
    ensures Crown(db, a).kings == db.kings + [a.challenger]
  {
    VerdictIsNew(db, a);
  }

  lemma ActionKeepsKings(founding: set<Id>, db: Tables, action: Action)
    requires KingsEarned(founding, db) && HistoriesLegal(db) && FitsPool(action)
    requires action.OpenChallenge? ==> action.next !in founding
    ensures KingsEarned(founding, ApplyAction(db, action))
  {
    match action
    case AdvancePool(a) => TransitionKeepsKings(founding, db, a, Dueling(PoolTwo), ChallengerWon);
    case CloseChallenge(a, reason) => TransitionKeepsKings(founding, db, a, Closed, CloseOutcome(reason));
    case Promote(a) => if StillIn(db, a) { CrownKeepsKings(founding, db, a); }
    case _ =>
  }

  predicate SameTasks(db: Tables, db': Tables) {
    && db'.tasks == db.tasks && db'.screenings == db.screenings
    && db'.solutions == db.solutions && db'.judgements == db.judgements
  }

  lemma TransitionLeavesTasks(db: Tables, a: ActiveChallenge, status: ChallengeStatus, outcome: Outcome)
    ensures var db' := Transition(db, a, status, outcome);
      && SameTasks(db, db') && db'.kings == db.kings && forall c | c in db'.challenges :: c in db.challenges
  {
    if StillIn(db, a) {
      var moved := SetStatus(db, a, status);
      assert SameTasks(db, moved);
      assert SameTasks(moved, Record(moved, a, outcome));
    }
  }

  lemma ActionLeavesTasks(db: Tables, action: Action)
    ensures var db' := ApplyAction(db, action);
      && SameTasks(db, db')
      && (forall c | c in db'.challenges :: c in db.challenges
            || (action.OpenChallenge? && action.next == c && db'.challenges[c].king == action.king))
      && (forall c | c in db'.kings && c !in db.kings :: c in db.challenges)
  {
    match action
    case AdvancePool(a) => TransitionLeavesTasks(db, a, Dueling(PoolTwo), ChallengerWon);
    case CloseChallenge(a, reason) => TransitionLeavesTasks(db, a, Closed, CloseOutcome(reason));
    case Promote(a) => TransitionLeavesTasks(db, a, Closed, ChallengerWon);
    case _ =>
  }

  lemma ActionKeepsInv(cfg: Config, founding: set<Id>, db: Tables, db': Tables, o: Order)
    requires TablesInv(cfg, founding, db) && db' == ApplyAction(db, o.action) && FitsPool(o.action)
    requires o.action.OpenChallenge? ==>
      o.action.next !in founding && o.action.king in db.kings && FullPools(cfg, db, o.action.king)
    ensures TablesInv(cfg, founding, db')
  {
    ActionGrows(db, o.action);
    ActionLeavesTasks(db, o.action);
    ActionKeepsHistories(db, o.action);
    ActionKeepsKings(founding, db, o.action);
    InvFromParts(cfg, founding, db, db');
  }

  lemma InvFromParts(cfg: Config, founding: set<Id>, db: Tables, db': Tables)
    requires TablesInv(cfg, founding, db) && Grows(db, db') && SameTasks(db, db')
    requires HistoriesLegal(db') && KingsEarned(founding, db')
    requires forall c | c in db'.challenges ::
      c in db.challenges || (db'.challenges[c].king in db.kings && FullPools(cfg, db, db'.challenges[c].king))
    ensures TablesInv(cfg, founding, db')
  {
    JudgementsStayLegitimate(db, db');
    DuelsKeepFullPools(cfg, db, db');
  }

  // ---------------------------------------------------------------- all runs

  lemma TablesStepKeepsRest(cfg: Config, founding: set<Id>, s: State, s': State)
    requires Inv(cfg, founding, s) && Grows(s.db, s'.db) && TablesInv(cfg, founding, s'.db)
    requires s'.orders == s.orders && s'.requests == s.requests
    requires forall c | c in s'.db.kings && c !in s.db.kings :: c in s.db.challenges
    ensures Inv(cfg, founding, s')
  {
    forall o | o in s'.orders ensures OrderSound(cfg, founding, s'.db, o) {
      OrderStaysSound(cfg, founding, s.db, s'.db, o);
    }
    forall r | r in s'.requests ensures Judgeable(s'.db, r.0, r.1, r.2) {
      JudgeableStays(s.db, s'.db, r.0, r.1, r.2);
    }
  }

  lemma SoundOrdersFit(cfg: Config, founding: set<Id>, db: Tables, o: Order)
    requires OrderSound(cfg, founding, db, o)
    ensures FitsPool(o.action)
    ensures o.action.OpenChallenge? ==>
      o.action.next !in founding && o.action.king in db.kings && FullPools(cfg, db, o.action.king)
  {
  }

  lemma ApplyKeepsInv(cfg: Config, founding: set<Id>, s: State, s': State, o: Order)
    requires Inv(cfg, founding, s) && o in s.orders && s' == s.(db := ApplyAction(s.db, o.action))
    ensures Inv(cfg, founding, s') && Grows(s.db, s'.db)
  {
    SoundOrdersFit(cfg, founding, s.db, o);
    ActionGrows(s.db, o.action);
    ActionLeavesTasks(s.db, o.action);
    ActionKeepsInv(cfg, founding, s.db, s'.db, o);
    TablesStepKeepsRest(cfg, founding, s, s');
  }

  lemma WorkerKeepsInv(cfg: Config, founding: set<Id>, s: State, w: Work)
    requires Inv(cfg, founding, s) && (w.Judge? ==> (w.task, w.king, w.challenger) in s.requests)
    ensures var s' := s.(db := DoWork(s.db, cfg, w));
      Inv(cfg, founding, s') && Grows(s.db, s'.db)
  {
    var s' := s.(db := DoWork(s.db, cfg, w));
    if w.Judge? {
      var r := (w.task, w.king, w.challenger);
      assert Judgeable(s.db, r.0, r.1, r.2);
    }
    WorkGrows(s.db, cfg, w);
    WorkLeavesDuels(cfg, s.db, w);
    WorkKeepsInv(cfg, founding, s.db, s'.db, w);
    TablesStepKeepsRest(cfg, founding, s, s');
  }

  lemma EventKeepsInv(cfg: Config, founding: set<Id>, s: State, e: Event)
    requires Inv(cfg, founding, s) && Allowed(s, e)
    ensures Inv(cfg, founding, Next(cfg, s, e)) && Grows(s.db, Next(cfg, s, e).db)
  {
    match e
    case TakeSnapshot(_, _, _, _) => NewOrderIsSound(cfg, founding, s.db, e);
    case Apply(o) => ApplyKeepsInv(cfg, founding, s, Next(cfg, s, e), o);
    case PollJudge =>
    case Worker(w) => WorkerKeepsInv(cfg, founding, s, w);
  }

  /** A run starts with some founding kings and otherwise empty tables. */
  ghost predicate IsRun(cfg: Config, founding: seq<Id>, run: seq<State>, events: seq<Event>) {
    && Distinct(founding)
    && |run| == |events| + 1
    && run[0] == State(Tables(founding, map[], map[], map[], map[], map[], map[]), {}, {})
    && forall i | 0 <= i < |events| :: Allowed(run[i], events[i]) && run[i + 1] == Next(cfg, run[i], events[i])
  }

  function Founders(founding: seq<Id>): set<Id> {
    set k | k in founding
  }

  lemma {:induction false} RunKeepsInv(cfg: Config, founding: seq<Id>, run: seq<State>, events: seq<Event>, i: nat)
    requires IsRun(cfg, founding, run, events) && i < |run|
    ensures Inv(cfg, Founders(founding), run[i])
  {
    if i == 0 {
      assert forall k, pool :: TasksIn(run[0].db.tasks, k, pool, Qualified) == {};
    } else {
      RunKeepsInv(cfg, founding, run, events, i - 1);
      EventKeepsInv(cfg, Founders(founding), run[i - 1], events[i - 1]);
    }
  }

  lemma StepGrows(cfg: Config, founding: seq<Id>, run: seq<State>, events: seq<Event>, i: nat)
    requires IsRun(cfg, founding, run, events) && i < |events|
    ensures Grows(run[i].db, run[i + 1].db)
  {
    RunKeepsInv(cfg, founding, run, events, i);
    EventKeepsInv(cfg, Founders(founding), run[i], events[i]);
  }

  /** Nothing settled is ever unsettled: between any two moments of a run tasks and challenges
      only move forward (qualified, disqualified and closed are final) and verdicts, solutions,
      judgements and kings stay as first written. */
  lemma {:induction false} RunGrows(
    cfg: Config, founding: seq<Id>, run: seq<State>, events: seq<Event>, i: nat, j: nat)
    requires IsRun(cfg, founding, run, events) && i <= j < |run|
    ensures Grows(run[i].db, run[j].db)
    decreases j
  {
    if i < j {
      var m := j - 1;
      RunGrows(cfg, founding, run, events, i, m);
      StepGrows(cfg, founding, run, events, m);
      GrowsTransitively(run[i].db, run[m].db, run[m + 1].db);
    } else {
      GrowsFromItself(run[i].db);
    }
  }

  // ---------------------------------------------------------------- main results

  /** With any number of resolvers on snapshots of any age, each challenge's verdicts match its
      status, and the kings are exactly the founding ones and the pool-two winners. */
  lemma VerdictsMatchStatus(cfg: Config, founding: seq<Id>, run: seq<State>, events: seq<Event>, i: nat)
    requires IsRun(cfg, founding, run, events) && i < |run|
    ensures forall c | c in run[i].db.challenges :: LegalHistory(run[i].db, c)
    ensures forall k :: k in run[i].db.kings <==> k in founding || WonPoolTwo(run[i].db, k)
  {
    RunKeepsInv(cfg, founding, run, events, i);
  }

  /** An order that takes effect writes a verdict nobody has written. */
  lemma VerdictsNeverConflict(cfg: Config, founding: seq<Id>, run: seq<State>, events: seq<Event>, i: nat, a: ActiveChallenge)
    requires IsRun(cfg, founding, run, events) && i < |events|
    requires events[i].Apply? && StillIn(run[i].db, a)
    requires events[i].order.action in {AdvancePool(a), Promote(a)}
      || (events[i].order.action.CloseChallenge? && events[i].order.action.challenge == a)
    ensures (a.challenger, a.pool) !in run[i].db.resolutions && (a.challenger, a.pool) in run[i + 1].db.resolutions
    ensures events[i].order.action.Promote? ==> run[i + 1].db.kings == run[i].db.kings + [a.challenger]
  {
    RunKeepsInv(cfg, founding, run, events, i);
    var o := events[i].order;
    assert OrderSound(cfg, Founders(founding), run[i].db, o);
    VerdictIsNew(run[i].db, a);
    if o.action.Promote? {
      CrownKeepsKings(Founders(founding), run[i].db, a);
    }
  }

  lemma TallyCounts(rows: map<TaskId, Row>, cfg: Config, pool: Pool)
    ensures TallyRows(rows, cfg, pool).Judged() == |rows|
  {
    var won, lost, tied := RoundsWith(rows, ChallengerWins), RoundsWith(rows, KingWins), RoundsWith(rows, NoWinner);
    assert won !! lost && (won + lost) !! tied;
    forall t ensures t in rows.Keys <==> t in won + lost + tied {
      if t in rows { var w := rows[t].judgement.winner; }
    }
    assert rows.Keys == won + lost + tied;
    assert |rows| == |rows.Keys|;
  }

  lemma RoundsAreQualified(cfg: Config, founding: set<Id>, db: Tables, c: Id, pool: Pool)
    requires TablesInv(cfg, founding, db) && c in db.challenges
    ensures var k := db.challenges[c].king;
      && Rounds(db, k, c, pool).Keys <= TasksIn(db.tasks, k, pool, Qualified)
      && |Rounds(db, k, c, pool)| <= |TasksIn(db.tasks, k, pool, Qualified)| == cfg.targets.Of(pool)
  {
    var k := db.challenges[c].king;
    forall t | t in Rounds(db, k, c, pool) ensures t in TasksIn(db.tasks, k, pool, Qualified) {
      assert Judgeable(db, t, k, c);
    }
    assert FullPools(cfg, db, k);
    SubsetCount(Rounds(db, k, c, pool).Keys, TasksIn(db.tasks, k, pool, Qualified));
  }

  /** No duel over-counts: judged rounds are qualified tasks, a pool never holds more than its
      target of those, and holds exactly its target once it is dueled in. */
  lemma RoundsWithinTarget(
    cfg: Config, founding: seq<Id>, run: seq<State>, events: seq<Event>, i: nat, c: Id, pool: Pool)
    requires IsRun(cfg, founding, run, events) && i < |run| && c in run[i].db.challenges
    ensures var db := run[i].db;
      var k := db.challenges[c].king;
      && Rounds(db, k, c, pool).Keys <= TasksIn(db.tasks, k, pool, Qualified)
      && |TasksIn(db.tasks, k, pool, Qualified)| == cfg.targets.Of(pool)
      && TallyRows(Rounds(db, k, c, pool), cfg, pool).Judged() <= cfg.targets.Of(pool)
  {
    RunKeepsInv(cfg, founding, run, events, i);
    RoundsAreQualified(cfg, Founders(founding), run[i].db, c, pool);
    TallyCounts(Rounds(run[i].db, run[i].db.challenges[c].king, c, pool), cfg, pool);
  }

  function Unjudged(db: Tables, c: Id, pool: Pool): set<TaskId>
    requires c in db.challenges
  {
    var k := db.challenges[c].king;
    set t | t in TasksIn(db.tasks, k, pool, Qualified) && (t, k, c) !in db.judgements
  }

  /** What is left of any duel in progress: `remaining` is the number of qualified tasks still to
      judge; such a task is on the judge's work list exactly when it is off the solver's and the
      challenged king still reigns; and once none is left `decide` returns a transition under
      either scoring method. */
  lemma DuelsNeverStall(
    cfg: Config, founding: seq<Id>, run: seq<State>, events: seq<Event>, i: nat, c: Id, registered: bool)
    requires IsRun(cfg, founding, run, events) && i < |run|
    requires c in run[i].db.challenges && run[i].db.challenges[c].status.Dueling?
    ensures var db := run[i].db;
      var active := ActiveOf(db, cfg, c, registered);
      && active.Remaining() == |Unjudged(db, c, active.pool)|
      && (forall t | t in Unjudged(db, c, active.pool) ::
            (t, active.king, c) in JudgeRequests(db) <==> Reigning(db) == Some(active.king) && !AwaitsSolve(db, t, c))
      && (Unjudged(db, c, active.pool) == {} ==> !DecideActive(active, cfg.rules).Nothing?)
  {
    RunKeepsInv(cfg, founding, run, events, i);
    var db := run[i].db;
    var active := ActiveOf(db, cfg, c, registered);
    var k, pool := active.king, active.pool;
    var rows := Rounds(db, k, c, pool);
    RoundsAreQualified(cfg, Founders(founding), db, c, pool);
    TallyCounts(rows, cfg, pool);
    assert Unjudged(db, c, pool) == TasksIn(db.tasks, k, pool, Qualified) - rows.Keys;
    assert |rows| == |rows.Keys|;
    DecidedWhenNothingRemains(active, cfg.rules);
    forall t | t in Unjudged(db, c, pool)
      ensures (t, k, c) in JudgeRequests(db) <==> Reigning(db) == Some(k) && !AwaitsSolve(db, t, c)
    {
      assert AwaitsJudge(db, t, k, c) <==> Reigning(db) == Some(k) && !AwaitsSolve(db, t, c);
    }
  }

  // ---------------------------------------------------------------- resolvers agree

  predicate Decides(o: Order, a: ActiveChallenge) {
    || o.action == AdvancePool(a) || o.action == Promote(a)
    || (o.action.CloseChallenge? && o.action.challenge == a)
  }

  lemma FewerRows(rows: map<TaskId, Row>, more: map<TaskId, Row>, w: Winner)
    requires Keeps(rows, more)
    ensures |RoundsWith(rows, w)| <= |RoundsWith(more, w)|
  {
    SubsetCount(RoundsWith(rows, w), RoundsWith(more, w));
  }

  /** Whatever an order decided, deciding again on the rounds judged by now gives the same verdict. */
  lemma OrderAgreesWithNow(cfg: Config, founding: set<Id>, db: Tables, o: Order, a: ActiveChallenge)
    requires TablesInv(cfg, founding, db) && OrderSound(cfg, founding, db, o)
    requires Decides(o, a) && a.registered
    ensures var now := a.(tally := TallyRows(Rounds(db, a.king, a.challenger, a.pool), cfg, a.pool));
      VerdictOf(DecideActive(now, cfg.rules)) == VerdictOf(o.action)
  {
    var rows := Rounds(db, a.king, a.challenger, a.pool);
    var later := TallyRows(rows, cfg, a.pool);
    RoundsAreQualified(cfg, founding, db, a.challenger, a.pool);
    TallyCounts(rows, cfg, a.pool);
    TallyCounts(o.rows, cfg, a.pool);
    match cfg.rules.scoring
    case RoundWins =>
      FewerRows(o.rows, rows, ChallengerWins);
      FewerRows(o.rows, rows, KingWins);
      FewerRows(o.rows, rows, NoWinner);
      DecisionStands(a, later, cfg.rules.winMargin);
    case Mean =>
      SubsetCount(o.rows.Keys, rows.Keys);
      assert o.rows == rows;
  }

  /** Resolvers never disagree on a registered challenger: two orders on the same challenge
      and pool, decided anywhere in a run on whatever rounds were judged then, carry the same
      verdict. */
  lemma ResolversAgree(
    cfg: Config, founding: seq<Id>, run: seq<State>, events: seq<Event>, i: nat,
    o: Order, a: ActiveChallenge, p: Order, b: ActiveChallenge)
    requires IsRun(cfg, founding, run, events) && i < |run| && o in run[i].orders && p in run[i].orders
    requires Decides(o, a) && Decides(p, b) && a.registered && b.registered
    requires a.challenger == b.challenger && a.pool == b.pool
    ensures VerdictOf(o.action) == VerdictOf(p.action)
  {
    RunKeepsInv(cfg, founding, run, events, i);
    var founders, db := Founders(founding), run[i].db;
    assert OrderSound(cfg, founders, db, o) && OrderSound(cfg, founders, db, p);
    OrderAgreesWithNow(cfg, founders, db, o, a);
    OrderAgreesWithNow(cfg, founders, db, p, b);
  }
}

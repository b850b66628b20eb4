/**
 A run, played out from empty tables, in which two resolvers open two duels of one
 king and promoting one challenger orphans the other.  Each pool holds one task.
 */
module ArenaScenario {
  import opened Common
  import opened Duel
  import opened Arena
  import opened ArenaRuns
  import opened ArenaDuels

  const K: Id := "king"
  const A: Id := "first"
  const B: Id := "second"
  const T1: TaskId := "task one"
  const T2: TaskId := "task two"
  const FOUNDING: seq<Id> := [K]

  ghost predicate OneTaskPools(cfg: Config) {
    cfg.targets == Targets(1, 1) && cfg.rules.scoring.RoundWins? && cfg.rules.winMargin == 0
  }

  // ---------------------------------------------------------------- filling a pool

  predicate NoTaskIn(db: Tables, pool: Pool) {
    forall t | t in db.tasks :: db.tasks[t].king != K || db.tasks[t].pool != pool
  }

  function WithTask(db: Tables, t: TaskId, pool: Pool, status: TaskStatus): Tables {
    db.(tasks := db.tasks[t := Task(K, pool, status, t)])
  }

  function WithScreening(db: Tables, t: TaskId, reason: Option<string>): Tables {
    db.(screenings := db.screenings[t := Screening(K, 0, None, reason)])
  }

  lemma TaskIsGenerated(cfg: Config, db: Tables, t: TaskId, pool: Pool)
    requires t !in db.tasks && forall u | u in db.tasks :: db.tasks[u].fingerprint != t
    ensures DoWork(db, cfg, Generate(t, K, pool, t)) == WithTask(db, t, pool, Candidate)
  {
  }

  lemma TaskIsSolvable(cfg: Config, db: Tables, t: TaskId, pool: Pool)
    requires Reigning(db) == Some(K)
    ensures DoWork(WithTask(db, t, pool, Candidate), cfg, Qualify(t, K, true))
         == WithScreening(WithTask(db, t, pool, PendingScreen), t, None)
  {
    var candidate := WithTask(db, t, pool, Candidate);
    assert candidate.tasks[t := candidate.tasks[t].(status := PendingScreen)] == WithTask(db, t, pool, PendingScreen).tasks;
  }

  lemma NothingToDrop(db: Tables, pool: Pool)
    requires Surplus(db.tasks, K, pool) == {}
    ensures DropSurplus(db, K, pool) == db
  {
  }

  lemma PendingSettles(db: Tables, t: TaskId, pool: Pool)
    ensures Settle(WithScreening(WithTask(db, t, pool, PendingScreen), t, None), t, Qualified, "fit")
         == WithScreening(WithTask(db, t, pool, Qualified), t, Some("fit"))
  {
    var saved := Settle(WithScreening(WithTask(db, t, pool, PendingScreen), t, None), t, Qualified, "fit");
    assert saved.tasks == WithTask(db, t, pool, Qualified).tasks;
    assert saved.screenings == WithScreening(db, t, Some("fit")).screenings;
  }

  lemma TaskIsScreened(cfg: Config, db: Tables, t: TaskId, pool: Pool)
    requires OneTaskPools(cfg) && Reigning(db) == Some(K) && t !in db.tasks && NoTaskIn(db, pool)
    ensures DoWork(WithScreening(WithTask(db, t, pool, PendingScreen), t, None), cfg, Screen(t, K, true, "fit"))
         == WithScreening(WithTask(db, t, pool, Qualified), t, Some("fit"))
  {
    var pending := WithScreening(WithTask(db, t, pool, PendingScreen), t, None);
    var saved := WithScreening(WithTask(db, t, pool, Qualified), t, Some("fit"));
    PendingSettles(db, t, pool);
    assert TasksIn(pending.tasks, K, pool, Qualified) == {};
    assert cfg.targets.Of(pool) == 1;
    assert Surplus(saved.tasks, K, pool) == {};
    NothingToDrop(saved, pool);
  }

  /** Generated, found solvable, screened: the pool's only task qualifies. */
  lemma FillPool(cfg: Config, s: State, t: TaskId, pool: Pool) returns (s': State)
    requires OneTaskPools(cfg) && Reachable(cfg, FOUNDING, s) && Reigning(s.db) == Some(K) && NoTaskIn(s.db, pool)
    requires t !in s.db.tasks && forall u | u in s.db.tasks :: s.db.tasks[u].fingerprint != t
    ensures Reachable(cfg, FOUNDING, s')
    ensures s' == s.(db := WithScreening(WithTask(s.db, t, pool, Qualified), t, Some("fit")))
  {
    TaskIsGenerated(cfg, s.db, t, pool);
    ReachableStep(cfg, FOUNDING, s, Worker(Generate(t, K, pool, t)));
    var s1 := s.(db := WithTask(s.db, t, pool, Candidate));
    TaskIsSolvable(cfg, s.db, t, pool);
    ReachableStep(cfg, FOUNDING, s1, Worker(Qualify(t, K, true)));
    var s2 := s.(db := WithScreening(WithTask(s.db, t, pool, PendingScreen), t, None));
    TaskIsScreened(cfg, s.db, t, pool);
    ReachableStep(cfg, FOUNDING, s2, Worker(Screen(t, K, true, "fit")));
    s' := s.(db := WithScreening(WithTask(s.db, t, pool, Qualified), t, Some("fit")));
  }

  // ---------------------------------------------------------------- two overlapping ticks

  const START := State(Tables(FOUNDING, map[], map[], map[], map[], map[], map[]), {}, {})

  function FullTasks(): map<TaskId, Task> {
    map[T1 := Task(K, PoolOne, Qualified, T1), T2 := Task(K, PoolTwo, Qualified, T2)]
  }

  /** Both pools are full and nothing else has happened. */
  ghost predicate Ready(s: State) {
    && s.db.kings == [K] && s.db.tasks == FullTasks() && s.db.challenges == map[] && s.db.resolutions == map[]
    && s.db.solutions == map[] && s.db.judgements == map[] && s.orders == {} && s.requests == {}
  }

  lemma FillBothPools(cfg: Config) returns (s: State)
    requires OneTaskPools(cfg)
    ensures Reachable(cfg, FOUNDING, s) && Ready(s)
  {
    assert IsRun(cfg, FOUNDING, [START], []);
    assert [START][|[START]| - 1] == START;
    var one := FillPool(cfg, START, T1, PoolOne);
    s := FillPool(cfg, one, T2, PoolTwo);
    assert s.db.tasks == FullTasks();
  }

  lemma FullPoolsAreReady(cfg: Config, db: Tables)
    requires OneTaskPools(cfg) && db.tasks == FullTasks()
    ensures TasksIn(db.tasks, K, PoolOne, Qualified) == {T1} && TasksIn(db.tasks, K, PoolTwo, Qualified) == {T2}
    ensures PoolsReady(db, K, cfg.targets)
  {
  }

  function OpenOrder(c: Id): Order {
    Order(OpenChallenge(K, c), map[])
  }

  ghost predicate BothDuel(s: State) {
    && s.db.kings == [K] && s.db.tasks == FullTasks()
    && s.db.challenges == map[A := Challenge(K, Dueling(PoolOne)), B := Challenge(K, Dueling(PoolOne))]
    && s.db.resolutions == map[] && s.db.solutions == map[] && s.db.judgements == map[]
    && s.orders == {OpenOrder(A), OpenOrder(B)} && s.requests == {}
  }

  /** Two resolvers each take a snapshot, and then each opens the challenge it chose. */
  lemma OpenBoth(cfg: Config, s: State) returns (s': State)
    requires OneTaskPools(cfg) && Reachable(cfg, FOUNDING, s) && Ready(s)
    ensures Reachable(cfg, FOUNDING, s') && BothDuel(s')
  {
    FullPoolsAreReady(cfg, s.db);
    var lookA, lookB := TakeSnapshot(None, true, Some(A), false), TakeSnapshot(None, true, Some(B), false);
    assert OrderNow(s.db, cfg, None, true, Some(A), false) == OpenOrder(A);
    assert OrderNow(s.db, cfg, None, true, Some(B), false) == OpenOrder(B);
    ReachableStep(cfg, FOUNDING, s, lookA);
    var s1 := s.(orders := {OpenOrder(A)});
    assert Next(cfg, s, lookA) == s1;
    ReachableStep(cfg, FOUNDING, s1, lookB);
    var s2 := s.(orders := {OpenOrder(A), OpenOrder(B)});
    assert Next(cfg, s1, lookB) == s2;
    ReachableStep(cfg, FOUNDING, s2, Apply(OpenOrder(A)));
    var s3 := s2.(db := Open(s2.db, K, A));
    ReachableStep(cfg, FOUNDING, s3, Apply(OpenOrder(B)));
    s' := s3.(db := Open(s3.db, K, B));
  }

  /** With two resolvers a run reaches two active duels of the reigning king. */
  lemma TwoDuelsAreReachable(cfg: Config) returns (s: State)
    requires OneTaskPools(cfg)
    ensures Reachable(cfg, FOUNDING, s) && BothDuel(s)
    ensures DuelsReigningKing(s.db, A) && DuelsReigningKing(s.db, B) && A != B && !OneDuel(s.db)
  {
    var ready := FillBothPools(cfg);
    s := OpenBoth(cfg, ready);
    assert Active(s.db, A) && Active(s.db, B);
  }

  // ---------------------------------------------------------------- winning a pool

  function Win(): Judgement {
    Judgement(ChallengerWins, None, None, false)
  }

  /** The first challenger duels in `pool`, whose only task nobody has solved for it yet. */
  ghost predicate Fresh(s: State, t: TaskId, pool: Pool) {
    && s.db.kings == [K] && s.db.tasks == FullTasks() && t == (if pool.PoolOne? then T1 else T2)
    && A in s.db.challenges && s.db.challenges[A] == Challenge(K, Dueling(pool))
    && (A, pool) !in s.db.resolutions
    && (t, A, K) !in s.db.solutions && (t, A, A) !in s.db.solutions && (t, K, A) !in s.db.judgements
  }

  function Judged(db: Tables, t: TaskId): Tables {
    db.(solutions := db.solutions[(t, A, K) := None][(t, A, A) := None],
        judgements := db.judgements[(t, K, A) := Win()])
  }

  lemma JudgeRound(cfg: Config, s: State, t: TaskId, pool: Pool) returns (s': State)
    requires Reachable(cfg, FOUNDING, s) && Fresh(s, t, pool)
    ensures Reachable(cfg, FOUNDING, s') && s'.db == Judged(s.db, t) && s'.orders == s.orders
  {
    ReachableStep(cfg, FOUNDING, s, Worker(Solve(t, A, K, None)));
    var s1 := s.(db := s.db.(solutions := s.db.solutions[(t, A, K) := None]));
    ReachableStep(cfg, FOUNDING, s1, Worker(Solve(t, A, A, None)));
    var s2 := s.(db := s.db.(solutions := s.db.solutions[(t, A, K) := None][(t, A, A) := None]));
    assert AwaitsJudge(s2.db, t, K, A);
    ReachableStep(cfg, FOUNDING, s2, PollJudge);
    var s3 := s2.(requests := s2.requests + JudgeRequests(s2.db));
    assert (t, K, A) in s3.requests;
    ReachableStep(cfg, FOUNDING, s3, Worker(Judge(t, K, A, Win())));
    s' := s3.(db := Judged(s.db, t));
  }

  lemma WonRoundIsTallied(cfg: Config, db: Tables, t: TaskId, pool: Pool)
    requires db.tasks == FullTasks() && t == (if pool.PoolOne? then T1 else T2)
    requires (t, K, A) in db.judgements && db.judgements[(t, K, A)] == Win()
    ensures var tally := TallyRows(Rounds(db, K, A, pool), cfg, pool);
      tally.wins == 1 && tally.losses == 0 && tally.ties == 0
  {
    var rows := Rounds(db, K, A, pool);
    assert rows.Keys == {t};
    assert RoundsWith(rows, ChallengerWins) == {t};
    assert RoundsWith(rows, KingWins) == {} && RoundsWith(rows, NoWinner) == {};
  }

  /** A resolver sees the won round, and its order takes effect. */
  lemma DecideRound(cfg: Config, s: State, t: TaskId, pool: Pool) returns (s': State, a: ActiveChallenge)
    requires OneTaskPools(cfg) && Reachable(cfg, FOUNDING, s)
    requires s.db.kings == [K] && s.db.tasks == FullTasks() && t == (if pool.PoolOne? then T1 else T2)
    requires A in s.db.challenges && s.db.challenges[A] == Challenge(K, Dueling(pool))
    requires (t, K, A) in s.db.judgements && s.db.judgements[(t, K, A)] == Win()
    ensures Reachable(cfg, FOUNDING, s') && a.challenger == A && a.pool == pool
    ensures s'.db == if pool.PoolOne? then Advance(s.db, a) else Crown(s.db, a)
    ensures forall o | o in s'.orders :: o in s.orders || SubjectOf(o.action) == Some(a)
  {
    var look := TakeSnapshot(Some(A), true, None, false);
    a := ActiveOf(s.db, cfg, A, true);
    WonRoundIsTallied(cfg, s.db, t, pool);
    assert cfg.targets.Of(pool) == 1 && a.Remaining() == 0;
    var o := OrderNow(s.db, cfg, Some(A), true, None, false);
    assert o.action == PoolWon(a);
    ReachableStep(cfg, FOUNDING, s, look);
    var s1 := s.(orders := s.orders + {o});
    ReachableStep(cfg, FOUNDING, s1, Apply(o));
    s' := s1.(db := ApplyAction(s.db, o.action));
  }

  // ---------------------------------------------------------------- the orphan

  predicate NotAboutB(o: Order) {
    SubjectOf(o.action).Some? ==> SubjectOf(o.action).value.challenger != B
  }

  lemma WinPoolOne(cfg: Config, s: State) returns (s': State)
    requires OneTaskPools(cfg) && Reachable(cfg, FOUNDING, s) && BothDuel(s)
    ensures Reachable(cfg, FOUNDING, s') && Fresh(s', T2, PoolTwo)
    ensures s'.db.challenges[A := Challenge(K, Closed)] == map[A := Challenge(K, Closed), B := Challenge(K, Dueling(PoolOne))]
    ensures (T1, K, B) !in s'.db.judgements && (T2, K, B) !in s'.db.judgements && (T1, B, K) !in s'.db.solutions
    ensures forall o | o in s'.orders :: NotAboutB(o)
  {
    var judged := JudgeRound(cfg, s, T1, PoolOne);
    var a;
    s', a := DecideRound(cfg, judged, T1, PoolOne);
  }

  lemma WinPoolTwo(cfg: Config, s: State) returns (s': State)
    requires OneTaskPools(cfg) && Reachable(cfg, FOUNDING, s) && Fresh(s, T2, PoolTwo)
    requires s.db.challenges[A := Challenge(K, Closed)] == map[A := Challenge(K, Closed), B := Challenge(K, Dueling(PoolOne))]
    requires (T1, K, B) !in s.db.judgements && (T2, K, B) !in s.db.judgements && (T1, B, K) !in s.db.solutions
    requires forall o | o in s.orders :: NotAboutB(o)
    ensures Reachable(cfg, FOUNDING, s') && s'.db.kings == [K, A] && s'.db.tasks == FullTasks()
    ensures s'.db.challenges == map[A := Challenge(K, Closed), B := Challenge(K, Dueling(PoolOne))]
    ensures (T1, K, B) !in s'.db.judgements && (T1, B, K) !in s'.db.solutions
    ensures forall o | o in s'.orders :: NotAboutB(o)
  {
    var judged := JudgeRound(cfg, s, T2, PoolTwo);
    var a;
    s', a := DecideRound(cfg, judged, T2, PoolTwo);
  }

  /** A run reaches an orphaned duel on which no order is outstanding: its king is dethroned, its
      round was never judged though the solver is still offered it, and it will not move in any
      continuation. */
  lemma AnOrphanIsReachable(cfg: Config) returns (s: State)
    requires OneTaskPools(cfg)
    ensures Reachable(cfg, FOUNDING, s) && Orphaned(s.db, B) && !Outstanding(s, B)
    ensures Unjudged(s.db, B, PoolOne) == {T1} && AwaitsSolve(s.db, T1, B)
    ensures !MayStillMove(cfg, FOUNDING, s, B)
  {
    var both := TwoDuelsAreReachable(cfg);
    var ahead := WinPoolOne(cfg, both);
    s := WinPoolTwo(cfg, ahead);
    FullPoolsAreReady(cfg, s.db);
    forall o | o in s.orders ensures !Settles(s.db, o, B) {
      assert NotAboutB(o);
    }
    OrphanMovesExactlyByOutstandingOrder(cfg, FOUNDING, s, B);
  }
}

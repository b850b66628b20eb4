/**
 The arena tables and every transaction that writes them, as functions from the
 tables before to the tables after.  `ArenaDb` runs the same transactions on
 mutable tables; `ArenaRuns` proves what all runs keep.
 */
module Arena {
  import opened Common
  import opened Duel

  type TaskId = string

  datatype TaskStatus = Candidate | PendingScreen | Qualified | Disqualified
  datatype Task = Task(king: Id, pool: Pool, status: TaskStatus, fingerprint: string)
  datatype Screening = Screening(king: Id, failedRuns: nat, nextRetry: Option<real>, reason: Option<string>)
  datatype Judgement = Judgement(
    winner: Winner, kingScore: Option<real>, challengerScore: Option<real>, failed: bool)

  /** A challenge that is not closed names the pool it is dueling in. */
  datatype ChallengeStatus = Closed | Dueling(pool: Pool)
  datatype Challenge = Challenge(king: Id, status: ChallengeStatus)
  datatype Outcome = KingWon | ChallengerWon | ChallengerDeregistered
  datatype Resolution = Resolution(outcome: Outcome, wins: nat, losses: nat, ties: nat, bestOf: int)

  /** `kings` is ordered by crowning time, oldest first. */
  datatype Tables = Tables(
    kings: seq<Id>,
    challenges: map<Id, Challenge>,
    resolutions: map<(Id, Pool), Resolution>,
    tasks: map<TaskId, Task>,
    screenings: map<TaskId, Screening>,
    solutions: map<(TaskId, Id, Id), Option<int>>,
    judgements: map<(TaskId, Id, Id), Judgement>)

  datatype Targets = Targets(one: nat, two: nat) {
    function Of(pool: Pool): nat {
      if pool.PoolOne? then one else two
    }
  }

  /** One judged round: the judgement and the token counts of the two solves. */
  datatype Row = Row(judgement: Judgement, kingTokens: Option<int>, challengerTokens: Option<int>)

  /** `aggregate` is the score and token aggregation over the judged rounds: any function here,
      the one of the code in `DuelScores`. */
  datatype Config = Config(
    targets: Targets, rules: Rules, maxFailedRuns: int, aggregate: (map<TaskId, Row>, int) -> (real, nat))

  // ---------------------------------------------------------------- reads

  function Reigning(db: Tables): Option<Id> {
    if db.kings == [] then None else Some(db.kings[|db.kings| - 1])
  }

  function TasksIn(tasks: map<TaskId, Task>, king: Id, pool: Pool, status: TaskStatus): set<TaskId> {
    set t | t in tasks && tasks[t].king == king && tasks[t].pool == pool && tasks[t].status == status
  }

  predicate PoolsReady(db: Tables, king: Id, targets: Targets) {
    && |TasksIn(db.tasks, king, PoolOne, Qualified)| >= targets.one
    && |TasksIn(db.tasks, king, PoolTwo, Qualified)| >= targets.two
  }

  function Tokens(db: Tables, key: (TaskId, Id, Id)): Option<int> {
    if key in db.solutions then db.solutions[key] else None
  }

  /** The judged rounds of a duel in one pool, joined with their token counts. */
  function Rounds(db: Tables, king: Id, challenger: Id, pool: Pool): map<TaskId, Row> {
    map t | t in db.tasks && db.tasks[t].king == king && db.tasks[t].pool == pool && (t, king, challenger) in db.judgements
      :: Row(db.judgements[(t, king, challenger)],
             Tokens(db, (t, challenger, king)), Tokens(db, (t, challenger, challenger)))
  }

  function RoundsWith(rows: map<TaskId, Row>, w: Winner): set<TaskId> {
    set t | t in rows && rows[t].judgement.winner == w
  }

  function TallyRows(rows: map<TaskId, Row>, cfg: Config, pool: Pool): Tally {
    var (delta, scored) := cfg.aggregate(rows, cfg.targets.Of(pool));
    Tally(|RoundsWith(rows, ChallengerWins)|, |RoundsWith(rows, KingWins)|, |RoundsWith(rows, NoWinner)|,
          delta, scored)
  }

  predicate DuelsReigningKing(db: Tables, c: Id) {
    c in db.challenges && db.challenges[c].status.Dueling? && Reigning(db) == Some(db.challenges[c].king)
  }

  function ActiveOf(db: Tables, cfg: Config, c: Id, registered: bool): ActiveChallenge
    requires c in db.challenges && db.challenges[c].status.Dueling?
  {
    var ch := db.challenges[c];
    var pool := ch.status.pool;
    ActiveChallenge(c, ch.king, pool, cfg.targets.Of(pool),
                    TallyRows(Rounds(db, ch.king, c, pool), cfg, pool), registered)
  }

  /** `pick` is the active challenge the query returns; `next` the challenger it offers. */
  ghost predicate QueryResult(db: Tables, pick: Option<Id>, next: Option<Id>) {
    && (pick.Some? ==> DuelsReigningKing(db, pick.value))
    && (pick.None? ==> forall c :: !DuelsReigningKing(db, c))
    && (next.Some? ==> next.value !in db.kings && next.value !in db.challenges)
  }

  function SnapshotOf(db: Tables, cfg: Config, pick: Option<Id>, registered: bool, next: Option<Id>): Snapshot
    requires pick.Some? ==> DuelsReigningKing(db, pick.value)
  {
    if Reigning(db).None? then Snapshot(None, None, None, false)
    else if pick.Some? then Snapshot(Reigning(db), Some(ActiveOf(db, cfg, pick.value, registered)), None, true)
    else if PoolsReady(db, Reigning(db).value, cfg.targets) then Snapshot(Reigning(db), None, next, true)
    else Snapshot(Reigning(db), None, None, false)
  }

  /** The judge's work list: qualified tasks of the pool being dueled, both solved, not judged. */
  predicate AwaitsJudge(db: Tables, t: TaskId, k: Id, c: Id) {
    && Reigning(db) == Some(k)
    && c in db.challenges && db.challenges[c].king == k
    && t in db.tasks && db.tasks[t].king == k && db.tasks[t].status == Qualified
    && db.challenges[c].status == Dueling(db.tasks[t].pool)
    && (t, c, k) in db.solutions && (t, c, c) in db.solutions
    && (t, k, c) !in db.judgements
  }

  function JudgeRequests(db: Tables): set<(TaskId, Id, Id)> {
    set t, c | t in db.tasks && c in db.challenges && AwaitsJudge(db, t, db.challenges[c].king, c)
      :: (t, db.challenges[c].king, c)
  }

  /** The duel solver's work list: a qualified task of the pool being dueled lacks a side. */
  predicate AwaitsSolve(db: Tables, t: TaskId, c: Id) {
    && c in db.challenges && t in db.tasks && db.tasks[t].king == db.challenges[c].king
    && db.tasks[t].status == Qualified
    && db.challenges[c].status == Dueling(db.tasks[t].pool)
    && ((t, c, db.challenges[c].king) !in db.solutions || (t, c, c) !in db.solutions)
  }

  // ---------------------------------------------------------------- the resolver's writes

  function Open(db: Tables, king: Id, challenger: Id): Tables {
    if challenger in db.challenges then db
    else db.(challenges := db.challenges[challenger := Challenge(king, Dueling(PoolOne))])
  }

  /** The guard of every transition: the challenge is still in the pool the snapshot saw. */
  predicate StillIn(db: Tables, a: ActiveChallenge) {
    a.challenger in db.challenges && db.challenges[a.challenger].status == Dueling(a.pool)
  }

  function SetStatus(db: Tables, a: ActiveChallenge, status: ChallengeStatus): Tables
    requires a.challenger in db.challenges
  {
    db.(challenges := db.challenges[a.challenger := db.challenges[a.challenger].(status := status)])
  }

  function Record(db: Tables, a: ActiveChallenge, outcome: Outcome): Tables {
    if (a.challenger, a.pool) in db.resolutions then db
    else db.(resolutions := db.resolutions[(a.challenger, a.pool) :=
      Resolution(outcome, a.tally.wins, a.tally.losses, a.tally.ties, a.poolTarget)])
  }

  function Transition(db: Tables, a: ActiveChallenge, status: ChallengeStatus, outcome: Outcome): Tables {
    if StillIn(db, a) then Record(SetStatus(db, a, status), a, outcome) else db
  }

  function AddKing(db: Tables, king: Id): Tables {
    if king in db.kings then db else db.(kings := db.kings + [king])
  }

  function Advance(db: Tables, a: ActiveChallenge): Tables {
    Transition(db, a, Dueling(PoolTwo), ChallengerWon)
  }

  function Close(db: Tables, a: ActiveChallenge, outcome: Outcome): Tables {
    Transition(db, a, Closed, outcome)
  }

  function Crown(db: Tables, a: ActiveChallenge): Tables {
    if StillIn(db, a) then AddKing(Transition(db, a, Closed, ChallengerWon), a.challenger) else db
  }

  function CloseOutcome(reason: CloseReason): Outcome {
    if reason.KingDefended? then KingWon else ChallengerDeregistered
  }

  function ApplyAction(db: Tables, action: Action): Tables {
    match action
    case Nothing(_) => db
    case OpenChallenge(king, next) => Open(db, king, next)
    case AdvancePool(a) => Advance(db, a)
    case Promote(a) => Crown(db, a)
    case CloseChallenge(a, reason) => Close(db, a, CloseOutcome(reason))
  }

  // ---------------------------------------------------------------- the task workers' writes

  /** A mined commit becomes a candidate task unless its fingerprint is already a task.  A
      clash of task ids is a database error, which leaves the tables alone. */
  function InsertTask(db: Tables, t: TaskId, king: Id, pool: Pool, fingerprint: string): Tables {
    if t in db.tasks || (exists u | u in db.tasks :: db.tasks[u].fingerprint == fingerprint) then db
    else db.(tasks := db.tasks[t := Task(king, pool, Candidate, fingerprint)])
  }

  predicate IsReigningTask(db: Tables, t: TaskId, king: Id, status: TaskStatus) {
    t in db.tasks && db.tasks[t].king == king && Reigning(db) == Some(king) && db.tasks[t].status == status
  }

  function SetTask(db: Tables, t: TaskId, status: TaskStatus): Tables
    requires t in db.tasks
  {
    db.(tasks := db.tasks[t := db.tasks[t].(status := status)])
  }

  function FinishQualification(db: Tables, t: TaskId, king: Id, viable: bool): Tables {
    if !IsReigningTask(db, t, king, Candidate) then db
    else if viable then
      var moved := SetTask(db, t, PendingScreen);
      moved.(screenings := moved.screenings[t := Screening(king, 0, None, None)])
    else SetTask(db, t, Disqualified)
  }

  /** Unscreened and unfinished tasks of a pool that has become full. */
  function Surplus(tasks: map<TaskId, Task>, king: Id, pool: Pool): set<TaskId> {
    TasksIn(tasks, king, pool, Candidate) + TasksIn(tasks, king, pool, PendingScreen)
  }

  function DropSurplus(db: Tables, king: Id, pool: Pool): Tables {
    var surplus := Surplus(db.tasks, king, pool);
    db.(tasks := map t | t in db.tasks ::
          if t in surplus then db.tasks[t].(status := Disqualified) else db.tasks[t],
        screenings := map t | t in db.screenings ::
          if t in surplus then db.screenings[t].(nextRetry := None, reason := Some("pool_full_surplus"))
          else db.screenings[t])
  }

  function Settle(db: Tables, t: TaskId, status: TaskStatus, reason: string): Tables
    requires t in db.tasks && t in db.screenings
  {
    SetTask(db, t, status).(
      screenings := db.screenings[t := db.screenings[t].(nextRetry := None, reason := Some(reason))])
  }

  function QualifiedCount(db: Tables, t: TaskId): nat
    requires t in db.tasks
  {
    |TasksIn(db.tasks, db.tasks[t].king, db.tasks[t].pool, Qualified)|
  }

  /** A final screen of a pending task: qualified only while the pool is short of its target. */
  function Decision(db: Tables, target: nat, t: TaskId, king: Id, pass: bool, reason: string): Tables
    requires t in db.tasks && t in db.screenings
  {
    var pool := db.tasks[t].pool;
    var count := QualifiedCount(db, t);
    var saved :=
      if pass && count >= target then Settle(db, t, Disqualified, "pool_full_surplus")
      else Settle(db, t, if pass then Qualified else Disqualified, reason);
    if pass && (count >= target || count + 1 == target) then DropSurplus(saved, king, pool) else saved
  }

  /** Only a pending task of the reigning king is decided.  One without a screening row is an error,
      which leaves the tables alone. */
  function SaveDecision(db: Tables, targets: Targets, t: TaskId, king: Id, pass: bool, reason: string): Tables {
    if !IsReigningTask(db, t, king, PendingScreen) || t !in db.screenings then db
    else Decision(db, targets.Of(db.tasks[t].pool), t, king, pass, reason)
  }

  function Power2(n: nat): nat {
    if n == 0 then 1 else 2 * Power2(n - 1)
  }

  /** The wait after the n-th failed screen, n counting from one. */
  function RetryDelay(base: real, cap: real, n: nat): real
    requires n > 0
  {
    var delay := base * Power2(n - 1) as real;
    if delay < cap then delay else cap
  }

  predicate RetryIsDue(s: Screening, now: real) {
    s.nextRetry.None? || s.nextRetry.value <= now
  }

  /** One more failed run: the task ends once it has used them all, and waits until `retry` before. */
  function FailOnce(db: Tables, maxFailedRuns: int, t: TaskId, retry: real): Tables
    requires t in db.tasks && t in db.screenings
  {
    var s := db.screenings[t];
    var runs := s.failedRuns + 1;
    if runs >= maxFailedRuns then
      SetTask(db, t, Disqualified).(screenings := db.screenings[t :=
        s.(failedRuns := runs, nextRetry := None, reason := Some("screening_exhausted"))])
    else
      db.(screenings := db.screenings[t := s.(failedRuns := runs, nextRetry := Some(retry), reason := None)])
  }

  function SaveError(db: Tables, maxFailedRuns: int, base: real, cap: real, t: TaskId, king: Id, now: real): Tables {
    if !IsReigningTask(db, t, king, PendingScreen) || t !in db.screenings || !RetryIsDue(db.screenings[t], now) then db
    else FailOnce(db, maxFailedRuns, t, now + RetryDelay(base, cap, db.screenings[t].failedRuns + 1))
  }

  /** The first solution and the first judgement stand. */
  function SaveSolution(db: Tables, t: TaskId, challenger: Id, submission: Id, tokens: Option<int>): Tables {
    if (t, challenger, submission) in db.solutions then db
    else db.(solutions := db.solutions[(t, challenger, submission) := tokens])
  }

  function SaveJudgement(db: Tables, t: TaskId, king: Id, challenger: Id, j: Judgement): Tables {
    if (t, king, challenger) in db.judgements then db
    else db.(judgements := db.judgements[(t, king, challenger) := j])
  }

  /** Everything the workers other than the resolver do to the tables. */
  datatype Work =
    | Generate(task: TaskId, king: Id, pool: Pool, fingerprint: string)
    | Qualify(task: TaskId, king: Id, viable: bool)
    | Screen(task: TaskId, king: Id, pass: bool, reason: string)
    | ScreenFails(task: TaskId, king: Id, base: real, cap: real, now: real)
    | Solve(task: TaskId, challenger: Id, submission: Id, tokens: Option<int>)
    | Judge(task: TaskId, king: Id, challenger: Id, judgement: Judgement)

  function DoWork(db: Tables, cfg: Config, w: Work): Tables {
    match w
    case Generate(t, king, pool, fingerprint) => InsertTask(db, t, king, pool, fingerprint)
    case Qualify(t, king, viable) => FinishQualification(db, t, king, viable)
    case Screen(t, king, pass, reason) => SaveDecision(db, cfg.targets, t, king, pass, reason)
    case ScreenFails(t, king, base, cap, now) => SaveError(db, cfg.maxFailedRuns, base, cap, t, king, now)
    case Solve(t, c, s, tokens) => SaveSolution(db, t, c, s, tokens)
    case Judge(t, king, c, j) => SaveJudgement(db, t, king, c, j)
  }
}

/**
 What the arena decides, in terms of the stored judgements: the verdict of every
 round-wins order, when it comes, and what the resolution rows say.
 */
module DuelVerdicts {
  import opened Common
  import opened Duel
  import opened Arena
  import opened ArenaRuns

  // ---------------------------------------------------------------- stored judgements

  /** The rounds of a duel in a pool that have been judged. */
  function Judged(db: Tables, k: Id, c: Id, pool: Pool): set<TaskId> {
    set t | t in db.tasks && db.tasks[t].king == k && db.tasks[t].pool == pool && (t, k, c) in db.judgements
  }

  ghost predicate Lists(tasks: seq<TaskId>, keys: set<TaskId>) {
    Distinct(tasks) && forall t :: t in tasks <==> t in keys
  }

  /** The stored winners of the listed rounds. */
  function Winners(db: Tables, k: Id, c: Id, tasks: seq<TaskId>): seq<Winner>
    requires forall t | t in tasks :: (t, k, c) in db.judgements
  {
    if tasks == [] then []
    else [db.judgements[(tasks[0], k, c)].winner] + Winners(db, k, c, tasks[1..])
  }

  function WonBy(db: Tables, k: Id, c: Id, tasks: set<TaskId>, w: Winner): set<TaskId>
    requires forall t | t in tasks :: (t, k, c) in db.judgements
  {
    set t | t in tasks && db.judgements[(t, k, c)].winner == w
  }

  lemma ListTail(tasks: seq<TaskId>, keys: set<TaskId>)
    requires Lists(tasks, keys) && tasks != []
    ensures tasks[0] in keys && Lists(tasks[1..], keys - {tasks[0]})
  {
    assert tasks == [tasks[0]] + tasks[1..];
  }

  lemma WonByOneMore(db: Tables, k: Id, c: Id, keys: set<TaskId>, t: TaskId, w: Winner)
    requires t in keys && forall u | u in keys :: (u, k, c) in db.judgements
    ensures |WonBy(db, k, c, keys, w)|
         == |WonBy(db, k, c, keys - {t}, w)| + if db.judgements[(t, k, c)].winner == w then 1 else 0
  {
    assert WonBy(db, k, c, keys, w)
        == WonBy(db, k, c, keys - {t}, w) + if db.judgements[(t, k, c)].winner == w then {t} else {};
  }

  lemma {:induction false} CountWinners(db: Tables, k: Id, c: Id, tasks: seq<TaskId>, keys: set<TaskId>, w: Winner)
    requires Lists(tasks, keys) && forall t | t in keys :: (t, k, c) in db.judgements
    ensures |Winners(db, k, c, tasks)| == |tasks| == |keys|
    ensures Count(Winners(db, k, c, tasks), w) == |WonBy(db, k, c, keys, w)|
    decreases |tasks|
  {
    if tasks == [] {
      assert keys == {} by {
        assert forall t :: t !in keys;
      }
    } else {
      ListTail(tasks, keys);
      CountWinners(db, k, c, tasks[1..], keys - {tasks[0]}, w);
      WonByOneMore(db, k, c, keys, tasks[0], w);
      var winners := Winners(db, k, c, tasks);
      assert winners[1..] == Winners(db, k, c, tasks[1..]);
    }
  }

  lemma RowsAreJudged(db: Tables, k: Id, c: Id, pool: Pool)
    ensures Rounds(db, k, c, pool).Keys == Judged(db, k, c, pool)
    ensures forall t | t in Judged(db, k, c, pool) ::
      Rounds(db, k, c, pool)[t].judgement == db.judgements[(t, k, c)]
  {
  }

  /** The tally counts the stored winners of the judged rounds, each as what it is. */
  lemma TallyCountsWinners(db: Tables, cfg: Config, k: Id, c: Id, pool: Pool, tasks: seq<TaskId>)
    requires Lists(tasks, Judged(db, k, c, pool))
    ensures forall t | t in tasks :: (t, k, c) in db.judgements
    ensures var (tally, winners) := (TallyRows(Rounds(db, k, c, pool), cfg, pool), Winners(db, k, c, tasks));
      && tally.wins == Count(winners, ChallengerWins) && tally.losses == Count(winners, KingWins)
      && tally.ties == Count(winners, NoWinner) && |winners| == |tasks| == tally.Judged()
  {
    var keys, rows := Judged(db, k, c, pool), Rounds(db, k, c, pool);
    RowsAreJudged(db, k, c, pool);
    TallyCounts(rows, cfg, pool);
    assert |rows| == |rows.Keys|;
    forall w: Winner
      ensures Count(Winners(db, k, c, tasks), w) == |RoundsWith(rows, w)| && |Winners(db, k, c, tasks)| == |keys| == |tasks|
    {
      CountWinners(db, k, c, tasks, keys, w);
      assert RoundsWith(rows, w) == WonBy(db, k, c, keys, w);
    }
  }

  // ---------------------------------------------------------------- round-wins verdicts

  /** The verdict of `winners` and any rounds still to come. */
  lemma TallyVerdict(a: ActiveChallenge, winners: seq<Winner>, rest: seq<Winner>, margin: int)
    requires a.tally.wins == Count(winners, ChallengerWins) && a.tally.losses == Count(winners, KingWins)
    requires a.tally.ties == Count(winners, NoWinner) && |winners| + |rest| == a.poolTarget
    ensures VerdictOf(DecideRoundWins(a, margin)) != Waits ==>
      VerdictOf(DecideRoundWins(a, margin)) == FullVerdict(winners + rest, margin)
    ensures VerdictOf(DecideRoundWins(a, margin)) == Waits <==>
      StillPossible(winners, |rest|, margin, Won) && StillPossible(winners, |rest|, margin, Defended)
  {
    var all, n := winners + rest, |winners|;
    PollOfCounts(a, winners, rest, margin);
    PollAgreesWithFullTally(a, all, n, margin);
    EarlyStopIsEarliest(a, all, n, margin);
    assert all[..n] == winners && |all| - n == |rest|;
  }

  lemma PollOfCounts(a: ActiveChallenge, winners: seq<Winner>, rest: seq<Winner>, margin: int)
    requires a.tally.wins == Count(winners, ChallengerWins) && a.tally.losses == Count(winners, KingWins)
    requires a.tally.ties == Count(winners, NoWinner)
    ensures VerdictOf(PollAt(a, winners + rest, |winners|, margin)) == VerdictOf(DecideRoundWins(a, margin))
  {
    assert (winners + rest)[..|winners|] == winners;
    SameCountsSameVerdict(a, TallyOf(winners), margin);
  }

  lemma SameCountsSameVerdict(a: ActiveChallenge, tally: Tally, margin: int)
    requires a.tally.wins == tally.wins && a.tally.losses == tally.losses && a.tally.ties == tally.ties
    ensures VerdictOf(DecideRoundWins(a.(tally := tally), margin)) == VerdictOf(DecideRoundWins(a, margin))
  {
    assert a.(tally := tally).Remaining() == a.Remaining();
  }

  /** Round-wins verdicts are those of the stored judgements.  However old the order of a registered
      challenger: listing the rounds judged by now in any order, and whatever the winners of the
      rounds still to come, the challenger won exactly if its rounds outnumber the king's by more
      than the margin over the whole pool. */
  lemma RoundWinsVerdictsFollowJudgements(
    cfg: Config, founding: seq<Id>, run: seq<State>, events: seq<Event>, i: nat,
    o: Order, a: ActiveChallenge, tasks: seq<TaskId>, rest: seq<Winner>)
    requires IsRun(cfg, founding, run, events) && i < |run| && cfg.rules.scoring.RoundWins?
    requires o in run[i].orders && Decides(o, a) && a.registered
    requires Lists(tasks, Judged(run[i].db, a.king, a.challenger, a.pool))
    requires |tasks| + |rest| == cfg.targets.Of(a.pool)
    ensures forall t | t in tasks :: (t, a.king, a.challenger) in run[i].db.judgements
    ensures var all := Winners(run[i].db, a.king, a.challenger, tasks) + rest;
      && (VerdictOf(o.action) == Won <==> Count(all, ChallengerWins) > Count(all, KingWins) + cfg.rules.winMargin)
      && VerdictOf(o.action) == FullVerdict(all, cfg.rules.winMargin)
  {
    RunKeepsInv(cfg, founding, run, events, i);
    var db := run[i].db;
    assert OrderSound(cfg, Founders(founding), db, o);
    OrderAgreesWithNow(cfg, Founders(founding), db, o, a);
    TallyCountsWinners(db, cfg, a.king, a.challenger, a.pool, tasks);
    var now := a.(tally := TallyRows(Rounds(db, a.king, a.challenger, a.pool), cfg, a.pool));
    assert VerdictOf(o.action) != Waits;
    TallyVerdict(now, Winners(db, a.king, a.challenger, tasks), rest, cfg.rules.winMargin);
  }

  /** The duel of `c` could still end either way. */
  ghost predicate Undecided(cfg: Config, db: Tables, c: Id, tasks: seq<TaskId>)
    requires c in db.challenges && db.challenges[c].status.Dueling?
    requires forall t | t in tasks :: (t, db.challenges[c].king, c) in db.judgements
    requires |tasks| <= cfg.targets.Of(db.challenges[c].status.pool)
  {
    var winners := Winners(db, db.challenges[c].king, c, tasks);
    var remaining := cfg.targets.Of(db.challenges[c].status.pool) - |tasks|;
    && StillPossible(winners, remaining, cfg.rules.winMargin, Won)
    && StillPossible(winners, remaining, cfg.rules.winMargin, Defended)
  }

  lemma ActiveWaitsExactly(cfg: Config, db: Tables, c: Id, tasks: seq<TaskId>)
    requires c in db.challenges && db.challenges[c].status.Dueling? && cfg.rules.scoring.RoundWins?
    requires Lists(tasks, Judged(db, db.challenges[c].king, c, db.challenges[c].status.pool))
    requires |tasks| <= cfg.targets.Of(db.challenges[c].status.pool)
    ensures DecideActive(ActiveOf(db, cfg, c, true), cfg.rules) == Nothing(InProgress) <==> Undecided(cfg, db, c, tasks)
  {
    var ch := db.challenges[c];
    TallyCountsWinners(db, cfg, ch.king, c, ch.status.pool, tasks);
    var remaining := cfg.targets.Of(ch.status.pool) - |tasks|;
    CountSame(remaining, NoWinner, NoWinner);
    TallyVerdict(ActiveOf(db, cfg, c, true), Winners(db, ch.king, c, tasks), Same(remaining, NoWinner), cfg.rules.winMargin);
  }

  /** A snapshot of an active duel of a registered challenger is decided as soon as it can be: it waits
      exactly while the rounds still to be judged could give either verdict, paused or not. */
  lemma SnapshotsDecideOnceCertain(
    cfg: Config, founding: seq<Id>, run: seq<State>, events: seq<Event>, i: nat, c: Id, tasks: seq<TaskId>)
    requires IsRun(cfg, founding, run, events) && i < |events| && cfg.rules.scoring.RoundWins?
    requires events[i].TakeSnapshot? && events[i].pick == Some(c) && events[i].registered
    requires Allowed(run[i], events[i])
    requires Lists(tasks, Judged(run[i].db, run[i].db.challenges[c].king, c, run[i].db.challenges[c].status.pool))
    ensures |tasks| <= cfg.targets.Of(run[i].db.challenges[c].status.pool)
    ensures OrderNow(run[i].db, cfg, Some(c), true, events[i].next, events[i].paused).action == Nothing(InProgress)
      <==> Undecided(cfg, run[i].db, c, tasks)
  {
    var db, pool := run[i].db, run[i].db.challenges[c].status.pool;
    TallyCountsWinners(db, cfg, db.challenges[c].king, c, pool, tasks);
    RoundsWithinTarget(cfg, founding, run, events, i, c, pool);
    ActiveWaitsExactly(cfg, db, c, tasks);
    assert OrderNow(db, cfg, Some(c), true, events[i].next, events[i].paused).action
        == DecideActive(ActiveOf(db, cfg, c, true), cfg.rules);
  }

  /** Without an active duel a snapshot opens one exactly when somebody reigns, opening is not paused,
      both pools of the king are full, and a challenger is waiting. */
  lemma SnapshotsOpenExactly(cfg: Config, db: Tables, registered: bool, next: Option<Id>, paused: bool, k: Id, c: Id)
    ensures OrderNow(db, cfg, None, registered, next, paused).action == OpenChallenge(k, c)
      <==> db.kings != [] && db.kings[|db.kings| - 1] == k && !paused && next == Some(c)
           && |set t | t in db.tasks && db.tasks[t].king == k && db.tasks[t].pool == PoolOne && db.tasks[t].status == Qualified|
              >= cfg.targets.one
           && |set t | t in db.tasks && db.tasks[t].king == k && db.tasks[t].pool == PoolTwo && db.tasks[t].status == Qualified|
              >= cfg.targets.two
  {
    assert TasksIn(db.tasks, k, PoolOne, Qualified)
        == set t | t in db.tasks && db.tasks[t].king == k && db.tasks[t].pool == PoolOne && db.tasks[t].status == Qualified;
    assert TasksIn(db.tasks, k, PoolTwo, Qualified)
        == set t | t in db.tasks && db.tasks[t].king == k && db.tasks[t].pool == PoolTwo && db.tasks[t].status == Qualified;
  }

  /** And it waits for the first of these that fails, in this order. */
  lemma SnapshotsWaitExactly(cfg: Config, db: Tables, registered: bool, next: Option<Id>, paused: bool)
    ensures var action := OrderNow(db, cfg, None, registered, next, paused).action;
      && (action == Nothing(NoKing) <==> db.kings == [])
      && (action == Nothing(Paused) <==> db.kings != [] && paused)
      && (action == Nothing(PoolsNotReady) <==>
            db.kings != [] && !paused && !PoolsReady(db, db.kings[|db.kings| - 1], cfg.targets))
      && (action == Nothing(NoChallenger) <==>
            db.kings != [] && !paused && PoolsReady(db, db.kings[|db.kings| - 1], cfg.targets) && next.None?)
  {
  }

  /** A challenger that is not registered forfeits the pool it duels in, and only such a one does. */
  lemma DeregisteredForfeits(cfg: Config, db: Tables, c: Id, registered: bool, next: Option<Id>, paused: bool)
    requires DuelsReigningKing(db, c)
    ensures var action := OrderNow(db, cfg, Some(c), registered, next, paused).action;
      && (!registered <==> action.CloseChallenge? && action.reason == Deregistered)
      && (!registered ==> action.challenge.challenger == c && db.challenges[c].status == Dueling(action.challenge.pool))
  {
  }

  /** Where each round stands: only a qualified task of the pool being dueled in is a round at all; it is on
      the solver's list while a side lacks its solve, and on the judge's once neither does, unless it is
      judged or its king has fallen. */
  lemma RoundsMoveFromSolverToJudge(db: Tables, t: TaskId, c: Id)
    requires c in db.challenges
    ensures var ch := db.challenges[c];
      var round := t in db.tasks && db.tasks[t].king == ch.king && db.tasks[t].status == Qualified
                   && ch.status == Dueling(db.tasks[t].pool);
      var solved := (t, c, ch.king) in db.solutions && (t, c, c) in db.solutions;
      && (AwaitsSolve(db, t, c) <==> round && !solved)
      && ((t, ch.king, c) in JudgeRequests(db) <==>
            round && solved && (t, ch.king, c) !in db.judgements
            && db.kings != [] && db.kings[|db.kings| - 1] == ch.king)
  {
    assert AwaitsJudge(db, t, db.challenges[c].king, c) ==> (t, db.challenges[c].king, c) in JudgeRequests(db);
  }

  // ---------------------------------------------------------------- resolution rows

  /** The order behind a resolution row, and the rounds it saw. */
  ghost predicate Explains(cfg: Config, db: Tables, c: Id, pool: Pool, o: Order, a: ActiveChallenge)
    requires (c, pool) in db.resolutions
  {
    var r := db.resolutions[(c, pool)];
    && a.challenger == c && a.pool == pool && Decides(o, a) && DecisionSound(cfg, db, o, a)
    && r.outcome == (match VerdictOf(o.action)
                     case Won => ChallengerWon
                     case Defended => KingWon
                     case _ => ChallengerDeregistered)
    && r.wins == |set t | t in o.rows && o.rows[t].judgement.winner == ChallengerWins|
    && r.losses == |set t | t in o.rows && o.rows[t].judgement.winner == KingWins|
    && r.ties == |set t | t in o.rows && o.rows[t].judgement.winner == NoWinner|
    && r.bestOf == cfg.targets.Of(pool)
  }

  lemma RecordedRow(db: Tables, action: Action, key: (Id, Pool))
    requires key in ApplyAction(db, action).resolutions && key !in db.resolutions
    ensures action.AdvancePool? || action.Promote? || action.CloseChallenge?
    ensures key == (action.challenge.challenger, action.challenge.pool)
    ensures var (r, tally) := (ApplyAction(db, action).resolutions[key], action.challenge.tally);
      && r.wins == tally.wins && r.losses == tally.losses && r.ties == tally.ties
      && r.bestOf == action.challenge.poolTarget
      && r.outcome == if action.CloseChallenge? then
                        (if action.reason == KingDefended then KingWon else ChallengerDeregistered)
                      else ChallengerWon
  {
  }

  lemma NewRowIsExplained(cfg: Config, founding: set<Id>, db: Tables, o: Order, c: Id, pool: Pool)
    requires TablesInv(cfg, founding, db) && OrderSound(cfg, founding, db, o)
    requires OrderSound(cfg, founding, ApplyAction(db, o.action), o)
    requires (c, pool) in ApplyAction(db, o.action).resolutions && (c, pool) !in db.resolutions
    ensures Decides(o, o.action.challenge) && Explains(cfg, ApplyAction(db, o.action), c, pool, o, o.action.challenge)
  {
    RecordedRow(db, o.action, (c, pool));
    var a := o.action.challenge;
    assert DecisionSound(cfg, ApplyAction(db, o.action), o, a);
    assert a.tally == TallyRows(o.rows, cfg, a.pool);
    assert RoundsWith(o.rows, ChallengerWins) == set t | t in o.rows && o.rows[t].judgement.winner == ChallengerWins;
    assert RoundsWith(o.rows, KingWins) == set t | t in o.rows && o.rows[t].judgement.winner == KingWins;
    assert RoundsWith(o.rows, NoWinner) == set t | t in o.rows && o.rows[t].judgement.winner == NoWinner;
  }

  /** Every resolution row of every run is that of an order some resolver decided: the order is in the
      run, and the row says its verdict, the winners of the rounds it saw, and the pool's target. */
  lemma {:induction false} RowsTellTheirOrder(
    cfg: Config, founding: seq<Id>, run: seq<State>, events: seq<Event>, i: nat, c: Id, pool: Pool)
    returns (o: Order, a: ActiveChallenge)
    requires IsRun(cfg, founding, run, events) && i < |run| && (c, pool) in run[i].db.resolutions
    ensures o in run[i].orders && Explains(cfg, run[i].db, c, pool, o, a)
  {
    var last := i - 1;
    RunKeepsInv(cfg, founding, run, events, last);
    RunKeepsInv(cfg, founding, run, events, i);
    StepGrows(cfg, founding, run, events, last);
    assert Allowed(run[last], events[last]) && run[last + 1] == Next(cfg, run[last], events[last]);
    if (c, pool) in run[last].db.resolutions {
      o, a := RowsTellTheirOrder(cfg, founding, run, events, last, c, pool);
      assert OrderSound(cfg, Founders(founding), run[i].db, o);
    } else {
      RowsComeFromOrders(cfg, run[last], events[last], (c, pool));
      o := events[last].order;
      a := o.action.challenge;
      NewRowIsExplained(cfg, Founders(founding), run[last].db, o, c, pool);
    }
  }

  /** So a round-wins resolution row of a challenger that was registered says exactly who leads by more
      than the margin over the whole pool, whatever is judged after it was written. */
  lemma RowsFollowJudgements(
    cfg: Config, founding: seq<Id>, run: seq<State>, events: seq<Event>, i: nat, c: Id, pool: Pool,
    tasks: seq<TaskId>, rest: seq<Winner>)
    requires IsRun(cfg, founding, run, events) && i < |run| && cfg.rules.scoring.RoundWins?
    requires (c, pool) in run[i].db.resolutions && c in run[i].db.challenges
    requires run[i].db.resolutions[(c, pool)].outcome != ChallengerDeregistered
    requires Lists(tasks, Judged(run[i].db, run[i].db.challenges[c].king, c, pool))
    requires |tasks| + |rest| == cfg.targets.Of(pool)
    ensures forall t | t in tasks :: (t, run[i].db.challenges[c].king, c) in run[i].db.judgements
    ensures var all := Winners(run[i].db, run[i].db.challenges[c].king, c, tasks) + rest;
      run[i].db.resolutions[(c, pool)].outcome
      == if Count(all, ChallengerWins) > Count(all, KingWins) + cfg.rules.winMargin then ChallengerWon else KingWon
  {
    var o, a := RowsTellTheirOrder(cfg, founding, run, events, i, c, pool);
    WinningMovesOn(a, cfg.rules);
    RoundWinsVerdictsFollowJudgements(cfg, founding, run, events, i, o, a, tasks, rest);
  }

  lemma RowsComeFromOrders(cfg: Config, s: State, e: Event, key: (Id, Pool))
    requires Allowed(s, e) && key in Next(cfg, s, e).db.resolutions && key !in s.db.resolutions
    ensures e.Apply? && Next(cfg, s, e).db == ApplyAction(s.db, e.order.action)
    ensures e.order.action.AdvancePool? || e.order.action.Promote? || e.order.action.CloseChallenge?
  {
    match e
    case Worker(w) => WorkLeavesDuels(cfg, s.db, w);
    case Apply(o) => RecordedRow(s.db, o.action, key);
    case _ =>
  }

  lemma ActionCrowns(founding: set<Id>, db: Tables, action: Action)
    requires KingsEarned(founding, db) && HistoriesLegal(db) && FitsPool(action)
    ensures ApplyAction(db, action).kings
         == if action.Promote? && StillIn(db, action.challenge) then db.kings + [action.challenge.challenger] else db.kings
  {
    match action
    case AdvancePool(a) => TransitionLeavesTasks(db, a, Dueling(PoolTwo), ChallengerWon);
    case CloseChallenge(a, reason) => TransitionLeavesTasks(db, a, Closed, CloseOutcome(reason));
    case Promote(a) => if StillIn(db, a) { CrownKeepsKings(founding, db, a); }
    case _ =>
  }

  /** A promotion that takes effect makes its challenger the reigning king, and every other step leaves
      the kings as they were. */
  lemma OnlyPromotionsCrown(
    cfg: Config, founding: seq<Id>, run: seq<State>, events: seq<Event>, i: nat)
    requires IsRun(cfg, founding, run, events) && i < |events|
    ensures var (kings, kings') := (run[i].db.kings, run[i + 1].db.kings);
      if events[i].Apply? && events[i].order.action.Promote? && StillIn(run[i].db, events[i].order.action.challenge)
      then kings' == kings + [events[i].order.action.challenge.challenger]
           && Reigning(run[i + 1].db) == Some(events[i].order.action.challenge.challenger)
      else kings' == kings
  {
    RunKeepsInv(cfg, founding, run, events, i);
    assert Allowed(run[i], events[i]) && run[i + 1] == Next(cfg, run[i], events[i]);
    match events[i]
    case Worker(w) => WorkLeavesDuels(cfg, run[i].db, w);
    case Apply(o) =>
      SoundOrdersFit(cfg, Founders(founding), run[i].db, o);
      ActionCrowns(Founders(founding), run[i].db, o.action);
    case _ =>
  }
}

/**
 The arena tables as the workers' transactions change them, each proved to be the
 corresponding function of `Arena`.
 */
module ArenaDb {
  import opened Common
  import opened Duel
  import opened Arena
  import opened TaskHistory

  /** What saving a final screen reports; a missing screening row is an error. */
  datatype DecisionSave = Stale | NoScreening | Decided(outcome: TaskStatus, reason: string, surplus: nat)

  /** A task without a screening row is stale here: the row is joined when the task is locked. */
  datatype FailureSave = Stale | Exhausted(runs: nat) | Retry(runs: nat, at: real)

  /** The other tasks whose status a transaction changed. */
  ghost function OthersMoved(tasks: map<TaskId, Task>, tasks': map<TaskId, Task>, t: TaskId): set<TaskId> {
    set u | u in tasks && u in tasks' && u != t && tasks'[u].status != tasks[u].status
  }

  /** What a decision leaves behind: the task settled, and so many others dropped. */
  ghost predicate Shows(db: Tables, db': Tables, t: TaskId, status: TaskStatus, reason: string, surplus: nat) {
    && t in db'.tasks && db'.tasks[t].status == status
    && t in db'.screenings && db'.screenings[t].reason == Some(reason)
    && surplus == |OthersMoved(db.tasks, db'.tasks, t)|
  }

  lemma SettlingShows(db: Tables, t: TaskId, status: TaskStatus, reason: string)
    requires t in db.tasks && t in db.screenings
    ensures Shows(db, Settle(db, t, status, reason), t, status, reason, 0)
  {
    assert OthersMoved(db.tasks, Settle(db, t, status, reason).tasks, t) == {};
  }

  lemma DroppingShows(db: Tables, t: TaskId, status: TaskStatus, reason: string, king: Id, pool: Pool)
    requires t in db.tasks && t in db.screenings && status in {Qualified, Disqualified}
    ensures var settled := Settle(db, t, status, reason);
      Shows(db, DropSurplus(settled, king, pool), t, status, reason, |Surplus(settled.tasks, king, pool)|)
  {
    var settled := Settle(db, t, status, reason);
    assert OthersMoved(db.tasks, DropSurplus(settled, king, pool).tasks, t) == Surplus(settled.tasks, king, pool);
  }

  class Database {
    var kings: seq<Id>
    var challenges: map<Id, Challenge>
    var resolutions: map<(Id, Pool), Resolution>
    var tasks: map<TaskId, Task>
    var screenings: map<TaskId, Screening>
    var solutions: map<(TaskId, Id, Id), Option<int>>
    var judgements: map<(TaskId, Id, Id), Judgement>

    constructor (founding: seq<Id>)
      ensures Contents() == Tables(founding, map[], map[], map[], map[], map[], map[])
    {
      kings, challenges, resolutions := founding, map[], map[];
      tasks, screenings, solutions, judgements := map[], map[], map[], map[];
    }

    ghost function Contents(): Tables
      reads this
    {
      Tables(kings, challenges, resolutions, tasks, screenings, solutions, judgements)
    }

    // -- duel resolver

    method OpenChallenge(king: Id, challenger: Id) returns (inserted: bool)
      modifies this
      ensures Contents() == Open(old(Contents()), king, challenger)
      ensures inserted <==> challenger !in old(challenges)
    {
      inserted := challenger !in challenges;
      if inserted {
        challenges := challenges[challenger := Challenge(king, Dueling(PoolOne))];
      }
    }

    method UpdateStatus(a: ActiveChallenge, status: ChallengeStatus) returns (changed: bool)
      modifies this
      ensures changed <==> StillIn(old(Contents()), a)
      ensures Contents() == if changed then SetStatus(old(Contents()), a, status) else old(Contents())
    {
      if a.challenger in challenges && challenges[a.challenger].status == Dueling(a.pool) {
        challenges := challenges[a.challenger := challenges[a.challenger].(status := status)];
        return true;
      }
      return false;
    }

    method RecordResolution(a: ActiveChallenge, outcome: Outcome)
      modifies this
      ensures Contents() == Record(old(Contents()), a, outcome)
    {
      if (a.challenger, a.pool) !in resolutions {
        resolutions := resolutions[(a.challenger, a.pool) :=
          Resolution(outcome, a.tally.wins, a.tally.losses, a.tally.ties, a.poolTarget)];
      }
    }

    method AdvancePool(a: ActiveChallenge) returns (applied: bool)
      modifies this
      ensures Contents() == Advance(old(Contents()), a) && (applied <==> StillIn(old(Contents()), a))
    {
      applied := UpdateStatus(a, Dueling(PoolTwo));
      if applied {
        RecordResolution(a, ChallengerWon);
      }
    }

    method CloseChallenge(a: ActiveChallenge, outcome: Outcome) returns (applied: bool)
      modifies this
      ensures Contents() == Close(old(Contents()), a, outcome) && (applied <==> StillIn(old(Contents()), a))
    {
      applied := UpdateStatus(a, Closed);
      if applied {
        RecordResolution(a, outcome);
      }
    }

    method Promote(a: ActiveChallenge) returns (applied: bool)
      modifies this
      ensures Contents() == Crown(old(Contents()), a) && (applied <==> StillIn(old(Contents()), a))
    {
      applied := UpdateStatus(a, Closed);
      if applied {
        RecordResolution(a, ChallengerWon);
        if a.challenger !in kings {
          kings := kings + [a.challenger];
        }
      }
    }

    // -- task generator, solver and judge

    method InsertTaskCandidate(t: TaskId, king: Id, pool: Pool, fingerprint: string) returns (inserted: bool)
      modifies this
      ensures Contents() == InsertTask(old(Contents()), t, king, pool, fingerprint)
      ensures inserted <==> t !in old(tasks) && forall u | u in old(tasks) :: old(tasks)[u].fingerprint != fingerprint
      ensures inserted <==> Contents() != old(Contents())
      ensures inserted ==> tasks == old(tasks)[t := Task(king, pool, Candidate, fingerprint)]
    {
      inserted := t !in tasks && forall u | u in tasks :: tasks[u].fingerprint != fingerprint;
      if inserted {
        tasks := tasks[t := Task(king, pool, Candidate, fingerprint)];
      }
    }

    method FinishQualification(t: TaskId, king: Id, viable: bool)
      modifies this
      ensures Contents() == Arena.FinishQualification(old(Contents()), t, king, viable)
    {
      if |kings| == 0 || kings[|kings| - 1] != king
         || t !in tasks || tasks[t].king != king || tasks[t].status != Candidate {
        return;
      }
      tasks := tasks[t := tasks[t].(status := if viable then PendingScreen else Disqualified)];
      if viable {
        screenings := screenings[t := Screening(king, 0, None, None)];
      }
    }

    method SaveDuelTaskSolution(t: TaskId, challenger: Id, submission: Id, tokens: Option<int>)
      modifies this
      ensures Contents() == SaveSolution(old(Contents()), t, challenger, submission, tokens)
    {
      if (t, challenger, submission) !in solutions {
        solutions := solutions[(t, challenger, submission) := tokens];
      }
    }

    method SaveJudgment(t: TaskId, king: Id, challenger: Id, judgement: Judgement)
      modifies this
      ensures Contents() == SaveJudgement(old(Contents()), t, king, challenger, judgement)
    {
      if (t, king, challenger) !in judgements {
        judgements := judgements[(t, king, challenger) := judgement];
      }
    }

    // -- task screener

    method DisqualifySurplus(king: Id, pool: Pool) returns (dropped: nat)
      modifies this
      ensures Contents() == DropSurplus(old(Contents()), king, pool)
      ensures dropped == |Surplus(old(tasks), king, pool)|
    {
      var surplus := Surplus(tasks, king, pool);
      screenings := map t | t in screenings ::
        if t in surplus then screenings[t].(nextRetry := None, reason := Some("pool_full_surplus")) else screenings[t];
      tasks := map t | t in tasks :: if t in surplus then tasks[t].(status := Disqualified) else tasks[t];
      dropped := |surplus|;
    }

    method SettleScreen(t: TaskId, status: TaskStatus, reason: string)
      requires t in tasks && t in screenings
      modifies this
      ensures Contents() == Settle(old(Contents()), t, status, reason)
    {
      screenings := screenings[t := screenings[t].(nextRetry := None, reason := Some(reason))];
      tasks := tasks[t := tasks[t].(status := status)];
    }

    /** The decision on a locked pending task that has its screening row. */
    method DecideScreen(target: nat, t: TaskId, king: Id, pass: bool, reason: string) returns (saved: DecisionSave)
      requires t in tasks && t in screenings && tasks[t].king == king
      modifies this
      ensures saved.Decided?
      ensures Contents() == Decision(old(Contents()), target, t, king, pass, reason)
      ensures ScreenedRows(old(Contents()), Contents(), target, t, pass, reason)
      ensures Shows(old(Contents()), Contents(), t, saved.outcome, saved.reason, saved.surplus)
    {
      ghost var before := Contents();
      var pool := tasks[t].pool;
      var final, finalReason, count := if pass then Qualified else Disqualified, reason, 0;
      if pass {
        count := |TasksIn(tasks, tasks[t].king, pool, Qualified)|;
        if count >= target {
          final, finalReason := Disqualified, "pool_full_surplus";
        }
      }
      SettleScreen(t, final, finalReason);
      var surplus := 0;
      SettlingShows(before, t, final, finalReason);
      if pass && (count >= target || count + 1 == target) {
        DroppingShows(before, t, final, finalReason, king, pool);
        surplus := DisqualifySurplus(king, pool);
      }
      DecisionScreens(before, target, t, king, pass, reason);
      return Decided(final, finalReason, surplus);
    }

    method SaveDecision(targets: Targets, t: TaskId, king: Id, pass: bool, reason: string) returns (saved: DecisionSave)
      modifies this
      ensures Contents() == Arena.SaveDecision(old(Contents()), targets, t, king, pass, reason)
      ensures saved.Stale? <==> !Handles(old(Contents()), t, king, PendingScreen)
      ensures !saved.Decided? ==> Contents() == old(Contents())
      ensures saved.Decided? ==>
        && Handles(old(Contents()), t, king, PendingScreen)
        && ScreenedRows(old(Contents()), Contents(), targets.Of(old(tasks)[t].pool), t, pass, reason)
      ensures saved.Decided? ==> Shows(old(Contents()), Contents(), t, saved.outcome, saved.reason, saved.surplus)
    {
      if |kings| == 0 || kings[|kings| - 1] != king
         || t !in tasks || tasks[t].king != king || tasks[t].status != PendingScreen {
        return DecisionSave.Stale;
      }
      if t !in screenings {
        return DecisionSave.NoScreening;
      }
      saved := DecideScreen(targets.Of(tasks[t].pool), t, king, pass, reason);
    }

    method SaveError(maxFailedRuns: int, base: real, cap: real, t: TaskId, king: Id, now: real) returns (saved: FailureSave)
      modifies this
      ensures Contents() == Arena.SaveError(old(Contents()), maxFailedRuns, base, cap, t, king, now)
      ensures saved.Stale? <==>
        || !Handles(old(Contents()), t, king, PendingScreen) || t !in old(screenings)
        || (old(screenings)[t].nextRetry.Some? && old(screenings)[t].nextRetry.value > now)
      ensures saved.Stale? ==> Contents() == old(Contents())
      ensures saved.Exhausted? ==>
        t in tasks && tasks[t].status == Disqualified && t in screenings && screenings[t].failedRuns == saved.runs
      ensures saved.Retry? ==>
        && t in tasks && tasks[t].status == PendingScreen
        && t in screenings && screenings[t].failedRuns == saved.runs && screenings[t].nextRetry == Some(saved.at)
    {
      if |kings| == 0 || kings[|kings| - 1] != king
         || t !in tasks || tasks[t].king != king || tasks[t].status != PendingScreen {
        return FailureSave.Stale;
      }
      if t !in screenings || !RetryIsDue(screenings[t], now) {
        return FailureSave.Stale;
      }
      var runs := screenings[t].failedRuns + 1;
      screenings := screenings[t := screenings[t].(failedRuns := runs)];
      if runs >= maxFailedRuns {
        tasks := tasks[t := tasks[t].(status := Disqualified)];
        screenings := screenings[t := screenings[t].(reason := Some("screening_exhausted"), nextRetry := None)];
        return Exhausted(runs);
      }
      var at := now + RetryDelay(base, cap, runs);
      screenings := screenings[t := screenings[t].(reason := None, nextRetry := Some(at))];
      return Retry(runs, at);
    }
  }
}

/**
 The resolver's tally scored as the code scores it: the quality means over the judged rounds
 and the token bonus of `TokenEfficiency`, put into the runs of `ArenaRuns`.
 */
module DuelScores {
  import opened Common
  import opened Duel
  import opened Arena
  import opened ArenaRuns
  import opened DuelVerdicts
  import opened TokenEfficiency

  // ---------------------------------------------------------------- scoring a list of rounds

  function RoundOf(row: Row): Round {
    Round(row.judgement.kingScore, row.judgement.challengerScore, row.kingTokens, row.challengerTokens,
          !row.judgement.failed)
  }

  /** Score sums over the rounds both sides have a score in; a failed judgement's count too. */
  datatype Quality = Quality(king: real, challenger: real, scored: nat) {
    function KingMean(): real {
      if scored == 0 then 0.0 else king / scored as real
    }

    function ChallengerMean(): real {
      if scored == 0 then 0.0 else challenger / scored as real
    }

    function Delta(): real {
      ChallengerMean() - KingMean()
    }
  }

  function AddScores(q: Quality, round: Round): Quality {
    if round.kingScore.None? || round.challengerScore.None? then q
    else Quality(q.king + round.kingScore.value, q.challenger + round.challengerScore.value, q.scored + 1)
  }

  function QualityOf(rounds: seq<Round>): Quality {
    if rounds == [] then Quality(0.0, 0.0, 0)
    else AddScores(QualityOf(rounds[..|rounds| - 1]), rounds[|rounds| - 1])
  }

  /** The combined delta and the number of scored rounds, as `decide` is given them. */
  function ScoreOf(rounds: seq<Round>, poolTarget: int, te: Settings): (real, nat)
    requires poolTarget > 0
  {
    var q := QualityOf(rounds);
    (CombinedDelta(q.KingMean(), q.ChallengerMean(), StatsOf(Total(rounds, te), poolTarget, te)), q.scored)
  }

  // ---------------------------------------------------------------- the order of the rows

  function RoundsOf(rows: map<TaskId, Row>, tasks: seq<TaskId>): seq<Round>
    requires forall t | t in tasks :: t in rows
  {
    if tasks == [] then []
    else RoundsOf(rows, tasks[..|tasks| - 1]) + [RoundOf(rows[tasks[|tasks| - 1]])]
  }

  lemma {:induction false} RoundsOfSplit(rows: map<TaskId, Row>, a: seq<TaskId>, b: seq<TaskId>)
    requires forall t | t in a + b :: t in rows
    ensures |RoundsOf(rows, a)| == |a|
    ensures (forall t | t in a :: t in rows) && (forall t | t in b :: t in rows)
    ensures RoundsOf(rows, a + b) == RoundsOf(rows, a) + RoundsOf(rows, b)
    decreases |a| + |b|
  {
    forall t | t in a || t in b ensures t in rows {
      assert t in a + b;
    }
    if b == [] {
      assert a + b == a;
      if a != [] {
        RoundsOfSplit(rows, a[..|a| - 1], []);
      }
    } else {
      var n := |b| - 1;
      assert (a + b)[..|a| + n] == a + b[..n];
      RoundsOfSplit(rows, a, b[..n]);
    }
  }

  lemma {:induction false} ListingSize(tasks: seq<TaskId>, keys: set<TaskId>)
    requires Lists(tasks, keys)
    ensures |tasks| == |keys|
    decreases |tasks|
  {
    if tasks == [] {
      assert forall t :: t !in keys;
    } else {
      ListTail(tasks, keys);
      ListingSize(tasks[1..], keys - {tasks[0]});
    }
  }

  /** Two listings of the same tasks give the same rounds, in some order. */
  lemma {:induction false} ListingsAgree(rows: map<TaskId, Row>, a: seq<TaskId>, b: seq<TaskId>, keys: set<TaskId>)
    requires Lists(a, keys) && Lists(b, keys) && keys <= rows.Keys
    ensures |RoundsOf(rows, a)| == |keys|
    ensures multiset(RoundsOf(rows, a)) == multiset(RoundsOf(rows, b))
    decreases |a|
  {
    if a == [] {
      ListingSize(a, keys);
      ListingSize(b, keys);
    } else {
      var n := |a| - 1;
      var last, rest := a[n], keys - {a[n]};
      assert last in b;
      var i :| 0 <= i < |b| && b[i] == last;
      var fewer := RemoveAt(b, i);
      assert Lists(a[..n], rest) by {
        assert a == a[..n] + [last];
      }
      ShorterListing(b, i, keys);
      ListingsAgree(rows, a[..n], fewer, rest);
      RowMoves(rows, b, i);
    }
  }

  lemma ShorterListing(b: seq<TaskId>, i: nat, keys: set<TaskId>)
    requires Lists(b, keys) && i < |b|
    ensures Lists(RemoveAt(b, i), keys - {b[i]})
  {
    var fewer := RemoveAt(b, i);
    assert forall j | 0 <= j < |fewer| :: fewer[j] == b[if j < i then j else j + 1];
    forall t | t in keys - {b[i]} ensures t in fewer {
      var j :| 0 <= j < |b| && b[j] == t;
      assert fewer[if j < i then j else j - 1] == t;
    }
  }

  lemma OneMoved(x: seq<Round>, round: Round, y: seq<Round>)
    ensures multiset(x + ([round] + y)) == multiset(x + y) + multiset{round}
  {
  }

  lemma RowMoves(rows: map<TaskId, Row>, b: seq<TaskId>, i: nat)
    requires i < |b| && forall t | t in b :: t in rows
    ensures forall t | t in RemoveAt(b, i) :: t in rows
    ensures multiset(RoundsOf(rows, b)) == multiset(RoundsOf(rows, RemoveAt(b, i))) + multiset{RoundOf(rows[b[i]])}
  {
    var before, one, after := b[..i], [b[i]], b[i + 1..];
    assert b == before + (one + after);
    RoundsOfSplit(rows, before, one + after);
    RoundsOfSplit(rows, one, after);
    assert forall t | t in RemoveAt(b, i) :: t in b;
    RoundsOfSplit(rows, before, after);
    var round := RoundOf(rows[b[i]]);
    assert one[..0] == [] && RoundsOf(rows, one) == [round];
    OneMoved(RoundsOf(rows, before), round, RoundsOf(rows, after));
  }

  lemma QualityOfOneMore(rounds: seq<Round>, round: Round)
    ensures QualityOf(rounds + [round]) == AddScores(QualityOf(rounds), round)
  {
    assert (rounds + [round])[..|rounds|] == rounds;
  }

  lemma {:induction false} ScoresMoveToEnd(xs: seq<Round>, a: Round, ys: seq<Round>)
    ensures QualityOf(xs + [a] + ys) == QualityOf(xs + ys + [a])
    decreases |ys|
  {
    if ys == [] {
      assert xs + [a] + ys == xs + ys + [a];
    } else {
      var before, y := ys[..|ys| - 1], ys[|ys| - 1];
      ScoresMoveToEnd(xs, a, before);
      assert xs + [a] + ys == xs + [a] + before + [y];
      assert xs + ys == xs + before + [y];
      QualityOfOneMore(xs + [a] + before, y);
      QualityOfOneMore(xs + before, a);
      QualityOfOneMore(xs + before, y);
      QualityOfOneMore(xs + ys, a);
    }
  }

  lemma {:induction false} QualityIgnoresOrder(a: seq<Round>, b: seq<Round>)
    requires multiset(a) == multiset(b)
    ensures QualityOf(a) == QualityOf(b)
    decreases |a|
  {
    if a == [] {
      assert |multiset(b)| == 0;
    } else {
      var i := LastOccurs(a, b);
      var last := a[|a| - 1];
      QualityIgnoresOrder(a[..|a| - 1], RemoveAt(b, i));
      ScoresMoveToEnd(b[..i], last, b[i + 1..]);
      assert b == b[..i] + [last] + b[i + 1..];
      QualityOfOneMore(RemoveAt(b, i), last);
    }
  }

  // ---------------------------------------------------------------- scoring in the arena

  ghost function SomeListing(keys: set<TaskId>): (tasks: seq<TaskId>)
    ensures Lists(tasks, keys)
  {
    if keys == {} then [] else
      var t :| t in keys;
      [t] + SomeListing(keys - {t})
  }

  ghost function Aggregate(rows: map<TaskId, Row>, poolTarget: int, te: Settings): (real, nat) {
    if poolTarget <= 0 then (0.0, 0) else ScoreOf(RoundsOf(rows, SomeListing(rows.Keys)), poolTarget, te)
  }

  /** The arena whose tallies carry the quality means and the token bonus. */
  ghost function Scored(cfg: Config, te: Settings): Config {
    cfg.(aggregate := (rows, poolTarget) => Aggregate(rows, poolTarget, te))
  }

  predicate Positive(targets: Targets) {
    targets.one > 0 && targets.two > 0
  }

  /** The score of a pool is that of its rows in whatever order the query lists them. */
  lemma AggregateIsOfAnyListing(rows: map<TaskId, Row>, poolTarget: int, te: Settings, tasks: seq<TaskId>)
    requires poolTarget > 0 && Lists(tasks, rows.Keys)
    ensures |RoundsOf(rows, tasks)| == |rows|
    ensures Aggregate(rows, poolTarget, te) == ScoreOf(RoundsOf(rows, tasks), poolTarget, te)
  {
    var other := SomeListing(rows.Keys);
    ListingsAgree(rows, tasks, other, rows.Keys);
    OrderIsIrrelevant(RoundsOf(rows, tasks), RoundsOf(rows, other), te);
    QualityIgnoresOrder(RoundsOf(rows, tasks), RoundsOf(rows, other));
    assert |rows| == |rows.Keys|;
  }

  predicate Within(a: real, b: real, distance: real) {
    b - distance <= a <= b + distance
  }

  lemma ScoreIsNearQuality(rounds: seq<Round>, poolTarget: int, te: Settings)
    requires te.Valid() && poolTarget > 0 && |rounds| <= poolTarget
    ensures Within(ScoreOf(rounds, poolTarget, te).0, QualityOf(rounds).Delta(), te.multiplier)
    ensures ScoreOf(rounds, poolTarget, te).1 == QualityOf(rounds).scored
  {
    var q := QualityOf(rounds);
    BoostsAreBounded(rounds, poolTarget, te, q.KingMean(), q.ChallengerMean());
  }

  lemma TallyIsScored(cfg: Config, te: Settings, rows: map<TaskId, Row>, pool: Pool, tasks: seq<TaskId>)
    requires te.Valid() && Positive(cfg.targets) && |rows| <= cfg.targets.Of(pool) && Lists(tasks, rows.Keys)
    ensures var tally := TallyRows(rows, Scored(cfg, te), pool);
      var rounds := RoundsOf(rows, tasks);
      && (tally.combinedDelta, tally.scoreRounds) == ScoreOf(rounds, cfg.targets.Of(pool), te)
      && Within(tally.combinedDelta, QualityOf(rounds).Delta(), te.multiplier)
      && tally.scoreRounds == QualityOf(rounds).scored
  {
    AggregateIsOfAnyListing(rows, cfg.targets.Of(pool), te, tasks);
    ScoreIsNearQuality(RoundsOf(rows, tasks), cfg.targets.Of(pool), te);
  }

  /** In every state of every run, for every duel: the judged rounds never outnumber the pool's
      target, so both boosts stay within the multiplier and the tally's combined delta is at most
      that far from the delta of the quality means, in whatever order the rows come. */
  lemma CombinedDeltaIsBounded(
    cfg: Config, te: Settings, founding: seq<Id>, run: seq<State>, events: seq<Event>, i: nat,
    c: Id, registered: bool, tasks: seq<TaskId>)
    requires te.Valid() && Positive(cfg.targets) && IsRun(Scored(cfg, te), founding, run, events) && i < |run|
    requires c in run[i].db.challenges && run[i].db.challenges[c].status.Dueling?
    requires var ch := run[i].db.challenges[c];
      Lists(tasks, Rounds(run[i].db, ch.king, c, ch.status.pool).Keys)
    ensures var active := ActiveOf(run[i].db, Scored(cfg, te), c, registered);
      var rounds := RoundsOf(Rounds(run[i].db, active.king, c, active.pool), tasks);
      && (active.tally.combinedDelta, active.tally.scoreRounds) == ScoreOf(rounds, active.poolTarget, te)
      && Within(active.tally.combinedDelta, QualityOf(rounds).Delta(), te.multiplier)
  {
    var ch := run[i].db.challenges[c];
    var rows := Rounds(run[i].db, ch.king, c, ch.status.pool);
    RoundsWithinTarget(Scored(cfg, te), founding, run, events, i, c, ch.status.pool);
    TallyCounts(rows, Scored(cfg, te), ch.status.pool);
    TallyIsScored(cfg, te, rows, ch.status.pool, tasks);
  }

  /** What a mean-score order was decided on is the whole pool. */
  lemma MeanOrdersSeeWholePool(cfg: Config, founding: set<Id>, db: Tables, o: Order, a: ActiveChallenge)
    requires cfg.rules.scoring.Mean? && TablesInv(cfg, founding, db) && OrderSound(cfg, founding, db, o)
    requires Decides(o, a) && a.registered
    ensures var rows := Rounds(db, a.king, a.challenger, a.pool);
      && o.rows == rows && rows.Keys == TasksIn(db.tasks, a.king, a.pool, Qualified)
      && |rows| == cfg.targets.Of(a.pool)
  {
    var rows := Rounds(db, a.king, a.challenger, a.pool);
    RoundsAreQualified(cfg, founding, db, a.challenger, a.pool);
    TallyCounts(o.rows, cfg, a.pool);
    SubsetCount(o.rows.Keys, rows.Keys);
    SubsetCount(rows.Keys, TasksIn(db.tasks, a.king, a.pool, Qualified));
  }

  /** The verdict on rounds listed in some order, and how far it follows their quality. */
  ghost predicate FollowsQuality(verdict: Verdict, rounds: seq<Round>, poolTarget: int, margin: real, te: Settings)
    requires poolTarget > 0
  {
    var q := QualityOf(rounds);
    && (verdict == if q.scored > 0 && ScoreOf(rounds, poolTarget, te).0 >= margin then Won else Defended)
    && (verdict == Won ==> q.scored > 0 && q.Delta() >= margin - te.multiplier)
    && (q.scored > 0 && q.Delta() >= margin + te.multiplier ==> verdict == Won)
  }

  lemma FullPoolFollowsQuality(cfg: Config, te: Settings, rows: map<TaskId, Row>, a: ActiveChallenge, tasks: seq<TaskId>)
    requires te.Valid() && Positive(cfg.targets) && cfg.rules.scoring.Mean? && a.registered
    requires a.poolTarget == cfg.targets.Of(a.pool) == |rows|
    requires a.tally == TallyRows(rows, Scored(cfg, te), a.pool) && Lists(tasks, rows.Keys)
    ensures FollowsQuality(VerdictOf(DecideActive(a, cfg.rules)), RoundsOf(rows, tasks), a.poolTarget, cfg.rules.meanMargin, te)
  {
    TallyIsScored(cfg, te, rows, a.pool, tasks);
    TallyCounts(rows, Scored(cfg, te), a.pool);
    assert a.Remaining() == 0;
  }

  /** Mean-score verdicts follow quality up to the bonus. However old the order: every qualified
      task of the pool was judged when it was decided, and listing them in any order, the
      challenger won exactly when some round is scored and the combined delta reaches the margin.
      So a challenger that trails the margin by more than the multiplier never wins, and one that
      leads it by the multiplier never loses, whatever tokens were spent. */
  lemma MeanVerdictsFollowQuality(
    cfg: Config, te: Settings, founding: seq<Id>, run: seq<State>, events: seq<Event>, i: nat,
    o: Order, a: ActiveChallenge, tasks: seq<TaskId>)
    requires te.Valid() && Positive(cfg.targets) && IsRun(Scored(cfg, te), founding, run, events) && i < |run|
    requires cfg.rules.scoring.Mean? && o in run[i].orders && Decides(o, a) && a.registered
    requires Lists(tasks, TasksIn(run[i].db.tasks, a.king, a.pool, Qualified))
    ensures var rows := Rounds(run[i].db, a.king, a.challenger, a.pool);
      && rows.Keys == TasksIn(run[i].db.tasks, a.king, a.pool, Qualified)
      && FollowsQuality(VerdictOf(o.action), RoundsOf(rows, tasks), cfg.targets.Of(a.pool), cfg.rules.meanMargin, te)
  {
    var scoring := Scored(cfg, te);
    RunKeepsInv(scoring, founding, run, events, i);
    assert OrderSound(scoring, Founders(founding), run[i].db, o);
    MeanOrdersSeeWholePool(scoring, Founders(founding), run[i].db, o, a);
    FullPoolFollowsQuality(cfg, te, o.rows, a, tasks);
  }

  // ---------------------------------------------------------------- in terms of the stored rows

  /** What the challenger leads by in a round: nothing unless both sides have a score. */
  function Lead(db: Tables, k: Id, c: Id, t: TaskId): real
    requires (t, k, c) in db.judgements
  {
    var j := db.judgements[(t, k, c)];
    if j.kingScore.Some? && j.challengerScore.Some? then j.challengerScore.value - j.kingScore.value else 0.0
  }

  /** The tokens a side reported for a round of this challenge, if any. */
  function Spent(db: Tables, c: Id, side: Id, t: TaskId): Option<int> {
    if (t, c, side) in db.solutions && db.solutions[(t, c, side)].Some? && db.solutions[(t, c, side)].value >= 0
    then db.solutions[(t, c, side)] else None
  }

  /** The part of the other side's tokens that a side did without, if its score allows a bonus. */
  function SavedPart(own: real, other: real, ownTokens: int, otherTokens: int, te: Settings): real {
    if own >= te.minScore && own >= other - te.tolerance && 0 <= ownTokens < otherTokens
    then (otherTokens - ownTokens) as real / otherTokens as real else 0.0
  }

  /** What the challenger saves in a round more than the king. */
  function SavingLead(db: Tables, k: Id, c: Id, t: TaskId, te: Settings): real
    requires (t, k, c) in db.judgements
  {
    var j := db.judgements[(t, k, c)];
    var (kingSpent, challengerSpent) := (Spent(db, c, k, t), Spent(db, c, c, t));
    var compared := j.kingScore.Some? && j.challengerScore.Some? && kingSpent.Some? && challengerSpent.Some?;
    if !te.enabled || j.failed || !compared then 0.0
    else
      var saved := SavedPart(j.challengerScore.value, j.kingScore.value, challengerSpent.value, kingSpent.value, te);
      saved - SavedPart(j.kingScore.value, j.challengerScore.value, kingSpent.value, challengerSpent.value, te)
  }

  function LeadSum(db: Tables, k: Id, c: Id, tasks: seq<TaskId>): real
    requires forall t | t in tasks :: (t, k, c) in db.judgements
  {
    if tasks == [] then 0.0
    else LeadSum(db, k, c, tasks[..|tasks| - 1]) + Lead(db, k, c, tasks[|tasks| - 1])
  }

  function SavingSum(db: Tables, k: Id, c: Id, tasks: seq<TaskId>, te: Settings): real
    requires forall t | t in tasks :: (t, k, c) in db.judgements
  {
    if tasks == [] then 0.0
    else SavingSum(db, k, c, tasks[..|tasks| - 1], te) + SavingLead(db, k, c, tasks[|tasks| - 1], te)
  }

  function ScoredTasks(db: Tables, k: Id, c: Id, tasks: set<TaskId>): set<TaskId>
    requires forall t | t in tasks :: (t, k, c) in db.judgements
  {
    set t | t in tasks && db.judgements[(t, k, c)].kingScore.Some? && db.judgements[(t, k, c)].challengerScore.Some?
  }

  function DeltaOf(lead: real, scored: nat, saving: real, poolTarget: int, multiplier: real): real
    requires poolTarget > 0
  {
    (if scored == 0 then 0.0 else lead / scored as real) + saving / poolTarget as real * multiplier
  }

  /** The delta the mean method holds against the margin: the mean lead, and the mean saving over the
      whole pool times the multiplier. */
  function StoredDelta(db: Tables, k: Id, c: Id, tasks: seq<TaskId>, poolTarget: int, te: Settings): real
    requires poolTarget > 0 && forall t | t in tasks :: (t, k, c) in db.judgements
  {
    DeltaOf(LeadSum(db, k, c, tasks), |ScoredTasks(db, k, c, set t | t in tasks)|,
            SavingSum(db, k, c, tasks, te), poolTarget, te.multiplier)
  }

  lemma RoundIsStored(db: Tables, k: Id, c: Id, pool: Pool, t: TaskId, te: Settings)
    requires t in Judged(db, k, c, pool)
    ensures t in Rounds(db, k, c, pool)
    ensures var round := RoundOf(Rounds(db, k, c, pool)[t]);
      && ChallengerSaving(round, te) - KingSaving(round, te) == SavingLead(db, k, c, t, te)
      && (round.kingScore.Some? && round.challengerScore.Some? ==>
            round.challengerScore.value - round.kingScore.value == Lead(db, k, c, t))
      && (round.kingScore.None? || round.challengerScore.None? ==> Lead(db, k, c, t) == 0.0)
  {
    var round := RoundOf(Rounds(db, k, c, pool)[t]);
    OneSideSaves(round, te);
    OneSideSaves(Swap(round), te);
    assert Swap(Swap(round)) == round;
  }

  lemma {:induction false} SumsAreStored(db: Tables, k: Id, c: Id, pool: Pool, tasks: seq<TaskId>, keys: set<TaskId>, te: Settings)
    requires Lists(tasks, keys) && keys <= Judged(db, k, c, pool)
    ensures (forall t | t in tasks :: (t, k, c) in db.judgements) && (forall t | t in tasks :: t in Rounds(db, k, c, pool))
    ensures var rounds := RoundsOf(Rounds(db, k, c, pool), tasks);
      && QualityOf(rounds).challenger - QualityOf(rounds).king == LeadSum(db, k, c, tasks)
      && QualityOf(rounds).scored == |ScoredTasks(db, k, c, keys)|
      && Total(rounds, te).challengerSaved - Total(rounds, te).kingSaved == SavingSum(db, k, c, tasks, te)
    decreases |tasks|
  {
    if tasks == [] {
      assert forall t :: t !in keys;
    } else {
      var n := |tasks| - 1;
      var t := tasks[n];
      assert tasks == tasks[..n] + [t];
      SumsAreStored(db, k, c, pool, tasks[..n], keys - {t}, te);
      RoundIsStored(db, k, c, pool, t, te);
      var rounds := RoundsOf(Rounds(db, k, c, pool), tasks);
      var before := RoundsOf(Rounds(db, k, c, pool), tasks[..n]);
      assert rounds == before + [RoundOf(Rounds(db, k, c, pool)[t])];
      QualityOfOneMore(before, RoundOf(Rounds(db, k, c, pool)[t]));
      TotalOfOneMore(before, RoundOf(Rounds(db, k, c, pool)[t]), te);
      ScoredOneMore(db, k, c, keys, t);
    }
  }

  lemma ScoredOneMore(db: Tables, k: Id, c: Id, keys: set<TaskId>, t: TaskId)
    requires t in keys && forall u | u in keys :: (u, k, c) in db.judgements
    ensures var j := db.judgements[(t, k, c)];
      |ScoredTasks(db, k, c, keys)|
      == |ScoredTasks(db, k, c, keys - {t})| + if j.kingScore.Some? && j.challengerScore.Some? then 1 else 0
  {
    var j := db.judgements[(t, k, c)];
    assert ScoredTasks(db, k, c, keys)
        == ScoredTasks(db, k, c, keys - {t}) + if j.kingScore.Some? && j.challengerScore.Some? then {t} else {};
  }

  lemma DeltaFromSums(q: Quality, t: Totals, poolTarget: int, te: Settings)
    requires poolTarget > 0 && (q.scored == 0 ==> q.king == 0.0 && q.challenger == 0.0)
    ensures CombinedDelta(q.KingMean(), q.ChallengerMean(), StatsOf(t, poolTarget, te))
         == DeltaOf(q.challenger - q.king, q.scored, t.challengerSaved - t.kingSaved, poolTarget, te.multiplier)
  {
    var p, m := poolTarget as real, te.multiplier;
    var (cs, ks) := (t.challengerSaved / p, t.kingSaved / p);
    assert (t.challengerSaved - t.kingSaved) / p == cs - ks;
    assert (cs - ks) * m == cs * m - ks * m;
    if q.scored > 0 {
      var n := q.scored as real;
      assert (q.challenger - q.king) / n == q.challenger / n - q.king / n;
    }
  }

  lemma {:induction false} NothingScored(rounds: seq<Round>)
    ensures QualityOf(rounds).scored == 0 ==> QualityOf(rounds) == Quality(0.0, 0.0, 0)
  {
    if rounds != [] {
      NothingScored(rounds[..|rounds| - 1]);
    }
  }

  lemma StoredDeltaFromSums(
    db: Tables, k: Id, c: Id, tasks: seq<TaskId>, keys: set<TaskId>, poolTarget: int, te: Settings,
    lead: real, scored: nat, saving: real)
    requires poolTarget > 0 && Lists(tasks, keys) && forall t | t in tasks :: (t, k, c) in db.judgements
    requires lead == LeadSum(db, k, c, tasks) && saving == SavingSum(db, k, c, tasks, te)
    requires scored == |ScoredTasks(db, k, c, keys)|
    ensures StoredDelta(db, k, c, tasks, poolTarget, te) == DeltaOf(lead, scored, saving, poolTarget, te.multiplier)
  {
    assert (set t | t in tasks) == keys;
  }

  /** The score of the rounds is that of the stored judgements and solutions. */
  lemma ScoreIsStored(db: Tables, k: Id, c: Id, pool: Pool, tasks: seq<TaskId>, poolTarget: int, te: Settings)
    requires poolTarget > 0 && Lists(tasks, Judged(db, k, c, pool))
    ensures (forall t | t in tasks :: (t, k, c) in db.judgements) && (forall t | t in tasks :: t in Rounds(db, k, c, pool))
    ensures ScoreOf(RoundsOf(Rounds(db, k, c, pool), tasks), poolTarget, te)
         == (StoredDelta(db, k, c, tasks, poolTarget, te), |ScoredTasks(db, k, c, Judged(db, k, c, pool))|)
  {
    var keys := Judged(db, k, c, pool);
    SumsAreStored(db, k, c, pool, tasks, keys, te);
    var rounds := RoundsOf(Rounds(db, k, c, pool), tasks);
    var q, total := QualityOf(rounds), Total(rounds, te);
    NothingScored(rounds);
    DeltaFromSums(q, total, poolTarget, te);
    StoredDeltaFromSums(
      db, k, c, tasks, keys, poolTarget, te, q.challenger - q.king, q.scored, total.challengerSaved - total.kingSaved);
  }

  /** Mean-score verdicts are those of the stored rows.  However old the order of a registered
      challenger, listing the pool's qualified tasks in any order: the challenger won exactly if some
      round is scored and its mean lead, with the multiplier times its mean saving over the pool,
      reaches the margin. */
  lemma MeanVerdictsFollowStoredRows(
    cfg: Config, te: Settings, founding: seq<Id>, run: seq<State>, events: seq<Event>, i: nat,
    o: Order, a: ActiveChallenge, tasks: seq<TaskId>)
    requires te.Valid() && Positive(cfg.targets) && IsRun(Scored(cfg, te), founding, run, events) && i < |run|
    requires cfg.rules.scoring.Mean? && o in run[i].orders && Decides(o, a) && a.registered
    requires Lists(tasks, TasksIn(run[i].db.tasks, a.king, a.pool, Qualified))
    ensures forall t | t in tasks :: (t, a.king, a.challenger) in run[i].db.judgements
    ensures var (db, k, c) := (run[i].db, a.king, a.challenger);
      VerdictOf(o.action)
      == if |ScoredTasks(db, k, c, set t | t in tasks)| > 0
            && StoredDelta(db, k, c, tasks, cfg.targets.Of(a.pool), te) >= cfg.rules.meanMargin
         then Won else Defended
  {
    MeanVerdictsFollowQuality(cfg, te, founding, run, events, i, o, a, tasks);
    RowsAreJudged(run[i].db, a.king, a.challenger, a.pool);
    ScoreIsStored(run[i].db, a.king, a.challenger, a.pool, tasks, cfg.targets.Of(a.pool), te);
    assert (set t | t in tasks) == Judged(run[i].db, a.king, a.challenger, a.pool);
  }
}

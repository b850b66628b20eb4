/**
 The symmetric token bonus of a mean-score duel, and the dashboard's second
 implementation of it, one task at a time.  Scores and boosts are reals.
 */
module TokenEfficiency {
  import opened Common

  datatype Settings = Settings(enabled: bool, tolerance: real, minScore: real, multiplier: real) {
    /** What building the settings insists on. */
    predicate Valid() {
      0.0 <= tolerance <= 1.0 && 0.0 <= minScore <= 1.0 && multiplier >= 0.0
    }
  }

  /** One judged task; a score or token count may be missing, a count may be negative. */
  datatype Round = Round(
    kingScore: Option<real>, challengerScore: Option<real>,
    kingTokens: Option<int>, challengerTokens: Option<int>, valid: bool)

  datatype Stats = Stats(
    kingTotal: Option<int>, challengerTotal: Option<int>, compared: nat,
    kingMean: real, challengerMean: real, kingBoost: real, challengerBoost: real)

  datatype Result = Ok(stats: Stats) | BadTarget

  function ValidTokens(tokens: Option<int>): Option<int> {
    if tokens.Some? && tokens.value >= 0 then tokens else None
  }

  function TaskSaving(own: real, opponent: real, ownTokens: int, opponentTokens: int, cfg: Settings): real {
    if own < cfg.minScore || own < opponent - cfg.tolerance || opponentTokens <= 0 then 0.0
    else
      var saving := 1.0 - ownTokens as real / opponentTokens as real;
      if saving > 0.0 then saving else 0.0
  }

  predicate Comparable(round: Round) {
    ValidTokens(round.kingTokens).Some? && ValidTokens(round.challengerTokens).Some?
  }

  predicate Scorable(round: Round, cfg: Settings) {
    Comparable(round) && cfg.enabled && round.valid && round.kingScore.Some? && round.challengerScore.Some?
  }

  function KingSaving(round: Round, cfg: Settings): real {
    if !Scorable(round, cfg) then 0.0
    else TaskSaving(round.kingScore.value, round.challengerScore.value,
                    round.kingTokens.value, round.challengerTokens.value, cfg)
  }

  function ChallengerSaving(round: Round, cfg: Settings): real {
    KingSaving(Swap(round), cfg)
  }

  function Swap(round: Round): Round {
    Round(round.challengerScore, round.kingScore, round.challengerTokens, round.kingTokens, round.valid)
  }

  // ---------------------------------------------------------------- totals

  /** What the rounds add up to; a total with a missing count is `None`. */
  datatype Totals = Totals(king: Option<int>, challenger: Option<int>, compared: nat, kingSaved: real, challengerSaved: real)

  function AddTokens(total: Option<int>, tokens: Option<int>): Option<int> {
    if total.Some? && ValidTokens(tokens).Some? then Some(total.value + tokens.value) else None
  }

  function AddRound(t: Totals, round: Round, cfg: Settings): Totals {
    Totals(AddTokens(t.king, round.kingTokens), AddTokens(t.challenger, round.challengerTokens),
           t.compared + (if Comparable(round) then 1 else 0),
           t.kingSaved + KingSaving(round, cfg), t.challengerSaved + ChallengerSaving(round, cfg))
  }

  function Total(rounds: seq<Round>, cfg: Settings): Totals {
    if rounds == [] then Totals(Some(0), Some(0), 0, 0.0, 0.0)
    else AddRound(Total(rounds[..|rounds| - 1], cfg), rounds[|rounds| - 1], cfg)
  }

  function Mean(saved: real, poolTarget: int): real
    requires poolTarget > 0
  {
    saved / poolTarget as real
  }

  function StatsOf(t: Totals, poolTarget: int, cfg: Settings): Stats
    requires poolTarget > 0
  {
    Stats(t.king, t.challenger, t.compared, Mean(t.kingSaved, poolTarget), Mean(t.challengerSaved, poolTarget),
          Mean(t.kingSaved, poolTarget) * cfg.multiplier, Mean(t.challengerSaved, poolTarget) * cfg.multiplier)
  }

  method CalculateTokenEfficiency(rounds: seq<Round>, poolTarget: int, cfg: Settings) returns (r: Result)
    ensures poolTarget <= 0 ==> r == BadTarget
    ensures poolTarget > 0 ==> r == Ok(StatsOf(Total(rounds, cfg), poolTarget, cfg))
  {
    if poolTarget <= 0 {
      return BadTarget;
    }
    var kingTotal, challengerTotal := 0, 0;
    var kingComplete, challengerComplete := true, true;
    var compared: nat := 0;
    var kingSavings, challengerSavings := 0.0, 0.0;
    for i := 0 to |rounds|
      invariant Total(rounds[..i], cfg) == Totals(
        if kingComplete then Some(kingTotal) else None, if challengerComplete then Some(challengerTotal) else None,
        compared, kingSavings, challengerSavings)
    {
      assert rounds[..i + 1][..i] == rounds[..i];
      var round := rounds[i];
      var kingTokens, challengerTokens := ValidTokens(round.kingTokens), ValidTokens(round.challengerTokens);
      if kingTokens.Some? {
        kingTotal := kingTotal + kingTokens.value;
      } else {
        kingComplete := false;
      }
      if challengerTokens.Some? {
        challengerTotal := challengerTotal + challengerTokens.value;
      } else {
        challengerComplete := false;
      }
      if kingTokens.None? || challengerTokens.None? {
        continue;
      }
      compared := compared + 1;
      if !cfg.enabled {
        continue;
      }
      if !round.valid || round.kingScore.None? || round.challengerScore.None? {
        continue;
      }
      kingSavings := kingSavings + TaskSaving(
        round.kingScore.value, round.challengerScore.value, kingTokens.value, challengerTokens.value, cfg);
      challengerSavings := challengerSavings + TaskSaving(
        round.challengerScore.value, round.kingScore.value, challengerTokens.value, kingTokens.value, cfg);
    }
    assert rounds[..|rounds|] == rounds;
    var kingMean, challengerMean := kingSavings / poolTarget as real, challengerSavings / poolTarget as real;
    return Ok(Stats(
      if kingComplete then Some(kingTotal) else None, if challengerComplete then Some(challengerTotal) else None,
      compared, kingMean, challengerMean, kingMean * cfg.multiplier, challengerMean * cfg.multiplier));
  }

  // ---------------------------------------------------------------- one side saves

  lemma SameFactor(a: real, b: real, x: real)
    requires x > 0.0 && a * x == b * x
    ensures a == b
  {
    assert (a - b) * x == a * x - b * x;
    assert a > b ==> (a - b) * x > 0.0;
    assert a < b ==> (b - a) * x > 0.0;
  }

  lemma FewerTokensSave(own: int, opponent: int)
    requires own >= 0 && opponent > 0
    ensures 1.0 - own as real / opponent as real <= 1.0
    ensures 1.0 - own as real / opponent as real > 0.0 <==> own < opponent
    ensures 1.0 - own as real / opponent as real == (opponent - own) as real / opponent as real
  {
    var q := own as real / opponent as real;
    assert q * opponent as real == own as real;
    assert q < 0.0 ==> q * opponent as real < 0.0;
    assert q < 1.0 <==> q * opponent as real < opponent as real;
    var left := (opponent - own) as real / opponent as real;
    assert left * opponent as real == opponent as real - own as real;
    assert (1.0 - q) * opponent as real == opponent as real - own as real;
    SameFactor(left, 1.0 - q, opponent as real);
  }

  /** In each round at most one side saves, and it saves at most everything: a saving side used
      strictly fewer tokens, scored enough and is not too far behind, and saves the part of the
      opponent's tokens that it did not need. */
  lemma OneSideSaves(round: Round, cfg: Settings)
    ensures 0.0 <= KingSaving(round, cfg) <= 1.0 && 0.0 <= ChallengerSaving(round, cfg) <= 1.0
    ensures KingSaving(round, cfg) == 0.0 || ChallengerSaving(round, cfg) == 0.0
    ensures KingSaving(round, cfg) > 0.0 <==>
      Scorable(round, cfg) && round.kingTokens.value < round.challengerTokens.value
      && round.kingScore.value >= cfg.minScore
      && round.kingScore.value >= round.challengerScore.value - cfg.tolerance
    ensures KingSaving(round, cfg) > 0.0 ==>
      KingSaving(round, cfg)
      == (round.challengerTokens.value - round.kingTokens.value) as real / round.challengerTokens.value as real
  {
    if Scorable(round, cfg) {
      var k, c := round.kingTokens.value, round.challengerTokens.value;
      if c > 0 {
        FewerTokensSave(k, c);
      }
      if k > 0 {
        FewerTokensSave(c, k);
      }
    }
  }

  lemma {:induction false} SavingsAreBounded(rounds: seq<Round>, cfg: Settings)
    ensures var t := Total(rounds, cfg);
      t.kingSaved >= 0.0 && t.challengerSaved >= 0.0 && t.kingSaved + t.challengerSaved <= |rounds| as real
  {
    if rounds != [] {
      SavingsAreBounded(rounds[..|rounds| - 1], cfg);
      OneSideSaves(rounds[|rounds| - 1], cfg);
    }
  }

  lemma MeansAreParts(k: real, c: real, n: int, target: int)
    requires 0.0 <= k && 0.0 <= c && k + c <= n as real && n <= target && target > 0
    ensures 0.0 <= Mean(k, target) && 0.0 <= Mean(c, target) && Mean(k, target) + Mean(c, target) <= 1.0
  {
    var t := target as real;
    var a, b := k / t, c / t;
    assert a * t == k && b * t == c;
    assert (a + b) * t == a * t + b * t;
    assert n as real <= t;
  }

  lemma ScaledParts(a: real, b: real, m: real)
    requires 0.0 <= a && 0.0 <= b && a + b <= 1.0 && m >= 0.0
    ensures 0.0 <= a * m && 0.0 <= b * m && a * m + b * m <= m
  {
    assert (a + b) * m == a * m + b * m;
    assert (a + b) * m <= 1.0 * m;
  }

  function CombinedDelta(kingMean: real, challengerMean: real, stats: Stats): real {
    (challengerMean + stats.challengerBoost) - (kingMean + stats.kingBoost)
  }

  lemma BoundedTotals(t: Totals, n: nat, poolTarget: int, cfg: Settings, kingMean: real, challengerMean: real)
    requires t.kingSaved >= 0.0 && t.challengerSaved >= 0.0 && t.kingSaved + t.challengerSaved <= n as real
    requires cfg.Valid() && n <= poolTarget && poolTarget > 0
    ensures var stats := StatsOf(t, poolTarget, cfg);
      && 0.0 <= stats.kingBoost && 0.0 <= stats.challengerBoost
      && stats.kingBoost + stats.challengerBoost <= cfg.multiplier
      && -cfg.multiplier <= CombinedDelta(kingMean, challengerMean, stats) - (challengerMean - kingMean) <= cfg.multiplier
  {
    MeansAreParts(t.kingSaved, t.challengerSaved, n, poolTarget);
    ScaledParts(Mean(t.kingSaved, poolTarget), Mean(t.challengerSaved, poolTarget), cfg.multiplier);
  }

  /** With no more rounds than the pool's target the boosts are nonnegative and together at most
      the multiplier, so they move the score delta by at most that, in either direction. */
  lemma BoostsAreBounded(rounds: seq<Round>, poolTarget: int, cfg: Settings, kingMean: real, challengerMean: real)
    requires cfg.Valid() && |rounds| <= poolTarget && poolTarget > 0
    ensures var stats := StatsOf(Total(rounds, cfg), poolTarget, cfg);
      && 0.0 <= stats.kingBoost && 0.0 <= stats.challengerBoost
      && stats.kingBoost + stats.challengerBoost <= cfg.multiplier
      && -cfg.multiplier <= CombinedDelta(kingMean, challengerMean, stats) - (challengerMean - kingMean) <= cfg.multiplier
  {
    SavingsAreBounded(rounds, cfg);
    BoundedTotals(Total(rounds, cfg), |rounds|, poolTarget, cfg, kingMean, challengerMean);
  }

  // ---------------------------------------------------------------- what the totals say

  function Sum(ns: seq<int>): int {
    if ns == [] then 0 else ns[0] + Sum(ns[1..])
  }

  lemma {:induction false} SumOfOneMore(ns: seq<int>, n: int)
    ensures Sum(ns + [n]) == Sum(ns) + n
  {
    if ns == [] {
      assert ns + [n] == [n];
    } else {
      assert (ns + [n])[1..] == ns[1..] + [n];
      SumOfOneMore(ns[1..], n);
    }
  }

  predicate Present(tokens: Option<int>) {
    tokens.Some? && tokens.value >= 0
  }

  function Known(tokens: Option<int>): int {
    if tokens.Some? then tokens.value else 0
  }

  function KingCounts(rounds: seq<Round>): seq<int> {
    seq(|rounds|, i requires 0 <= i < |rounds| => Known(rounds[i].kingTokens))
  }

  function ChallengerCounts(rounds: seq<Round>): seq<int> {
    seq(|rounds|, i requires 0 <= i < |rounds| => Known(rounds[i].challengerTokens))
  }

  /** The king's token total is the sum over all rounds, and there is one exactly if no round lacks
      its count. */
  lemma {:induction false} KingTotalIsSum(rounds: seq<Round>, cfg: Settings)
    ensures var total := Total(rounds, cfg).king;
      && (total.Some? <==> forall i | 0 <= i < |rounds| :: Present(rounds[i].kingTokens))
      && (total.Some? ==> total.value == Sum(KingCounts(rounds)))
  {
    if rounds != [] {
      var n := |rounds| - 1;
      KingTotalIsSum(rounds[..n], cfg);
      SumOfOneMore(KingCounts(rounds[..n]), Known(rounds[n].kingTokens));
      assert KingCounts(rounds) == KingCounts(rounds[..n]) + [Known(rounds[n].kingTokens)];
    }
  }

  lemma {:induction false} ChallengerTotalIsSum(rounds: seq<Round>, cfg: Settings)
    ensures var total := Total(rounds, cfg).challenger;
      && (total.Some? <==> forall i | 0 <= i < |rounds| :: Present(rounds[i].challengerTokens))
      && (total.Some? ==> total.value == Sum(ChallengerCounts(rounds)))
  {
    if rounds != [] {
      var n := |rounds| - 1;
      ChallengerTotalIsSum(rounds[..n], cfg);
      SumOfOneMore(ChallengerCounts(rounds[..n]), Known(rounds[n].challengerTokens));
      assert ChallengerCounts(rounds) == ChallengerCounts(rounds[..n]) + [Known(rounds[n].challengerTokens)];
    }
  }

  /** The rounds in which neither side lacks its count. */
  function ComparedAt(rounds: seq<Round>): set<int> {
    set i | 0 <= i < |rounds| && Present(rounds[i].kingTokens) && Present(rounds[i].challengerTokens)
  }

  lemma ComparedOneMore(rounds: seq<Round>, n: nat)
    requires |rounds| == n + 1
    ensures |ComparedAt(rounds)| == |ComparedAt(rounds[..n])| + if n in ComparedAt(rounds) then 1 else 0
  {
    assert ComparedAt(rounds) == ComparedAt(rounds[..n]) + if n in ComparedAt(rounds) then {n} else {};
  }

  lemma {:induction false} ComparedRounds(rounds: seq<Round>, cfg: Settings)
    ensures Total(rounds, cfg).compared == |ComparedAt(rounds)|
  {
    if rounds != [] {
      var n := |rounds| - 1;
      ComparedRounds(rounds[..n], cfg);
      ComparedOneMore(rounds, n);
      assert n in ComparedAt(rounds) <==> Comparable(rounds[n]);
    }
  }

  // ---------------------------------------------------------------- symmetry and order

  function SwapAll(rounds: seq<Round>): seq<Round> {
    if rounds == [] then [] else SwapAll(rounds[..|rounds| - 1]) + [Swap(rounds[|rounds| - 1])]
  }

  lemma {:induction false} SwappedTotals(rounds: seq<Round>, cfg: Settings)
    ensures var (t, s) := (Total(rounds, cfg), Total(SwapAll(rounds), cfg));
      s == Totals(t.challenger, t.king, t.compared, t.challengerSaved, t.kingSaved)
  {
    if rounds != [] {
      var before, last := rounds[..|rounds| - 1], rounds[|rounds| - 1];
      SwappedTotals(before, cfg);
      assert SwapAll(rounds)[..|SwapAll(rounds)| - 1] == SwapAll(before);
      assert Swap(Swap(last)) == last;
    }
  }

  lemma SwappedStats(t: Totals, s: Totals, poolTarget: int, cfg: Settings)
    requires poolTarget > 0 && s == Totals(t.challenger, t.king, t.compared, t.challengerSaved, t.kingSaved)
    ensures var (a, b) := (StatsOf(t, poolTarget, cfg), StatsOf(s, poolTarget, cfg));
      b == Stats(a.challengerTotal, a.kingTotal, a.compared, a.challengerMean, a.kingMean, a.challengerBoost, a.kingBoost)
  {
  }

  /** Swapping king and challenger in every round swaps everything reported about them. */
  lemma BonusIsSymmetric(rounds: seq<Round>, poolTarget: int, cfg: Settings)
    requires poolTarget > 0
    ensures var (a, b) := (StatsOf(Total(rounds, cfg), poolTarget, cfg), StatsOf(Total(SwapAll(rounds), cfg), poolTarget, cfg));
      b == Stats(a.challengerTotal, a.kingTotal, a.compared, a.challengerMean, a.kingMean, a.challengerBoost, a.kingBoost)
  {
    SwappedTotals(rounds, cfg);
    SwappedStats(Total(rounds, cfg), Total(SwapAll(rounds), cfg), poolTarget, cfg);
  }

  lemma RoundsCommute(t: Totals, a: Round, b: Round, cfg: Settings)
    ensures AddRound(AddRound(t, a, cfg), b, cfg) == AddRound(AddRound(t, b, cfg), a, cfg)
  {
  }

  lemma TotalOfOneMore(rounds: seq<Round>, a: Round, cfg: Settings)
    ensures Total(rounds + [a], cfg) == AddRound(Total(rounds, cfg), a, cfg)
  {
    assert (rounds + [a])[..|rounds|] == rounds;
  }

  lemma {:induction false} MoveToEnd(xs: seq<Round>, a: Round, ys: seq<Round>, cfg: Settings)
    ensures Total(xs + [a] + ys, cfg) == Total(xs + ys + [a], cfg)
    decreases |ys|
  {
    if ys == [] {
      assert xs + [a] + ys == xs + ys + [a];
    } else {
      var before, y := ys[..|ys| - 1], ys[|ys| - 1];
      MoveToEnd(xs, a, before, cfg);
      assert xs + [a] + ys == xs + [a] + before + [y];
      assert xs + ys == xs + before + [y];
      TotalOfOneMore(xs + [a] + before, y, cfg);
      TotalOfOneMore(xs + before, a, cfg);
      TotalOfOneMore(xs + before, y, cfg);
      TotalOfOneMore(xs + ys, a, cfg);
      RoundsCommute(Total(xs + before, cfg), a, y, cfg);
    }
  }

  lemma LastOccurs(a: seq<Round>, b: seq<Round>) returns (i: nat)
    requires a != [] && multiset(a) == multiset(b)
    ensures i < |b| && b[i] == a[|a| - 1]
    ensures multiset(a[..|a| - 1]) == multiset(RemoveAt(b, i))
  {
    var last := a[|a| - 1];
    assert last in multiset(b);
    i :| 0 <= i < |b| && b[i] == last;
    assert a == a[..|a| - 1] + [last];
    assert b == b[..i] + [last] + b[i + 1..];
    assert multiset(a) == multiset(a[..|a| - 1]) + multiset{last};
    assert multiset(b) == multiset(b[..i]) + multiset{last} + multiset(b[i + 1..]);
    assert multiset(RemoveAt(b, i)) == multiset(b[..i]) + multiset(b[i + 1..]);
    assert multiset(a) - multiset{last} == multiset(a[..|a| - 1]);
    assert multiset(b) - multiset{last} == multiset(RemoveAt(b, i));
  }

  /** The order in which the database lists the rounds does not matter. */
  lemma {:induction false} OrderIsIrrelevant(a: seq<Round>, b: seq<Round>, cfg: Settings)
    requires multiset(a) == multiset(b)
    ensures Total(a, cfg) == Total(b, cfg)
    decreases |a|
  {
    if a == [] {
      assert |multiset(b)| == 0;
    } else {
      var i := LastOccurs(a, b);
      var last := a[|a| - 1];
      OrderIsIrrelevant(a[..|a| - 1], RemoveAt(b, i), cfg);
      MoveToEnd(b[..i], last, b[i + 1..], cfg);
      assert b == b[..i] + [last] + b[i + 1..];
      TotalOfOneMore(RemoveAt(b, i), last, cfg);
    }
  }

  // ---------------------------------------------------------------- the dashboard

  datatype Reason =
    | Disabled | JudgeError | NoSettings | NoScore | NoUsage | ScoreTooLow | TooFarBehind | OpponentUsedNone
    | Eligible | EligibleNoSaving

  datatype Side = Side(eligible: bool, saving: Option<real>, contribution: real, reason: Reason)

  /** One task's row: the judged round and the settings stored with the duel's resolution,
      which are missing while the pool is unresolved. */
  datatype TaskRow = TaskRow(
    round: Round, enabled: bool, tolerance: Option<real>, minScore: Option<real>,
    multiplier: Option<real>, poolTarget: Option<int>)

  function SideFields(
    row: TaskRow, own: Option<real>, opponent: Option<real>, ownTokens: Option<int>, opponentTokens: Option<int>): Side
  {
    if !row.enabled then Side(false, Some(0.0), 0.0, Disabled)
    else if !row.round.valid then Side(false, Some(0.0), 0.0, JudgeError)
    else if row.tolerance.None? || row.minScore.None? || row.multiplier.None? || row.poolTarget.None?
            || row.poolTarget.value <= 0 then Side(false, None, 0.0, NoSettings)
    else if own.None? || opponent.None? then Side(false, None, 0.0, NoScore)
    else if ownTokens.None? || opponentTokens.None? then Side(false, None, 0.0, NoUsage)
    else if own.value < row.minScore.value then Side(false, Some(0.0), 0.0, ScoreTooLow)
    else if own.value < opponent.value - row.tolerance.value then Side(false, Some(0.0), 0.0, TooFarBehind)
    else if opponentTokens.value <= 0 then Side(false, Some(0.0), 0.0, OpponentUsedNone)
    else
      var left := 1.0 - ownTokens.value as real / opponentTokens.value as real;
      var saving := if left > 0.0 then left else 0.0;
      Side(true, Some(saving), saving / row.poolTarget.value as real * row.multiplier.value,
           if saving > 0.0 then Eligible else EligibleNoSaving)
  }

  function TaskTokenScoreFields(row: TaskRow): (Side, Side) {
    var r := row.round;
    var (k, c) := (ValidTokens(r.kingTokens), ValidTokens(r.challengerTokens));
    (SideFields(row, r.kingScore, r.challengerScore, k, c), SideFields(row, r.challengerScore, r.kingScore, c, k))
  }

  function RowFor(round: Round, poolTarget: int, cfg: Settings): TaskRow {
    TaskRow(round, cfg.enabled, Some(cfg.tolerance), Some(cfg.minScore), Some(cfg.multiplier), Some(poolTarget))
  }

  /** The dashboard's contributions of both sides, added up over the tasks. */
  function Contributions(rounds: seq<Round>, poolTarget: int, cfg: Settings): (real, real) {
    if rounds == [] then (0.0, 0.0)
    else
      var before := Contributions(rounds[..|rounds| - 1], poolTarget, cfg);
      var (k, c) := TaskTokenScoreFields(RowFor(rounds[|rounds| - 1], poolTarget, cfg));
      (before.0 + k.contribution, before.1 + c.contribution)
  }

  lemma ScaledSum(a: real, b: real, t: real, m: real)
    requires t > 0.0
    ensures (a + b) / t * m == a / t * m + b / t * m
  {
    assert (a + b) / t == a / t + b / t;
  }

  /** A side the dashboard does not call eligible saves nothing, and it contributes its saving's
      part of the pool. */
  lemma ContributionIsScaledSaving(round: Round, poolTarget: int, cfg: Settings)
    requires poolTarget > 0
    ensures var (k, c) := TaskTokenScoreFields(RowFor(round, poolTarget, cfg));
      && k.contribution == KingSaving(round, cfg) / poolTarget as real * cfg.multiplier
      && c.contribution == ChallengerSaving(round, cfg) / poolTarget as real * cfg.multiplier
      && (k.reason == Eligible <==> KingSaving(round, cfg) > 0.0)
      && (c.reason == Eligible <==> ChallengerSaving(round, cfg) > 0.0)
  {
    var t := poolTarget as real;
    assert 0.0 / t == 0.0;
  }

  lemma BoostsAdd(t: Totals, round: Round, poolTarget: int, cfg: Settings)
    requires poolTarget > 0
    ensures var (before, after) := (StatsOf(t, poolTarget, cfg), StatsOf(AddRound(t, round, cfg), poolTarget, cfg));
      && after.kingBoost == before.kingBoost + KingSaving(round, cfg) / poolTarget as real * cfg.multiplier
      && after.challengerBoost == before.challengerBoost + ChallengerSaving(round, cfg) / poolTarget as real * cfg.multiplier
  {
    var k, c := KingSaving(round, cfg), ChallengerSaving(round, cfg);
    ScaledSum(t.kingSaved, k, poolTarget as real, cfg.multiplier);
    ScaledSum(t.challengerSaved, c, poolTarget as real, cfg.multiplier);
  }

  lemma ScaledStep(t: Totals, round: Round, poolTarget: int, cfg: Settings)
    requires poolTarget > 0
    ensures var (before, after) := (StatsOf(t, poolTarget, cfg), StatsOf(AddRound(t, round, cfg), poolTarget, cfg));
      var (k, c) := TaskTokenScoreFields(RowFor(round, poolTarget, cfg));
      after.kingBoost == before.kingBoost + k.contribution
      && after.challengerBoost == before.challengerBoost + c.contribution
  {
    ContributionIsScaledSaving(round, poolTarget, cfg);
    BoostsAdd(t, round, poolTarget, cfg);
  }

  /** The two implementations agree: over any rounds, the dashboard's per-task contributions of
      each side add up exactly to that side's boost. */
  lemma {:induction false} DashboardAddsUp(rounds: seq<Round>, poolTarget: int, cfg: Settings)
    requires poolTarget > 0
    ensures var stats := StatsOf(Total(rounds, cfg), poolTarget, cfg);
      Contributions(rounds, poolTarget, cfg) == (stats.kingBoost, stats.challengerBoost)
  {
    if rounds == [] {
      var t := poolTarget as real;
      assert 0.0 / t == 0.0;
    } else {
      var before, last := rounds[..|rounds| - 1], rounds[|rounds| - 1];
      DashboardAddsUp(before, poolTarget, cfg);
      ScaledStep(Total(before, cfg), last, poolTarget, cfg);
    }
  }

  /** What each reason the dashboard gives a side says of its task is so, and a saving is shown unless the
      settings, a score or a count is missing. */
  ghost predicate ReasonHolds(
    row: TaskRow, side: Side, own: Option<real>, opponent: Option<real>, ownTokens: Option<int>, opponentTokens: Option<int>)
  {
    && (side.eligible <==> side.reason in {Eligible, EligibleNoSaving})
    && (side.saving.None? <==> side.reason in {NoSettings, NoScore, NoUsage})
    && (side.saving.Some? && side.reason != Eligible ==> side.saving.value == 0.0)
    && (side.reason != Eligible ==> side.contribution == 0.0)
    && (side.reason == Disabled <==> !row.enabled)
    && (side.reason == JudgeError <==> row.enabled && !row.round.valid)
    && match side.reason
       case NoScore => own.None? || opponent.None?
       case NoUsage => own.Some? && opponent.Some? && !(Present(ownTokens) && Present(opponentTokens))
       case ScoreTooLow => own.Some? && row.minScore.Some? && own.value < row.minScore.value
       case TooFarBehind =>
         && own.Some? && opponent.Some? && row.minScore.Some? && row.tolerance.Some?
         && own.value >= row.minScore.value && own.value < opponent.value - row.tolerance.value
       case OpponentUsedNone => opponentTokens == Some(0)
       case Eligible => Present(ownTokens) && Present(opponentTokens) && ownTokens.value < opponentTokens.value
       case EligibleNoSaving => Present(ownTokens) && Present(opponentTokens) && ownTokens.value >= opponentTokens.value > 0
       case _ => true
  }

  lemma SideReasonHolds(
    row: TaskRow, own: Option<real>, opponent: Option<real>, ownTokens: Option<int>, opponentTokens: Option<int>)
    ensures ReasonHolds(row, SideFields(row, own, opponent, ValidTokens(ownTokens), ValidTokens(opponentTokens)),
                        own, opponent, ownTokens, opponentTokens)
  {
    if Present(ownTokens) && Present(opponentTokens) && opponentTokens.value > 0 {
      FewerTokensSave(ownTokens.value, opponentTokens.value);
    }
    if row.poolTarget.Some? && row.poolTarget.value > 0 {
      var t := row.poolTarget.value as real;
      assert 0.0 / t == 0.0;
    }
  }

  lemma ReasonsAreTrue(row: TaskRow)
    ensures var ((k, c), r) := (TaskTokenScoreFields(row), row.round);
      && ReasonHolds(row, k, r.kingScore, r.challengerScore, r.kingTokens, r.challengerTokens)
      && ReasonHolds(row, c, r.challengerScore, r.kingScore, r.challengerTokens, r.kingTokens)
  {
    var r := row.round;
    SideReasonHolds(row, r.kingScore, r.challengerScore, r.kingTokens, r.challengerTokens);
    SideReasonHolds(row, r.challengerScore, r.kingScore, r.challengerTokens, r.kingTokens);
  }
}

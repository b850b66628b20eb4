/**
 The duel decision: the stop predicates, the two scoring methods, and `decide`.
 Scores are reals.
 */
module Duel {
  import opened Common

  datatype ScoringMethod = RoundWins | Mean

  /** What the judge said of one round; anything but a decisive win counts as a tie. */
  datatype Winner = KingWins | ChallengerWins | NoWinner

  datatype Tally = Tally(wins: nat, losses: nat, ties: nat, combinedDelta: real, scoreRounds: nat) {
    function Judged(): nat {
      wins + losses + ties
    }
  }

  datatype ActiveChallenge = ActiveChallenge(
    challenger: Id, king: Id, pool: Pool, poolTarget: int, tally: Tally, registered: bool)
  {
    function Remaining(): nat {
      if poolTarget > tally.Judged() then poolTarget - tally.Judged() else 0
    }
  }

  datatype Snapshot = Snapshot(
    king: Option<Id>, active: Option<ActiveChallenge>, next: Option<Id>, poolsReady: bool)

  datatype CloseReason = KingDefended | Deregistered
  datatype WaitReason = NoKing | Paused | PoolsNotReady | NoChallenger | InProgress

  datatype Action =
    | Nothing(wait: WaitReason)
    | OpenChallenge(king: Id, next: Id)
    | AdvancePool(challenge: ActiveChallenge)
    | Promote(challenge: ActiveChallenge)
    | CloseChallenge(challenge: ActiveChallenge, reason: CloseReason)

  datatype Rules = Rules(scoring: ScoringMethod, winMargin: int, meanMargin: real)

  // ---------------------------------------------------------------- predicates

  predicate Beats(wins: int, losses: int, margin: int) {
    wins > losses + margin
  }

  predicate WinsByMean(delta: real, rounds: int, margin: real) {
    rounds > 0 && delta >= margin
  }

  predicate Unbeatable(wins: int, losses: int, remaining: int, margin: int) {
    Beats(wins, losses + AtLeastZero(remaining), margin)
  }

  predicate CannotCatch(wins: int, losses: int, remaining: int, margin: int) {
    !Beats(wins + AtLeastZero(remaining), losses, margin)
  }

  // ---------------------------------------------------------------- decide

  function PoolWon(active: ActiveChallenge): Action {
    if active.pool.PoolOne? then AdvancePool(active) else Promote(active)
  }

  function DecideRoundWins(active: ActiveChallenge, margin: int): Action {
    if Unbeatable(active.tally.wins, active.tally.losses, active.Remaining(), margin) then PoolWon(active)
    else if CannotCatch(active.tally.wins, active.tally.losses, active.Remaining(), margin) then
      CloseChallenge(active, KingDefended)
    else Nothing(InProgress)
  }

  function DecideMean(active: ActiveChallenge, margin: real): Action {
    if active.Remaining() > 0 then Nothing(InProgress)
    else if !WinsByMean(active.tally.combinedDelta, active.tally.scoreRounds, margin) then
      CloseChallenge(active, KingDefended)
    else PoolWon(active)
  }

  function DecideActive(active: ActiveChallenge, rules: Rules): Action {
    if !active.registered then CloseChallenge(active, Deregistered)
    else match rules.scoring
      case RoundWins => DecideRoundWins(active, rules.winMargin)
      case Mean => DecideMean(active, rules.meanMargin)
  }

  function Decide(snapshot: Snapshot, rules: Rules, paused: bool): Action {
    if snapshot.king.None? then Nothing(NoKing)
    else if snapshot.active.Some? then DecideActive(snapshot.active.value, rules)
    else if paused then Nothing(Paused)
    else if !snapshot.poolsReady then Nothing(PoolsNotReady)
    else if snapshot.next.None? then Nothing(NoChallenger)
    else OpenChallenge(snapshot.king.value, snapshot.next.value)
  }

  /** Nothing is left to judge: a registered challenge is decided under either method. */
  lemma DecidedWhenNothingRemains(active: ActiveChallenge, rules: Rules)
    ensures active.Remaining() == 0 ==> !DecideActive(active, rules).Nothing?
  {
  }

  /** The two stop predicates exclude each other, and one of them holds at the end. */
  lemma StopPredicatesAreExclusive(wins: int, losses: int, remaining: int, margin: int)
    ensures !(Unbeatable(wins, losses, remaining, margin) && CannotCatch(wins, losses, remaining, margin))
    ensures remaining <= 0 ==>
      (Unbeatable(wins, losses, remaining, margin) <==> !CannotCatch(wins, losses, remaining, margin))
  {
  }

  // ---------------------------------------------------------------- early stopping

  /** An action without the tally it was decided on. */
  datatype Verdict = Waits | Won | Defended | Forfeited

  function VerdictOf(a: Action): Verdict {
    match a
    case AdvancePool(_) => Won
    case Promote(_) => Won
    case CloseChallenge(_, KingDefended) => Defended
    case CloseChallenge(_, Deregistered) => Forfeited
    case _ => Waits
  }

  /** A decision taken early stands: rounds judged later, within the pool's target, cannot
      turn it into a wait or into the other verdict. */
  lemma DecisionStands(active: ActiveChallenge, later: Tally, margin: int)
    requires active.tally.wins <= later.wins && active.tally.losses <= later.losses && active.tally.ties <= later.ties
    requires later.Judged() <= active.poolTarget
    ensures var now := VerdictOf(DecideRoundWins(active, margin));
      now != Waits ==> VerdictOf(DecideRoundWins(active.(tally := later), margin)) == now
  {
    var after := active.(tally := later);
    assert active.Remaining() - after.Remaining() == later.Judged() - active.tally.Judged();
    if Unbeatable(active.tally.wins, active.tally.losses, active.Remaining(), margin) {
      assert Unbeatable(later.wins, later.losses, after.Remaining(), margin);
    } else if CannotCatch(active.tally.wins, active.tally.losses, active.Remaining(), margin) {
      assert CannotCatch(later.wins, later.losses, after.Remaining(), margin);
      StopPredicatesAreExclusive(later.wins, later.losses, after.Remaining(), margin);
    }
  }

  function TallyOf(rounds: seq<Winner>): Tally {
    Tally(Count(rounds, ChallengerWins), Count(rounds, KingWins), Count(rounds, NoWinner), 0.0, 0)
  }

  lemma {:induction false} CountAll(rounds: seq<Winner>)
    ensures TallyOf(rounds).Judged() == |rounds|
  {
    if rounds != [] {
      CountAll(rounds[1..]);
      match rounds[0]
      case KingWins =>
      case ChallengerWins =>
      case NoWinner =>
    }
  }

  /** What the resolver does when it polls after the first `n` rounds have been judged. */
  function PollAt(active: ActiveChallenge, rounds: seq<Winner>, n: nat, margin: int): Action
    requires n <= |rounds|
  {
    DecideRoundWins(active.(tally := TallyOf(rounds[..n])), margin)
  }

  /** The first poll that does not wait, if any. */
  function FirstDecision(active: ActiveChallenge, rounds: seq<Winner>, polls: seq<nat>, margin: int): Option<Action>
    requires forall i | 0 <= i < |polls| :: polls[i] <= |rounds|
  {
    if polls == [] then None
    else if PollAt(active, rounds, polls[0], margin).Nothing? then FirstDecision(active, rounds, polls[1..], margin)
    else Some(PollAt(active, rounds, polls[0], margin))
  }

  lemma PrefixTally(rounds: seq<Winner>, n: nat)
    requires n <= |rounds|
    ensures var part, all := TallyOf(rounds[..n]), TallyOf(rounds);
      && part.wins <= all.wins && part.losses <= all.losses && part.ties <= all.ties
      && part.Judged() == n && all.Judged() == |rounds|
  {
    assert rounds == rounds[..n] + rounds[n..];
    CountSplit(rounds[..n], rounds[n..], ChallengerWins);
    CountSplit(rounds[..n], rounds[n..], KingWins);
    CountSplit(rounds[..n], rounds[n..], NoWinner);
    CountAll(rounds[..n]);
    CountAll(rounds);
  }

  lemma FullTallyDecides(active: ActiveChallenge, margin: int)
    requires active.tally.Judged() == active.poolTarget
    ensures VerdictOf(DecideRoundWins(active, margin))
         == if active.tally.wins > active.tally.losses + margin then Won else Defended
  {
  }

  /** What judging every round gives: the challenger wins by outscoring the king by more than the
      margin, rounds without a winner counting for neither. */
  function FullVerdict(rounds: seq<Winner>, margin: int): Verdict {
    if Count(rounds, ChallengerWins) > Count(rounds, KingWins) + margin then Won else Defended
  }

  /** A poll that does not wait already gives the verdict of the full tally. */
  lemma PollAgreesWithFullTally(active: ActiveChallenge, rounds: seq<Winner>, n: nat, margin: int)
    requires n <= |rounds| && active.poolTarget == |rounds|
    ensures VerdictOf(PollAt(active, rounds, n, margin)) != Waits ==>
      VerdictOf(PollAt(active, rounds, n, margin)) == FullVerdict(rounds, margin)
    ensures n == |rounds| ==> VerdictOf(PollAt(active, rounds, n, margin)) != Waits
  {
    PrefixTally(rounds, n);
    var polled := active.(tally := TallyOf(rounds[..n]));
    DecisionStands(polled, TallyOf(rounds), margin);
    assert polled.(tally := TallyOf(rounds)) == active.(tally := TallyOf(rounds));
    FullTallyDecides(active.(tally := TallyOf(rounds)), margin);
    if n == |rounds| {
      assert rounds[..n] == rounds;
    }
  }

  /** Early stopping refines judging everything: whatever the order of the outcomes and
      whichever prefixes are polled, the first decision taken is the one the full tally gives;
      and a decision is taken if the full tally is ever polled. */
  lemma {:induction false} EarlyStopIsExact(active: ActiveChallenge, rounds: seq<Winner>, polls: seq<nat>, margin: int)
    requires active.poolTarget == |rounds|
    requires forall i | 0 <= i < |polls| :: polls[i] <= |rounds|
    ensures var first := FirstDecision(active, rounds, polls, margin);
      && (|rounds| in polls ==> first.Some?)
      && (first.Some? ==> VerdictOf(first.value) == FullVerdict(rounds, margin))
  {
    if polls != [] {
      PollAgreesWithFullTally(active, rounds, polls[0], margin);
      EarlyStopIsExact(active, rounds, polls[1..], margin);
    }
  }

  function Same(n: nat, w: Winner): seq<Winner> {
    if n == 0 then [] else [w] + Same(n - 1, w)
  }

  lemma {:induction false} CountSame(n: nat, w: Winner, x: Winner)
    ensures |Same(n, w)| == n && Count(Same(n, w), x) == if w == x then n else 0
  {
    if n > 0 {
      CountSame(n - 1, w, x);
      assert Same(n, w)[1..] == Same(n - 1, w);
    }
  }

  /** The rounds still to be judged can be such that judging everything gives this verdict. */
  ghost predicate StillPossible(judged: seq<Winner>, remaining: nat, margin: int, verdict: Verdict) {
    exists rest: seq<Winner> :: |rest| == remaining && FullVerdict(judged + rest, margin) == verdict
  }

  lemma AllTheSame(judged: seq<Winner>, n: nat, w: Winner)
    ensures |Same(n, w)| == n
    ensures Count(judged + Same(n, w), ChallengerWins) == Count(judged, ChallengerWins) + if w.ChallengerWins? then n else 0
    ensures Count(judged + Same(n, w), KingWins) == Count(judged, KingWins) + if w.KingWins? then n else 0
  {
    CountSame(n, w, ChallengerWins);
    CountSame(n, w, KingWins);
    CountSplit(judged, Same(n, w), ChallengerWins);
    CountSplit(judged, Same(n, w), KingWins);
  }

  lemma PossibleExactly(judged: seq<Winner>, remaining: nat, margin: int)
    ensures StillPossible(judged, remaining, margin, Won)
      <==> Count(judged, ChallengerWins) + remaining > Count(judged, KingWins) + margin
    ensures StillPossible(judged, remaining, margin, Defended)
      <==> Count(judged, ChallengerWins) <= Count(judged, KingWins) + remaining + margin
  {
    forall rest: seq<Winner> | |rest| == remaining
      ensures Count(judged + rest, ChallengerWins) <= Count(judged, ChallengerWins) + remaining
      ensures Count(judged + rest, KingWins) <= Count(judged, KingWins) + remaining
      ensures Count(judged + rest, ChallengerWins) >= Count(judged, ChallengerWins)
      ensures Count(judged + rest, KingWins) >= Count(judged, KingWins)
    {
      CountSplit(judged, rest, ChallengerWins);
      CountSplit(judged, rest, KingWins);
      CountAll(rest);
    }
    AllTheSame(judged, remaining, ChallengerWins);
    AllTheSame(judged, remaining, KingWins);
    var best, worst := Same(remaining, ChallengerWins), Same(remaining, KingWins);
    assert |best| == |worst| == remaining;
    if FullVerdict(judged + best, margin) == Won {
      assert StillPossible(judged, remaining, margin, Won);
    }
    if FullVerdict(judged + worst, margin) == Defended {
      assert StillPossible(judged, remaining, margin, Defended);
    }
  }

  /** Early stopping is as early as can be: a poll of a prefix waits exactly when the rounds to come
      could still give either verdict. */
  lemma EarlyStopIsEarliest(active: ActiveChallenge, rounds: seq<Winner>, n: nat, margin: int)
    requires n <= |rounds| && active.poolTarget == |rounds|
    ensures VerdictOf(PollAt(active, rounds, n, margin)) == Waits
      <==> StillPossible(rounds[..n], |rounds| - n, margin, Won)
           && StillPossible(rounds[..n], |rounds| - n, margin, Defended)
  {
    PrefixTally(rounds, n);
    PossibleExactly(rounds[..n], |rounds| - n, margin);
  }

  /** The next pool after a won one, and no forfeit but for a deregistered challenger. */
  lemma WinningMovesOn(active: ActiveChallenge, rules: Rules)
    ensures var action := DecideActive(active, rules);
      && (VerdictOf(action) == Forfeited <==> !active.registered)
      && (VerdictOf(action) == Won ==>
            action == if active.pool == PoolOne then AdvancePool(active) else Promote(active))
      && (VerdictOf(action) in {Defended, Forfeited} ==> action.CloseChallenge? && action.challenge == active)
  {
  }
}

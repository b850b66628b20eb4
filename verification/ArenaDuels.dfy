/**
 How many duels are active, who may still decide one, and what becomes of a duel
 whose king has been dethroned.  Everything is about the runs of `ArenaRuns`; a
 single resolver is a restriction on those runs.
 */
module ArenaDuels {
  import opened Common
  import opened Duel
  import opened Arena
  import opened ArenaRuns

  predicate Active(db: Tables, c: Id) {
    c in db.challenges && db.challenges[c].status.Dueling?
  }

  /** At most one challenge is active, and it faces the reigning king. */
  ghost predicate OneDuel(db: Tables) {
    && (forall c | Active(db, c) :: Reigning(db) == Some(db.challenges[c].king))
    && forall c, d | Active(db, c) && Active(db, d) :: c == d
  }

  // ---------------------------------------------------------------- what keeps one duel

  /** Opening is harmless: it does nothing, or the king still reigns and nobody is dueling. */
  ghost predicate InTime(db: Tables, k: Id, c: Id) {
    c in db.challenges || (Reigning(db) == Some(k) && forall d :: !Active(db, d))
  }

  ghost predicate OpensInTime(s: State, e: Event) {
    e.Apply? && e.order.action.OpenChallenge? ==> InTime(s.db, e.order.action.king, e.order.action.next)
  }

  lemma OpeningKeepsOneDuelExactly(db: Tables, k: Id, c: Id)
    requires OneDuel(db)
    ensures OneDuel(Open(db, k, c)) <==> InTime(db, k, c)
  {
    var db' := Open(db, k, c);
    if c !in db.challenges {
      assert Active(db', c) && db'.challenges[c].king == k && Reigning(db') == Reigning(db);
      assert forall d :: Active(db', d) <==> Active(db, d) || d == c;
    }
  }

  lemma ClosingEndsDuel(db: Tables, a: ActiveChallenge, outcome: Outcome)
    requires OneDuel(db)
    ensures OneDuel(Transition(db, a, Closed, outcome))
    ensures StillIn(db, a) ==> forall c :: !Active(Transition(db, a, Closed, outcome), c)
  {
    var db' := Transition(db, a, Closed, outcome);
    if StillIn(db, a) {
      assert Active(db, a.challenger);
      forall c ensures !Active(db', c) {
        assert Active(db', c) ==> Active(db, c) && c != a.challenger;
      }
    }
  }

  lemma OtherActionsKeepOneDuel(db: Tables, action: Action)
    requires OneDuel(db) && !action.OpenChallenge?
    ensures OneDuel(ApplyAction(db, action))
  {
    match action
    case CloseChallenge(a, reason) => ClosingEndsDuel(db, a, CloseOutcome(reason));
    case Promote(a) =>
      ClosingEndsDuel(db, a, ChallengerWon);
      assert forall c :: Active(Crown(db, a), c) ==> Active(Transition(db, a, Closed, ChallengerWon), c);
    case AdvancePool(a) =>
      if StillIn(db, a) {
        assert Active(db, a.challenger);
        assert forall c :: Active(Advance(db, a), c) ==> Active(db, c);
      }
    case _ =>
  }

  lemma SameDuelsKeepOneDuel(db: Tables, db': Tables)
    requires OneDuel(db) && SameDuels(db, db')
    ensures OneDuel(db')
  {
    assert forall c :: Active(db', c) <==> Active(db, c);
  }

  /** Exactly which steps keep a single duel that faces the reigning king: all but the opening of
      a new challenge for a king who no longer reigns or while somebody is dueling. */
  lemma StepKeepsOneDuelExactly(cfg: Config, s: State, e: Event)
    requires Allowed(s, e) && OneDuel(s.db)
    ensures OneDuel(Next(cfg, s, e).db) <==> OpensInTime(s, e)
  {
    match e
    case Apply(o) =>
      if o.action.OpenChallenge? {
        OpeningKeepsOneDuelExactly(s.db, o.action.king, o.action.next);
      } else {
        OtherActionsKeepOneDuel(s.db, o.action);
      }
    case Worker(w) =>
      WorkLeavesDuels(cfg, s.db, w);
      SameDuelsKeepOneDuel(s.db, DoWork(s.db, cfg, w));
    case _ =>
  }

  /** A run, with any number of resolvers, never leaves the single duel exactly when every opening
      takes effect in time. */
  lemma {:induction false} OneDuelExactly(
    cfg: Config, founding: seq<Id>, run: seq<State>, events: seq<Event>, i: nat)
    requires IsRun(cfg, founding, run, events) && i < |run|
    ensures (forall m | 0 <= m <= i :: OneDuel(run[m].db)) <==> (forall m | 0 <= m < i :: OpensInTime(run[m], events[m]))
  {
    if i > 0 {
      var last := i - 1;
      OneDuelExactly(cfg, founding, run, events, last);
      assert Allowed(run[last], events[last]) && run[last + 1] == Next(cfg, run[last], events[last]);
      if OneDuel(run[last].db) {
        StepKeepsOneDuelExactly(cfg, run[last], events[last]);
      }
    }
  }

  // ---------------------------------------------------------------- one resolver

  /** The order applied at `m` was decided on the snapshot taken at `l`, and in between only other
      workers acted. */
  ghost predicate TickFrom(cfg: Config, run: seq<State>, events: seq<Event>, l: nat, m: nat)
    requires l < m < |events| <= |run| && events[m].Apply?
  {
    && events[l].TakeSnapshot?
    && QueryResult(run[l].db, events[l].pick, events[l].next)
    && events[m].order
       == OrderNow(run[l].db, cfg, events[l].pick, events[l].registered, events[l].next, events[l].paused)
    && forall n | l < n < m :: events[n].PollJudge? || events[n].Worker?
  }

  /** A lone resolver applies each order right after the snapshot it was decided on, at most once;
      it may be restarted anywhere, which forgets an order. */
  ghost predicate OneResolver(cfg: Config, run: seq<State>, events: seq<Event>)
    requires |events| <= |run|
  {
    forall m | 0 <= m < |events| && events[m].Apply? :: exists l: nat :: l < m && TickFrom(cfg, run, events, l, m)
  }

  lemma {:induction false} OthersLeaveDuels(
    cfg: Config, founding: seq<Id>, run: seq<State>, events: seq<Event>, l: nat, m: nat)
    requires IsRun(cfg, founding, run, events) && l < m < |run| && events[l].TakeSnapshot?
    requires forall n | l < n < m :: events[n].PollJudge? || events[n].Worker?
    ensures SameDuels(run[l].db, run[m].db)
    decreases m
  {
    var last := m - 1;
    assert Allowed(run[last], events[last]) && run[last + 1] == Next(cfg, run[last], events[last]);
    if l < last {
      OthersLeaveDuels(cfg, founding, run, events, l, last);
      if events[last].Worker? {
        WorkLeavesDuels(cfg, run[last].db, events[last].work);
      }
    }
  }

  lemma SnapshotOpensInTime(cfg: Config, db: Tables, e: Event)
    requires e.TakeSnapshot? && QueryResult(db, e.pick, e.next) && OneDuel(db)
    ensures var o := OrderNow(db, cfg, e.pick, e.registered, e.next, e.paused);
      o.action.OpenChallenge? ==> InTime(db, o.action.king, o.action.next)
  {
    forall c | Active(db, c) ensures DuelsReigningKing(db, c) {
    }
  }

  lemma TickOpensInTime(
    cfg: Config, founding: seq<Id>, run: seq<State>, events: seq<Event>, l: nat, m: nat)
    requires IsRun(cfg, founding, run, events) && l < m < |events| && events[m].Apply?
    requires TickFrom(cfg, run, events, l, m) && OneDuel(run[l].db)
    ensures OpensInTime(run[m], events[m])
  {
    SnapshotOpensInTime(cfg, run[l].db, events[l]);
    OthersLeaveDuels(cfg, founding, run, events, l, m);
    assert forall d :: Active(run[m].db, d) <==> Active(run[l].db, d);
  }

  /** With one resolver, whatever everybody else does and wherever it is restarted, at most one
      challenge is active and it faces the reigning king. */
  lemma {:induction false} OneResolverOneDuel(
    cfg: Config, founding: seq<Id>, run: seq<State>, events: seq<Event>, i: nat)
    requires IsRun(cfg, founding, run, events) && OneResolver(cfg, run, events) && i < |run|
    ensures OneDuel(run[i].db)
  {
    if i > 0 {
      var last := i - 1;
      assert Allowed(run[last], events[last]) && run[last + 1] == Next(cfg, run[last], events[last]);
      OneResolverOneDuel(cfg, founding, run, events, last);
      if events[last].Apply? {
        var l: nat :| l < last && TickFrom(cfg, run, events, l, last);
        OneResolverOneDuel(cfg, founding, run, events, l);
        TickOpensInTime(cfg, founding, run, events, l, last);
      }
      StepKeepsOneDuelExactly(cfg, run[last], events[last]);
    }
  }

  /** With one resolver no duel stalls: an active duel is the one every snapshot picks, each of its
      unjudged tasks is on the solver's or the judge's work list and not on both, and once none is
      left the snapshot of a tick is decided. */
  lemma OneResolverNeverStalls(
    cfg: Config, founding: seq<Id>, run: seq<State>, events: seq<Event>, i: nat, c: Id, e: Event)
    requires IsRun(cfg, founding, run, events) && OneResolver(cfg, run, events) && i < |run| && Active(run[i].db, c)
    requires e.TakeSnapshot? && QueryResult(run[i].db, e.pick, e.next)
    ensures var db := run[i].db;
      var k, pool := db.challenges[c].king, db.challenges[c].status.pool;
      && e.pick == Some(c)
      && (forall t | t in Unjudged(db, c, pool) :: AwaitsSolve(db, t, c) != ((t, k, c) in JudgeRequests(db)))
      && (Unjudged(db, c, pool) == {} ==>
            Settles(db, OrderNow(db, cfg, e.pick, e.registered, e.next, e.paused), c))
  {
    OneResolverOneDuel(cfg, founding, run, events, i);
    DuelsNeverStall(cfg, founding, run, events, i, c, e.registered);
    assert DuelsReigningKing(run[i].db, c);
    assert e.pick.Some? && Active(run[i].db, e.pick.value);
    DecidedOrderSettles(cfg, run[i].db, c, e);
  }

  // ---------------------------------------------------------------- who may decide a duel

  function SubjectOf(action: Action): Option<ActiveChallenge> {
    match action
    case AdvancePool(a) => Some(a)
    case Promote(a) => Some(a)
    case CloseChallenge(a, _) => Some(a)
    case _ => None
  }

  /** The order is about a challenge in the pool it is in, so applying it moves that challenge. */
  predicate Settles(db: Tables, o: Order, c: Id) {
    var a := SubjectOf(o.action);
    a.Some? && a.value.challenger == c && StillIn(db, a.value)
  }

  lemma DecidedOrderSettles(cfg: Config, db: Tables, c: Id, e: Event)
    requires e.TakeSnapshot? && e.pick == Some(c) && DuelsReigningKing(db, c)
    ensures var o := OrderNow(db, cfg, e.pick, e.registered, e.next, e.paused);
      !DecideActive(ActiveOf(db, cfg, c, e.registered), cfg.rules).Nothing? <==> Settles(db, o, c)
  {
  }

  lemma OnlyPickedDuelsAreDecided(cfg: Config, db: Tables, c: Id, e: Event)
    requires e.TakeSnapshot? && QueryResult(db, e.pick, e.next)
    requires Settles(db, OrderNow(db, cfg, e.pick, e.registered, e.next, e.paused), c)
    ensures e.pick == Some(c) && DuelsReigningKing(db, c)
  {
  }

  ghost predicate SomeSnapshotSettles(cfg: Config, db: Tables, c: Id) {
    exists e: Event ::
      && e.TakeSnapshot? && QueryResult(db, e.pick, e.next)
      && Settles(db, OrderNow(db, cfg, e.pick, e.registered, e.next, e.paused), c)
  }

  /** An active duel can get a new order exactly while its king reigns, and a judge request only
      then. */
  lemma ServedExactlyWhileKingReigns(cfg: Config, db: Tables, c: Id)
    requires Active(db, c)
    ensures SomeSnapshotSettles(cfg, db, c) <==> Reigning(db) == Some(db.challenges[c].king)
    ensures (exists t :: (t, db.challenges[c].king, c) in JudgeRequests(db)) ==> Reigning(db) == Some(db.challenges[c].king)
  {
    if Reigning(db) == Some(db.challenges[c].king) {
      var e := TakeSnapshot(Some(c), false, None, false);
      DecidedOrderSettles(cfg, db, c, e);
      assert e.TakeSnapshot? && QueryResult(db, e.pick, e.next);
    }
    if SomeSnapshotSettles(cfg, db, c) {
      var e: Event :| e.TakeSnapshot? && QueryResult(db, e.pick, e.next)
        && Settles(db, OrderNow(db, cfg, e.pick, e.registered, e.next, e.paused), c);
      OnlyPickedDuelsAreDecided(cfg, db, c, e);
    }
  }

  // ---------------------------------------------------------------- dethroned kings

  /** The king of an active duel has been succeeded. */
  predicate Orphaned(db: Tables, c: Id) {
    Active(db, c) && Reigning(db) != Some(db.challenges[c].king)
  }

  ghost predicate Outstanding(s: State, c: Id) {
    exists o | o in s.orders :: Settles(s.db, o, c)
  }

  lemma KingsNeverReturn(db: Tables, db': Tables, k: Id)
    requires db.kings <= db'.kings && Distinct(db'.kings) && k in db.kings && Reigning(db) != Some(k)
    ensures Reigning(db') != Some(k)
  {
    var at :| 0 <= at < |db.kings| && db.kings[at] == k;
    assert db'.kings[at] == k;
  }

  predicate SameChallenge(db: Tables, db': Tables, c: Id) {
    c in db.challenges && c in db'.challenges && db'.challenges[c] == db.challenges[c]
  }

  lemma TransitionLeavesOthers(db: Tables, a: ActiveChallenge, status: ChallengeStatus, outcome: Outcome, c: Id)
    requires c in db.challenges && (a.challenger != c || !StillIn(db, a))
    ensures SameChallenge(db, Transition(db, a, status, outcome), c)
  {
  }

  lemma OthersOrdersLeaveDuel(db: Tables, o: Order, c: Id)
    requires c in db.challenges && !Settles(db, o, c)
    ensures SameChallenge(db, ApplyAction(db, o.action), c)
  {
    match o.action
    case AdvancePool(a) => TransitionLeavesOthers(db, a, Dueling(PoolTwo), ChallengerWon, c);
    case CloseChallenge(a, reason) => TransitionLeavesOthers(db, a, Closed, CloseOutcome(reason), c);
    case Promote(a) => TransitionLeavesOthers(db, a, Closed, ChallengerWon, c);
    case _ =>
  }

  /** No step decides an orphaned duel on which no order is outstanding, or asks for a judgement
      in it, and it stays orphaned. */
  lemma OrphanStep(cfg: Config, founding: set<Id>, s: State, e: Event, c: Id)
    requires Inv(cfg, founding, s) && Allowed(s, e) && Orphaned(s.db, c) && !Outstanding(s, c)
    ensures var s' := Next(cfg, s, e);
      && SameChallenge(s.db, s'.db, c)
      && Orphaned(s'.db, c) && !Outstanding(s', c)
      && forall t | (t, s.db.challenges[c].king, c) in s'.requests :: (t, s.db.challenges[c].king, c) in s.requests
  {
    var s' := Next(cfg, s, e);
    EventKeepsInv(cfg, founding, s, e);
    KingsNeverReturn(s.db, s'.db, s.db.challenges[c].king);
    match e
    case TakeSnapshot(_, _, _, _) =>
      if Settles(s.db, OrderNow(s.db, cfg, e.pick, e.registered, e.next, e.paused), c) {
        OnlyPickedDuelsAreDecided(cfg, s.db, c, e);
      }
    case Apply(o) => OthersOrdersLeaveDuel(s.db, o, c);
    case PollJudge =>
    case Worker(w) => WorkLeavesDuels(cfg, s.db, w);
  }

  /** An orphaned duel on which no order is outstanding stays as it is for the rest of the run: in the
      same pool and never decided, and no further round of it is ever handed to the judge.  A round
      handed out before may still be judged; see `JudgedLaterExactlyIfRequested`. */
  lemma {:induction false} OrphanedDuelNeverEnds(
    cfg: Config, founding: seq<Id>, run: seq<State>, events: seq<Event>, i: nat, j: nat, c: Id)
    requires IsRun(cfg, founding, run, events) && i <= j < |run|
    requires Orphaned(run[i].db, c) && !Outstanding(run[i], c)
    ensures SameChallenge(run[i].db, run[j].db, c)
    ensures Orphaned(run[j].db, c) && !Outstanding(run[j], c)
    ensures forall t | (t, run[i].db.challenges[c].king, c) in run[j].requests ::
      (t, run[i].db.challenges[c].king, c) in run[i].requests
    decreases j
  {
    if i < j {
      var last := j - 1;
      OrphanedDuelNeverEnds(cfg, founding, run, events, i, last, c);
      RunKeepsInv(cfg, founding, run, events, last);
      OrphanStep(cfg, Founders(founding), run[last], events[last], c);
    }
  }

  // ---------------------------------------------------------------- late judgements

  /** The round of the task in this duel. */
  function RoundOf(db: Tables, t: TaskId, c: Id): (TaskId, Id, Id)
    requires c in db.challenges
  {
    (t, db.challenges[c].king, c)
  }

  lemma StepJudgesOnlyRequested(cfg: Config, s: State, e: Event, round: (TaskId, Id, Id))
    requires Allowed(s, e) && round in Next(cfg, s, e).db.judgements && round !in s.db.judgements
    ensures round in s.requests
  {
    match e
    case Worker(w) => OnlyTheJudgeJudges(cfg, s.db, w);
    case Apply(o) => ActionLeavesTasks(s.db, o.action);
    case _ =>
  }

  /** Whatever is still judged of such a duel was handed to the judge before its king fell. */
  lemma {:induction false} LateJudgementsWereRequested(
    cfg: Config, founding: seq<Id>, run: seq<State>, events: seq<Event>, i: nat, j: nat, c: Id, t: TaskId)
    requires IsRun(cfg, founding, run, events) && i <= j < |run|
    requires Orphaned(run[i].db, c) && !Outstanding(run[i], c)
    requires RoundOf(run[i].db, t, c) in run[j].db.judgements && RoundOf(run[i].db, t, c) !in run[i].db.judgements
    ensures RoundOf(run[i].db, t, c) in run[i].requests
    decreases j
  {
    var last, round := j - 1, RoundOf(run[i].db, t, c);
    if round in run[last].db.judgements {
      LateJudgementsWereRequested(cfg, founding, run, events, i, last, c, t);
    } else {
      assert Allowed(run[last], events[last]) && run[last + 1] == Next(cfg, run[last], events[last]);
      StepJudgesOnlyRequested(cfg, run[last], events[last], round);
      OrphanedDuelNeverEnds(cfg, founding, run, events, i, last, c);
    }
  }

  ghost predicate Reachable(cfg: Config, founding: seq<Id>, s: State) {
    exists run: seq<State>, events: seq<Event> :: IsRun(cfg, founding, run, events) && run[|run| - 1] == s
  }

  lemma RunExtends(cfg: Config, founding: seq<Id>, run: seq<State>, events: seq<Event>, e: Event)
    requires IsRun(cfg, founding, run, events) && Allowed(run[|run| - 1], e)
    ensures IsRun(cfg, founding, run + [Next(cfg, run[|run| - 1], e)], events + [e])
  {
  }

  lemma ReachableStep(cfg: Config, founding: seq<Id>, s: State, e: Event)
    requires Reachable(cfg, founding, s) && Allowed(s, e)
    ensures Reachable(cfg, founding, Next(cfg, s, e))
  {
    var run: seq<State>, events: seq<Event> :| IsRun(cfg, founding, run, events) && run[|run| - 1] == s;
    RunExtends(cfg, founding, run, events, e);
  }

  lemma ReachableKeepsInv(cfg: Config, founding: seq<Id>, s: State)
    requires Reachable(cfg, founding, s)
    ensures Inv(cfg, Founders(founding), s)
  {
    var run: seq<State>, events: seq<Event> :| IsRun(cfg, founding, run, events) && run[|run| - 1] == s;
    RunKeepsInv(cfg, founding, run, events, |run| - 1);
  }

  /** The run passes through `s` at `i` and ends with the challenge changed. */
  ghost predicate Moves(
    cfg: Config, founding: seq<Id>, s: State, c: Id, run: seq<State>, events: seq<Event>, i: nat)
  {
    IsRun(cfg, founding, run, events) && i < |run| && run[i] == s && !SameChallenge(s.db, run[|run| - 1].db, c)
  }

  ghost predicate MayStillMove(cfg: Config, founding: seq<Id>, s: State, c: Id) {
    exists run, events, i :: Moves(cfg, founding, s, c, run, events, i)
  }

  lemma OutstandingOrderChangesChallenge(cfg: Config, founding: set<Id>, s: State, o: Order, c: Id)
    requires Inv(cfg, founding, s) && o in s.orders && Settles(s.db, o, c)
    ensures !SameChallenge(s.db, ApplyAction(s.db, o.action), c)
  {
    SoundOrdersFit(cfg, founding, s.db, o);
  }

  lemma OutstandingOrderMoves(cfg: Config, founding: seq<Id>, s: State, o: Order, c: Id)
    requires Reachable(cfg, founding, s) && o in s.orders && Settles(s.db, o, c)
    ensures MayStillMove(cfg, founding, s, c)
  {
    var run: seq<State>, events: seq<Event> :| IsRun(cfg, founding, run, events) && run[|run| - 1] == s;
    ReachableKeepsInv(cfg, founding, s);
    OutstandingOrderChangesChallenge(cfg, Founders(founding), s, o, c);
    RunExtends(cfg, founding, run, events, Apply(o));
    assert Moves(cfg, founding, s, c, run + [Next(cfg, s, Apply(o))], events + [Apply(o)], |events|);
  }

  /** An orphaned duel can still move exactly when somebody decided on it, in its present pool,
      before its king fell. */
  lemma OrphanMovesExactlyByOutstandingOrder(cfg: Config, founding: seq<Id>, s: State, c: Id)
    requires Reachable(cfg, founding, s) && Orphaned(s.db, c)
    ensures MayStillMove(cfg, founding, s, c) <==> Outstanding(s, c)
  {
    if o :| o in s.orders && Settles(s.db, o, c) {
      OutstandingOrderMoves(cfg, founding, s, o, c);
    } else if MayStillMove(cfg, founding, s, c) {
      var run, events, i :| Moves(cfg, founding, s, c, run, events, i);
      OrphanedDuelNeverEnds(cfg, founding, run, events, i, |run| - 1, c);
    }
  }

  /** The run passes through `s` at `i` and ends with the round judged. */
  ghost predicate Judges(
    cfg: Config, founding: seq<Id>, s: State, round: (TaskId, Id, Id), run: seq<State>, events: seq<Event>, i: nat)
  {
    IsRun(cfg, founding, run, events) && i < |run| && run[i] == s && round in run[|run| - 1].db.judgements
  }

  ghost predicate MayBeJudged(cfg: Config, founding: seq<Id>, s: State, round: (TaskId, Id, Id)) {
    exists run, events, i :: Judges(cfg, founding, s, round, run, events, i)
  }

  /** An unjudged round of an orphaned duel can still be judged exactly when it was handed to the judge
      before the king fell; saving a judgement asks neither for the king nor for the status. */
  lemma JudgedLaterExactlyIfRequested(cfg: Config, founding: seq<Id>, s: State, c: Id, t: TaskId, j: Judgement)
    requires Reachable(cfg, founding, s) && Orphaned(s.db, c) && !Outstanding(s, c)
    requires RoundOf(s.db, t, c) !in s.db.judgements
    ensures MayBeJudged(cfg, founding, s, RoundOf(s.db, t, c)) <==> RoundOf(s.db, t, c) in s.requests
  {
    var round := RoundOf(s.db, t, c);
    if round in s.requests {
      var run: seq<State>, events: seq<Event> :| IsRun(cfg, founding, run, events) && run[|run| - 1] == s;
      var e := Worker(Judge(t, round.1, c, j));
      RunExtends(cfg, founding, run, events, e);
      assert Judges(cfg, founding, s, round, run + [Next(cfg, s, e)], events + [e], |events|);
    } else if MayBeJudged(cfg, founding, s, round) {
      var run, events, i :| Judges(cfg, founding, s, round, run, events, i);
      LateJudgementsWereRequested(cfg, founding, run, events, i, |run| - 1, c, t);
    }
  }
}

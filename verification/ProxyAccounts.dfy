/**
 The books of one LLM proxy over a run: every counter against what the answers
 reported, what a reached cost limit does, and exactly what is admitted and how
 far it may write.
 */
module ProxyAccounts {
  import opened Common
  import opened ProxyBudget

  // ---------------------------------------------------------------- what was reported

  function CostOf(e: Event): real {
    if e.Answer? && e.reply.cost.Some? then e.reply.cost.value else 0.0
  }

  function TokensOf(e: Event, d: Dimension): int {
    if !e.Answer? then 0
    else
      var reported := match d
        case Total => e.reply.total
        case Prompt => e.reply.prompt
        case Completion => e.reply.completion;
      if reported.Some? then reported.value else 0
  }

  /** Sums over the first `n` events. */
  function ReportedCost(events: seq<Event>, n: nat): real
    requires n <= |events|
  {
    if n == 0 then 0.0 else ReportedCost(events, n - 1) + CostOf(events[n - 1])
  }

  function ReportedTokens(events: seq<Event>, n: nat, d: Dimension): int
    requires n <= |events|
  {
    if n == 0 then 0 else ReportedTokens(events, n - 1, d) + TokensOf(events[n - 1], d)
  }

  datatype Kind = GoodAnswer | BadAnswer | Miss | Refusal

  predicate IsKind(e: Event, kind: Kind) {
    match kind
    case GoodAnswer => e.Answer? && e.reply.ok
    case BadAnswer => e.Answer? && !e.reply.ok
    case Miss => e.Missed?
    case Refusal => e.Refuse?
  }

  /** How many of the first `n` events are of a kind. */
  function Happened(events: seq<Event>, n: nat, kind: Kind): nat
    requires n <= |events|
  {
    if n == 0 then 0 else Happened(events, n - 1, kind) + if IsKind(events[n - 1], kind) then 1 else 0
  }

  lemma ArrivalLeavesBooks(b: Budget, u: Usage, estimate: int, p: Payload)
    ensures var (u', admission) := Prepare(Some(b), u, estimate, p);
      && u' == u.(reason := u'.reason, requests := u'.requests)
      && u'.requests == u.requests + if admission.Admitted? then 1 else 0
  {
  }

  lemma AnswerAdds(b: Budget, u: Usage, e: Event)
    requires e.Answer?
    ensures var u' := Record(Some(b), u, e.reply);
      && u'.cost == u.cost + CostOf(e)
      && (forall d: Dimension :: Used(u', d) == Used(u, d) + TokensOf(e, d))
      && u'.successes == u.successes + (if e.reply.ok then 1 else 0)
      && u'.errors == u.errors + (if e.reply.ok then 0 else 1)
      && u'.requests == u.requests && u'.rejected == u.rejected
  {
    var u' := Record(Some(b), u, e.reply);
    forall d: Dimension ensures Used(u', d) == Used(u, d) + TokensOf(e, d) {
      match d
      case Total =>
      case Prompt =>
      case Completion =>
    }
  }

  ghost predicate BooksMatch(s: State, events: seq<Event>, i: nat)
    requires i <= |events|
  {
    && s.usage.cost == ReportedCost(events, i)
    && (forall d: Dimension :: Used(s.usage, d) == ReportedTokens(events, i, d))
    && s.usage.successes == Happened(events, i, GoodAnswer)
    && s.usage.errors == Happened(events, i, BadAnswer) + Happened(events, i, Miss)
    && s.usage.rejected == Happened(events, i, Refusal) + Happened(events, i, Miss)
    && s.usage.requests == |s.pending| + Happened(events, i, GoodAnswer) + Happened(events, i, BadAnswer)
  }

  lemma StepKeepsBooks(b: Budget, run: seq<State>, events: seq<Event>, i: nat)
    requires IsRun(b, run, events) && i < |events| && BooksMatch(run[i], events, i)
    ensures BooksMatch(run[i + 1], events, i + 1)
  {
    assert Allowed(run[i], events[i]) && run[i + 1] == Next(b, run[i], events[i]);
    var u, u' := run[i].usage, run[i + 1].usage;
    if !events[i].Answer? {
      if events[i].Arrive? {
        ArrivalLeavesBooks(b, u, events[i].estimate, events[i].payload);
      }
      forall d: Dimension ensures Used(u', d) == Used(u, d) && TokensOf(events[i], d) == 0 {
        match d
        case Total =>
        case Prompt =>
        case Completion =>
      }
    }
    match events[i]
    case Arrive(_, _) =>
    case Refuse(_) =>
    case Answer(j, r) =>
      assert |RemoveAt(run[i].pending, j)| == |run[i].pending| - 1;
      AnswerAdds(b, run[i].usage, events[i]);
    case Missed(j) => assert |RemoveAt(run[i].pending, j)| == |run[i].pending| - 1;
  }

  /** In every run the cost and each token counter are the sums of what the answers reported, successes,
      errors and refusals are counted one by one, and every claimed slot belongs to an open or an
      answered request. */
  lemma {:induction false} CountersAreSums(b: Budget, run: seq<State>, events: seq<Event>, i: nat)
    requires IsRun(b, run, events) && i < |run|
    ensures BooksMatch(run[i], events, i)
  {
    if i > 0 {
      CountersAreSums(b, run, events, i - 1);
      StepKeepsBooks(b, run, events, i - 1);
    }
  }

  // ---------------------------------------------------------------- limits that were reached

  /** Some limited counter has reached its limit by what was reported so far. */
  predicate Reached(b: Budget, events: seq<Event>, n: nat)
    requires n <= |events|
  {
    || (b.maxCost.Some? && ReportedCost(events, n) >= b.maxCost.value)
    || (b.maxTotal.Some? && ReportedTokens(events, n, Total) >= b.maxTotal.value)
    || (b.maxPrompt.Some? && ReportedTokens(events, n, Prompt) >= b.maxPrompt.value)
    || (b.maxCompletion.Some? && ReportedTokens(events, n, Completion) >= b.maxCompletion.value)
  }

  lemma AnswerChecks(b: Budget, u: Usage, r: Reply)
    ensures var u' := Record(Some(b), u, r);
      u'.reason.Some? <==>
        || u.reason.Some?
        || (b.maxCost.Some? && u'.cost >= b.maxCost.value)
        || (b.maxTotal.Some? && u'.total >= b.maxTotal.value)
        || (b.maxPrompt.Some? && u'.prompt >= b.maxPrompt.value)
        || (b.maxCompletion.Some? && u'.completion >= b.maxCompletion.value)
  {
  }

  /** An answer that takes the reported cost, or a reported token count, to its limit ends admission
      for good: a reason is set, no later request is admitted, and no slot is claimed again. */
  lemma ReachingALimitBlocks(b: Budget, run: seq<State>, events: seq<Event>, i: nat, j: nat)
    requires IsRun(b, run, events) && i < j < |run| && events[i].Answer? && Reached(b, events, i + 1)
    ensures run[j].usage.reason.Some? && run[j].usage.requests <= run[i + 1].usage.requests
    ensures |run[j].pending| <= |run[i + 1].pending|
  {
    CountersAreSums(b, run, events, i + 1);
    assert Allowed(run[i], events[i]) && run[i + 1] == Next(b, run[i], events[i]);
    AnswerChecks(b, run[i].usage, events[i].reply);
    var u := run[i + 1].usage;
    assert Used(u, Total) == u.total && Used(u, Prompt) == u.prompt && Used(u, Completion) == u.completion;
    BlockedStaysBlocked(b, run, events, i + 1, j);
  }

  // ---------------------------------------------------------------- what is admitted

  /** `n` tokens of output fit every limit next to the estimated prompt; cost is judged by the average
      price so far, once there is one. */
  predicate Fits(b: Budget, u: Usage, estimate: int, n: int) {
    && (b.maxPerRequest.Some? ==> n <= b.maxPerRequest.value)
    && (b.maxCompletion.Some? ==> u.completion + n <= b.maxCompletion.value)
    && (b.maxTotal.Some? ==> u.total + estimate + n <= b.maxTotal.value)
    && (b.maxCost.Some? && u.total > 0 && u.cost > 0.0 ==>
          u.cost + (estimate + n) as real * (u.cost / u.total as real) <= b.maxCost.value)
  }

  /** No counter has reached its limit. */
  predicate BelowLimits(b: Budget, u: Usage) {
    && (b.maxCost.Some? ==> u.cost < b.maxCost.value)
    && (b.maxTotal.Some? ==> u.total < b.maxTotal.value)
    && (b.maxPrompt.Some? ==> u.prompt < b.maxPrompt.value)
    && (b.maxCompletion.Some? ==> u.completion < b.maxCompletion.value)
    && (b.maxRequests.Some? ==> u.requests < b.maxRequests.value)
  }

  lemma {:induction false} SmallestIsAttained(ns: seq<int>)
    requires ns != []
    ensures Smallest(ns) in ns && forall n | n in ns :: Smallest(ns) <= n
  {
    if |ns| > 1 {
      SmallestIsAttained(ns[1..]);
      assert forall n | n in ns :: n == ns[0] || n in ns[1..];
    }
  }

  lemma FloorFits(money: real, price: real, n: int)
    requires price > 0.0
    ensures n <= (money / price).Floor <==> n as real * price <= money
  {
    var q := money / price;
    assert q * price == money;
    assert n <= q.Floor <==> n as real <= q;
    assert n as real <= q ==> n as real * price <= q * price;
    assert n as real > q ==> n as real * price > q * price;
  }

  predicate WithinAll(limits: seq<int>, n: int) {
    forall l | l in limits :: n <= l
  }

  /** The token limits of a request bound `n` exactly if `n` fits the token budgets. */
  lemma TokenLimitsFit(b: Budget, u: Usage, estimate: int, n: int)
    requires n >= 1 && estimate >= 0
    ensures WithinAll(TokenLimits(b, u, estimate), n) <==> Fits(b.(maxCost := None), u, estimate, n)
  {
    var limits := TokenLimits(b, u, estimate);
    assert b.maxPerRequest.Some? ==> b.maxPerRequest.value in limits;
    assert b.maxCompletion.Some? ==> AtLeastZero(b.maxCompletion.value - u.completion) in limits;
    assert b.maxTotal.Some? ==> AtLeastZero(AtLeastZero(b.maxTotal.value - u.total) - estimate) in limits;
  }

  lemma PriceIsAverage(b: Budget, u: Usage)
    ensures PricesKnown(b, u) <==> b.maxCost.Some? && u.total > 0 && u.cost > 0.0
    ensures PricesKnown(b, u) ==> AverageCost(u).value == u.cost / u.total as real > 0.0
  {
    if u.total > 0 && u.cost > 0.0 {
      var t := u.total as real;
      var q := u.cost / t;
      assert q * t == u.cost;
      assert q <= 0.0 ==> q * t <= 0.0;
    }
  }

  lemma WithinOneMore(limits: seq<int>, last: int, n: int)
    ensures WithinAll(limits + [last], n) <==> WithinAll(limits, n) && n <= last
  {
    var all := limits + [last];
    assert last in all && forall l | l in limits :: l in all;
    assert forall l | l in all :: l in limits || l == last;
  }

  lemma AffordableFits(b: Budget, u: Usage, estimate: int, n: int, price: real)
    requires n >= 1 && estimate >= 0 && b.maxCost.Some? && price > 0.0
    requires PromptCost(estimate, price) < RemainingCost(b, u)
    ensures n <= AffordableOutput(RemainingCost(b, u) - PromptCost(estimate, price), price)
      <==> u.cost + (estimate + n) as real * price <= b.maxCost.value
  {
    var money := RemainingCost(b, u) - PromptCost(estimate, price);
    FloorFits(money, price, n);
    assert AffordableOutput(money, price) == AtLeastZero((money / price).Floor);
    CostFits(b, u, estimate, n, price);
  }

  /** Once the prompt is affordable, all limits of a request bound `n` exactly if `n` fits. */
  lemma AllLimitsFit(b: Budget, u: Usage, estimate: int, n: int)
    requires n >= 1 && estimate >= 0 && !PromptUnaffordable(b, u, estimate)
    ensures WithinAll(AllLimits(b, u, estimate), n) <==> Fits(b, u, estimate, n)
  {
    TokenLimitsFit(b, u, estimate, n);
    PriceIsAverage(b, u);
    if PricesKnown(b, u) {
      var price := AverageCost(u).value;
      AffordableFits(b, u, estimate, n, price);
      WithinOneMore(TokenLimits(b, u, estimate), AffordableOutput(RemainingCost(b, u) - PromptCost(estimate, price), price), n);
    }
  }

  lemma CostFits(b: Budget, u: Usage, estimate: int, n: int, price: real)
    requires b.maxCost.Some? && price > 0.0 && estimate >= 0 && estimate as real * price < RemainingCost(b, u)
    ensures n as real * price <= RemainingCost(b, u) - estimate as real * price
      <==> u.cost + (estimate + n) as real * price <= b.maxCost.value
  {
    assert estimate as real * price >= 0.0;
    assert (estimate + n) as real * price == estimate as real * price + n as real * price;
  }

  lemma FittingIsDownward(b: Budget, u: Usage, estimate: int, n: int, m: int)
    requires n <= m && Fits(b, u, estimate, m)
    ensures Fits(b, u, estimate, n)
  {
    PriceIsAverage(b, u);
    if PricesKnown(b, u) {
      var price := u.cost / u.total as real;
      assert (estimate + m) as real * price - (estimate + n) as real * price == (m - n) as real * price;
      assert (m - n) as real * price >= 0.0;
    }
  }

  lemma FittingMakesPromptAffordable(b: Budget, u: Usage, estimate: int)
    requires estimate >= 0 && Fits(b, u, estimate, 1)
    ensures !PromptUnaffordable(b, u, estimate)
  {
    PriceIsAverage(b, u);
    if PricesKnown(b, u) {
      var price := u.cost / u.total as real;
      assert (estimate + 1) as real * price == estimate as real * price + price;
      assert estimate as real * price >= 0.0;
    }
  }

  lemma ClampPassesExactly(b: Budget, u: Usage, estimate: int, p: Payload)
    requires estimate >= 0 && u.reason.None?
    ensures Clamp(b, u, estimate, p).0.reason.None? <==> Fits(b, u, estimate, 1)
    ensures Clamp(b, u, estimate, p).0.reason.None? ==> Clamp(b, u, estimate, p).0 == u
  {
    if Fits(b, u, estimate, 1) {
      FittingMakesPromptAffordable(b, u, estimate);
    }
    if !PromptUnaffordable(b, u, estimate) {
      var limits := AllLimits(b, u, estimate);
      AllLimitsFit(b, u, estimate, 1);
      if limits != [] {
        SmallestIsAttained(limits);
        assert Smallest(limits) >= 1 <==> WithinAll(limits, 1);
      }
    }
  }

  lemma ChecksPassExactly(b: Budget, u: Usage, estimate: int)
    requires estimate >= 0
    ensures var checked := CheckEstimate(b, CheckRequestLimit(Some(b), CheckPreRequest(Some(b), u)), estimate);
      && (checked.reason.None? <==>
            u.reason.None? && BelowLimits(b, u) && (b.maxPrompt.Some? ==> u.prompt + estimate <= b.maxPrompt.value)
            && (b.maxTotal.Some? ==> u.total + estimate < b.maxTotal.value))
      && (checked.reason.None? ==> checked == u)
  {
  }

  /** Exactly what is admitted: no reason is set, every counter is below its limit, the estimated prompt
      fits the prompt budget, and next to it at least one token of output fits every limit. */
  lemma AdmittedExactly(b: Budget, u: Usage, estimate: int, p: Payload)
    requires estimate >= 0
    ensures Prepare(Some(b), u, estimate, p).1.Admitted? <==>
      && u.reason.None? && BelowLimits(b, u)
      && (b.maxPrompt.Some? ==> u.prompt + estimate <= b.maxPrompt.value)
      && Fits(b, u, estimate, 1)
  {
    if b.Enabled() {
      ChecksPassExactly(b, u, estimate);
      if u.reason.None? {
        ClampPassesExactly(b, u, estimate, p);
      }
    }
  }

  /** Over a run: a request is admitted only while the cost and the tokens reported so far, and the
      slots claimed, are all below their limits. */
  lemma AdmittedBelowLimits(b: Budget, run: seq<State>, events: seq<Event>, i: nat)
    requires IsRun(b, run, events) && i < |events| && events[i].Arrive?
    requires |run[i + 1].pending| > |run[i].pending|
    ensures !Reached(b, events, i)
    ensures b.maxRequests.Some? ==> run[i].usage.requests < b.maxRequests.value
  {
    CountersAreSums(b, run, events, i);
    assert Allowed(run[i], events[i]) && run[i + 1] == Next(b, run[i], events[i]);
    AdmittedExactly(b, run[i].usage, events[i].estimate, events[i].payload);
    var u := run[i].usage;
    assert Used(u, Total) == u.total && Used(u, Prompt) == u.prompt && Used(u, Completion) == u.completion;
  }

  /** The reason of a refusal is that of the first check that fails, in the order cost, tokens, slots,
      estimated prompt, affordable prompt, room for output. */
  lemma FirstReasonIsGiven(b: Budget, u: Usage, estimate: int, p: Payload)
    requires estimate >= 0 && Prepare(Some(b), u, estimate, p).1.Rejected?
    ensures Prepare(Some(b), u, estimate, p).1.reason
      == if u.reason.Some? then u.reason.value
         else if b.maxCost.Some? && u.cost >= b.maxCost.value then CostLimit
         else if !BelowLimits(b.(maxCost := None, maxRequests := None), u) then TokenLimit
         else if b.maxRequests.Some? && u.requests >= b.maxRequests.value then RequestLimit
         else if (b.maxPrompt.Some? && u.prompt + estimate > b.maxPrompt.value)
              || (b.maxTotal.Some? && u.total + estimate >= b.maxTotal.value) then TokenLimit
         else if b.maxCost.Some? && u.total > 0 && u.cost > 0.0
              && u.cost + estimate as real * (u.cost / u.total as real) >= b.maxCost.value then CostLimit
         else TokenLimit
  {
    PriceIsAverage(b, u);
  }

  // ---------------------------------------------------------------- how far it may write

  /** The output limit sent upstream is the client's own if that fits, and otherwise the largest that
      fits; a body that carries the second limit keeps or lowers it the same way.  Without any limit in
      force the body is sent as it came. */
  lemma ClampingIsTight(b: Budget, u: Usage, estimate: int, p: Payload)
    requires estimate >= 0 && Prepare(Some(b), u, estimate, p).1.Admitted?
    ensures var body := Prepare(Some(b), u, estimate, p).1.payload;
      || (body == p && forall n :: Fits(b, u, estimate, n))
      || (body.maxTokens.Some?
          && TightLimit(b, u, estimate, p.maxTokens, body.maxTokens.value)
          && (p.maxCompletionTokens.None? ==> body.maxCompletionTokens.None?)
          && (p.maxCompletionTokens.Some? ==>
                body.maxCompletionTokens.Some?
                && TightLimit(b, u, estimate, p.maxCompletionTokens, body.maxCompletionTokens.value)))
  {
    AdmittedExactly(b, u, estimate, p);
    FittingMakesPromptAffordable(b, u, estimate);
    var limits := AllLimits(b, u, estimate);
    if !b.Enabled() || limits == [] {
      NothingLimits(b, u, estimate);
    } else {
      SmallestIsAttained(limits);
      SmallestIsLargestFit(b, u, estimate);
      if p.maxTokens.Some? {
        SmallestFits(b, u, estimate, p.maxTokens.value);
      }
      if p.maxCompletionTokens.Some? {
        SmallestFits(b, u, estimate, p.maxCompletionTokens.value);
      }
    }
  }

  predicate TightLimit(b: Budget, u: Usage, estimate: int, asked: Option<int>, sent: int) {
    if asked.Some? && Fits(b, u, estimate, asked.value) then sent == asked.value
    else Fits(b, u, estimate, sent) && !Fits(b, u, estimate, sent + 1)
  }

  lemma NothingLimits(b: Budget, u: Usage, estimate: int)
    requires !b.Enabled() || AllLimits(b, u, estimate) == []
    ensures forall n :: Fits(b, u, estimate, n)
  {
    PriceIsAverage(b, u);
  }

  lemma SmallestIsLargestFit(b: Budget, u: Usage, estimate: int)
    requires estimate >= 0 && !PromptUnaffordable(b, u, estimate)
    requires AllLimits(b, u, estimate) != [] && Smallest(AllLimits(b, u, estimate)) >= 1
    ensures var least := Smallest(AllLimits(b, u, estimate));
      Fits(b, u, estimate, least) && !Fits(b, u, estimate, least + 1)
  {
    var limits := AllLimits(b, u, estimate);
    SmallestIsAttained(limits);
    AllLimitsFit(b, u, estimate, Smallest(limits));
    AllLimitsFit(b, u, estimate, Smallest(limits) + 1);
  }

  lemma SmallestFits(b: Budget, u: Usage, estimate: int, n: int)
    requires estimate >= 0 && !PromptUnaffordable(b, u, estimate)
    requires AllLimits(b, u, estimate) != [] && Smallest(AllLimits(b, u, estimate)) >= 1
    ensures Fits(b, u, estimate, n) <==> n <= Smallest(AllLimits(b, u, estimate))
  {
    var least := Smallest(AllLimits(b, u, estimate));
    SmallestIsLargestFit(b, u, estimate);
    if n <= least {
      FittingIsDownward(b, u, estimate, n, least);
    } else if Fits(b, u, estimate, n) {
      FittingIsDownward(b, u, estimate, least + 1, n);
    }
  }

  /** Without a budget only a refusal stops a request, and its body is sent as it came. */
  lemma WithoutABudget(u: Usage, estimate: int, p: Payload)
    ensures Prepare(None, u, estimate, p)
         == if u.reason.Some? then (u, Rejected(u.reason.value)) else (u.(requests := u.requests + 1), Admitted(p))
    ensures forall r :: Record(None, u, r).reason == u.reason
  {
  }
}

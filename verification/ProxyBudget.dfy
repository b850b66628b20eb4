/**
 Budget enforcement of the LLM proxy.  Admission and accounting each run under
 the proxy's lock; the upstream call between them does not, so any number of
 admitted requests may be unaccounted at once.  Costs are reals.
 */
module ProxyBudget {
  import opened Common

  datatype Reason = RequestLimit | TokenLimit | CostLimit | ProxyError

  datatype Budget = Budget(
    maxRequests: Option<int>, maxTotal: Option<int>, maxPrompt: Option<int>, maxCompletion: Option<int>,
    maxCost: Option<real>, maxPerRequest: Option<int>)
  {
    predicate Enabled() {
      maxRequests.Some? || maxTotal.Some? || maxPrompt.Some? || maxCompletion.Some? || maxCost.Some? || maxPerRequest.Some?
    }
  }

  datatype Usage = Usage(
    requests: int, rejected: int, successes: int, errors: int,
    prompt: int, completion: int, total: int, cost: real, reason: Option<Reason>)

  const NO_USAGE := Usage(0, 0, 0, 0, 0, 0, 0, 0.0, None)

  /** The two output limits a request body may carry. */
  datatype Payload = Payload(maxTokens: Option<int>, maxCompletionTokens: Option<int>)

  datatype Reply = Reply(ok: bool, prompt: Option<int>, completion: Option<int>, total: Option<int>, cost: Option<real>)

  datatype Admission = Rejected(reason: Reason) | Admitted(payload: Payload)

  function OrZero(n: Option<int>): int {
    if n.Some? then n.value else 0
  }

  /** A JSON value as the estimate sees it: numbers and booleans by their text. */
  datatype Json = Null | Text(text: string) | Scalar(text: string) | Object(fields: seq<Field>) | Array(items: seq<Json>)
  datatype Field = Field(key: string, value: Json)

  function ContentChars(v: Json): nat {
    match v
    case Null => 0
    case Text(text) => |text|
    case Scalar(text) => |text|
    case Object(fields) => FieldChars(fields)
    case Array(items) => ItemChars(items)
  }

  function FieldChars(fields: seq<Field>): nat {
    if fields == [] then 0 else |fields[0].key| + ContentChars(fields[0].value) + FieldChars(fields[1..])
  }

  function ItemChars(items: seq<Json>): nat {
    if items == [] then 0 else ContentChars(items[0]) + ItemChars(items[1..])
  }

  function Sum(ns: seq<nat>): nat {
    if ns == [] then 0 else ns[0] + Sum(ns[1..])
  }

  function OptionalLength(length: Option<nat>): nat {
    if length.Some? then length.value else 0
  }

  /** The estimate from the messages and the lengths of the serialized tools and response format:
      a third of the characters, rounded up, and a fixed overhead per message and tool. */
  function EstimatePromptTokens(messages: seq<Json>, tools: seq<nat>, format: Option<nat>): (tokens: nat)
    ensures tokens >= 1
    ensures var content := ItemChars(messages) + Sum(tools) + (match format case Some(length) => length case None => 0);
      && 3 * tokens >= content + 24 * |messages| + 72 * |tools|
      && (tokens > 1 ==> 3 * tokens <= content + 2 + 24 * |messages| + 72 * |tools|)
  {
    var chars := ItemChars(messages) + Sum(tools) + OptionalLength(format);
    var tokens := (chars + 2) / 3 + |messages| * 8 + |tools| * 24;
    if tokens < 1 then 1 else tokens
  }

  /** All text of a message in reading order: keys, strings, and numbers as they are written. */
  function Reading(v: Json): string {
    match v
    case Null => ""
    case Text(text) => text
    case Scalar(text) => text
    case Object(fields) => ReadFields(fields)
    case Array(items) => ReadItems(items)
  }

  function ReadFields(fields: seq<Field>): string {
    if fields == [] then "" else fields[0].key + Reading(fields[0].value) + ReadFields(fields[1..])
  }

  function ReadItems(items: seq<Json>): string {
    if items == [] then "" else Reading(items[0]) + ReadItems(items[1..])
  }

  /** The estimate counts every character of the messages once. */
  lemma {:induction false} CountsEveryChar(v: Json)
    ensures ContentChars(v) == |Reading(v)|
  {
    match v
    case Object(fields) => FieldsEveryChar(fields);
    case Array(items) => ItemsEveryChar(items);
    case _ =>
  }

  lemma {:induction false} FieldsEveryChar(fields: seq<Field>)
    ensures FieldChars(fields) == |ReadFields(fields)|
  {
    if fields != [] {
      CountsEveryChar(fields[0].value);
      FieldsEveryChar(fields[1..]);
    }
  }

  lemma {:induction false} ItemsEveryChar(items: seq<Json>)
    ensures ItemChars(items) == |ReadItems(items)|
  {
    if items != [] {
      CountsEveryChar(items[0]);
      ItemsEveryChar(items[1..]);
    }
  }

  function Lengths(texts: seq<string>): seq<nat> {
    if texts == [] then [] else [|texts[0]|] + Lengths(texts[1..])
  }

  function Joined(texts: seq<string>): string {
    if texts == [] then "" else texts[0] + Joined(texts[1..])
  }

  /** And every character of the serialized tools. */
  lemma {:induction false} ToolsEveryChar(texts: seq<string>)
    ensures Sum(Lengths(texts)) == |Joined(texts)| && |Lengths(texts)| == |texts|
  {
    if texts != [] {
      ToolsEveryChar(texts[1..]);
      assert Lengths(texts)[1..] == Lengths(texts[1..]);
    }
  }

  lemma {:induction false} ItemCharsSplit(a: seq<Json>, c: seq<Json>)
    ensures ItemChars(a + c) == ItemChars(a) + ItemChars(c)
  {
    if a == [] {
      assert a + c == c;
    } else {
      assert (a + c)[1..] == a[1..] + c;
      ItemCharsSplit(a[1..], c);
    }
  }

  /** Adding messages to a conversation, wherever, raises the estimate by at least their overhead. */
  lemma LongerPromptsCostMore(before: seq<Json>, more: seq<Json>, after: seq<Json>, tools: seq<nat>, format: Option<nat>)
    requires before + after != []
    ensures EstimatePromptTokens(before + more + after, tools, format)
         >= EstimatePromptTokens(before + after, tools, format) + 8 * |more|
  {
    ItemCharsSplit(before + more, after);
    ItemCharsSplit(before, more);
    ItemCharsSplit(before, after);
  }

  // ---------------------------------------------------------------- the checks, as functions

  predicate Spent(limit: Option<int>, used: int) {
    limit.Some? && used >= limit.value
  }

  function CheckPreRequest(b: Option<Budget>, u: Usage): Usage {
    if u.reason.Some? || b.None? then u
    else if b.value.maxCost.Some? && u.cost >= b.value.maxCost.value then u.(reason := Some(CostLimit))
    else if Spent(b.value.maxTotal, u.total) || Spent(b.value.maxPrompt, u.prompt)
         || Spent(b.value.maxCompletion, u.completion) then u.(reason := Some(TokenLimit))
    else u
  }

  function CheckRequestLimit(b: Option<Budget>, u: Usage): Usage {
    if u.reason.Some? || b.None? then u
    else if Spent(b.value.maxRequests, u.requests) then u.(reason := Some(RequestLimit))
    else u
  }

  function CheckEstimate(b: Budget, u: Usage, estimate: int): Usage {
    if u.reason.Some? then u
    else if b.maxPrompt.Some? && estimate > AtLeastZero(b.maxPrompt.value - u.prompt) then u.(reason := Some(TokenLimit))
    else if b.maxTotal.Some? && estimate >= AtLeastZero(b.maxTotal.value - u.total) then u.(reason := Some(TokenLimit))
    else u
  }

  function AverageCost(u: Usage): Option<real> {
    if u.total <= 0 || u.cost <= 0.0 then None else Some(u.cost / u.total as real)
  }

  function TokenLimits(b: Budget, u: Usage, estimate: int): seq<int> {
    (if b.maxPerRequest.Some? then [b.maxPerRequest.value] else [])
    + (if b.maxCompletion.Some? then [AtLeastZero(b.maxCompletion.value - u.completion)] else [])
    + (if b.maxTotal.Some? then [AtLeastZero(AtLeastZero(b.maxTotal.value - u.total) - estimate)] else [])
  }

  /** Whether cost is limited and an average price is known. */
  predicate PricesKnown(b: Budget, u: Usage) {
    b.maxCost.Some? && AverageCost(u).Some? && AverageCost(u).value > 0.0
  }

  function RemainingCost(b: Budget, u: Usage): real
    requires b.maxCost.Some?
  {
    if b.maxCost.value - u.cost < 0.0 then 0.0 else b.maxCost.value - u.cost
  }

  function PromptCost(estimate: int, price: real): real {
    estimate as real * price
  }

  predicate PromptUnaffordable(b: Budget, u: Usage, estimate: int) {
    PricesKnown(b, u) && PromptCost(estimate, AverageCost(u).value) >= RemainingCost(b, u)
  }

  /** The output tokens that money buys at a price. */
  function AffordableOutput(money: real, price: real): int
    requires price > 0.0
  {
    AtLeastZero((money / price).Floor)
  }

  function AllLimits(b: Budget, u: Usage, estimate: int): seq<int> {
    if PricesKnown(b, u) then
      var price := AverageCost(u).value;
      TokenLimits(b, u, estimate) + [AffordableOutput(RemainingCost(b, u) - PromptCost(estimate, price), price)]
    else TokenLimits(b, u, estimate)
  }

  function Smallest(ns: seq<int>): int
    requires ns != []
  {
    if |ns| == 1 then ns[0] else var rest := Smallest(ns[1..]); if ns[0] <= rest then ns[0] else rest
  }

  function SetMaxOutput(p: Payload, limit: int): Payload {
    var clamped := AtLeastZero(limit);
    Payload(
      Some(if p.maxTokens.Some? && p.maxTokens.value < clamped then p.maxTokens.value else clamped),
      if p.maxCompletionTokens.Some? && p.maxCompletionTokens.value > clamped then Some(clamped)
      else p.maxCompletionTokens)
  }

  /** Clamping either trips the budget or lowers the output limits of the body. */
  function Clamp(b: Budget, u: Usage, estimate: int, p: Payload): (Usage, Payload) {
    if PromptUnaffordable(b, u, estimate) then (u.(reason := Some(CostLimit)), p)
    else if AllLimits(b, u, estimate) == [] then (u, p)
    else if Smallest(AllLimits(b, u, estimate)) <= 0 then (u.(reason := Some(TokenLimit)), p)
    else (u, SetMaxOutput(p, Smallest(AllLimits(b, u, estimate))))
  }

  function Decision(u: Usage, p: Payload): (Usage, Admission) {
    if u.reason.Some? then (u, Rejected(u.reason.value)) else (u.(requests := u.requests + 1), Admitted(p))
  }

  /** Admission of a JSON request body with the given prompt estimate. */
  function Prepare(b: Option<Budget>, u: Usage, estimate: int, p: Payload): (Usage, Admission) {
    if b.None? || !b.value.Enabled() then Decision(CheckRequestLimit(b, u), p)
    else
      var checked := CheckEstimate(b.value, CheckRequestLimit(b, CheckPreRequest(b, u)), estimate);
      if checked.reason.Some? then Decision(checked, p)
      else
        var (clamped, body) := Clamp(b.value, checked, estimate, p);
        Decision(clamped, body)
  }

  function Record(b: Option<Budget>, u: Usage, r: Reply): Usage {
    CheckPreRequest(b, u.(
      successes := u.successes + if r.ok then 1 else 0,
      errors := u.errors + if r.ok then 0 else 1,
      prompt := u.prompt + OrZero(r.prompt),
      completion := u.completion + OrZero(r.completion),
      total := u.total + OrZero(r.total),
      cost := u.cost + if r.cost.Some? then r.cost.value else 0.0))
  }

  function Reject(u: Usage, reason: Reason): Usage {
    u.(reason := Some(reason), rejected := u.rejected + 1)
  }

  function CacheMiss(u: Usage): Usage {
    u.(requests := u.requests - 1, rejected := u.rejected + 1, errors := u.errors + 1)
  }

  // ---------------------------------------------------------------- the proxy object

  class LLMProxy {
    const budget: Option<Budget>
    var usage: Usage

    constructor (budget: Option<Budget>)
      ensures this.budget == budget && usage == NO_USAGE
    {
      this.budget, usage := budget, NO_USAGE;
    }

    method CheckPreRequestBudget()
      modifies this
      ensures usage == CheckPreRequest(budget, old(usage))
    {
      if usage.reason.Some? || budget.None? {
        return;
      }
      var b := budget.value;
      if b.maxCost.Some? && usage.cost >= b.maxCost.value {
        usage := usage.(reason := Some(CostLimit));
        return;
      }
      if b.maxTotal.Some? && usage.total >= b.maxTotal.value {
        usage := usage.(reason := Some(TokenLimit));
        return;
      }
      if b.maxPrompt.Some? && usage.prompt >= b.maxPrompt.value {
        usage := usage.(reason := Some(TokenLimit));
        return;
      }
      if b.maxCompletion.Some? && usage.completion >= b.maxCompletion.value {
        usage := usage.(reason := Some(TokenLimit));
      }
    }

    method CheckRequestLimitLocked()
      modifies this
      ensures usage == CheckRequestLimit(budget, old(usage))
    {
      if usage.reason.None? && budget.Some? && budget.value.maxRequests.Some?
         && usage.requests >= budget.value.maxRequests.value {
        usage := usage.(reason := Some(RequestLimit));
      }
    }

    method CheckEstimatedBudget(estimate: int)
      requires budget.Some?
      modifies this
      ensures usage == CheckEstimate(budget.value, old(usage), estimate)
    {
      var b := budget.value;
      if usage.reason.Some? {
        return;
      }
      if b.maxPrompt.Some? {
        var remainingPrompt := AtLeastZero(b.maxPrompt.value - usage.prompt);
        if estimate > remainingPrompt {
          usage := usage.(reason := Some(TokenLimit));
          return;
        }
      }
      if b.maxTotal.Some? {
        var remainingTotal := AtLeastZero(b.maxTotal.value - usage.total);
        if estimate >= remainingTotal {
          usage := usage.(reason := Some(TokenLimit));
          return;
        }
      }
    }

    method ClampRequestTokens(payload: Payload, estimate: int) returns (body: Payload)
      requires budget.Some?
      modifies this
      ensures (usage, body) == Clamp(budget.value, old(usage), estimate, payload)
    {
      var b := budget.value;
      body := payload;
      var limits: seq<int> := [];
      if b.maxPerRequest.Some? {
        limits := limits + [b.maxPerRequest.value];
      }
      if b.maxCompletion.Some? {
        limits := limits + [AtLeastZero(b.maxCompletion.value - usage.completion)];
      }
      if b.maxTotal.Some? {
        var remainingTotal := AtLeastZero(b.maxTotal.value - usage.total);
        limits := limits + [AtLeastZero(remainingTotal - estimate)];
      }
      assert limits == TokenLimits(b, usage, estimate);
      var average := AverageCost(usage);
      if b.maxCost.Some? && average.Some? && average.value > 0.0 {
        var remainingCost := RemainingCost(b, usage);
        var promptCost := PromptCost(estimate, average.value);
        if promptCost >= remainingCost {
          usage := usage.(reason := Some(CostLimit));
          return;
        }
        assert PricesKnown(b, usage) && !PromptUnaffordable(b, usage, estimate);
        limits := limits + [AffordableOutput(remainingCost - promptCost, average.value)];
      }
      assert limits == AllLimits(b, usage, estimate);
      if limits == [] {
        return;
      }
      var allowed := Smallest(limits);
      if allowed <= 0 {
        usage := usage.(reason := Some(TokenLimit));
        return;
      }
      body := SetMaxOutput(payload, allowed);
    }

    method PrepareRequest(payload: Payload, estimate: int) returns (admission: Admission)
      modifies this
      ensures (usage, admission) == Prepare(budget, old(usage), estimate, payload)
    {
      if budget.None? || !budget.value.Enabled() {
        if usage.reason.Some? {
          return Rejected(usage.reason.value);
        }
        CheckRequestLimitLocked();
        if usage.reason.Some? {
          return Rejected(usage.reason.value);
        }
        usage := usage.(requests := usage.requests + 1);
        return Admitted(payload);
      }
      CheckPreRequestBudget();
      if usage.reason.Some? {
        return Rejected(usage.reason.value);
      }
      CheckRequestLimitLocked();
      if usage.reason.Some? {
        return Rejected(usage.reason.value);
      }
      CheckEstimatedBudget(estimate);
      if usage.reason.Some? {
        return Rejected(usage.reason.value);
      }
      var body := ClampRequestTokens(payload, estimate);
      if usage.reason.Some? {
        return Rejected(usage.reason.value);
      }
      usage := usage.(requests := usage.requests + 1);
      return Admitted(body);
    }

    method RecordRequest(reply: Reply)
      modifies this
      ensures usage == Record(budget, old(usage), reply)
    {
      if reply.ok {
        usage := usage.(successes := usage.successes + 1);
      } else {
        usage := usage.(errors := usage.errors + 1);
      }
      usage := usage.(prompt := usage.prompt + OrZero(reply.prompt));
      usage := usage.(completion := usage.completion + OrZero(reply.completion));
      usage := usage.(total := usage.total + OrZero(reply.total));
      usage := usage.(cost := usage.cost + if reply.cost.Some? then reply.cost.value else 0.0);
      CheckPreRequestBudget();
    }
  }

  // ---------------------------------------------------------------- runs

  /** An admitted request that is not accounted yet. */
  datatype Pending = Pending(estimate: int, payload: Payload)

  datatype State = State(usage: Usage, pending: seq<Pending>)

  datatype Event =
    | Arrive(estimate: int, payload: Payload)
    | Refuse(reason: Reason)
    | Answer(index: nat, reply: Reply)
    | Missed(index: nat)

  datatype Dimension = Total | Prompt | Completion

  function Used(u: Usage, d: Dimension): int {
    match d
    case Total => u.total
    case Prompt => u.prompt
    case Completion => u.completion
  }

  function LimitOf(b: Budget, d: Dimension): Option<int> {
    match d
    case Total => b.maxTotal
    case Prompt => b.maxPrompt
    case Completion => b.maxCompletion
  }

  /** Whether the request sent upstream bounds a dimension at all: the prompt is always as estimated,
      output is bounded only if an output limit was sent. */
  predicate Capped(p: Pending, d: Dimension) {
    d.Prompt? || p.payload.maxTokens.Some?
  }

  /** What a capped reply may cost: the estimated prompt and the output limit sent upstream.  A
      negative limit, which the client may send and which survives clamping, allows no output. */
  function CapOf(p: Pending, d: Dimension): int {
    var output := AtLeastZero(OrZero(p.payload.maxTokens));
    match d
    case Total => p.estimate + output
    case Prompt => p.estimate
    case Completion => output
  }

  function Reported(r: Reply, d: Dimension): int {
    match d
    case Total => OrZero(r.total)
    case Prompt => OrZero(r.prompt)
    case Completion => OrZero(r.completion)
  }

  /** A reply keeps within what its request bounded in this dimension. */
  predicate Honest(p: Pending, r: Reply, d: Dimension) {
    0 <= Reported(r, d) && (Capped(p, d) ==> Reported(r, d) <= CapOf(p, d))
  }

  /** Replies may report anything. */
  predicate Allowed(s: State, e: Event) {
    match e
    case Arrive(estimate, _) => estimate >= 1
    case Refuse(_) => true
    case Answer(i, _) => i < |s.pending|
    case Missed(i) => i < |s.pending|
  }

  function Next(b: Budget, s: State, e: Event): State
    requires Allowed(s, e)
  {
    match e
    case Arrive(estimate, p) =>
      var (u, admission) := Prepare(Some(b), s.usage, estimate, p);
      State(u, if admission.Admitted? then s.pending + [Pending(estimate, admission.payload)] else s.pending)
    case Refuse(reason) => s.(usage := Reject(s.usage, reason))
    case Answer(i, r) => State(Record(Some(b), s.usage, r), RemoveAt(s.pending, i))
    case Missed(i) => State(CacheMiss(s.usage), RemoveAt(s.pending, i))
  }

  ghost predicate IsRun(b: Budget, run: seq<State>, events: seq<Event>) {
    && |run| == |events| + 1 && run[0] == State(NO_USAGE, [])
    && forall i | 0 <= i < |events| :: Allowed(run[i], events[i]) && run[i + 1] == Next(b, run[i], events[i])
  }

  /** At most `k` admitted requests are ever unaccounted. */
  ghost predicate AtMostOpen(k: nat, run: seq<State>) {
    forall i | 0 <= i < |run| :: |run[i].pending| <= k
  }

  predicate HonestEvent(s: State, e: Event, d: Dimension) {
    e.Answer? && e.index < |s.pending| ==> Honest(s.pending[e.index], e.reply, d)
  }

  /** No reply of the run overshoots in this dimension. */
  ghost predicate HonestIn(run: seq<State>, events: seq<Event>, d: Dimension)
    requires |events| <= |run|
  {
    forall i | 0 <= i < |events| :: HonestEvent(run[i], events[i], d)
  }

  function SumCaps(ps: seq<Pending>, d: Dimension): int {
    if ps == [] then 0 else CapOf(ps[0], d) + SumCaps(ps[1..], d)
  }

  lemma {:induction false} SumSplit(a: seq<Pending>, c: seq<Pending>, d: Dimension)
    ensures SumCaps(a + c, d) == SumCaps(a, d) + SumCaps(c, d)
  {
    if a == [] {
      assert a + c == c;
    } else {
      assert (a + c)[1..] == a[1..] + c;
      SumSplit(a[1..], c, d);
    }
  }

  lemma SumWithout(ps: seq<Pending>, i: nat, d: Dimension)
    requires i < |ps|
    ensures SumCaps(RemoveAt(ps, i), d) == SumCaps(ps, d) - CapOf(ps[i], d)
  {
    assert ps == ps[..i] + ([ps[i]] + ps[i + 1..]);
    SumSplit(ps[..i], [ps[i]] + ps[i + 1..], d);
    SumSplit([ps[i]], ps[i + 1..], d);
    SumSplit(ps[..i], ps[i + 1..], d);
  }

  lemma {:induction false} SumWithin(ps: seq<Pending>, d: Dimension, limit: nat)
    requires forall p | p in ps :: 0 <= CapOf(p, d) <= limit
    ensures 0 <= SumCaps(ps, d) <= |ps| * limit
  {
    if ps != [] {
      SumWithin(ps[1..], d, limit);
      assert |ps| * limit == limit + (|ps| - 1) * limit;
    }
  }

  lemma {:induction false} SmallestIsBound(ns: seq<int>, n: int)
    requires n in ns
    ensures Smallest(ns) <= n
  {
    if |ns| > 1 && n != ns[0] {
      SmallestIsBound(ns[1..], n);
    }
  }

  /** What is admitted fits into what is left of every limited dimension at that moment. */
  lemma AdmissionFits(b: Budget, u: Usage, estimate: int, p: Payload, d: Dimension)
    requires Prepare(Some(b), u, estimate, p).1.Admitted? && LimitOf(b, d).Some? && estimate >= 1
    ensures var body := Prepare(Some(b), u, estimate, p).1.payload;
      Capped(Pending(estimate, body), d) && 0 <= CapOf(Pending(estimate, body), d) <= LimitOf(b, d).value - Used(u, d)
  {
    var limits := AllLimits(b, u, estimate);
    match d
    case Total => SmallestIsBound(limits, AtLeastZero(AtLeastZero(b.maxTotal.value - u.total) - estimate));
    case Completion => SmallestIsBound(limits, AtLeastZero(b.maxCompletion.value - u.completion));
    case Prompt =>
  }

  ghost predicate SpendInv(b: Budget, k: nat, s: State, d: Dimension) {
    LimitOf(b, d).Some? ==>
      var limit := AtLeastZero(LimitOf(b, d).value);
      && (forall p | p in s.pending :: Capped(p, d) && 0 <= CapOf(p, d) <= limit)
      && 0 <= Used(s.usage, d)
      && Used(s.usage, d) + SumCaps(s.pending, d) <= k * limit
  }

  lemma RoomForOneMore(k: nat, n: nat, limit: nat, used: int, sum: int, cap: int)
    requires n < k && sum <= n * limit && cap <= limit - used
    ensures used + sum + cap <= k * limit
  {
    assert (n + 1) * limit == n * limit + limit;
    assert (n + 1) * limit <= k * limit;
  }

  lemma PrepareSpendsNothing(b: Budget, u: Usage, estimate: int, p: Payload, d: Dimension)
    ensures Used(Prepare(Some(b), u, estimate, p).0, d) == Used(u, d)
  {
  }

  lemma ArrivalKeepsSpend(b: Budget, k: nat, s: State, estimate: int, p: Payload, d: Dimension)
    requires SpendInv(b, k, s, d) && estimate >= 1
    requires |Next(b, s, Arrive(estimate, p)).pending| <= k
    ensures SpendInv(b, k, Next(b, s, Arrive(estimate, p)), d)
  {
    PrepareSpendsNothing(b, s.usage, estimate, p, d);
    var admission := Prepare(Some(b), s.usage, estimate, p).1;
    if admission.Admitted? && LimitOf(b, d).Some? {
      AdmissionFits(b, s.usage, estimate, p, d);
      AddPending(b, k, s, Next(b, s, Arrive(estimate, p)).usage, Pending(estimate, admission.payload), d);
    }
  }

  lemma AddPending(b: Budget, k: nat, s: State, u: Usage, p: Pending, d: Dimension)
    requires SpendInv(b, k, s, d) && LimitOf(b, d).Some? && |s.pending| < k && Used(u, d) == Used(s.usage, d)
    requires Capped(p, d) && 0 <= CapOf(p, d) <= LimitOf(b, d).value - Used(s.usage, d)
    ensures SpendInv(b, k, State(u, s.pending + [p]), d)
  {
    var limit := AtLeastZero(LimitOf(b, d).value);
    SumWithin(s.pending, d, limit);
    SumSplit(s.pending, [p], d);
    RoomForOneMore(k, |s.pending|, limit, Used(s.usage, d), SumCaps(s.pending, d), CapOf(p, d));
  }

  lemma EventKeepsSpend(b: Budget, k: nat, s: State, e: Event, d: Dimension)
    requires SpendInv(b, k, s, d) && Allowed(s, e) && HonestEvent(s, e, d) && |Next(b, s, e).pending| <= k
    ensures SpendInv(b, k, Next(b, s, e), d)
  {
    match e
    case Arrive(estimate, p) => ArrivalKeepsSpend(b, k, s, estimate, p, d);
    case Refuse(_) =>
    case Answer(i, r) =>
      assert s.pending[i] in s.pending;
      SumWithout(s.pending, i, d);
    case Missed(i) =>
      assert s.pending[i] in s.pending;
      SumWithout(s.pending, i, d);
  }

  lemma PendingSumNonNegative(b: Budget, k: nat, s: State, d: Dimension)
    requires SpendInv(b, k, s, d) && LimitOf(b, d).Some?
    ensures SumCaps(s.pending, d) >= 0
  {
    SumWithin(s.pending, d, AtLeastZero(LimitOf(b, d).value));
  }

  /** The spend bound, for total, prompt and completion tokens each by itself: if no reply overshoots
      in that dimension, what is accounted plus what is still owed never exceeds `k` times its
      limit.  With sequential requests (`k == 1`) it is the limit itself. */
  lemma {:induction false} SpendIsBounded(
    b: Budget, k: nat, run: seq<State>, events: seq<Event>, i: nat, d: Dimension)
    requires IsRun(b, run, events) && AtMostOpen(k, run) && HonestIn(run, events, d) && i < |run| && LimitOf(b, d).Some?
    ensures SpendInv(b, k, run[i], d)
    ensures 0 <= Used(run[i].usage, d) <= k * AtLeastZero(LimitOf(b, d).value)
  {
    if i > 0 {
      SpendIsBounded(b, k, run, events, i - 1, d);
      EventKeepsSpend(b, k, run[i - 1], events[i - 1], d);
    }
    PendingSumNonNegative(b, k, run[i], d);
  }

  // ---------------------------------------------------------------- the bound is reached

  /** A budget that limits one dimension only. */
  function Only(d: Dimension, limit: int): Budget {
    match d
    case Total => Budget(None, Some(limit), None, None, None, None)
    case Prompt => Budget(None, None, Some(limit), None, None, None)
    case Completion => Budget(None, None, None, Some(limit), None, None)
  }

  /** The smallest limit that admits anything: a prompt and an answer for total tokens, a prompt or an
      answer otherwise. */
  function LeastUseful(d: Dimension): int {
    if d.Total? then 2 else 1
  }

  /** A request that asks for all there is, what is sent upstream for it, and the reply that uses it up. */
  function FullEstimate(d: Dimension, limit: int): int {
    if d.Prompt? then limit else 1
  }

  function FullPayload(d: Dimension, limit: int): Payload {
    match d
    case Total => Payload(Some(limit - 1), None)
    case Prompt => Payload(None, None)
    case Completion => Payload(Some(limit), None)
  }

  function FullReply(d: Dimension, limit: int): Reply {
    match d
    case Total => Reply(true, None, None, Some(limit), None)
    case Prompt => Reply(true, Some(limit), None, None, None)
    case Completion => Reply(true, None, Some(limit), None, None)
  }

  function Open(d: Dimension, limit: int, n: nat): seq<Pending> {
    seq(n, _ => Pending(FullEstimate(d, limit), FullPayload(d, limit)))
  }

  /** `n` open and `m` answered requests, all admitted while nothing was accounted. */
  function Overlapping(d: Dimension, limit: int, n: nat, m: nat): State {
    State(Usage(n + m, 0, m, 0,
                if d.Prompt? then m * limit else 0, if d.Completion? then m * limit else 0,
                if d.Total? then m * limit else 0, 0.0, if m == 0 then None else Some(TokenLimit)),
          Open(d, limit, n))
  }

  function FullRequest(d: Dimension, limit: int): Event {
    Arrive(FullEstimate(d, limit), Payload(None, None))
  }

  lemma FullRequestIsAdmitted(d: Dimension, limit: int, u: Usage)
    requires limit >= LeastUseful(d) && u.reason.None? && u.total == 0 && u.prompt == 0 && u.completion == 0
    ensures Prepare(Some(Only(d, limit)), u, FullEstimate(d, limit), Payload(None, None))
         == (u.(requests := u.requests + 1), Admitted(FullPayload(d, limit)))
  {
    var b := Only(d, limit);
    assert TokenLimits(b, u, FullEstimate(d, limit)) == match d
      case Total => [limit - 1]
      case Prompt => []
      case Completion => [limit];
    assert AllLimits(b, u, FullEstimate(d, limit)) == TokenLimits(b, u, FullEstimate(d, limit));
  }

  lemma OneMoreOpen(d: Dimension, limit: int, n: nat)
    requires limit >= LeastUseful(d)
    ensures Next(Only(d, limit), Overlapping(d, limit, n, 0), FullRequest(d, limit)) == Overlapping(d, limit, n + 1, 0)
  {
    FullRequestIsAdmitted(d, limit, Overlapping(d, limit, n, 0).usage);
    assert Open(d, limit, n) + [Pending(FullEstimate(d, limit), FullPayload(d, limit))] == Open(d, limit, n + 1);
  }

  lemma FullReplyIsHonest(d: Dimension, limit: int, n: nat, m: nat)
    requires limit >= LeastUseful(d) && n > 0
    ensures Allowed(Overlapping(d, limit, n, m), Answer(0, FullReply(d, limit)))
    ensures forall other :: Honest(Overlapping(d, limit, n, m).pending[0], FullReply(d, limit), other)
  {
  }

  lemma FullReplyUsesUp(d: Dimension, limit: int, n: nat, m: nat)
    requires limit >= LeastUseful(d) && n > 0
    ensures Record(Some(Only(d, limit)), Overlapping(d, limit, n, m).usage, FullReply(d, limit))
         == Overlapping(d, limit, n - 1, m + 1).usage
  {
    assert (m + 1) * limit == m * limit + limit;
    assert m * limit >= 0;
  }

  lemma OneMoreAnswered(d: Dimension, limit: int, n: nat, m: nat)
    requires limit >= LeastUseful(d) && n > 0
    ensures Next(Only(d, limit), Overlapping(d, limit, n, m), Answer(0, FullReply(d, limit)))
         == Overlapping(d, limit, n - 1, m + 1)
  {
    FullReplyUsesUp(d, limit, n, m);
    assert RemoveAt(Open(d, limit, n), 0) == Open(d, limit, n - 1);
  }

  /** `k` arrivals followed by `k` answers. */
  function StateAt(d: Dimension, limit: int, k: nat, i: nat): State
    requires i <= 2 * k
  {
    if i <= k then Overlapping(d, limit, i, 0) else Overlapping(d, limit, 2 * k - i, i - k)
  }

  function EventAt(d: Dimension, limit: int, k: nat, i: nat): Event {
    if i < k then FullRequest(d, limit) else Answer(0, FullReply(d, limit))
  }

  lemma OverlapStep(d: Dimension, limit: int, k: nat, i: nat)
    requires limit >= LeastUseful(d) && i < 2 * k
    ensures Allowed(StateAt(d, limit, k, i), EventAt(d, limit, k, i))
    ensures forall other :: HonestEvent(StateAt(d, limit, k, i), EventAt(d, limit, k, i), other)
    ensures StateAt(d, limit, k, i + 1) == Next(Only(d, limit), StateAt(d, limit, k, i), EventAt(d, limit, k, i))
  {
    if i < k {
      OneMoreOpen(d, limit, i);
    } else {
      FullReplyIsHonest(d, limit, 2 * k - i, i - k);
      OneMoreAnswered(d, limit, 2 * k - i, i - k);
    }
  }

  /** The factor `k` is real in every dimension: with `k` overlapping requests what is accounted reaches
      `k` times the limit although no reply overshoots in any dimension. */
  lemma SpendBoundIsReached(d: Dimension, limit: int, k: nat) returns (run: seq<State>, events: seq<Event>)
    requires limit >= LeastUseful(d)
    ensures IsRun(Only(d, limit), run, events) && AtMostOpen(k, run)
    ensures forall other :: HonestIn(run, events, other)
    ensures Used(run[|run| - 1].usage, d) == k * limit
  {
    run := seq(2 * k + 1, i requires 0 <= i <= 2 * k => StateAt(d, limit, k, i));
    events := seq(2 * k, i requires 0 <= i < 2 * k => EventAt(d, limit, k, i));
    forall i | 0 <= i < |events|
      ensures Allowed(run[i], events[i]) && run[i + 1] == Next(Only(d, limit), run[i], events[i])
      ensures forall other :: HonestEvent(run[i], events[i], other)
    {
      OverlapStep(d, limit, k, i);
    }
    assert Open(d, limit, 0) == [];
    assert run[2 * k] == StateAt(d, limit, k, 2 * k);
  }

  lemma SmallLimitRejects(b: Budget, u: Usage, estimate: int, p: Payload, d: Dimension)
    requires LimitOf(b, d).Some? && LimitOf(b, d).value < LeastUseful(d) && Used(u, d) == 0 && estimate >= 1
    ensures var (u', admission) := Prepare(Some(b), u, estimate, p);
      admission.Rejected? && u'.requests == u.requests && Used(u', d) == Used(u, d)
  {
    var checked := CheckRequestLimit(Some(b), CheckPreRequest(Some(b), u));
    assert checked.reason.Some? || CheckEstimate(b, checked, estimate).reason == Some(TokenLimit);
  }

  /** A limit too small for a single request (two total tokens, one prompt or completion token) admits
      nothing at all: whatever arrives, nothing is ever open and nothing is spent. */
  lemma {:induction false} TooSmallALimitAdmitsNothing(
    b: Budget, run: seq<State>, events: seq<Event>, i: nat, d: Dimension)
    requires IsRun(b, run, events) && i < |run| && LimitOf(b, d).Some? && LimitOf(b, d).value < LeastUseful(d)
    ensures run[i].pending == [] && run[i].usage.requests == 0 && Used(run[i].usage, d) == 0
  {
    if i > 0 {
      TooSmallALimitAdmitsNothing(b, run, events, i - 1, d);
      if events[i - 1].Arrive? {
        SmallLimitRejects(b, run[i - 1].usage, events[i - 1].estimate, events[i - 1].payload, d);
      }
    }
  }

  /** No run with at most `k` open requests and no reply overshooting in `d` ever spends more than the
      limit. */
  ghost predicate LimitHolds(d: Dimension, limit: int, k: nat) {
    forall run: seq<State>, events: seq<Event>, i: nat |
      IsRun(Only(d, limit), run, events) && AtMostOpen(k, run) && HonestIn(run, events, d) && i < |run| ::
      Used(run[i].usage, d) <= AtLeastZero(limit)
  }

  lemma MoreThanTheLimit(k: nat, limit: int)
    requires k >= 2 && limit >= 1
    ensures k * limit > limit
  {
    assert k * limit == limit + (k - 1) * limit;
    assert (k - 1) * limit >= 1 * limit;
  }

  /** When a limit holds exactly, in each dimension: at most one request is open at a time, or the limit
      is too small to admit any. */
  lemma LimitHoldsExactly(d: Dimension, limit: int, k: nat)
    ensures LimitHolds(d, limit, k) <==> k <= 1 || limit < LeastUseful(d)
  {
    if k <= 1 || limit < LeastUseful(d) {
      forall run: seq<State>, events: seq<Event>, i: nat |
        IsRun(Only(d, limit), run, events) && AtMostOpen(k, run) && HonestIn(run, events, d) && i < |run|
        ensures Used(run[i].usage, d) <= AtLeastZero(limit)
      {
        if limit < LeastUseful(d) {
          TooSmallALimitAdmitsNothing(Only(d, limit), run, events, i, d);
        } else {
          SpendIsBounded(Only(d, limit), k, run, events, i, d);
          assert k * AtLeastZero(limit) <= AtLeastZero(limit);
        }
      }
    } else {
      var run, events := SpendBoundIsReached(d, limit, k);
      MoreThanTheLimit(k, limit);
      assert HonestIn(run, events, d);
    }
  }

  // ---------------------------------------------------------------- counts and the sticky reason

  /** Request slots: those claimed cover what is pending and never exceed the limit. */
  ghost predicate SlotInv(b: Budget, s: State) {
    && |s.pending| <= s.usage.requests
    && (b.maxRequests.Some? ==> s.usage.requests <= AtLeastZero(b.maxRequests.value))
  }

  lemma EventKeepsSlots(b: Budget, s: State, e: Event)
    requires SlotInv(b, s) && Allowed(s, e)
    ensures SlotInv(b, Next(b, s, e))
  {
    if e.Arrive? && b.Enabled() {
      var u := CheckRequestLimit(Some(b), CheckPreRequest(Some(b), s.usage));
      assert u.reason.None? && b.maxRequests.Some? ==> s.usage.requests < b.maxRequests.value;
    }
  }

  /** Claimed slots never exceed the request limit, whatever the replies report and however many
      requests overlap. */
  lemma {:induction false} RequestsAreBounded(b: Budget, run: seq<State>, events: seq<Event>, i: nat)
    requires IsRun(b, run, events) && i < |run|
    ensures SlotInv(b, run[i])
  {
    if i > 0 {
      RequestsAreBounded(b, run, events, i - 1);
      EventKeepsSlots(b, run[i - 1], events[i - 1]);
    }
  }

  lemma BlockedStepStaysBlocked(b: Budget, s: State, e: Event)
    requires s.usage.reason.Some? && Allowed(s, e)
    ensures Next(b, s, e).usage.reason.Some? && Next(b, s, e).usage.requests <= s.usage.requests
    ensures |Next(b, s, e).pending| <= |s.pending|
  {
  }

  /** Once a reason is set (by a limit or by any refusal) it is never cleared, nothing more is
      admitted, and the request count never rises again. */
  lemma {:induction false} BlockedStaysBlocked(
    b: Budget, run: seq<State>, events: seq<Event>, i: nat, j: nat)
    requires IsRun(b, run, events) && i <= j < |run| && run[i].usage.reason.Some?
    ensures run[j].usage.reason.Some? && run[j].usage.requests <= run[i].usage.requests
    ensures |run[j].pending| <= |run[i].pending|
    decreases j
  {
    if i < j {
      BlockedStaysBlocked(b, run, events, i, j - 1);
      BlockedStepStaysBlocked(b, run[j - 1], events[j - 1]);
    }
  }

  /** Clamping bounds the output limit from above only: it is at most every limit in force, is the
      client's own value whenever that is smaller, and so stays negative if the client sent that. */
  lemma ClampingOnlyLowers(b: Budget, u: Usage, estimate: int, p: Payload)
    requires Prepare(Some(b), u, estimate, p).1.Admitted? && AllLimits(b, u, estimate) != [] && b.Enabled()
    ensures var body := Prepare(Some(b), u, estimate, p).1.payload;
      var limits := AllLimits(b, u, estimate);
      && body.maxTokens.Some? && body.maxTokens.value <= Smallest(limits) && Smallest(limits) > 0
      && (p.maxTokens.Some? ==> body.maxTokens.value <= p.maxTokens.value)
      && (p.maxTokens.Some? && p.maxTokens.value <= Smallest(limits) ==> body.maxTokens == p.maxTokens)
      && (body.maxCompletionTokens.Some? ==> body.maxCompletionTokens.value <= Smallest(limits))
  {
  }
}

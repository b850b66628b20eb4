/**
 The round-robin rotator over GitHub tokens: one scan under the lock, the cooldown
 marks, and how fair the rotation is.  Times are monotonic clock readings.
 */
module TokenRotator {
  import opened Common

  /** `index` counts the positions ever tried; `cooldowns` maps a token's position to the time it
      becomes usable again. */
  datatype Rotator = Rotator(tokens: seq<string>, index: nat, cooldowns: map<nat, real>)

  /** One scan either takes the token at a position or says how long to sleep. */
  datatype Scanned = Take(position: nat) | Sleep(seconds: real)

  const RATE_LIMIT_COOLDOWN := 60.0
  const UNAUTHORIZED_COOLDOWN := 120.0

  ghost predicate Valid(r: Rotator) {
    r.tokens != [] && forall i | i in r.cooldowns :: i < |r.tokens|
  }

  predicate Ready(r: Rotator, position: nat, now: real) {
    position !in r.cooldowns || r.cooldowns[position] <= now
  }

  function Position(r: Rotator, offset: nat): nat {
    if r.tokens == [] then 0 else (r.index + offset) % |r.tokens|
  }

  /** The first offset from k on, of a round, whose token is ready. */
  function FirstReady(r: Rotator, now: real, k: nat): Option<nat>
    requires k <= |r.tokens|
    decreases |r.tokens| - k
  {
    if k == |r.tokens| then None
    else if Ready(r, Position(r, k), now) then Some(k)
    else FirstReady(r, now, k + 1)
  }

  /** The least time in the cooldown table among the first n positions. */
  function Earliest(cooldowns: map<nat, real>, n: nat): Option<real> {
    if n == 0 then None
    else
      var before := Earliest(cooldowns, n - 1);
      if n - 1 !in cooldowns then before
      else if before.Some? && before.value <= cooldowns[n - 1] then before
      else Some(cooldowns[n - 1])
  }

  function SleepTime(r: Rotator, now: real): real {
    var first := Earliest(r.cooldowns, |r.tokens|);
    if first.Some? && first.value > now then first.value - now else 0.0
  }

  function Scan(r: Rotator, now: real): (Rotator, Scanned) {
    var k := FirstReady(r, now, 0);
    if k.Some? then
      var position := Position(r, k.value);
      (r.(index := r.index + k.value + 1, cooldowns := r.cooldowns - {position}), Take(position))
    else (r.(index := r.index + |r.tokens|), Sleep(SleepTime(r, now)))
  }

  function IndexOf(tokens: seq<string>, token: string): Option<nat> {
    if tokens == [] then None
    else if tokens[0] == token then Some(0)
    else
      var i := IndexOf(tokens[1..], token);
      if i.Some? then Some(i.value + 1) else None
  }

  /** A token nobody holds is not marked. */
  function Cool(r: Rotator, token: string, until: real): Rotator {
    var i := IndexOf(r.tokens, token);
    if i.Some? then r.(cooldowns := r.cooldowns[i.value := until]) else r
  }

  function RateLimitSeconds(reported: Option<real>): real {
    if reported.Some? && reported.value > 0.0 then reported.value else RATE_LIMIT_COOLDOWN
  }

  class GitHubTokenRotator {
    const tokens: seq<string>
    var index: nat
    var cooldowns: map<nat, real>

    constructor (tokens: seq<string>)
      requires tokens != []
      ensures Contents() == Rotator(tokens, 0, map[])
    {
      this.tokens := tokens;
      index, cooldowns := 0, map[];
    }

    ghost function Contents(): Rotator
      reads this
    {
      Rotator(tokens, index, cooldowns)
    }

    /** The locked part of one turn of `get_token`. */
    method TryToken(now: real) returns (r: Scanned)
      requires tokens != []
      modifies this
      ensures (Contents(), r) == Scan(old(Contents()), now)
    {
      ghost var before := Contents();
      var n := |tokens|;
      for i := 0 to n
        invariant Contents() == before.(index := before.index + i)
        invariant FirstReady(before, now, 0) == FirstReady(before, now, i)
      {
        var position := index % n;
        index := index + 1;
        if position !in cooldowns || cooldowns[position] <= now {
          cooldowns := cooldowns - {position};
          return Take(position);
        }
      }
      var first := Earliest(cooldowns, n);
      return Sleep(if first.Some? && first.value > now then first.value - now else 0.0);
    }

    method MarkRateLimited(token: string, reported: Option<real>, now: real)
      modifies this
      ensures Contents() == Cool(old(Contents()), token, now + RateLimitSeconds(reported))
    {
      var seconds := if reported.Some? && reported.value > 0.0 then reported.value else RATE_LIMIT_COOLDOWN;
      var i := IndexOf(tokens, token);
      if i.None? {
        return;
      }
      cooldowns := cooldowns[i.value := now + seconds];
    }

    method MarkUnauthorized(token: string, now: real)
      modifies this
      ensures Contents() == Cool(old(Contents()), token, now + UNAUTHORIZED_COOLDOWN)
    {
      var i := IndexOf(tokens, token);
      if i.None? {
        return;
      }
      cooldowns := cooldowns[i.value := now + UNAUTHORIZED_COOLDOWN];
    }
  }

  // ---------------------------------------------------------------- a round visits everyone

  /** How far ahead of the index a position lies. */
  function Distance(r: Rotator, position: nat): nat
    requires r.tokens != []
  {
    (position - r.index) % |r.tokens|
  }

  /** One round of a scan visits every position exactly once. */
  lemma RoundVisitsEachOnce(r: Rotator, position: nat, k: nat)
    requires position < |r.tokens| && k < |r.tokens|
    ensures Distance(r, position) < |r.tokens|
    ensures Position(r, k) == position <==> k == Distance(r, position)
  {
    var n := |r.tokens|;
    var d, q := Distance(r, position), (position - r.index) / n;
    assert position - r.index == q * n + d;
    assert r.index + d == (-q) * n + position;
    QuotientOf(r.index + d, -q, position, n);
    if Position(r, k) == position {
      var p := (r.index + k) / n;
      assert r.index + k == p * n + position;
      assert position - r.index == (-p) * n + k;
      QuotientOf(position - r.index, -p, k, n);
    }
  }

  lemma {:induction false} FirstReadyIsFirst(r: Rotator, now: real, k: nat)
    requires r.tokens != [] && k <= |r.tokens|
    ensures var first := FirstReady(r, now, k);
      && (first.None? <==> forall j | k <= j < |r.tokens| :: !Ready(r, Position(r, j), now))
      && (first.Some? ==>
            && k <= first.value < |r.tokens| && Ready(r, Position(r, first.value), now)
            && forall j | k <= j < first.value :: !Ready(r, Position(r, j), now))
    decreases |r.tokens| - k
  {
    if k < |r.tokens| {
      FirstReadyIsFirst(r, now, k + 1);
    }
  }

  lemma {:induction false} EarliestIsLeast(cooldowns: map<nat, real>, n: nat)
    ensures var first := Earliest(cooldowns, n);
      && (first.None? <==> forall i: nat | i < n :: i !in cooldowns)
      && (first.Some? ==>
            && (exists i: nat :: i < n && i in cooldowns && cooldowns[i] == first.value)
            && forall i: nat | i < n && i in cooldowns :: first.value <= cooldowns[i])
  {
    if n > 0 {
      EarliestIsLeast(cooldowns, n - 1);
    }
  }

  lemma ScanFindsReady(r: Rotator, now: real, position: nat)
    requires Valid(r) && position < |r.tokens| && Ready(r, position, now)
    ensures FirstReady(r, now, 0).Some? && FirstReady(r, now, 0).value <= Distance(r, position)
  {
    RoundVisitsEachOnce(r, position, Distance(r, position));
    FirstReadyIsFirst(r, now, 0);
  }

  ghost predicate AllCooling(r: Rotator, now: real) {
    forall i: nat | i < |r.tokens| :: !Ready(r, i, now)
  }

  lemma NobodyReadyMeansAllCool(r: Rotator, now: real)
    requires Valid(r)
    ensures FirstReady(r, now, 0).None? <==> AllCooling(r, now)
  {
    FirstReadyIsFirst(r, now, 0);
    if FirstReady(r, now, 0).None? {
      forall i: nat | i < |r.tokens| ensures !Ready(r, i, now) {
        RoundVisitsEachOnce(r, i, Distance(r, i));
      }
    }
  }

  lemma SleepEndsAtEarliest(r: Rotator, now: real)
    requires Valid(r) && AllCooling(r, now)
    ensures SleepTime(r, now) > 0.0 && !AllCooling(r, now + SleepTime(r, now))
    ensures forall t | t < now + SleepTime(r, now) :: AllCooling(r, t)
  {
    EarliestIsLeast(r.cooldowns, |r.tokens|);
    assert !Ready(r, 0, now);
    var first := Earliest(r.cooldowns, |r.tokens|).value;
    var i: nat :| i < |r.tokens| && i in r.cooldowns && r.cooldowns[i] == first;
    assert !Ready(r, i, now) && Ready(r, i, first);
    forall t, j: nat | t < first && j < |r.tokens| ensures !Ready(r, j, t) {
      assert !Ready(r, j, now);
    }
  }

  /** A scan sleeps exactly when every token is cooling down, and then until the earliest of all of
      them is usable: nobody is ready before, somebody is ready then. */
  lemma SleepsOnlyWhenAllCool(r: Rotator, now: real)
    requires Valid(r)
    ensures var result := Scan(r, now).1;
      && (result.Sleep? <==> AllCooling(r, now))
      && (result.Sleep? ==>
            && result.seconds > 0.0 && !AllCooling(r, now + result.seconds)
            && forall t | t < now + result.seconds :: AllCooling(r, t))
      && (result.Take? ==> result.position < |r.tokens| && Ready(r, result.position, now))
  {
    FirstReadyIsFirst(r, now, 0);
    NobodyReadyMeansAllCool(r, now);
    if AllCooling(r, now) {
      SleepEndsAtEarliest(r, now);
    }
  }

  // ---------------------------------------------------------------- fairness

  datatype Event =
    | TryToken(now: real)
    | RateLimited(token: string, reported: Option<real>, now: real)
    | Unauthorized(token: string, now: real)

  function Next(r: Rotator, e: Event): Rotator {
    match e
    case TryToken(now) => Scan(r, now).0
    case RateLimited(token, reported, now) => Cool(r, token, now + RateLimitSeconds(reported))
    case Unauthorized(token, now) => Cool(r, token, now + UNAUTHORIZED_COOLDOWN)
  }

  ghost predicate IsRun(run: seq<Rotator>, events: seq<Event>) {
    && |run| == |events| + 1 && Valid(run[0])
    && forall i | 0 <= i < |events| :: run[i + 1] == Next(run[i], events[i])
  }

  lemma {:induction false} IndexOfIsPosition(tokens: seq<string>, token: string)
    ensures var i := IndexOf(tokens, token);
      && (i.None? <==> token !in tokens)
      && (i.Some? ==> i.value < |tokens| && tokens[i.value] == token && token !in tokens[..i.value])
  {
    if tokens != [] {
      IndexOfIsPosition(tokens[1..], token);
      assert tokens == [tokens[0]] + tokens[1..];
      var i := IndexOf(tokens, token);
      if i.Some? && i.value > 0 {
        assert tokens[..i.value] == [tokens[0]] + tokens[1..][..i.value - 1];
      }
    }
  }

  /** Marking a token makes it unusable exactly when its other copies in the configured list, if
      any, are cooling already: only the first copy is marked, so a repeated token that was just
      rate-limited can still be handed out. */
  lemma MarkingCoolsTokenExactly(r: Rotator, token: string, until: real, now: real)
    requires token in r.tokens && until > now
    ensures (forall i: nat | i < |r.tokens| && r.tokens[i] == token :: !Ready(Cool(r, token, until), i, now))
      <==> forall i: nat | i < |r.tokens| && r.tokens[i] == token && Some(i) != IndexOf(r.tokens, token) :: !Ready(r, i, now)
  {
    IndexOfIsPosition(r.tokens, token);
    var r' := Cool(r, token, until);
    assert forall i: nat | Some(i) != IndexOf(r.tokens, token) :: Ready(r', i, now) <==> Ready(r, i, now);
    assert !Ready(r', IndexOf(r.tokens, token).value, now);
  }

  /** No event loses the table's shape: cooldowns name existing positions only. */
  lemma EventKeepsValid(r: Rotator, e: Event)
    requires Valid(r)
    ensures Valid(Next(r, e)) && Next(r, e).tokens == r.tokens
  {
    if !e.TryToken? {
      IndexOfIsPosition(r.tokens, e.token);
    }
  }

  /** Every time a scan takes some other token, a ready token comes strictly closer. */
  lemma ReadyTokenComesCloser(r: Rotator, now: real, position: nat)
    requires Valid(r) && position < |r.tokens| && Ready(r, position, now)
    ensures var (r', result) := Scan(r, now);
      result.Take? && (result.position == position || Distance(r', position) < Distance(r, position))
  {
    ScanFindsReady(r, now, position);
    var k := FirstReady(r, now, 0).value;
    RoundVisitsEachOnce(r, position, k);
    if k < Distance(r, position) {
      var n, d := |r.tokens|, Distance(r, position);
      var q := (position - r.index) / n;
      assert position - r.index == q * n + d;
      QuotientOf(position - (r.index + k + 1), q, d - k - 1, n);
    }
  }

  /** How many tokens the scans of a run hand out. */
  function Scans(events: seq<Event>): nat {
    if events == [] then 0
    else Scans(events[..|events| - 1]) + if events[|events| - 1].TryToken? then 1 else 0
  }

  ghost predicate StaysReady(run: seq<Rotator>, events: seq<Event>, position: nat)
    requires |run| == |events| + 1
  {
    forall i | 0 <= i < |events| && events[i].TryToken? :: Ready(run[i], position, events[i].now)
  }

  ghost predicate NeverTaken(run: seq<Rotator>, events: seq<Event>, position: nat)
    requires IsRun(run, events)
  {
    forall i | 0 <= i < |events| && events[i].TryToken? :: Scan(run[i], events[i].now).1 != Take(position)
  }

  lemma {:induction false} MissesUseUpDistance(run: seq<Rotator>, events: seq<Event>, position: nat)
    requires IsRun(run, events) && position < |run[0].tokens|
    requires StaysReady(run, events, position) && NeverTaken(run, events, position)
    ensures var last := run[|events|];
      Valid(last) && last.tokens == run[0].tokens && Scans(events) + Distance(last, position) <= Distance(run[0], position)
  {
    if events != [] {
      var m := |events| - 1;
      var before := events[..m];
      assert forall i | 0 <= i < m :: before[i] == events[i];
      MissesUseUpDistance(run[..m + 1], before, position);
      EventKeepsValid(run[m], events[m]);
      if events[m].TryToken? {
        ReadyTokenComesCloser(run[m], events[m].now, position);
      }
    }
  }

  /** Rotation is fair: a token that is ready at every scan is taken within as many scans as there
      are tokens, whatever cooldowns the others get in between. */
  lemma ReadyTokenIsTakenInARound(run: seq<Rotator>, events: seq<Event>, position: nat)
    requires IsRun(run, events) && position < |run[0].tokens|
    requires StaysReady(run, events, position) && Scans(events) >= |run[0].tokens|
    ensures exists i :: 0 <= i < |events| && events[i].TryToken? && Scan(run[i], events[i].now).1 == Take(position)
  {
    if NeverTaken(run, events, position) {
      MissesUseUpDistance(run, events, position);
      RoundVisitsEachOnce(run[0], position, 0);
    }
  }

  // ---------------------------------------------------------------- how long a mark lasts

  /** The rest a mark gives a token: what GitHub reported if that is positive and a minute otherwise, or
      two minutes after a refusal. */
  function RestOf(e: Event): real
    requires !e.TryToken?
  {
    match e
    case RateLimited(_, reported, _) => (match reported case Some(s) => if s > 0.0 then s else 60.0 case None => 60.0)
    case Unauthorized(_, _) => 120.0
  }

  /** The position a mark is for: the token's first. */
  predicate MarksPosition(r: Rotator, e: Event, position: nat) {
    !e.TryToken? && position < |r.tokens| && r.tokens[position] == e.token && e.token !in r.tokens[..position]
  }

  lemma NoEarlierCopy(tokens: seq<string>, token: string, j: nat)
    requires j <= |tokens| && token !in tokens[..j]
    ensures forall i: nat | i < |tokens| && tokens[i] == token :: i >= j
  {
    forall i: nat | i < j ensures tokens[i] != token {
      assert tokens[..j][i] == tokens[i];
    }
  }

  /** What an event does to the cooldown of one position. */
  lemma CooldownMoves(r: Rotator, e: Event, position: nat)
    requires Valid(r) && position < |r.tokens|
    ensures var r' := Next(r, e);
      && (MarksPosition(r, e, position) ==> position in r'.cooldowns && r'.cooldowns[position] == e.now + RestOf(e))
      && (!MarksPosition(r, e, position) && !(e.TryToken? && Scan(r, e.now).1 == Take(position)) ==>
            (position in r'.cooldowns <==> position in r.cooldowns)
            && (position in r.cooldowns ==> r'.cooldowns[position] == r.cooldowns[position]))
      && (e.TryToken? && Scan(r, e.now).1 == Take(position) ==> position !in r'.cooldowns)
  {
    if !e.TryToken? {
      IndexOfIsPosition(r.tokens, e.token);
      var i := IndexOf(r.tokens, e.token);
      if i.Some? && MarksPosition(r, e, position) {
        NoEarlierCopy(r.tokens, e.token, i.value);
        NoEarlierCopy(r.tokens, e.token, position);
      }
    }
  }

  /** A marked token rests for just that long, as far as this mark goes: until then no scan takes its
      position, whatever else is marked or taken, and then the position is ready again. */
  lemma {:induction false} MarkedTokenRests(
    run: seq<Rotator>, events: seq<Event>, i: nat, j: nat, position: nat)
    requires IsRun(run, events) && i < j <= |events| && MarksPosition(run[i], events[i], position)
    requires forall m | i < m < j :: !MarksPosition(run[m], events[m], position)
    requires forall m | i < m < j && events[m].TryToken? :: events[m].now < events[i].now + RestOf(events[i])
    ensures Valid(run[j]) && run[j].tokens == run[i].tokens
    ensures forall m | i < m < j && events[m].TryToken? :: Scan(run[m], events[m].now).1 != Take(position)
    ensures forall now :: Ready(run[j], position, now) <==> now >= events[i].now + RestOf(events[i])
    decreases j
  {
    RunStaysValid(run, events, i);
    if j == i + 1 {
      EventKeepsValid(run[i], events[i]);
      CooldownMoves(run[i], events[i], position);
    } else {
      var m := j - 1;
      MarkedTokenRests(run, events, i, m, position);
      EventKeepsValid(run[m], events[m]);
      var until := events[i].now + RestOf(events[i]);
      assert !Ready(run[m], position, until - 1.0) && Ready(run[m], position, until);
      assert position in run[m].cooldowns && run[m].cooldowns[position] == until by {
        assert Ready(run[m], position, run[m].cooldowns[position]);
      }
      if events[m].TryToken? {
        SleepsOnlyWhenAllCool(run[m], events[m].now);
      }
      CooldownMoves(run[m], events[m], position);
    }
  }

  lemma {:induction false} RunStaysValid(run: seq<Rotator>, events: seq<Event>, i: nat)
    requires IsRun(run, events) && i < |run|
    ensures Valid(run[i])
  {
    if i > 0 {
      RunStaysValid(run, events, i - 1);
      EventKeepsValid(run[i - 1], events[i - 1]);
    }
  }
}

/**
 Which endpoint the router hands out and what a recorded result changes, by
 status, time and load; and over runs, how long a bad outcome keeps an endpoint
 away and what the load counters count.
 */
module RouterChoices {
  import opened Common
  import opened Router
  import opened RouterRuns

  // ---------------------------------------------------------------- results

  /** The rest after so many bad outcomes in a row. */
  function RestAfter(cfg: Settings, failures: nat): real {
    cfg.cooldown * if failures >= 4 then 4.0 else failures as real
  }

  /** The effect of a recorded result on every endpoint's health, by status. */
  lemma ResultByStatus(
    r: Table, cfg: Settings, url: Url, status: Option<int>, error: bool, urls: seq<Url>, now: real, u: Url)
    ensures var (o, before) := (Outcome(url, status, error), StateFor(r, u));
      var after := StateFor(RecordResult(r, cfg, url, status, error, urls, now), u);
      if u == url && Bad(o) then
        var failures := before.failures + 1;
        after == Endpoint(before.inFlight, failures, now + RestAfter(cfg, failures))
      else if u == url && Good(o) then after == Endpoint(before.inFlight, 0, 0.0)
      else after == before
  {
    var failures := StateFor(r, url).failures + 1;
    var steps := if failures < 4 then failures else 4;
    assert steps as real == if failures >= 4 then 4.0 else failures as real;
    assert cfg.cooldown * steps as real == RestAfter(cfg, failures);
  }

  // ---------------------------------------------------------------- which endpoint

  predicate Disabled(r: Table, u: Url) {
    u in r.disabled || (r.store.Some? && u in LoadDisabled(r.store.value))
  }

  predicate Warm(r: Table, u: Url, now: real) {
    (if u in r.states then r.states[u].cooldownUntil else 0.0) <= now
  }

  /** Enabled, or everything configured is disabled. */
  ghost predicate Eligible(r: Table, urls: seq<Url>, u: Url) {
    u in urls && (!Disabled(r, u) || forall v | v in urls :: Disabled(r, v))
  }

  /** Eligible and warm, or eligible while nothing eligible is warm. */
  ghost predicate Best(r: Table, urls: seq<Url>, now: real, u: Url) {
    Eligible(r, urls, u) && (Warm(r, u, now) || forall v | v in urls && Eligible(r, urls, v) :: !Warm(r, v, now))
  }

  function Requests(r: Table, u: Url): int {
    if u in r.states then r.states[u].inFlight else 0
  }

  lemma EnabledAreEligible(r: Table, urls: seq<Url>, u: Url)
    ensures u in EnabledUrls(r, urls) <==> Eligible(r, urls, u)
  {
    WithoutKeeps(urls, DisabledUrls(r));
    WithoutAllGone(urls, DisabledUrls(r));
    assert forall v :: v in DisabledUrls(r) <==> Disabled(r, v);
  }

  lemma CandidatesAreExactlyBest(r: Table, urls: seq<Url>, now: real, u: Url)
    ensures u in Candidates(r, urls, now) <==> Best(r, urls, now, u)
  {
    var enabled := EnabledUrls(r, urls);
    var cooling := CoolingUrls(r, enabled, now);
    forall v ensures v in enabled <==> Eligible(r, urls, v) {
      EnabledAreEligible(r, urls, v);
    }
    WithoutKeeps(enabled, cooling);
    WithoutAllGone(enabled, cooling);
    forall v ensures v in cooling <==> v in enabled && !Warm(r, v, now) {
      assert StateFor(r, v).cooldownUntil == if v in r.states then r.states[v].cooldownUntil else 0.0;
    }
  }

  /** The key remembers an endpoint that is still among the best and not too loaded. */
  ghost predicate Sticks(r: Table, cfg: Settings, urls: seq<Url>, key: string, now: real) {
    && key != "" && key in r.affinities && r.affinities[key].expiresAt > now
    && Best(r, urls, now, r.affinities[key].url)
    && forall v | v in urls && Best(r, urls, now, v) :: Requests(r, r.affinities[key].url) <= Requests(r, v) + cfg.slack
  }

  lemma StickingIsPreferred(r: Table, cfg: Settings, urls: seq<Url>, key: string, now: real)
    requires urls != []
    ensures Candidates(r, urls, now) != []
    ensures Preferred(r, cfg, key, urls, Candidates(r, urls, now), now)
         == if Sticks(r, cfg, urls, key, now) then Some(r.affinities[key].url) else None
  {
    var candidates := Candidates(r, urls, now);
    CandidatesAreBest(r, urls, now);
    MinLoadIsLeast(r, candidates);
    var least := LoadedAs(r, candidates, MinLoad(r, candidates))[0];
    assert least in LoadedAs(r, candidates, MinLoad(r, candidates));
    forall u ensures u in candidates <==> Best(r, urls, now, u) {
      CandidatesAreExactlyBest(r, urls, now, u);
    }
    assert least in urls && Load(r, least) == Requests(r, least);
  }

  /** Exactly which endpoint is acquired: a remembered one that is still among the best and within the
      slack of each of them, and otherwise one of the best that none of them undercuts.  What else
      changes: expired affinities go, a kept one is good for another lifetime, and the one request
      is counted. */
  lemma AcquiredExactly(r: Table, cfg: Settings, urls: seq<Url>, key: string, now: real)
    requires urls != []
    ensures var (r', url) := Acquire(r, cfg, urls, key, now);
      && Best(r, urls, now, url)
      && (if Sticks(r, cfg, urls, key, now) then url == r.affinities[key].url && r'.cursor == r.cursor
          else (forall v | v in urls && Best(r, urls, now, v) :: Requests(r, url) <= Requests(r, v))
               && r'.cursor == r.cursor + 1)
      && (forall k :: k in r'.affinities <==> k in r.affinities && r.affinities[k].expiresAt > now)
      && (forall k | k in r'.affinities ::
            r'.affinities[k] == if Sticks(r, cfg, urls, key, now) && k == key
                                then Affinity(r.affinities[k].url, now + cfg.ttl) else r.affinities[k])
      && (forall u :: Requests(r', u) == Requests(r, u) + if u == url then 1 else 0)
      && r'.disabled == r.disabled && r'.store == r.store
  {
    var r1 := Expire(r, now);
    StickingIsPreferred(r1, cfg, urls, key, now);
    var candidates := Candidates(r1, urls, now);
    forall u ensures (u in candidates <==> Best(r, urls, now, u)) && (u in candidates ==> u in urls) {
      CandidatesAreExactlyBest(r1, urls, now, u);
      SameBest(r, r1, urls, now, u);
    }
    SameSticking(r, r1, cfg, urls, key, now);
    MinLoadIsLeast(r1, candidates);
    LeastLoadedIsLeast(r1, candidates);
  }

  lemma SameBest(r: Table, r1: Table, urls: seq<Url>, now: real, u: Url)
    requires r1.states == r.states && r1.disabled == r.disabled && r1.store == r.store
    ensures Best(r1, urls, now, u) <==> Best(r, urls, now, u)
  {
    assert forall v :: Eligible(r1, urls, v) <==> Eligible(r, urls, v);
    assert forall v :: Warm(r1, v, now) <==> Warm(r, v, now);
  }

  lemma SameSticking(r: Table, r1: Table, cfg: Settings, urls: seq<Url>, key: string, now: real)
    requires r1 == Expire(r, now)
    ensures Sticks(r1, cfg, urls, key, now) <==> Sticks(r, cfg, urls, key, now)
  {
    forall u ensures Best(r1, urls, now, u) <==> Best(r, urls, now, u) {
      SameBest(r, r1, urls, now, u);
    }
    assert forall u :: Requests(r1, u) == Requests(r, u);
  }

  lemma Turns(cursor: nat, i: nat, m: nat) returns (n: nat)
    requires i < m
    ensures n < m && (cursor + n) % m == i
  {
    var at := cursor % m;
    n := if i >= at then i - at else i - at + m;
    QuotientOf(cursor + n, cursor / m + (if i >= at then 0 else 1), i, m);
  }

  /** What a remembered prompt leads to: its endpoint for one lifetime, everybody else's entry kept but
      for one of earliest expiry when the table was full; an acquisition within that lifetime goes
      back there as long as the endpoint is among the best and within the slack. */
  lemma RememberedPromptsReturn(
    r: Table, cfg: Settings, urls: seq<Url>, key: string, url: Url, now: real, oldest: string, later: real)
    requires urls != [] && key != "" && later < now + cfg.ttl
    requires |r.affinities| >= cfg.maxAffinities ==> Oldest(r.affinities, oldest)
    ensures var r' := Remember(r, cfg, key, url, now, oldest);
      && key in r'.affinities && r'.affinities[key] == Affinity(url, now + cfg.ttl)
      && (forall k | k in r.affinities && k != key ::
            (k in r'.affinities && r'.affinities[k] == r.affinities[k])
            || (|r.affinities| >= cfg.maxAffinities && k == oldest))
      && (forall k | k in r'.affinities && k != key :: k in r.affinities)
      && r'.states == r.states && r'.disabled == r.disabled && r'.store == r.store && r'.cursor == r.cursor
      && (Best(r, urls, later, url) && (forall v | v in urls && Best(r, urls, later, v) :: Requests(r, url) <= Requests(r, v) + cfg.slack)
          ==> Acquire(r', cfg, urls, key, later).1 == url)
  {
    var r' := Remember(r, cfg, key, url, now, oldest);
    AcquiredExactly(r', cfg, urls, key, later);
    forall u ensures Best(r', urls, later, u) <==> Best(r, urls, later, u) {
      SameBest(r, r', urls, later, u);
    }
    assert forall u :: Requests(r', u) == Requests(r, u);
  }

  /** Disabling an endpoint forgets exactly the prompts that led to it. */
  lemma DisablingForgets(r: Table, url: Url, urls: seq<Url>)
    requires PassesGuard(r, url, urls)
    ensures var r' := DisablePermanently(r, url, urls);
      && Disabled(r', url) && r'.states == r.states
      && (forall k :: k in r'.affinities <==> k in r.affinities && r.affinities[k].url != url)
      && (forall k | k in r'.affinities :: r'.affinities[k] == r.affinities[k])
  {
  }

  /** Ties rotate: every endpoint of least load comes up at one of the next few positions of the cursor,
      fewer than there are candidates. */
  lemma TiesRotate(r: Table, candidates: seq<Url>, u: Url) returns (n: nat)
    requires u in candidates && forall v | v in candidates :: Load(r, u) <= Load(r, v)
    ensures n < |LoadedAs(r, candidates, MinLoad(r, candidates))|
    ensures LeastLoaded(r.(cursor := r.cursor + n), candidates) == u
  {
    var least := LoadedAs(r, candidates, MinLoad(r, candidates));
    MinLoadIsLeast(r, candidates);
    LoadedAsFilters(r, candidates, MinLoad(r, candidates));
    assert least[0] in least;
    assert u in least;
    var i :| 0 <= i < |least| && least[i] == u;
    n := Turns(r.cursor, i, |least|);
    SameLoads(r, r.(cursor := r.cursor + n), candidates);
  }

  lemma {:induction false} SameLoads(r: Table, r': Table, urls: seq<Url>)
    requires urls != [] && r'.states == r.states
    ensures MinLoad(r', urls) == MinLoad(r, urls)
    ensures forall load :: LoadedAs(r', urls, load) == LoadedAs(r, urls, load)
  {
    assert forall u :: Load(r', u) == Load(r, u);
    if |urls| > 1 {
      SameLoads(r, r', urls[1..]);
      assert forall load :: LoadedAs(r', urls[1..], load) == LoadedAs(r, urls[1..], load);
    } else {
      assert urls[1..] == [];
    }
  }

  // ---------------------------------------------------------------- over runs

  lemma HealthMovesByRecords(cfg: Settings, urls: seq<Url>, s: State, e: Event, u: Url)
    requires urls != [] && !(e.DoRecord? && e.outcome.url == u)
    ensures var (t, t') := (StateFor(s.table, u), StateFor(Next(cfg, urls, s, e).table, u));
      t'.failures == t.failures && t'.cooldownUntil == t.cooldownUntil
  {
    match e
    case DoRecord(o, now) => ResultByStatus(s.table, cfg, o.url, o.status, o.error, urls, now, u);
    case _ =>
  }

  lemma {:induction false} CooldownStays(
    cfg: Settings, urls: seq<Url>, store: Option<set<Url>>, run: seq<State>, events: seq<Event>, i: nat, j: nat, u: Url)
    requires IsRun(cfg, urls, store, run, events) && i <= j < |run|
    requires forall m | i <= m < j :: !(events[m].DoRecord? && events[m].outcome.url == u)
    ensures StateFor(run[j].table, u).cooldownUntil == StateFor(run[i].table, u).cooldownUntil
    decreases j
  {
    if i < j {
      CooldownStays(cfg, urls, store, run, events, i, j - 1, u);
      HealthMovesByRecords(cfg, urls, run[j - 1], events[j - 1], u);
    }
  }

  /** A bad outcome keeps its endpoint away: until the cooldown, times the bad outcomes since the last good
      one but at most four times, is over or another result is recorded for it, it is not acquired
      while some configured endpoint is enabled and warm. */
  lemma BadEndpointsRest(
    cfg: Settings, urls: seq<Url>, store: Option<set<Url>>, run: seq<State>, events: seq<Event>,
    i: nat, j: nat, better: Url)
    requires IsRun(cfg, urls, store, run, events) && i < j < |events|
    requires events[i].DoRecord? && Bad(events[i].outcome) && events[j].DoAcquire?
    requires forall m | i < m < j :: !(events[m].DoRecord? && events[m].outcome.url == events[i].outcome.url)
    requires events[j].now < events[i].now + RestAfter(cfg, FailuresSince(run[i + 1].history, events[i].outcome.url))
    requires better in urls && !Disabled(run[j].table, better) && Warm(run[j].table, better, events[j].now)
    ensures Acquire(run[j].table, cfg, urls, events[j].key, events[j].now).1 != events[i].outcome.url
  {
    var u := events[i].outcome.url;
    BadCools(cfg, urls, store, run, events, i);
    CooldownStays(cfg, urls, store, run, events, i + 1, j, u);
    ColdIsNotAcquired(run[j].table, cfg, urls, events[j].key, events[j].now, u, better);
  }

  lemma BadCools(
    cfg: Settings, urls: seq<Url>, store: Option<set<Url>>, run: seq<State>, events: seq<Event>, i: nat)
    requires IsRun(cfg, urls, store, run, events) && i < |events|
    requires events[i].DoRecord? && Bad(events[i].outcome)
    ensures var u := events[i].outcome.url;
      StateFor(run[i + 1].table, u).cooldownUntil == events[i].now + RestAfter(cfg, FailuresSince(run[i + 1].history, u))
  {
    var o := events[i].outcome;
    RouterStaysSafe(cfg, urls, store, run, events, i);
    RouterStaysSafe(cfg, urls, store, run, events, i + 1);
    assert run[i + 1] == Next(cfg, urls, run[i], events[i]);
    ResultByStatus(run[i].table, cfg, o.url, o.status, o.error, urls, events[i].now, o.url);
    assert StateFor(run[i + 1].table, o.url).failures == FailuresSince(run[i + 1].history, o.url);
  }

  lemma ColdIsNotAcquired(r: Table, cfg: Settings, urls: seq<Url>, key: string, now: real, u: Url, better: Url)
    requires urls != [] && StateFor(r, u).cooldownUntil > now
    requires better in urls && !Disabled(r, better) && Warm(r, better, now)
    ensures Acquire(r, cfg, urls, key, now).1 != u
  {
    AcquiredExactly(r, cfg, urls, key, now);
    assert Eligible(r, urls, better);
    assert !Warm(r, u, now);
  }

  /** A release gives one request back, and none where there is none. */
  lemma ReleasesFloorAtZero(r: Table, url: Url, u: Url)
    ensures Requests(Release(r, url), u)
         == if u != url then Requests(r, u) else if Requests(r, u) > 0 then Requests(r, u) - 1 else 0
  {
  }

  /** The acquisitions of an endpoint among the first `n` events, and its releases. */
  function Acquisitions(cfg: Settings, urls: seq<Url>, run: seq<State>, events: seq<Event>, n: nat, u: Url): nat
    requires urls != [] && n <= |events| <= |run|
  {
    if n == 0 then 0
    else
      var e := events[n - 1];
      Acquisitions(cfg, urls, run, events, n - 1, u)
      + if e.DoAcquire? && Acquire(run[n - 1].table, cfg, urls, e.key, e.now).1 == u then 1 else 0
  }

  function Releases(events: seq<Event>, n: nat, u: Url): nat
    requires n <= |events|
  {
    if n == 0 then 0 else Releases(events, n - 1, u) + if events[n - 1] == DoRelease(u) then 1 else 0
  }

  lemma StepCountsLoad(cfg: Settings, urls: seq<Url>, s: State, e: Event, u: Url)
    requires urls != [] && (e.DoRelease? ==> Requests(s.table, e.url) >= 1)
    ensures Requests(Next(cfg, urls, s, e).table, u) == Requests(s.table, u)
      + (if e.DoAcquire? && Acquire(s.table, cfg, urls, e.key, e.now).1 == u then 1 else 0)
      - (if e == DoRelease(u) then 1 else 0)
  {
    match e
    case DoAcquire(key, now) => AcquiredExactly(s.table, cfg, urls, key, now);
    case DoRecord(o, now) =>
      ResultByStatus(s.table, cfg, o.url, o.status, o.error, urls, now, u);
      assert forall v :: Requests(s.table, v) == StateFor(s.table, v).inFlight;
    case _ =>
  }

  /** As long as every release finds a lease, an endpoint's counter is its acquisitions less its
      releases, whatever else happens. */
  lemma {:induction false} LoadsAreAcquiredLessReleased(
    cfg: Settings, urls: seq<Url>, store: Option<set<Url>>, run: seq<State>, events: seq<Event>, i: nat, u: Url)
    requires IsRun(cfg, urls, store, run, events) && i < |run|
    requires forall m | 0 <= m < |events| && events[m].DoRelease? :: Requests(run[m].table, events[m].url) >= 1
    ensures Requests(run[i].table, u) == Acquisitions(cfg, urls, run, events, i, u) - Releases(events, i, u)
  {
    if i > 0 {
      LoadsAreAcquiredLessReleased(cfg, urls, store, run, events, i - 1, u);
      StepCountsLoad(cfg, urls, run[i - 1], events[i - 1], u);
    }
  }

  // ---------------------------------------------------------------- urls

  lemma Stripped(u: string)
    requires u != "" && u[|u| - 1] != '/'
    ensures StripSlashes(u) == u && StripSlashes(u + "/") == u && StripSlashes(u + "//") == u
  {
    assert (u + "/")[..|u|] == u;
    assert (u + "//")[..|u| + 1] == u + "/";
  }

  /** The forms in which a base may be configured all mean the base itself: with or without trailing
      slashes, a version, or the endpoint's path. */
  lemma ConfiguredForms(u: Url)
    requires u != "" && u[|u| - 1] != '/'
    requires !EndsWith(u, "/v1") && !EndsWith(u, "/chat/completions") && !EndsWith(u, "/v1/chat/completions")
    ensures NormalizeBaseUrl(u) == u && NormalizeBaseUrl(u + "/") == u
    ensures NormalizeBaseUrl(u + "/v1") == u && NormalizeBaseUrl(u + "/v1/") == u
    ensures NormalizeBaseUrl(u + "/v1/chat/completions") == u
    ensures NormalizeBaseUrl(u + "/chat/completions") == u
  {
    Stripped(u);
    Versioned(u);
    var version := u + "/v1";
    assert version[|version| - 1] == '1';
    Stripped(version);
    assert NormalizeBaseUrl(version + "/") == NormalizeBaseUrl(version);
    assert u + "/v1/" == version + "/";
    FullPath(u);
    ShortPath(u);
  }

  /** An empty base means the public endpoint. */
  lemma EmptyMeansDefault()
    ensures NormalizeBaseUrl("") == "https://openrouter.ai/api"
  {
    var base := "https://openrouter.ai/api";
    assert base[|base| - 1] == 'i';
    SameLast(base, "/v1");
    SameLast(base, "/chat/completions");
    SameLast(base, "/v1/chat/completions");
  }

  lemma FullPath(u: Url)
    requires u != ""
    ensures NormalizeBaseUrl(u + "/v1/chat/completions") == u
  {
    var raw := u + "/v1/chat/completions";
    assert raw[|raw| - 1] == 's';
    Stripped(raw);
    assert raw[|raw| - |"/v1/chat/completions"|..] == "/v1/chat/completions";
    assert raw[..|raw| - |"/v1/chat/completions"|] == u;
  }

  lemma ShortPath(u: Url)
    requires u != "" && !EndsWith(u, "/v1")
    ensures NormalizeBaseUrl(u + "/chat/completions") == u
  {
    var raw := u + "/chat/completions";
    assert raw[|raw| - 1] == 's';
    Stripped(raw);
    assert raw[|raw| - |"/chat/completions"|..] == "/chat/completions";
    assert raw[..|raw| - |"/chat/completions"|] == u;
    NotTheFullPath(u);
  }

  lemma NotTheFullPath(u: Url)
    requires !EndsWith(u, "/v1")
    ensures !EndsWith(u + "/chat/completions", "/v1/chat/completions")
  {
    var raw, long := u + "/chat/completions", "/v1/chat/completions";
    if |u| >= 3 {
      var tail := raw[|raw| - |long|..];
      assert tail[..3] == u[|u| - 3..];
      assert long[..3] == "/v1";
    }
  }
}

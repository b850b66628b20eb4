/**
 What every run of the router keeps: the enabled set, the failure counts, the
 affinity cap, the quality of each choice, and the balance of an acquire-only run.
 */
module RouterRuns {
  import opened Common
  import opened Router

  // ---------------------------------------------------------------- the choice

  /** 0: enabled and not cooling; 1: enabled; 2: disabled. */
  function Rank(r: Table, url: Url, now: real): nat {
    if url in DisabledUrls(r) then 2 else if StateFor(r, url).cooldownUntil > now then 1 else 0
  }

  lemma CandidatesAreBest(r: Table, urls: seq<Url>, now: real)
    requires urls != []
    ensures Candidates(r, urls, now) != []
    ensures forall u | u in Candidates(r, urls, now) :: u in urls
    ensures forall u, v | u in Candidates(r, urls, now) && v in urls ::
      Rank(r, u, now) <= Rank(r, v, now) || Rank(r, u, now) == 2
    ensures forall u, v | u in Candidates(r, urls, now) && v in urls && Rank(r, v, now) < 2 :: Rank(r, u, now) < 2
  {
    var enabled := EnabledUrls(r, urls);
    WithoutKeeps(urls, DisabledUrls(r));
    WithoutKeeps(enabled, CoolingUrls(r, enabled, now));
    assert enabled != [] && enabled[0] in enabled;
    forall u, v | u in Candidates(r, urls, now) && v in urls
      ensures Rank(r, u, now) <= Rank(r, v, now) || Rank(r, u, now) == 2
      ensures Rank(r, v, now) < 2 ==> Rank(r, u, now) < 2
    {
      if Rank(r, v, now) < 2 {
        assert v in Without(urls, DisabledUrls(r));
      }
      if Rank(r, v, now) == 0 {
        assert v in Without(enabled, CoolingUrls(r, enabled, now));
      }
    }
  }

  /** A disabled or cooling endpoint is never acquired while a better one is configured. */
  lemma AcquirePicksBest(r: Table, cfg: Settings, urls: seq<Url>, key: string, now: real)
    requires urls != []
    ensures var url := Acquire(r, cfg, urls, key, now).1;
      url in urls && forall v | v in urls :: Rank(r, url, now) <= Rank(r, v, now)
  {
    var r1 := Expire(r, now);
    CandidatesAreBest(r1, urls, now);
    MinLoadIsLeast(r1, Candidates(r1, urls, now));
    var url := Acquire(r, cfg, urls, key, now).1;
    assert url in Candidates(r1, urls, now);
    forall v | v in urls ensures Rank(r, url, now) <= Rank(r, v, now) {
      assert Rank(r, v, now) == Rank(r1, v, now) && Rank(r, url, now) == Rank(r1, url, now);
    }
  }

  // ---------------------------------------------------------------- runs

  datatype Outcome = Outcome(url: Url, status: Option<int>, error: bool)

  datatype State = State(table: Table, history: seq<Outcome>)

  datatype Event =
    | DoAcquire(key: string, now: real)
    | DoRelease(url: Url)
    | DoRemember(key: string, url: Url, now: real, oldest: string)
    | DoRecord(outcome: Outcome, now: real)

  /** Results are recorded for normalized endpoints. */
  ghost predicate Allowed(cfg: Settings, s: State, e: Event) {
    && (e.DoRemember? && |s.table.affinities| >= cfg.maxAffinities ==> Oldest(s.table.affinities, e.oldest))
    && (e.DoRecord? ==> Normal(e.outcome.url))
  }

  function Next(cfg: Settings, urls: seq<Url>, s: State, e: Event): State
    requires urls != []
  {
    match e
    case DoAcquire(key, now) => s.(table := Acquire(s.table, cfg, urls, key, now).0)
    case DoRelease(url) => s.(table := Release(s.table, url))
    case DoRemember(key, url, now, oldest) => s.(table := Remember(s.table, cfg, key, url, now, oldest))
    case DoRecord(o, now) =>
      State(RecordResult(s.table, cfg, o.url, o.status, o.error, urls, now), s.history + [o])
  }

  /** What counts against an endpoint: a server error, being refused or limited, a time-out, and an
      error without any status. */
  predicate Bad(o: Outcome) {
    match o.status
    case None => o.error
    case Some(code) => code >= 500 || code == 401 || code == 402 || code == 403 || code == 408 || code == 429
  }

  /** What clears it. */
  predicate Good(o: Outcome) {
    o.status.Some? && o.status.value < 400 && !o.error && !Bad(o)
  }

  /** The bad outcomes of an endpoint since its last good one. */
  function FailuresSince(history: seq<Outcome>, url: Url): nat {
    if history == [] then 0
    else
      var last, before := history[|history| - 1], history[..|history| - 1];
      if last.url != url then FailuresSince(before, url)
      else if Bad(last) then FailuresSince(before, url) + 1
      else if Good(last) then 0
      else FailuresSince(before, url)
  }

  ghost predicate Inv(cfg: Settings, urls: seq<Url>, s: State) {
    && Without(urls, DisabledUrls(s.table)) != []
    && (forall u :: StateFor(s.table, u).failures == FailuresSince(s.history, u))
    && |s.table.affinities| <= cfg.maxAffinities
  }

  // ---------------------------------------------------------------- emptying the enabled set

  ghost predicate PassesGuard(r: Table, url: Url, urls: seq<Url>) {
    r.store.Some? && !(url in Without(urls, DisabledUrls(r)) && |Without(urls, DisabledUrls(r))| <= 1)
  }

  lemma WithoutAllGone(urls: seq<Url>, gone: set<Url>)
    ensures Without(urls, gone) == [] <==> forall u | u in urls :: u in gone
  {
    WithoutKeeps(urls, gone);
    if Without(urls, gone) != [] {
      assert Without(urls, gone)[0] in Without(urls, gone);
    }
  }

  /** Exactly when disabling an endpoint leaves none enabled, for any urls and any file: a file is
      configured, the endpoint does not look like the last one, and every other configured endpoint
      was disabled in memory or is among the lines the file is rewritten to, read back. */
  lemma DisablingEmptiesExactly(r: Table, url: Url, urls: seq<Url>)
    requires Without(urls, DisabledUrls(r)) != []
    ensures Without(urls, DisabledUrls(DisablePermanently(r, url, urls))) == []
      <==> PassesGuard(r, url, urls)
           && forall u | u in urls ::
                u == url || u in r.disabled || u in LoadDisabled(AddDisabled(r.store.value, url))
  {
    WithoutAllGone(urls, DisabledUrls(DisablePermanently(r, url, urls)));
  }

  /** Lines that read back as what is written: all of a file the router wrote itself, unless an odd
      url was added. */
  ghost predicate Settled(store: Option<set<Url>>) {
    store.Some? ==> forall line | line in LoadDisabled(store.value) :: Normal(line)
  }

  lemma ReadBack(lines: set<Url>, url: Url)
    requires Settled(Some(lines))
    ensures LoadDisabled(AddDisabled(lines, url)) == LoadDisabled(lines) + LoadDisabled({NormalizeBaseUrl(url)})
  {
    var n := NormalizeBaseUrl(url);
    if n in LoadDisabled(lines) {
      assert LoadDisabled({n}) == {n};
    } else {
      LoadIsPointwise(LoadDisabled(lines), n);
      NormalLinesReadBack(LoadDisabled(lines));
    }
  }

  lemma LoadIsPointwise(lines: set<Url>, n: Url)
    ensures LoadDisabled(lines + {n}) == LoadDisabled(lines) + LoadDisabled({n})
  {
  }

  lemma NormalLinesReadBack(lines: set<Url>)
    requires forall line | line in lines :: Normal(line)
    ensures LoadDisabled(lines) == lines
  {
    forall line | line in lines ensures line in LoadDisabled(lines) {
      assert NormalizeBaseUrl(line) == line;
    }
  }

  /** On a settled file: every enabled endpoint is the one disabled, or what its normalized url reads
      back as. */
  lemma DisablingEmptiesOnSettledFile(r: Table, url: Url, urls: seq<Url>)
    requires Without(urls, DisabledUrls(r)) != [] && Settled(r.store)
    ensures Without(urls, DisabledUrls(DisablePermanently(r, url, urls))) == []
      <==> PassesGuard(r, url, urls)
           && forall u | u in Without(urls, DisabledUrls(r)) :: u == url || u in LoadDisabled({NormalizeBaseUrl(url)})
  {
    DisablingEmptiesExactly(r, url, urls);
    WithoutKeeps(urls, DisabledUrls(r));
    if r.store.Some? {
      ReadBack(r.store.value, url);
    }
  }

  /** The table after the failure is counted and before the endpoint is disabled. */
  function Cooled(r: Table, cfg: Settings, url: Url, now: real): Table {
    var s := StateFor(r, url);
    var steps := if s.failures + 1 < 4 then s.failures + 1 else 4;
    r.(states := r.states[url := s.(failures := s.failures + 1, cooldownUntil := now + cfg.cooldown * steps as real)])
  }

  lemma RecordingCoolsOrDisables(
    r: Table, cfg: Settings, url: Url, status: Option<int>, error: bool, urls: seq<Url>, now: real)
    ensures Bad(Outcome(url, status, error)) ==>
      RecordResult(r, cfg, url, status, error, urls, now)
      == if StateFor(r, url).failures + 1 >= cfg.disableAfter then DisablePermanently(Cooled(r, cfg, url, now), url, urls)
         else Cooled(r, cfg, url, now)
    ensures !Bad(Outcome(url, status, error)) ==>
      DisabledUrls(RecordResult(r, cfg, url, status, error, urls, now)) == DisabledUrls(r)
    ensures DisabledUrls(Cooled(r, cfg, url, now)) == DisabledUrls(r)
  {
    BadIsInfraFailure(url, status, error);
  }

  lemma BadIsInfraFailure(url: Url, status: Option<int>, error: bool)
    ensures InfraFailure(status, error) <==> Bad(Outcome(url, status, error))
  {
    if status.Some? {
      var code := status.value;
      assert code in INFRA_STATUSES <==> code == 401 || code == 402 || code == 403 || code == 408 || code == 429;
    }
  }

  /** Exactly when recording a result leaves no endpoint enabled: it is a bad outcome, the one that reaches
      the threshold, and disabling its endpoint does. */
  lemma RecordingEmptiesExactly(
    r: Table, cfg: Settings, url: Url, status: Option<int>, error: bool, urls: seq<Url>, now: real)
    requires Without(urls, DisabledUrls(r)) != []
    ensures Without(urls, DisabledUrls(RecordResult(r, cfg, url, status, error, urls, now))) == []
      <==> Bad(Outcome(url, status, error)) && StateFor(r, url).failures + 1 >= cfg.disableAfter
           && PassesGuard(r, url, urls)
           && forall u | u in urls ::
                u == url || u in r.disabled || u in LoadDisabled(AddDisabled(r.store.value, url))
  {
    RecordingCoolsOrDisables(r, cfg, url, status, error, urls, now);
    DisablingEmptiesExactly(Cooled(r, cfg, url, now), url, urls);
  }

  lemma NormalUrlReadsBack(url: Url)
    requires Normal(url)
    ensures NormalizeBaseUrl(url) == url && LoadDisabled({url}) == {url}
  {
    NormalLinesReadBack({url});
  }

  lemma AddingKeepsSettled(lines: set<Url>, url: Url)
    requires Settled(Some(lines)) && Normal(url)
    ensures Settled(Some(AddDisabled(lines, url)))
    ensures LoadDisabled(AddDisabled(lines, url)) == LoadDisabled(lines) + {url}
  {
    NormalUrlReadsBack(url);
    ReadBack(lines, url);
    NormalLinesStaySettled(lines, AddDisabled(lines, url), url);
  }

  lemma NormalLinesStaySettled(lines: set<Url>, lines': set<Url>, url: Url)
    requires Settled(Some(lines)) && Normal(url) && LoadDisabled(lines') == LoadDisabled(lines) + {url}
    ensures Settled(Some(lines'))
  {
    forall line | line in LoadDisabled(lines') ensures Normal(line) {
      assert line in LoadDisabled(lines) || line == url;
    }
  }

  lemma DisablingAddsOnlyItself(r: Table, url: Url, urls: seq<Url>)
    requires Settled(r.store) && Normal(url)
    ensures Settled(DisablePermanently(r, url, urls).store)
    ensures DisabledUrls(DisablePermanently(r, url, urls)) <= DisabledUrls(r) + {url}
  {
    if PassesGuard(r, url, urls) {
      AddingKeepsSettled(r.store.value, url);
    } else {
      assert DisablePermanently(r, url, urls) == r;
    }
  }

  /** A normalized endpoint never takes another one with it, so distinct targets keep one enabled. */
  lemma DisablingKeepsOne(r: Table, url: Url, urls: seq<Url>)
    requires Distinct(urls) && Without(urls, DisabledUrls(r)) != [] && Settled(r.store) && Normal(url)
    ensures Without(urls, DisabledUrls(DisablePermanently(r, url, urls))) != []
  {
    NormalUrlReadsBack(url);
    DisablingEmptiesOnSettledFile(r, url, urls);
    WithoutStaysDistinct(urls, DisabledUrls(r));
    WithoutKeeps(urls, DisabledUrls(r));
    var enabled := Without(urls, DisabledUrls(r));
    assert enabled[0] in enabled;
    assert |enabled| > 1 ==> enabled[0] != enabled[1] && enabled[1] in enabled;
  }

  // ---------------------------------------------------------------- inputs that empty it

  /** A target's endpoints are distinct, and they are the normalized forms of what is configured. */
  lemma {:induction false} TargetsAreDistinct(raw: seq<Url>)
    ensures Distinct(NormalizeBaseUrls(raw))
    ensures forall u :: u in NormalizeBaseUrls(raw) <==> exists i :: 0 <= i < |raw| && NormalizeBaseUrl(raw[i]) == u
  {
    if raw != [] {
      var n := |raw| - 1;
      TargetsAreDistinct(raw[..n]);
      forall u ensures u in NormalizeBaseUrls(raw) <==> exists i :: 0 <= i < |raw| && NormalizeBaseUrl(raw[i]) == u {
        assert u in NormalizeBaseUrls(raw) <==> u in NormalizeBaseUrls(raw[..n]) || u == NormalizeBaseUrl(raw[n]);
        assert forall i | 0 <= i < n :: raw[..n][i] == raw[i];
        if i :| 0 <= i < n && NormalizeBaseUrl(raw[..n][i]) == u {
          assert NormalizeBaseUrl(raw[i]) == u;
        }
      }
    }
  }

  lemma Plain(u: Url)
    requires u != "" && u[|u| - 1] != '/' && !EndsWith(u, "/v1") && !EndsWith(u, "/chat/completions")
    requires !EndsWith(u, "/v1/chat/completions")
    ensures Normal(u)
  {
  }

  lemma SameLast(s: string, suffix: string)
    requires suffix != ""
    ensures EndsWith(s, suffix) ==> s[|s| - 1] == suffix[|suffix| - 1]
  {
    if EndsWith(s, suffix) {
      assert s[|s| - |suffix|..][|suffix| - 1] == suffix[|suffix| - 1];
    }
  }

  lemma Versioned(u: Url)
    requires u != ""
    ensures NormalizeBaseUrl(u + "/v1") == u
  {
    var raw := u + "/v1";
    assert raw[|raw| - 1] == '1';
    assert raw[|raw| - |"/v1"|..] == "/v1" && raw[..|raw| - |"/v1"|] == u;
    SameLast(raw, "/chat/completions");
    SameLast(raw, "/v1/chat/completions");
  }

  lemma TwoTargets(raw: seq<Url>, x: Url, y: Url)
    requires |raw| == 2 && NormalizeBaseUrl(raw[0]) == x && NormalizeBaseUrl(raw[1]) == y && x != y
    ensures NormalizeBaseUrls(raw) == [x, y]
  {
    assert raw[..1][..0] == [] && raw[..1][0] == raw[0];
    assert NormalizeBaseUrls(raw[..1]) == [x];
  }

  const A: Url := "http://a"
  const B: Url := "http://b"

  lemma EnabledBoth(r: Table, x: Url, y: Url)
    requires DisabledUrls(r) == {}
    ensures Without([x, y], DisabledUrls(r)) == [x, y]
  {
    WithoutNothing([x, y], DisabledUrls(r));
  }

  /** Configuring a base three versions deep next to the bare base gives two distinct targets, of which
      the first is not normalized; disabling it writes the second to the file, and none is left. */
  lemma OddTargetEmptiesAll(r: Table)
    requires r.store == Some({}) && r.disabled == {}
    ensures var urls := [A + "/v1", A];
      && NormalizeBaseUrls(NormalizeBaseUrls([A + "/v1/v1/v1", A])) == urls
      && Distinct(urls) && Without(urls, DisabledUrls(r)) == urls
      && Without(urls, DisabledUrls(DisablePermanently(r, A + "/v1", urls))) == []
  {
    var one, two, urls := A + "/v1", A + "/v1/v1", [A + "/v1", A];
    assert A + "/v1/v1/v1" == two + "/v1" && two == one + "/v1";
    Plain(A);
    Versioned(two);
    Versioned(one);
    Versioned(A);
    TwoTargets([A + "/v1/v1/v1", A], two, A);
    TwoTargets([two, A], one, A);
    assert LoadDisabled({}) == {};
    EnabledBoth(r, one, A);
    NormalUrlReadsBack(A);
    DisablingEmptiesExactly(r, one, urls);
  }

  lemma RereadsAsBoth(x: Url, y: Url, z: Url)
    requires x != "" && NormalizeBaseUrl(x) == z && Normal(y)
    ensures LoadDisabled({x, y}) == {z, y}
  {
    assert x in {x, y} && y in {x, y};
  }

  lemma OddLineIsRewritten()
    ensures Normal(A) && Normal(B)
    ensures LoadDisabled({A + "/v1/v1"}) == {A + "/v1"}
    ensures AddDisabled({A + "/v1/v1"}, B) == {A + "/v1", B}
    ensures LoadDisabled({A + "/v1", B}) == {A, B}
  {
    var one := A + "/v1";
    assert A + "/v1/v1" == one + "/v1";
    Plain(A);
    Plain(B);
    Versioned(one);
    Versioned(A);
    assert LoadDisabled({one + "/v1"}) == {one};
    assert AddDisabled({one + "/v1"}, B) == {one, B};
    RereadsAsBoth(one, B, A);
  }

  /** A line of the file two versions deep is harmless until any endpoint is disabled: rewriting the
      file takes a version off, and the endpoint it then names is disabled as well. */
  lemma OddLineEmptiesAll(r: Table)
    requires r.store == Some({A + "/v1/v1"}) && r.disabled == {}
    ensures var urls := [A, B];
      && Normal(A) && Normal(B) && Distinct(urls) && Without(urls, DisabledUrls(r)) == urls
      && Without(urls, DisabledUrls(DisablePermanently(r, B, urls))) == []
  {
    var one, urls := A + "/v1", [A, B];
    OddLineIsRewritten();
    assert A != one && B != one by {
      assert |A| != |one|;
    }
    WithoutNothing(urls, DisabledUrls(r));
    DisablingEmptiesExactly(r, B, urls);
  }

  lemma SubmapCount<K, V>(small: map<K, V>, big: map<K, V>)
    requires small.Keys <= big.Keys
    ensures |small| <= |big|
  {
    SubsetCount(small.Keys, big.Keys);
    assert |small| == |small.Keys| && |big| == |big.Keys|;
  }

  lemma RecordCountsFailures(
    r: Table, cfg: Settings, url: Url, status: Option<int>, error: bool, urls: seq<Url>, now: real, u: Url)
    ensures StateFor(RecordResult(r, cfg, url, status, error, urls, now), u).failures
         == if u != url then StateFor(r, u).failures
            else if Bad(Outcome(url, status, error)) then StateFor(r, u).failures + 1
            else if Good(Outcome(url, status, error)) then 0
            else StateFor(r, u).failures
  {
  }

  lemma RecordAddsNoAffinity(
    r: Table, cfg: Settings, url: Url, status: Option<int>, error: bool, urls: seq<Url>, now: real)
    ensures |RecordResult(r, cfg, url, status, error, urls, now).affinities| <= |r.affinities|
  {
    var r' := RecordResult(r, cfg, url, status, error, urls, now);
    assert r'.affinities.Keys <= r.affinities.Keys;
    SubmapCount(r'.affinities, r.affinities);
  }

  lemma RecordKeepsOne(cfg: Settings, urls: seq<Url>, r: Table, o: Outcome, now: real)
    requires Distinct(urls) && Without(urls, DisabledUrls(r)) != [] && Settled(r.store) && Normal(o.url)
    ensures Without(urls, DisabledUrls(RecordResult(r, cfg, o.url, o.status, o.error, urls, now))) != []
  {
    RecordingCoolsOrDisables(r, cfg, o.url, o.status, o.error, urls, now);
    if Bad(o) {
      DisablingKeepsOne(Cooled(r, cfg, o.url, now), o.url, urls);
    }
  }

  lemma RecordKeepsInv(cfg: Settings, urls: seq<Url>, s: State, o: Outcome, now: real)
    requires Distinct(urls) && urls != [] && Inv(cfg, urls, s) && Settled(s.table.store) && Normal(o.url)
    ensures Inv(cfg, urls, Next(cfg, urls, s, DoRecord(o, now)))
  {
    var s' := Next(cfg, urls, s, DoRecord(o, now));
    RecordKeepsOne(cfg, urls, s.table, o, now);
    RecordAddsNoAffinity(s.table, cfg, o.url, o.status, o.error, urls, now);
    assert s'.history[..|s'.history| - 1] == s.history;
    forall u ensures StateFor(s'.table, u).failures == FailuresSince(s'.history, u) {
      RecordCountsFailures(s.table, cfg, o.url, o.status, o.error, urls, now, u);
    }
  }

  lemma AcquireLeavesHealth(r: Table, cfg: Settings, urls: seq<Url>, key: string, now: real)
    requires urls != []
    ensures var r' := Acquire(r, cfg, urls, key, now).0;
      && r'.disabled == r.disabled && r'.store == r.store
      && forall u :: StateFor(r', u).failures == StateFor(r, u).failures
  {
  }

  lemma AcquireAddsNoAffinity(r: Table, cfg: Settings, urls: seq<Url>, key: string, now: real)
    requires urls != []
    ensures |Acquire(r, cfg, urls, key, now).0.affinities| <= |r.affinities|
  {
    var r' := Acquire(r, cfg, urls, key, now).0;
    assert r'.affinities.Keys <= r.affinities.Keys;
    SubmapCount(r'.affinities, r.affinities);
  }

  lemma AcquireKeepsInv(cfg: Settings, urls: seq<Url>, s: State, key: string, now: real)
    requires urls != [] && Inv(cfg, urls, s)
    ensures Inv(cfg, urls, Next(cfg, urls, s, DoAcquire(key, now)))
  {
    AcquireLeavesHealth(s.table, cfg, urls, key, now);
    AcquireAddsNoAffinity(s.table, cfg, urls, key, now);
    assert DisabledUrls(Next(cfg, urls, s, DoAcquire(key, now)).table) == DisabledUrls(s.table);
  }

  lemma ReleaseKeepsInv(cfg: Settings, urls: seq<Url>, s: State, url: Url)
    requires urls != [] && Inv(cfg, urls, s)
    ensures Inv(cfg, urls, Next(cfg, urls, s, DoRelease(url)))
  {
    assert DisabledUrls(Release(s.table, url)) == DisabledUrls(s.table);
  }

  lemma RememberingStaysCapped(
    affinities: map<string, Affinity>, cap: nat, key: string, entry: Affinity, oldest: string)
    requires 0 < cap && |affinities| <= cap && (|affinities| >= cap ==> oldest in affinities)
    ensures var kept := if |affinities| >= cap then affinities - {oldest} else affinities;
      |kept[key := entry]| <= cap
  {
    var kept := if |affinities| >= cap then affinities - {oldest} else affinities;
    assert (affinities - {oldest}).Keys == affinities.Keys - {oldest};
    assert |affinities| == |affinities.Keys| && |kept| == |kept.Keys|;
    assert |kept| < cap;
    assert kept[key := entry].Keys == kept.Keys + {key};
    assert |kept[key := entry]| == |kept[key := entry].Keys|;
  }

  lemma RememberKeepsInv(cfg: Settings, urls: seq<Url>, s: State, key: string, url: Url, now: real, oldest: string)
    requires urls != [] && Inv(cfg, urls, s) && cfg.maxAffinities > 0
    requires Allowed(cfg, s, DoRemember(key, url, now, oldest))
    ensures Inv(cfg, urls, Next(cfg, urls, s, DoRemember(key, url, now, oldest)))
  {
    RememberingStaysCapped(s.table.affinities, cfg.maxAffinities, key, Affinity(url, now + cfg.ttl), oldest);
  }

  lemma EventKeepsSettled(cfg: Settings, urls: seq<Url>, s: State, e: Event)
    requires urls != [] && Settled(s.table.store) && Allowed(cfg, s, e)
    ensures Settled(Next(cfg, urls, s, e).table.store)
  {
    match e
    case DoRecord(o, now) =>
      RecordingCoolsOrDisables(s.table, cfg, o.url, o.status, o.error, urls, now);
      DisablingAddsOnlyItself(Cooled(s.table, cfg, o.url, now), o.url, urls);
    case _ =>
  }

  lemma EventKeepsInv(cfg: Settings, urls: seq<Url>, s: State, e: Event)
    requires Distinct(urls) && urls != [] && Inv(cfg, urls, s) && Settled(s.table.store) && cfg.maxAffinities > 0 && Allowed(cfg, s, e)
    ensures Inv(cfg, urls, Next(cfg, urls, s, e))
  {
    match e
    case DoAcquire(key, now) => AcquireKeepsInv(cfg, urls, s, key, now);
    case DoRelease(url) => ReleaseKeepsInv(cfg, urls, s, url);
    case DoRemember(key, url, now, oldest) => RememberKeepsInv(cfg, urls, s, key, url, now, oldest);
    case DoRecord(o, now) => RecordKeepsInv(cfg, urls, s, o, now);
  }

  /** A run of one router on distinct configured urls, not all of them in the disabled file, whose
      lines are settled. */
  ghost predicate IsRun(cfg: Settings, urls: seq<Url>, store: Option<set<Url>>, run: seq<State>, events: seq<Event>) {
    && urls != [] && Distinct(urls) && cfg.maxAffinities > 0 && Settled(store)
    && |run| == |events| + 1
    && run[0] == State(Table(map[], map[], {}, store, 0), [])
    && Without(urls, DisabledUrls(run[0].table)) != []
    && forall i | 0 <= i < |events| :: Allowed(cfg, run[i], events[i]) && run[i + 1] == Next(cfg, urls, run[i], events[i])
  }

  /** In every run some configured endpoint stays enabled, each endpoint's failure count is the
      number of its bad outcomes since its last good one, and affinities are capped. */
  lemma {:induction false} RouterStaysSafe(
    cfg: Settings, urls: seq<Url>, store: Option<set<Url>>, run: seq<State>, events: seq<Event>, i: nat)
    requires IsRun(cfg, urls, store, run, events) && i < |run|
    ensures Inv(cfg, urls, run[i]) && Settled(run[i].table.store)
  {
    if i > 0 {
      RouterStaysSafe(cfg, urls, store, run, events, i - 1);
      EventKeepsSettled(cfg, urls, run[i - 1], events[i - 1]);
      EventKeepsInv(cfg, urls, run[i - 1], events[i - 1]);
    }
  }

  lemma DisabledByOwnFailure(cfg: Settings, urls: seq<Url>, s: State, e: Event, u: Url)
    requires urls != [] && Settled(s.table.store) && Allowed(cfg, s, e)
    requires u !in DisabledUrls(s.table) && u in DisabledUrls(Next(cfg, urls, s, e).table)
    ensures e.DoRecord? && e.outcome.url == u
    ensures StateFor(Next(cfg, urls, s, e).table, u).failures >= cfg.disableAfter
  {
    match e
    case DoAcquire(key, now) => AcquireAddsOneLoad(s.table, cfg, urls, key, now);
    case DoRecord(o, now) =>
      RecordingCoolsOrDisables(s.table, cfg, o.url, o.status, o.error, urls, now);
      DisablingAddsOnlyItself(Cooled(s.table, cfg, o.url, now), o.url, urls);
    case _ =>
  }

  /** An endpoint becomes disabled only by its own bad outcome, the last of at least the threshold
      since its last good one. */
  lemma DisabledOnlyAfterThreshold(
    cfg: Settings, urls: seq<Url>, store: Option<set<Url>>, run: seq<State>, events: seq<Event>, i: nat, u: Url)
    requires IsRun(cfg, urls, store, run, events) && i < |events|
    requires u !in DisabledUrls(run[i].table) && u in DisabledUrls(run[i + 1].table)
    ensures FailuresSince(run[i + 1].history, u) >= cfg.disableAfter
    ensures |run[i + 1].history| > 0 && run[i + 1].history[|run[i + 1].history| - 1].url == u
  {
    RouterStaysSafe(cfg, urls, store, run, events, i);
    RouterStaysSafe(cfg, urls, store, run, events, i + 1);
    DisabledByOwnFailure(cfg, urls, run[i], events[i], u);
  }

  // ---------------------------------------------------------------- balance

  /** The loads of the configured endpoints lie within `gap` of each other. */
  ghost predicate Spread(r: Table, urls: seq<Url>, gap: int) {
    forall u, v | u in urls && v in urls :: Load(r, u) <= Load(r, v) + gap
  }

  /** Every configured endpoint is enabled and not cooling, now or later. */
  ghost predicate AllWarm(r: Table, urls: seq<Url>, since: real) {
    forall u | u in urls :: u !in DisabledUrls(r) && StateFor(r, u).cooldownUntil <= since
  }

  lemma {:induction false} WithoutNothing(urls: seq<Url>, gone: set<Url>)
    requires forall u | u in urls :: u !in gone
    ensures Without(urls, gone) == urls
  {
    if urls != [] {
      WithoutNothing(urls[1..], gone);
    }
  }

  lemma WarmAreCandidates(r: Table, urls: seq<Url>, since: real, now: real)
    requires urls != [] && AllWarm(r, urls, since) && since <= now
    ensures Candidates(r, urls, now) == urls
  {
    WithoutNothing(urls, DisabledUrls(r));
    WithoutNothing(urls, CoolingUrls(r, urls, now));
  }

  lemma LightLoadKeepsSpread(r: Table, urls: seq<Url>, url: Url, gap: int)
    requires Spread(r, urls, gap) && url in urls && forall u | u in urls :: Load(r, url) + 1 <= Load(r, u) + gap
    ensures Spread(AddLoad(r, url, 1), urls, gap)
  {
  }

  lemma AcquireAddsOneLoad(r: Table, cfg: Settings, urls: seq<Url>, key: string, now: real)
    requires urls != []
    ensures var (r', url) := Acquire(r, cfg, urls, key, now);
      r'.states == AddLoad(r, url, 1).states && DisabledUrls(r') == DisabledUrls(r)
  {
  }

  lemma LeastLoadedIsLeast(r: Table, urls: seq<Url>)
    requires urls != []
    ensures LeastLoaded(r, urls) in urls && Load(r, LeastLoaded(r, urls)) == MinLoad(r, urls)
  {
    MinLoadIsLeast(r, urls);
    var least := LoadedAs(r, urls, MinLoad(r, urls));
    assert least[r.cursor % |least|] in least;
  }

  lemma AcquiredIsLight(r: Table, cfg: Settings, urls: seq<Url>, key: string, since: real, now: real)
    requires urls != [] && cfg.slack >= 0 && AllWarm(r, urls, since) && since <= now
    ensures var url := Acquire(r, cfg, urls, key, now).1;
      url in urls && forall u | u in urls :: Load(r, url) <= Load(r, u) + cfg.slack
  {
    var r1 := Expire(r, now);
    assert AllWarm(r1, urls, since);
    WarmAreCandidates(r1, urls, since, now);
    MinLoadIsLeast(r1, urls);
    LeastLoadedIsLeast(r1, urls);
    var url := Acquire(r, cfg, urls, key, now).1;
    assert Load(r1, url) <= MinLoad(r1, urls) + cfg.slack;
    assert forall u :: Load(r1, u) == Load(r, u);
  }

  lemma AcquireKeepsSpread(r: Table, cfg: Settings, urls: seq<Url>, key: string, since: real, now: real)
    requires urls != [] && cfg.slack >= 0 && AllWarm(r, urls, since) && since <= now && Spread(r, urls, cfg.slack + 1)
    ensures var r' := Acquire(r, cfg, urls, key, now).0;
      AllWarm(r', urls, since) && Spread(r', urls, cfg.slack + 1)
  {
    AcquiredIsLight(r, cfg, urls, key, since, now);
    AcquireAddsOneLoad(r, cfg, urls, key, now);
    LightLoadKeepsSpread(r, urls, Acquire(r, cfg, urls, key, now).1, cfg.slack + 1);
  }

  lemma EventKeepsSpread(cfg: Settings, urls: seq<Url>, s: State, e: Event, since: real)
    requires urls != [] && cfg.slack >= 0 && AllWarm(s.table, urls, since) && Spread(s.table, urls, cfg.slack + 1)
    requires (e.DoAcquire? && e.now >= since) || e.DoRemember?
    ensures AllWarm(Next(cfg, urls, s, e).table, urls, since) && Spread(Next(cfg, urls, s, e).table, urls, cfg.slack + 1)
  {
    var r, r' := s.table, Next(cfg, urls, s, e).table;
    if e.DoAcquire? {
      AcquireKeepsSpread(r, cfg, urls, e.key, since, e.now);
    } else {
      assert r'.states == r.states && DisabledUrls(r') == DisabledUrls(r);
      assert forall u :: Load(r', u) == Load(r, u) && StateFor(r', u) == StateFor(r, u);
    }
  }

  /** A run that only acquires, over endpoints that stay warm, and remembers. */
  ghost predicate Acquires(cfg: Settings, urls: seq<Url>, run: seq<State>, events: seq<Event>, since: real)
    requires urls != []
  {
    && |run| == |events| + 1
    && forall j | 0 <= j < |events| ::
         && ((events[j].DoAcquire? && events[j].now >= since) || events[j].DoRemember?)
         && run[j + 1] == Next(cfg, urls, run[j], events[j])
  }

  lemma AcquireStepKeepsSpread(cfg: Settings, urls: seq<Url>, run: seq<State>, events: seq<Event>, since: real, i: nat)
    requires urls != [] && cfg.slack >= 0 && Acquires(cfg, urls, run, events, since) && i < |events|
    requires AllWarm(run[i].table, urls, since) && Spread(run[i].table, urls, cfg.slack + 1)
    ensures AllWarm(run[i + 1].table, urls, since) && Spread(run[i + 1].table, urls, cfg.slack + 1)
  {
    EventKeepsSpread(cfg, urls, run[i], events[i], since);
  }

  /** From balance, acquiring and remembering alone keeps the loads of a fixed warm set within
      one more than the affinity slack, whatever prompts arrive and whenever. */
  lemma {:induction false} AcquireOnlyRunsStayBalanced(
    cfg: Settings, urls: seq<Url>, run: seq<State>, events: seq<Event>, since: real, i: nat)
    requires urls != [] && cfg.slack >= 0 && Acquires(cfg, urls, run, events, since) && i < |run|
    requires AllWarm(run[0].table, urls, since) && Spread(run[0].table, urls, 0)
    ensures AllWarm(run[i].table, urls, since) && Spread(run[i].table, urls, cfg.slack + 1)
  {
    if i > 0 {
      AcquireOnlyRunsStayBalanced(cfg, urls, run, events, since, i - 1);
      AcquireStepKeepsSpread(cfg, urls, run, events, since, i - 1);
    }
  }
}

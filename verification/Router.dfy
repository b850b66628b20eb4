/**
 The sticky upstream router: endpoint health, prompt affinity and load, shared by
 every proxy of the process.  Each method is one section under the router's lock.
 Times are reals.
 */
module Router {
  import opened Common

  type Url = string

  datatype Endpoint = Endpoint(inFlight: int, failures: nat, cooldownUntil: real)
  datatype Affinity = Affinity(url: Url, expiresAt: real)

  datatype Settings = Settings(
    ttl: real, cooldown: real, maxAffinities: nat, slack: int, disableAfter: nat)

  /** `store` holds the lines of the disabled-upstreams file, if one is configured. */
  datatype Table = Table(
    states: map<Url, Endpoint>, affinities: map<string, Affinity>,
    disabled: set<Url>, store: Option<set<Url>>, cursor: nat)

  // ---------------------------------------------------------------- urls

  const DEFAULT_BASE := "https://openrouter.ai/api"

  predicate EndsWith(s: string, suffix: string) {
    |suffix| <= |s| && s[|s| - |suffix|..] == suffix
  }

  function DropEnd(s: string, suffix: string): string
    requires EndsWith(s, suffix)
  {
    s[..|s| - |suffix|]
  }

  function StripSlashes(s: string): string {
    if s != "" && s[|s| - 1] == '/' then StripSlashes(s[..|s| - 1]) else s
  }

  /** A base url without a version or endpoint suffix; one suffix is taken off, so the result may
      still end in another. */
  function NormalizeBaseUrl(raw: Url): Url {
    var base := StripSlashes(if raw == "" then DEFAULT_BASE else raw);
    if EndsWith(base, "/v1/chat/completions") then DropEnd(base, "/v1/chat/completions")
    else if EndsWith(base, "/chat/completions") then DropEnd(base, "/chat/completions")
    else if EndsWith(base, "/v1") then DropEnd(base, "/v1")
    else base
  }

  predicate Normal(u: Url) {
    u != "" && NormalizeBaseUrl(u) == u
  }

  /** A target's endpoints: normalized, first occurrences only. */
  function NormalizeBaseUrls(raw: seq<Url>): seq<Url> {
    if raw == [] then []
    else
      var before, url := NormalizeBaseUrls(raw[..|raw| - 1]), NormalizeBaseUrl(raw[|raw| - 1]);
      if url in before then before else before + [url]
  }

  // ---------------------------------------------------------------- the disabled file

  /** Reading normalizes every line that is not empty. */
  function LoadDisabled(lines: set<Url>): set<Url> {
    set line | line in lines && line != "" :: NormalizeBaseUrl(line)
  }

  /** Adding writes back what was read and the normalized url, unless that is listed already. */
  function AddDisabled(lines: set<Url>, url: Url): set<Url> {
    if NormalizeBaseUrl(url) in LoadDisabled(lines) then lines
    else LoadDisabled(lines) + {NormalizeBaseUrl(url)}
  }

  // ---------------------------------------------------------------- health

  function StateFor(r: Table, url: Url): Endpoint {
    if url in r.states then r.states[url] else Endpoint(0, 0, 0.0)
  }

  function Load(r: Table, url: Url): int {
    StateFor(r, url).inFlight
  }

  function DisabledUrls(r: Table): set<Url> {
    r.disabled + if r.store.Some? then LoadDisabled(r.store.value) else {}
  }

  function CoolingUrls(r: Table, urls: seq<Url>, now: real): set<Url> {
    set u | u in urls && StateFor(r, u).cooldownUntil > now
  }

  function OrAll(some: seq<Url>, all: seq<Url>): seq<Url> {
    if some == [] then all else some
  }

  function EnabledUrls(r: Table, urls: seq<Url>): seq<Url> {
    OrAll(Without(urls, DisabledUrls(r)), urls)
  }

  function Candidates(r: Table, urls: seq<Url>, now: real): seq<Url> {
    var enabled := EnabledUrls(r, urls);
    OrAll(Without(enabled, CoolingUrls(r, enabled, now)), enabled)
  }

  // ---------------------------------------------------------------- choosing

  function MinLoad(r: Table, urls: seq<Url>): int
    requires urls != []
  {
    if |urls| == 1 then Load(r, urls[0])
    else var rest := MinLoad(r, urls[1..]); if Load(r, urls[0]) <= rest then Load(r, urls[0]) else rest
  }

  function LoadedAs(r: Table, urls: seq<Url>, load: int): seq<Url> {
    if urls == [] then []
    else (if Load(r, urls[0]) == load then [urls[0]] else []) + LoadedAs(r, urls[1..], load)
  }

  function Preferred(r: Table, cfg: Settings, key: string, urls: seq<Url>, candidates: seq<Url>, now: real): Option<Url>
    requires candidates != []
  {
    if key == "" || key !in r.affinities then None
    else
      var entry := r.affinities[key];
      if entry.expiresAt <= now || entry.url !in urls || entry.url !in candidates then None
      else if Load(r, entry.url) <= MinLoad(r, candidates) + cfg.slack then Some(entry.url)
      else None
  }

  function Expire(r: Table, now: real): Table {
    r.(affinities := map k | k in r.affinities && r.affinities[k].expiresAt > now :: r.affinities[k])
  }

  function AddLoad(r: Table, url: Url, n: int): Table {
    r.(states := r.states[url := StateFor(r, url).(inFlight := Load(r, url) + n)])
  }

  lemma {:induction false} MinLoadIsLeast(r: Table, urls: seq<Url>)
    requires urls != []
    ensures forall u | u in urls :: MinLoad(r, urls) <= Load(r, u)
    ensures LoadedAs(r, urls, MinLoad(r, urls)) != []
    ensures forall u | u in LoadedAs(r, urls, MinLoad(r, urls)) :: u in urls && Load(r, u) == MinLoad(r, urls)
  {
    LoadedAsFilters(r, urls, MinLoad(r, urls));
    if |urls| > 1 {
      MinLoadIsLeast(r, urls[1..]);
      assert forall u | u in urls :: u == urls[0] || u in urls[1..];
      LoadedAsFilters(r, urls[1..], MinLoad(r, urls[1..]));
      if MinLoad(r, urls) == MinLoad(r, urls[1..]) {
        assert LoadedAs(r, urls, MinLoad(r, urls)) != [];
      }
    }
  }

  lemma {:induction false} LoadedAsFilters(r: Table, urls: seq<Url>, load: int)
    ensures forall u :: u in LoadedAs(r, urls, load) <==> u in urls && Load(r, u) == load
  {
    if urls != [] {
      LoadedAsFilters(r, urls[1..], load);
      assert forall u :: u in urls <==> u == urls[0] || u in urls[1..];
    }
  }

  function LeastLoaded(r: Table, candidates: seq<Url>): Url
    requires candidates != []
  {
    MinLoadIsLeast(r, candidates);
    var least := LoadedAs(r, candidates, MinLoad(r, candidates));
    least[r.cursor % |least|]
  }

  /** The table after an acquisition and the endpoint acquired. */
  function Acquire(r0: Table, cfg: Settings, urls: seq<Url>, key: string, now: real): (Table, Url)
    requires urls != []
  {
    var r := Expire(r0, now);
    var candidates := Candidates(r, urls, now);
    var preferred := Preferred(r, cfg, key, urls, candidates, now);
    if preferred.Some? then
      var refreshed := r.(affinities := r.affinities[key := Affinity(preferred.value, now + cfg.ttl)]);
      (AddLoad(refreshed, preferred.value, 1), preferred.value)
    else
      var url := LeastLoaded(r, candidates);
      (AddLoad(r.(cursor := r.cursor + 1), url, 1), url)
  }

  function Release(r: Table, url: Url): Table {
    r.(states := r.states[url := StateFor(r, url).(inFlight := if Load(r, url) < 1 then 0 else Load(r, url) - 1)])
  }

  ghost predicate Oldest(affinities: map<string, Affinity>, key: string) {
    key in affinities && forall k | k in affinities :: affinities[key].expiresAt <= affinities[k].expiresAt
  }

  /** Remembering evicts one oldest entry when the table is full; `oldest` is the one the scan picks. */
  function Remember(r: Table, cfg: Settings, key: string, url: Url, now: real, oldest: string): Table {
    if key == "" then r
    else
      var kept := if |r.affinities| >= cfg.maxAffinities then r.affinities - {oldest} else r.affinities;
      r.(affinities := kept[key := Affinity(url, now + cfg.ttl)])
  }

  const INFRA_STATUSES := {401, 402, 403, 408, 429}

  predicate InfraFailure(status: Option<int>, error: bool) {
    if status.None? then error else status.value >= 500 || status.value in INFRA_STATUSES
  }

  predicate Success(status: Option<int>, error: bool) {
    status.Some? && status.value < 400 && !error
  }

  function DisablePermanently(r: Table, url: Url, urls: seq<Url>): Table {
    var enabled := Without(urls, DisabledUrls(r));
    if r.store.None? || (url in enabled && |enabled| <= 1) then r
    else r.(
      disabled := r.disabled + {url},
      affinities := map k | k in r.affinities && r.affinities[k].url != url :: r.affinities[k],
      store := Some(AddDisabled(r.store.value, url)))
  }

  function RecordResult(
    r: Table, cfg: Settings, url: Url, status: Option<int>, error: bool, urls: seq<Url>, now: real): Table
  {
    var s := StateFor(r, url);
    if InfraFailure(status, error) then
      var failures := s.failures + 1;
      var steps := if failures < 4 then failures else 4;
      var cooled := r.(states := r.states[url := s.(failures := failures, cooldownUntil := now + cfg.cooldown * steps as real)]);
      if failures >= cfg.disableAfter then DisablePermanently(cooled, url, urls) else cooled
    else if Success(status, error) then r.(states := r.states[url := s.(failures := 0, cooldownUntil := 0.0)])
    else r
  }

  // ---------------------------------------------------------------- the router object

  class SmartUpstreamRouter {
    const cfg: Settings
    var states: map<Url, Endpoint>
    var affinities: map<string, Affinity>
    var disabled: set<Url>
    var store: Option<set<Url>>
    var cursor: nat

    constructor (cfg: Settings, store: Option<set<Url>>)
      ensures this.cfg == cfg && Contents() == Table(map[], map[], {}, store, 0)
    {
      this.cfg, this.store := cfg, store;
      states, affinities, disabled, cursor := map[], map[], {}, 0;
    }

    function Contents(): Table
      reads this
    {
      Table(states, affinities, disabled, store, cursor)
    }

    method AcquireEndpoint(urls: seq<Url>, key: string, now: real) returns (url: Url)
      requires urls != []
      modifies this
      ensures (Contents(), url) == Acquire(old(Contents()), cfg, urls, key, now)
    {
      affinities := map k | k in affinities && affinities[k].expiresAt > now :: affinities[k];
      var candidates := Candidates(Contents(), urls, now);
      var preferred := Preferred(Contents(), cfg, key, urls, candidates, now);
      if preferred.Some? {
        affinities := affinities[key := Affinity(preferred.value, now + cfg.ttl)];
        url := preferred.value;
      } else {
        url := LeastLoaded(Contents(), candidates);
        cursor := cursor + 1;
      }
      var state := StateFor(Contents(), url);
      states := states[url := state.(inFlight := state.inFlight + 1)];
    }

    method ReleaseEndpoint(url: Url)
      modifies this
      ensures Contents() == Release(old(Contents()), url)
    {
      var state := StateFor(Contents(), url);
      states := states[url := state.(inFlight := if state.inFlight < 1 then 0 else state.inFlight - 1)];
    }

    /** The key whose affinity expires first, found by scanning. */
    method OldestAffinity() returns (oldest: string)
      requires affinities != map[]
      ensures Oldest(affinities, oldest)
    {
      oldest :| oldest in affinities;
      var rest := affinities.Keys - {oldest};
      while rest != {}
        invariant oldest in affinities && rest <= affinities.Keys
        invariant forall k | k in affinities && k !in rest :: affinities[oldest].expiresAt <= affinities[k].expiresAt
        decreases |rest|
      {
        var k :| k in rest;
        rest := rest - {k};
        if affinities[k].expiresAt < affinities[oldest].expiresAt {
          oldest := k;
        }
      }
    }

    method RememberAffinity(key: string, url: Url, now: real) returns (ghost oldest: string)
      requires cfg.maxAffinities > 0
      modifies this
      ensures Contents() == Remember(old(Contents()), cfg, key, url, now, oldest)
      ensures old(|affinities|) >= cfg.maxAffinities && key != "" ==> Oldest(old(affinities), oldest)
    {
      oldest := "";
      if key == "" {
        return;
      }
      if |affinities| >= cfg.maxAffinities {
        var victim := OldestAffinity();
        oldest := victim;
        affinities := affinities - {victim};
      }
      affinities := affinities[key := Affinity(url, now + cfg.ttl)];
    }

    method DisableUpstream(url: Url, urls: seq<Url>)
      modifies this
      ensures Contents() == DisablePermanently(old(Contents()), url, urls)
    {
      if store.None? {
        return;
      }
      var enabled := Without(urls, DisabledUrls(Contents()));
      if url in enabled && |enabled| <= 1 {
        return;
      }
      disabled := disabled + {url};
      affinities := map k | k in affinities && affinities[k].url != url :: affinities[k];
      store := Some(AddDisabled(store.value, url));
    }

    method RecordUpstreamResult(url: Url, status: Option<int>, error: bool, urls: seq<Url>, now: real)
      modifies this
      ensures Contents() == RecordResult(old(Contents()), cfg, url, status, error, urls, now)
    {
      var state := StateFor(Contents(), url);
      if InfraFailure(status, error) {
        var failures := state.failures + 1;
        var steps := if failures < 4 then failures else 4;
        states := states[url := state.(failures := failures, cooldownUntil := now + cfg.cooldown * steps as real)];
        if failures >= cfg.disableAfter {
          DisableUpstream(url, urls);
        }
      } else if Success(status, error) {
        states := states[url := state.(failures := 0, cooldownUntil := 0.0)];
      }
    }
  }
}

/**
  The endpoint pool object (ingestion/rpc_pool.py:56-386). Every method is proved against
  the value-level operations of RpcRouting and RpcAlerts; times of day and the answers of
  probes and alert callbacks are parameters.
*/
module RpcEndpointPools {

  import opened Prelude
  import opened RpcRouting
  import opened RpcAlerts

  const PROBE_HISTORY: nat := 20

  datatype ProbeRecord = ProbeRecord(ts: int, ok: bool)

  /** What is kept about the probes of one endpoint: a history that forgets, and counters that do not. */
  datatype ProbeLog = ProbeLog(history: seq<ProbeRecord>, count: nat, successes: nat)

  /** Appending to a full history drops its oldest record. */
  function Append(history: seq<ProbeRecord>, r: ProbeRecord): seq<ProbeRecord> {
    if |history| >= PROBE_HISTORY then history[1..] + [r] else history + [r]
  }

  function Recorded(log: ProbeLog, r: ProbeRecord): ProbeLog {
    ProbeLog(Append(log.history, r), log.count + 1, log.successes + if r.ok then 1 else 0)
  }

  function RecordedAll(rs: seq<ProbeRecord>): ProbeLog {
    if rs == [] then ProbeLog([], 0, 0) else Recorded(RecordedAll(rs[..|rs| - 1]), rs[|rs| - 1])
  }

  function Succeeded(rs: seq<ProbeRecord>): seq<ProbeRecord> {
    if rs == [] then []
    else Succeeded(rs[..|rs| - 1]) + if rs[|rs| - 1].ok then [rs[|rs| - 1]] else []
  }

  /** The successful records among `rs`, each as often as it occurs. */
  lemma {:induction false} SucceededMeans(rs: seq<ProbeRecord>, r: ProbeRecord)
    ensures multiset(Succeeded(rs))[r] == if r.ok then multiset(rs)[r] else 0
  {
    if rs != [] {
      var init := rs[..|rs| - 1];
      assert rs == init + [rs[|rs| - 1]];
      SucceededMeans(init, r);
    }
  }

  /** After any number of probes the history is the latest twenty and the counters cover all of them. */
  lemma {:induction false} HistoryIsTheLatestTwenty(rs: seq<ProbeRecord>)
    ensures RecordedAll(rs).history == if |rs| <= 20 then rs else rs[|rs| - 20..]
    ensures RecordedAll(rs).count == |rs| && RecordedAll(rs).successes == |Succeeded(rs)|
  {
    if rs != [] {
      var init := rs[..|rs| - 1];
      assert rs == init + [rs[|rs| - 1]];
      HistoryIsTheLatestTwenty(init);
    }
  }

  function Deduped(urls: seq<Url>): (s: seq<Url>)
    ensures Distinct(s) && forall u :: u in s <==> u in urls
    ensures Distinct(urls) ==> s == urls
  {
    if urls == [] then []
    else
      var init := urls[..|urls| - 1];
      var last := urls[|urls| - 1];
      assert urls == init + [last];
      assert Distinct(urls) ==> Distinct(init) && last !in init;
      if last in Deduped(init) then Deduped(init) else Deduped(init) + [last]
  }

  /** The loop that drops repeated endpoints. */
  method WithoutRepetitions(urls: seq<Url>) returns (deduped: seq<Url>)
    ensures deduped == Deduped(urls)
  {
    hide Distinct;
    deduped := [];
    var i := 0;
    while i < |urls|
      invariant 0 <= i <= |urls|
      invariant deduped == Deduped(urls[..i])
    {
      assert urls[..i + 1][..i] == urls[..i];
      if urls[i] !in deduped {
        deduped := deduped + [urls[i]];
      }
      i := i + 1;
    }
    assert urls[..i] == urls;
  }

  datatype Alert = Alert(key: Key, healthy: nat, total: nat, downFor: Option<nat>)

  function AlertOf(p: Pool, a: Alerts, key: Key, now: int): Alert
    requires Scored(p) && (key.Endpoint? ==> key.url in a.since.items)
  {
    Alert(key, |Available(p)|, |p.urls|, if key.Endpoint? then Some(DownFor(now, a.since.items[key.url])) else None)
  }

  function DownNow(p: Pool): set<Url>
    requires Scored(p)
  {
    set u | u in p.urls && IsDown(p, u)
  }

  /** What a mark leaves in the alert state: a failure that leaves the endpoint down dates the outage. */
  function DatedFailure(a: Alerts, p: Pool, u: Url, now: int): Alerts {
    if u in p.scores && IsDown(p, u) then a.(since := a.since.SetDefault(u, now)) else a
  }

  /** The state after the answers to a scan's alerts have come in. */
  function SettledAll(a: Alerts, alerts: seq<Alert>, callback: Alert -> bool): Alerts {
    if alerts == [] then a
    else
      var last := alerts[|alerts| - 1];
      Settled(SettledAll(a, alerts[..|alerts| - 1], callback), last.key, callback(last))
  }

  function Accepted(alerts: seq<Alert>, callback: Alert -> bool): nat {
    if alerts == [] then 0
    else Accepted(alerts[..|alerts| - 1], callback) + if callback(alerts[|alerts| - 1]) then 1 else 0
  }

  /** Everything the lock protects. */
  datatype PoolState = PoolState(pool: Pool, alerts: Alerts, logs: map<Url, ProbeLog>)

  /** What a scan of this state emits. */
  function Events(s: PoolState, now: int, cooldown: int): seq<Alert>
    requires Scored(s.pool)
  {
    var down := DownNow(s.pool);
    var b := Synced(s.alerts, s.pool.urls, down, now);
    var keys := Emitted(b, s.pool.urls, down, now, cooldown);
    seq(|keys|, i requires 0 <= i < |keys| => AlertOf(s.pool, b, keys[i], now))
  }

  function Scanned(s: PoolState, now: int, cooldown: int): PoolState
    requires Scored(s.pool)
  {
    var down := DownNow(s.pool);
    var b := Synced(s.alerts, s.pool.urls, down, now);
    s.(alerts := Launched(b, Emitted(b, s.pool.urls, down, now, cooldown)))
  }

  ghost predicate Sound(s: PoolState) {
    && RpcRouting.Valid(s.pool)
    && s.alerts.since.Valid()
    && (forall u :: u in s.alerts.since.items ==> u in s.pool.urls)
    && (forall u :: u in s.pool.urls ==> u in s.logs)
  }

  function Marked(s: PoolState, u: Url, ok: bool, now: int): PoolState
    requires Scored(s.pool)
  {
    if ok then s.(pool := AfterSuccess(s.pool, u))
    else
      var p := AfterFailure(s.pool, u);
      s.(pool := p, alerts := DatedFailure(s.alerts, p, u, now))
  }

  /** One probe: the answer is marked, then recorded. */
  function Probed(s: PoolState, u: Url, ok: bool, now: int): PoolState
    requires Scored(s.pool) && u in s.logs
  {
    var t := Marked(s, u, ok, now);
    t.(logs := t.logs[u := Recorded(t.logs[u], ProbeRecord(now, ok))])
  }

  function ProbedAll(s: PoolState, urls: seq<Url>, probe: Url -> bool, clock: Url -> int): (t: PoolState)
    requires Scored(s.pool) && forall u :: u in urls ==> u in s.logs
    ensures SameEndpoints(s.pool, t.pool) && t.logs.Keys == s.logs.Keys
  {
    if urls == [] then s
    else
      var init := urls[..|urls| - 1];
      var last := urls[|urls| - 1];
      Probed(ProbedAll(s, init, probe, clock), last, probe(last), clock(last))
  }

  lemma MarkKeepsSound(s: PoolState, u: Url, ok: bool, now: int)
    requires Sound(s)
    ensures Sound(Marked(s, u, ok, now))
  {
    StepKeepsValid(s.pool, if ok then Success(u) else Failure(u));
  }

  lemma FailureKeepsSound(s: PoolState, u: Url)
    requires Sound(s)
    ensures Scored(s.pool) && Sound(s.(pool := AfterFailure(s.pool, u)))
  {
    StepKeepsValid(s.pool, Failure(u));
  }

  lemma ProbedOf(s: PoolState, u: Url, ok: bool, now: int, v: Url)
    requires Scored(s.pool) && u in s.pool.scores && v in s.pool.scores && u in s.logs && v in s.logs
    ensures var t := Probed(s, u, ok, now);
            && v in t.pool.scores && v in t.logs
            && t.logs[v] == (if u == v then Recorded(s.logs[u], ProbeRecord(now, ok)) else s.logs[v])
            && t.pool.scores[v].failures
               == (if u != v then s.pool.scores[v].failures else if ok then 0 else s.pool.scores[v].failures + 1)
  {
  }

  lemma SweepStep(s: PoolState, init: seq<Url>, last: Url, probe: Url -> bool, clock: Url -> int, u: Url)
    requires Sound(s) && last in s.pool.urls && u in s.pool.urls
    requires forall v :: v in init ==> v in s.pool.urls
    ensures var r, t := ProbedAll(s, init, probe, clock), ProbedAll(s, init + [last], probe, clock);
            && u in r.pool.scores && u in r.logs && u in t.pool.scores && u in t.logs
            && t.logs[u] == (if u == last then Recorded(r.logs[u], ProbeRecord(clock(u), probe(u))) else r.logs[u])
            && t.pool.scores[u].failures
               == (if u != last then r.pool.scores[u].failures else if probe(u) then 0
                   else r.pool.scores[u].failures + 1)
  {
    hide Probed, Recorded;
    assert (init + [last])[..|init|] == init;
    ProbedOf(ProbedAll(s, init, probe, clock), last, probe(last), clock(last), u);
  }

  /**
    A sweep probes each endpoint once: an answer revives the endpoint, a refusal adds one
    failure, one record is kept either way, and endpoints outside the sweep are untouched.
  */
  lemma {:induction false} SweepOutcome(s: PoolState, urls: seq<Url>, probe: Url -> bool, clock: Url -> int, u: Url)
    requires Sound(s) && Distinct(urls) && (forall v :: v in urls ==> v in s.pool.urls) && u in s.pool.urls
    ensures var t := ProbedAll(s, urls, probe, clock);
            && u in t.pool.scores && u in t.logs
            && t.logs[u] == (if u in urls then Recorded(s.logs[u], ProbeRecord(clock(u), probe(u))) else s.logs[u])
            && t.pool.scores[u].failures
               == (if u !in urls then s.pool.scores[u].failures else if probe(u) then 0
                   else s.pool.scores[u].failures + 1)
  {
    hide Probed, Recorded;
    if urls != [] {
      var init := urls[..|urls| - 1];
      var last := urls[|urls| - 1];
      assert urls == init + [last] && last !in init && Distinct(init);
      SweepOutcome(s, init, probe, clock, u);
      SweepStep(s, init, last, probe, clock, u);
    }
  }

  lemma {:induction false} SelectDistinct(p: Pool, urls: seq<Url>, down: bool)
    requires Distinct(urls) && forall u :: u in urls ==> u in p.scores
    ensures Distinct(Select(p, urls, down))
  {
    if urls != [] {
      var init := urls[..|urls| - 1];
      assert urls == init + [urls[|urls| - 1]] && urls[|urls| - 1] !in init;
      SelectDistinct(p, init, down);
    }
  }

  /** A sweep over the endpoints that are down counts one failure more or none, and one probe, for exactly those. */
  lemma DownSweep(s: PoolState, probe: Url -> bool, clock: Url -> int, u: Url)
    requires Sound(s) && u in s.pool.urls
    ensures var t := ProbedAll(s, Down(s.pool), probe, clock);
            && u in s.pool.scores && u in t.pool.scores && u in t.logs
            && t.pool.scores[u].failures
               == (if s.pool.scores[u].failures < s.pool.threshold then s.pool.scores[u].failures
                   else if probe(u) then 0 else s.pool.scores[u].failures + 1)
            && t.logs[u].count
               == s.logs[u].count + if s.pool.scores[u].failures < s.pool.threshold then 0 else 1
  {
    SelectDistinct(s.pool, s.pool.urls, true);
    SweepOutcome(s, Down(s.pool), probe, clock, u);
    hide Select, ProbedAll, Distinct, Append;
  }

  class RpcEndpointPool {
    const endpoints: seq<Url>
    const failureThreshold: nat
    const recoveryHealth: real
    var scores: map<Url, Score>
    var tick: nat
    var backgroundActive: bool
    var downSince: Dict<Url, int>
    var downAlerted: set<Url>
    var alertInflight: set<Key>
    var zeroHealthyAlerted: bool
    var probeLogs: map<Url, ProbeLog>

    function View(): Pool
      reads this
    {
      Pool(endpoints, failureThreshold, recoveryHealth, scores, tick, backgroundActive)
    }

    function AlertState(): Alerts
      reads this
    {
      Alerts(downSince, downAlerted, alertInflight, zeroHealthyAlerted)
    }

    function State(): PoolState
      reads this
    {
      PoolState(View(), AlertState(), probeLogs)
    }

    ghost predicate Valid()
      reads this
    {
      Sound(State())
    }

    constructor (urls: seq<Url>, threshold: int, recovery: real)
      ensures Valid()
      ensures State() == PoolState(FreshPool(Deduped(urls), threshold, recovery), QUIET,
                                   map u | u in Deduped(urls) :: RecordedAll([]))
    {
      hide Deduped;
      var deduped := WithoutRepetitions(urls);
      endpoints := deduped;
      failureThreshold := if threshold > 1 then threshold else 1;
      recoveryHealth := Min(1.0, Max(0.0, recovery));
      scores := map u | u in deduped :: Score(HEALTH_START, 0, 0);
      tick := 0;
      backgroundActive := false;
      downSince := Dict([], map[]);
      downAlerted := {};
      alertInflight := {};
      zeroHealthyAlerted := false;
      probeLogs := map u | u in deduped :: ProbeLog([], 0, 0);
    }

    method LeastRecentlyUsed(urls: seq<Url>) returns (chosen: Url)
      requires urls != [] && forall u :: u in urls ==> u in scores
      ensures chosen == LeastRecent(urls, scores)
    {
      chosen := urls[0];
      var i := 1;
      while i < |urls|
        invariant 1 <= i <= |urls|
        invariant chosen == LeastRecent(urls[..i], scores)
      {
        assert urls[..i + 1][..i] == urls[..i];
        if scores[urls[i]].lastUsed < scores[chosen].lastUsed {
          chosen := urls[i];
        }
        i := i + 1;
      }
      assert urls[..i] == urls;
    }

    /** One pass for the smallest pair of negated health and last use finds the same endpoint as two. */
    method HealthiestThenLeastRecentlyUsed(urls: seq<Url>) returns (chosen: Url)
      requires urls != [] && forall u :: u in urls ==> u in scores
      ensures chosen == LeastRecent(Healthiest(urls, scores), scores)
    {
      chosen := urls[0];
      StartBest(urls, scores);
      hide BestOfFirst, Healthiest, LeastRecent;
      var i := 1;
      while i < |urls|
        invariant 1 <= i <= |urls|
        invariant chosen in scores && BestOfFirst(chosen, urls, i, scores)
      {
        ExtendBest(urls, i, scores, chosen);
        if scores[urls[i]].health > scores[chosen].health
           || (scores[urls[i]].health == scores[chosen].health && scores[urls[i]].lastUsed < scores[chosen].lastUsed) {
          chosen := urls[i];
        }
        i := i + 1;
      }
      BestOfAll(urls, scores, chosen);
    }

    /** The three branches of the pick that takes tick `now`. */
    method Choose(now: nat) returns (chosen: Url)
      requires Scored(View()) && endpoints != [] && now == tick + 1
      ensures chosen == Picked(View()) && chosen in scores
    {
      hide Distinct, Select, Healthiest, LeastRecent;
      var down := Down(View());
      var available := Available(View());
      if down != [] && !backgroundActive && now % PROBE_EVERY_PICKS == 0 {
        chosen := LeastRecentlyUsed(down);
      } else if available != [] {
        chosen := HealthiestThenLeastRecentlyUsed(available);
      } else {
        chosen := LeastRecentlyUsed(endpoints);
      }
    }

    /** An empty pool raises; otherwise the pick is the one RpcRouting describes and only it is stamped. */
    method Pick() returns (chosen: Option<Url>)
      requires Valid()
      modifies `tick, `scores
      ensures Valid()
      ensures State() == old(State()).(pool := Apply(old(View()), Op.Pick))
      ensures chosen == if endpoints == [] then None else Some(Picked(old(View())))
    {
      hide Distinct, Picked;
      StepKeepsValid(View(), Op.Pick);
      if endpoints == [] {
        chosen := None;
      } else {
        var now := tick + 1;
        var u := Choose(now);
        tick, scores := now, scores[u := scores[u].(lastUsed := now)];
        chosen := Some(u);
      }
    }

    method MarkSuccess(url: Url)
      requires Valid()
      modifies `scores
      ensures Valid()
      ensures forall now :: State() == Marked(old(State()), url, true, now)
    {
      MarkKeepsSound(State(), url, true, 0);
      if url in scores {
        var boosted := Min(1.0, scores[url].health + HEALTH_SUCCESS_BOOST);
        var risen := if scores[url].failures >= failureThreshold then Max(recoveryHealth, boosted) else boosted;
        scores := scores[url := scores[url].(health := risen, failures := 0)];
      }
    }

    method MarkFailure(url: Url, now: int)
      requires Valid()
      modifies `scores, `downSince
      ensures Valid()
      ensures State() == Marked(old(State()), url, false, now)
    {
      hide Distinct;
      if url in scores {
        Fail(url);
        if scores[url].failures >= failureThreshold {
          NoteOutage(url, now);
        }
      }
    }

    method Fail(url: Url)
      requires Valid() && url in scores
      modifies `scores
      ensures Valid()
      ensures State() == old(State()).(pool := AfterFailure(old(View()), url))
    {
      FailureKeepsSound(State(), url);
      hide Sound, SameEndpoints, Distinct;
      var fallen := Max(HEALTH_DOWN, scores[url].health - HEALTH_FAILURE_DECAY);
      scores := scores[url := scores[url].(health := fallen, failures := scores[url].failures + 1)];
    }

    method NoteOutage(url: Url, now: int)
      requires Valid() && url in endpoints
      modifies `downSince
      ensures Valid()
      ensures State() == old(State()).(alerts := old(AlertState()).(since := old(downSince).SetDefault(url, now)))
    {
      downSince := downSince.SetDefault(url, now);
    }

    method RecordProbe(url: Url, ok: bool, now: int)
      requires Valid() && url in endpoints
      modifies `probeLogs
      ensures Valid()
      ensures State() == old(State()).(
                           logs := old(probeLogs)[url := Recorded(old(probeLogs)[url], ProbeRecord(now, ok))])
    {
      var log := probeLogs[url].(history := Append(probeLogs[url].history, ProbeRecord(now, ok)));
      log := log.(count := log.count + 1);
      if ok {
        log := log.(successes := log.successes + 1);
      }
      probeLogs := probeLogs[url := log];
    }

    method ProbeUrl(url: Url, ok: bool, now: int)
      requires Valid() && url in endpoints
      modifies `scores, `downSince, `probeLogs
      ensures Valid()
      ensures State() == Probed(old(State()), url, ok, now)
    {
      hide Distinct, Append;
      if ok {
        MarkSuccess(url);
      } else {
        MarkFailure(url, now);
      }
      RecordProbe(url, ok, now);
    }

    method ProbeUrls(urls: seq<Url>, probe: Url -> bool, clock: Url -> int) returns (n: nat)
      requires Valid() && forall u :: u in urls ==> u in endpoints
      modifies `scores, `downSince, `probeLogs
      ensures Valid()
      ensures n == |urls| && State() == ProbedAll(old(State()), urls, probe, clock)
    {
      hide Distinct, Probed, Append;
      var i := 0;
      while i < |urls|
        invariant 0 <= i <= |urls|
        invariant Valid()
        invariant State() == ProbedAll(old(State()), urls[..i], probe, clock)
      {
        var url := urls[i];
        assert urls[..i + 1][..i] == urls[..i];
        ProbeUrl(url, probe(url), clock(url));
        i := i + 1;
      }
      assert urls[..i] == urls;
      n := |urls|;
    }

    /** Probes exactly the endpoints that are down when the sweep starts. */
    method ProbeDownEndpoints(probe: Url -> bool, clock: Url -> int) returns (n: nat)
      requires Valid()
      modifies `scores, `downSince, `probeLogs
      ensures Valid()
      ensures n == |Down(old(View()))| && State() == ProbedAll(old(State()), Down(old(View())), probe, clock)
      ensures forall u :: u in endpoints ==>
                var failed := old(scores)[u].failures;
                && scores[u].failures
                   == (if failed < failureThreshold then failed else if probe(u) then 0 else failed + 1)
                && probeLogs[u].count == old(probeLogs)[u].count + if failed < failureThreshold then 0 else 1
    {
      ghost var before := State();
      forall u | u in endpoints { DownSweep(before, probe, clock, u); }
      hide Select, Distinct, ProbedAll;
      var down := Down(View());
      n := ProbeUrls(down, probe, clock);
    }

    method SyncEndpoint(url: Url, now: int)
      requires url in scores
      modifies `downSince, `downAlerted, `alertInflight
      ensures AlertState() == SyncOne(old(AlertState()), url, if IsDown(View(), url) then {url} else {}, now)
    {
      if scores[url].failures >= failureThreshold {
        downSince := downSince.SetDefault(url, now);
      } else {
        downSince := downSince.Remove(url);
        downAlerted := downAlerted - {url};
        alertInflight := alertInflight - {Endpoint(url)};
      }
    }

    method SyncAlertState(now: int)
      requires Valid()
      modifies `downSince, `downAlerted, `alertInflight, `zeroHealthyAlerted
      ensures Valid()
      ensures AlertState() == Synced(old(AlertState()), endpoints, DownNow(View()), now)
    {
      hide Distinct, SyncOne;
      var anyUp := false;
      var i := 0;
      while i < |endpoints|
        invariant 0 <= i <= |endpoints|
        invariant AlertState() == SyncAll(old(AlertState()), endpoints[..i], DownNow(View()), now)
        invariant anyUp == AnyUp(endpoints[..i], DownNow(View()))
      {
        assert endpoints[..i + 1][..i] == endpoints[..i];
        assert endpoints[..i + 1] == endpoints[..i] + [endpoints[i]];
        SyncSees(AlertState(), endpoints[i], View(), now);
        AnyUpOfLonger(endpoints[..i], endpoints[i], DownNow(View()));
        SyncEndpoint(endpoints[i], now);
        anyUp := anyUp || scores[endpoints[i]].failures < failureThreshold;
        i := i + 1;
      }
      assert endpoints[..i] == endpoints;
      if anyUp {
        zeroHealthyAlerted := false;
        alertInflight := alertInflight - {ZeroHealthy};
      }
      SyncedSound(old(State()), now);
    }

    /** One turn of the scan over the known outages. */
    method OfferOutage(url: Url, now: int, cooldown: int, healthy: nat) returns (alert: Option<Alert>)
      requires url in downSince.items
      modifies `alertInflight
      ensures var key := Endpoint(url);
              var due := Due(old(AlertState()), url, now, cooldown);
              && AlertState() == Launched(old(AlertState()), if due then [key] else [])
              && alert == if due
                          then Some(Alert(key, healthy, |endpoints|, Some(DownFor(now, downSince.items[url]))))
                          else None
    {
      var downFor := if now >= downSince.items[url] then now - downSince.items[url] else 0;
      if downFor >= (if cooldown > 0 then cooldown else 0)
         && url !in downAlerted && Endpoint(url) !in alertInflight {
        alertInflight := alertInflight + {Endpoint(url)};
        alert := Some(Alert(Endpoint(url), healthy, |endpoints|, Some(downFor)));
      } else {
        alert := None;
      }
    }

    /** The scan over the known outages, after the alert that nothing is left. */
    method OfferOutages(first: seq<Alert>, now: int, cooldown: int, ghost b: Alerts, ghost zero: seq<Key>)
      returns (events: seq<Alert>)
      requires Scored(View()) && b.since.Valid() && forall k :: k in zero ==> k == ZeroHealthy
      requires AlertState() == Launched(b, zero) && Collected(first, b, View(), zero, now)
      modifies `alertInflight
      ensures AlertState() == Launched(b, zero + DueKeys(b, b.since.order, now, cooldown))
      ensures Collected(events, b, View(), zero + DueKeys(b, b.since.order, now, cooldown), now)
    {
      hide Distinct, DueKeys, Due, Collected;
      var healthy := |Available(View())|;
      events := first;
      NoOutageYet(b, zero, now, cooldown);
      var i := 0;
      while i < |downSince.order|
        invariant 0 <= i <= |downSince.order|
        invariant AlertState() == Launched(b, zero + DueKeys(b, b.since.order[..i], now, cooldown))
        invariant Collected(events, b, View(), zero + DueKeys(b, b.since.order[..i], now, cooldown), now)
      {
        NextOutage(b, zero, i, now, cooldown);
        CollectMore(events, b, View(), zero + DueKeys(b, b.since.order[..i], now, cooldown), b.since.order[i], now);
        var alert := OfferOutage(downSince.order[i], now, cooldown, healthy);
        if alert.Some? {
          events := events + [alert.value];
        }
        i := i + 1;
      }
      assert b.since.order[..i] == b.since.order;
    }

    /** The alert that no endpoint is left. */
    method OfferZero(now: int) returns (events: seq<Alert>)
      requires Scored(View())
      modifies `alertInflight
      ensures var b := old(AlertState());
              var zero := if ZeroDue(b, endpoints, DownNow(View())) then [ZeroHealthy] else [];
              AlertState() == Launched(b, zero) && Collected(events, b, View(), zero, now)
    {
      AvailableMeansUp(View());
      var healthy := |Available(View())|;
      events := [];
      if endpoints != [] && healthy == 0 && !zeroHealthyAlerted && ZeroHealthy !in alertInflight {
        alertInflight := alertInflight + {ZeroHealthy};
        events := [Alert(ZeroHealthy, healthy, |endpoints|, None)];
      }
    }

    /** A scan: what it emits and what it leaves behind are those of RpcAlerts. */
    method NotificationEvents(now: int, cooldown: int) returns (events: seq<Alert>)
      requires Valid()
      modifies `downSince, `downAlerted, `alertInflight, `zeroHealthyAlerted
      ensures Valid()
      ensures events == Events(old(State()), now, cooldown)
      ensures State() == Scanned(old(State()), now, cooldown)
    {
      hide Due, DueKeys, Synced, ZeroDue;
      SyncAlertState(now);
      ghost var b := AlertState();
      events := OfferZero(now);
      ghost var zero := if ZeroDue(b, endpoints, DownNow(View())) then [ZeroHealthy] else [];
      events := OfferOutages(events, now, cooldown, b, zero);
    }

    method SettleAlert(key: Key, delivered: bool)
      modifies `downAlerted, `alertInflight, `zeroHealthyAlerted
      ensures AlertState() == Settled(old(AlertState()), key, delivered)
    {
      alertInflight := alertInflight - {key};
      if delivered {
        if key == ZeroHealthy {
          zeroHealthyAlerted := true;
        } else {
          downAlerted := downAlerted + {key.url};
        }
      }
    }

    method SettleAlerts(events: seq<Alert>, callback: Alert -> bool) returns (sent: nat)
      modifies `downAlerted, `alertInflight, `zeroHealthyAlerted
      ensures AlertState() == SettledAll(old(AlertState()), events, callback)
      ensures sent == Accepted(events, callback)
    {
      sent := 0;
      var i := 0;
      while i < |events|
        invariant 0 <= i <= |events|
        invariant AlertState() == SettledAll(old(AlertState()), events[..i], callback)
        invariant sent == Accepted(events[..i], callback)
      {
        assert events[..i + 1][..i] == events[..i];
        var delivered := callback(events[i]);
        SettleAlert(events[i].key, delivered);
        if delivered {
          sent := sent + 1;
        }
        i := i + 1;
      }
      assert events[..i] == events;
    }

    /** A dispatch that nothing interrupts: one scan, then the callback's answer to each alert, in order. */
    method DispatchAlerts(callback: Alert -> bool, now: int, cooldown: int) returns (sent: nat)
      requires Valid()
      modifies `downSince, `downAlerted, `alertInflight, `zeroHealthyAlerted
      ensures Valid()
      ensures sent == Accepted(Events(old(State()), now, cooldown), callback)
      ensures var s := Scanned(old(State()), now, cooldown);
              State() == s.(alerts := SettledAll(s.alerts, Events(old(State()), now, cooldown), callback))
    {
      hide Sound, Events, Scanned, SettledAll, Accepted;
      var events := NotificationEvents(now, cooldown);
      SettledSound(State(), events, callback);
      sent := SettleAlerts(events, callback);
    }
  }

  lemma {:induction false} SettledSound(s: PoolState, events: seq<Alert>, callback: Alert -> bool)
    requires Sound(s)
    ensures SettledAll(s.alerts, events, callback).since == s.alerts.since
    ensures Sound(s.(alerts := SettledAll(s.alerts, events, callback)))
  {
    if events != [] {
      SettledSound(s, events[..|events| - 1], callback);
    }
  }

  /** A scan of the pool is the scan of the alert protocol: same alerts, same keys, same state after. */
  lemma ScanIsAProtocolStep(s: PoolState, w: World, now: int, cooldown: int, key: Key)
    requires Sound(s) && w.a == s.alerts && w.down == DownNow(s.pool)
    ensures var next := Step(s.pool.urls, w, Scan(now, cooldown), key);
            && next.a == Scanned(s, now, cooldown).alerts && next.down == DownNow(s.pool)
            && next.flight == w.flight + multiset(NextScan(s.pool.urls, w, now, cooldown))
            && |Events(s, now, cooldown)| == |NextScan(s.pool.urls, w, now, cooldown)|
            && forall i :: 0 <= i < |Events(s, now, cooldown)| ==>
                 Events(s, now, cooldown)[i].key == NextScan(s.pool.urls, w, now, cooldown)[i]
  {
    hide RpcRouting.Valid, Distinct, Synced, Emitted, DownNow;
  }

  /** A mark is a protocol step too: up after a success, down after a failure that takes it down, else nothing. */
  lemma MarkIsAProtocolStep(s: PoolState, w: World, u: Url, ok: bool, now: int, key: Key)
    requires Sound(s) && w.a == s.alerts && w.down == DownNow(s.pool)
    ensures var t := Marked(s, u, ok, now);
            var next := if u !in s.pool.urls then w
                        else if ok then Step(s.pool.urls, w, CameUp(u), key)
                        else if IsDown(t.pool, u) then Step(s.pool.urls, w, WentDown(u, now), key)
                        else w;
            next.a == t.alerts && next.down == DownNow(t.pool)
  {
    hide Distinct;
    var t := Marked(s, u, ok, now);
    if u in s.pool.urls {
      assert u in s.pool.scores && s.pool.threshold >= 1;
      hide RpcRouting.Valid, Sound;
      forall v ensures v in DownNow(t.pool) <==> if v == u then IsDown(t.pool, u) else v in DownNow(s.pool) {
      }
    } else {
      assert u !in s.pool.scores;
    }
  }

  /** Only the endpoint's own state matters when it is synchronised. */
  lemma SyncSees(a: Alerts, u: Url, p: Pool, now: int)
    requires Scored(p) && u in p.urls
    ensures SyncOne(a, u, DownNow(p), now) == SyncOne(a, u, if IsDown(p, u) then {u} else {}, now)
  {
  }

  lemma AnyUpOfLonger(urls: seq<Url>, u: Url, down: set<Url>)
    ensures AnyUp(urls + [u], down) <==> AnyUp(urls, down) || u !in down
  {
    if AnyUp(urls, down) {
      var v :| v in urls && v !in down;
      assert v in urls + [u];
    }
    assert u in urls + [u];
  }

  lemma AvailableMeansUp(p: Pool)
    requires Scored(p)
    ensures |Available(p)| == 0 <==> !AnyUp(p.urls, DownNow(p))
  {
    if AnyUp(p.urls, DownNow(p)) {
      var u :| u in p.urls && u !in DownNow(p);
      assert u in Available(p);
    }
    if Available(p) != [] {
      var u := Available(p)[0];
      assert u in Available(p);
    }
  }

  /** `events` carries `keys`, each with what the scan knows about it. */
  ghost predicate Collected(events: seq<Alert>, b: Alerts, p: Pool, keys: seq<Key>, now: int)
    requires Scored(p)
  {
    && |events| == |keys|
    && forall i :: 0 <= i < |events| ==>
         (keys[i].Endpoint? ==> keys[i].url in b.since.items) && events[i] == AlertOf(p, b, keys[i], now)
  }

  lemma CollectMore(events: seq<Alert>, b: Alerts, p: Pool, keys: seq<Key>, u: Url, now: int)
    requires Scored(p) && Collected(events, b, p, keys, now) && u in b.since.items
    ensures Collected(events + [AlertOf(p, b, Endpoint(u), now)], b, p, keys + [Endpoint(u)], now)
    ensures Launched(Launched(b, keys), [Endpoint(u)]) == Launched(b, keys + [Endpoint(u)])
    ensures keys + [] == keys && Launched(Launched(b, keys), []) == Launched(b, keys)
  {
    assert (set k | k in keys + [Endpoint(u)]) == (set k | k in keys) + {Endpoint(u)};
    assert (set k | k in [Endpoint(u)]) == {Endpoint(u)};
  }

  /** The next outage in order is due for the scan in progress exactly when it was due at its start. */
  lemma NoOutageYet(b: Alerts, zero: seq<Key>, now: int, cooldown: int)
    ensures zero + DueKeys(b, b.since.order[..0], now, cooldown) == zero
  {
  }

  lemma NextOutage(b: Alerts, zero: seq<Key>, i: nat, now: int, cooldown: int)
    requires b.since.Valid() && i < |b.since.order| && forall k :: k in zero ==> k == ZeroHealthy
    ensures var keys := zero + DueKeys(b, b.since.order[..i], now, cooldown);
            var u := b.since.order[i];
            var due := Due(b, u, now, cooldown);
            && u in b.since.items
            && Due(Launched(b, keys), u, now, cooldown) == due
            && zero + DueKeys(b, b.since.order[..i + 1], now, cooldown) == keys + if due then [Endpoint(u)] else []
  {
    var order := b.since.order;
    assert order[..i + 1][..i] == order[..i] && order[..i + 1][i] == order[i];
    assert order[i] !in order[..i];
    assert order[i] in order;
    hide Distinct, DownFor, Cooled;
  }

  lemma SyncedSound(s: PoolState, now: int)
    requires Sound(s)
    ensures Sound(s.(alerts := Synced(s.alerts, s.pool.urls, DownNow(s.pool), now)))
  {
    SyncedOutages(s.alerts, s.pool.urls, DownNow(s.pool), now);
  }

  ghost predicate BestOfFirst(u: Url, urls: seq<Url>, n: nat, scores: map<Url, Score>) {
    && 0 < n <= |urls|
    && (forall v :: v in urls ==> v in scores)
    && u == LeastRecent(Healthiest(urls[..n], scores), scores)
  }

  lemma StartBest(urls: seq<Url>, scores: map<Url, Score>)
    requires urls != [] && forall v :: v in urls ==> v in scores
    ensures BestOfFirst(urls[0], urls, 1, scores)
  {
    assert urls[..1] == [urls[0]];
  }

  lemma ExtendBest(urls: seq<Url>, n: nat, scores: map<Url, Score>, best: Url)
    requires n < |urls| && BestOfFirst(best, urls, n, scores) && best in scores
    ensures urls[n] in scores
    ensures var u := urls[n];
            var better := scores[u].health > scores[best].health
                          || (scores[u].health == scores[best].health && scores[u].lastUsed < scores[best].lastUsed);
            BestOfFirst(if better then u else best, urls, n + 1, scores)
  {
    hide Healthiest, LeastRecent;
    var u := urls[n];
    var h := Healthiest(urls[..n], scores);
    assert urls[..n + 1] == urls[..n] + [u];
    HealthiestOfLonger(urls[..n], u, scores);
    LeastRecentOfLonger(h, u, scores);
  }

  lemma HealthiestOfLonger(urls: seq<Url>, u: Url, scores: map<Url, Score>)
    requires u in scores && urls != [] && forall v :: v in urls ==> v in scores
    ensures var h := Healthiest(urls, scores);
            Healthiest(urls + [u], scores)
            == if scores[u].health > scores[h[0]].health then [u]
               else if scores[u].health == scores[h[0]].health then h + [u]
               else h
  {
    assert (urls + [u])[..|urls|] == urls;
  }

  lemma LeastRecentOfLonger(urls: seq<Url>, u: Url, scores: map<Url, Score>)
    requires u in scores && urls != [] && forall v :: v in urls ==> v in scores
    ensures LeastRecent([u], scores) == u
    ensures var best := LeastRecent(urls, scores);
            LeastRecent(urls + [u], scores) == if scores[u].lastUsed < scores[best].lastUsed then u else best
  {
    assert (urls + [u])[..|urls|] == urls;
  }

  lemma BestOfAll(urls: seq<Url>, scores: map<Url, Score>, best: Url)
    requires BestOfFirst(best, urls, |urls|, scores)
    ensures best == LeastRecent(Healthiest(urls, scores), scores)
  {
    assert urls[..|urls|] == urls;
  }
}

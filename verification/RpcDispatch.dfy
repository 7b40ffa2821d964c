/**
  What the alerts of a scan say, and what a dispatch leaves behind (ingestion/rpc_pool.py:214-295),
  in terms of the counters and dates of the pool.
*/
module RpcDispatch {

  import opened Prelude
  import opened RpcRouting
  import opened RpcAlerts
  import opened RpcEndpointPools

  lemma HealthyCount(p: Pool)
    requires Valid(p)
    ensures forall u :: u in p.urls ==> u in p.scores
    ensures |Available(p)| == |set u | u in p.urls && p.scores[u].failures < p.threshold|
  {
    hide Select;
    SelectDistinct(p, p.urls, false);
    DistinctSize(Available(p), set u | u in p.urls && p.scores[u].failures < p.threshold);
  }

  lemma EventKey(s: PoolState, now: int, cooldown: int, e: Alert)
    requires Sound(s) && e in Events(s, now, cooldown)
    ensures var down := DownNow(s.pool);
            var b := Synced(s.alerts, s.pool.urls, down, now);
            && e.key in Emitted(b, s.pool.urls, down, now, cooldown)
            && (e.key.Endpoint? ==> e.key.url in b.since.items) && e == AlertOf(s.pool, b, e.key, now)
  {
    var down := DownNow(s.pool);
    var b := Synced(s.alerts, s.pool.urls, down, now);
    SyncedOutages(s.alerts, s.pool.urls, down, now);
    EmittedOnce(b, s.pool.urls, down, now, cooldown, e.key);
    hide Synced, Emitted, AlertOf, DownNow, Sound, Distinct;
  }

  lemma KeySays(s: PoolState, now: int, cooldown: int, key: Key)
    requires Sound(s)
    requires var down := DownNow(s.pool);
             key in Emitted(Synced(s.alerts, s.pool.urls, down, now), s.pool.urls, down, now, cooldown)
    ensures key.ZeroHealthy? ==> !AnyUp(s.pool.urls, DownNow(s.pool))
    ensures key.Endpoint? ==>
              var u := key.url;
              var b := Synced(s.alerts, s.pool.urls, DownNow(s.pool), now);
              && u in b.since.items && u in s.pool.urls && u in DownNow(s.pool)
              && b.since.items[u] == if u in s.alerts.since.items then s.alerts.since.items[u] else now
  {
    var down := DownNow(s.pool);
    var b := Synced(s.alerts, s.pool.urls, down, now);
    SyncedOutages(s.alerts, s.pool.urls, down, now);
    EmittedOnce(b, s.pool.urls, down, now, cooldown, key);
    if key.Endpoint? {
      SyncAllOf(s.alerts, s.pool.urls, down, now, key.url);
    }
    hide Distinct, SyncAll, Emitted, AnyUp, DownNow, Cooled;
  }

  lemma AlertCounts(s: PoolState, now: int, cooldown: int, e: Alert)
    requires Sound(s) && e in Events(s, now, cooldown)
    ensures forall u :: u in s.pool.urls ==> u in s.pool.scores
    ensures e.total == |s.pool.urls|
    ensures e.healthy == |set u | u in s.pool.urls && s.pool.scores[u].failures < s.pool.threshold|
  {
    HealthyCount(s.pool);
    EventKey(s, now, cooldown, e);
    hide Events, Synced, Emitted, Available, Distinct, DownNow;
  }

  lemma NoneLeftSays(s: PoolState, now: int, cooldown: int, e: Alert)
    requires Sound(s) && e in Events(s, now, cooldown) && e.key.ZeroHealthy?
    ensures e.healthy == 0 && e.downFor == None
  {
    AvailableMeansUp(s.pool);
    EventKey(s, now, cooldown, e);
    KeySays(s, now, cooldown, e.key);
    hide Events, Synced, Emitted, AnyUp, Available, Distinct, DownNow;
  }

  lemma AlertTimes(s: PoolState, now: int, cooldown: int, e: Alert)
    requires Sound(s) && e in Events(s, now, cooldown) && e.key.Endpoint?
    ensures var u := e.key.url;
            var noticed := if u in s.alerts.since.items then s.alerts.since.items[u] else now;
            && u in s.pool.urls && u in DownNow(s.pool)
            && e.downFor == Some(if now >= noticed then now - noticed else 0)
  {
    EventKey(s, now, cooldown, e);
    KeySays(s, now, cooldown, e.key);
    hide Events, Synced, Emitted, Available, Distinct, DownNow;
  }

  /**
    Every alert counts the endpoints and those that are up. An endpoint's alert gives the time
    since its outage was first noticed; the alert that none is left says that none is up.
  */
  lemma AlertSays(s: PoolState, now: int, cooldown: int, e: Alert)
    requires Sound(s) && e in Events(s, now, cooldown)
    ensures forall u :: u in s.pool.urls ==> u in s.pool.scores
    ensures e.total == |s.pool.urls|
    ensures e.healthy == |set u | u in s.pool.urls && s.pool.scores[u].failures < s.pool.threshold|
    ensures e.key.ZeroHealthy? ==> e.healthy == 0 && e.downFor == None
    ensures e.key.Endpoint? ==>
              var u := e.key.url;
              var noticed := if u in s.alerts.since.items then s.alerts.since.items[u] else now;
              && u in s.pool.urls && s.pool.scores[u].failures >= s.pool.threshold
              && e.downFor == Some(if now >= noticed then now - noticed else 0)
  {
    AlertCounts(s, now, cooldown, e);
    if e.key.ZeroHealthy? {
      NoneLeftSays(s, now, cooldown, e);
    } else {
      AlertTimes(s, now, cooldown, e);
    }
    hide Sound, Events, Distinct;
  }

  function TakenBy(callback: Alert -> bool, alerts: seq<Alert>): set<int> {
    set i | 0 <= i < |alerts| && callback(alerts[i])
  }

  lemma OneMoreTaken(alerts: seq<Alert>, callback: Alert -> bool)
    requires alerts != []
    ensures |TakenBy(callback, alerts)|
         == |TakenBy(callback, alerts[..|alerts| - 1])| + if callback(alerts[|alerts| - 1]) then 1 else 0
  {
    var n := |alerts| - 1;
    assert TakenBy(callback, alerts)
        == TakenBy(callback, alerts[..n]) + if callback(alerts[n]) then {n} else {};
  }

  lemma {:induction false} AcceptedCounts(alerts: seq<Alert>, callback: Alert -> bool)
    ensures Accepted(alerts, callback) == |TakenBy(callback, alerts)|
  {
    if alerts != [] {
      AcceptedCounts(alerts[..|alerts| - 1], callback);
      OneMoreTaken(alerts, callback);
      hide TakenBy;
    }
  }

  /** How many deliveries were accepted. */
  lemma SentCounts(alerts: seq<Alert>, callback: Alert -> bool)
    ensures Accepted(alerts, callback) == |set i | 0 <= i < |alerts| && callback(alerts[i])|
  {
    AcceptedCounts(alerts, callback);
  }

  /** Afterwards no alert of the scan is in flight, and exactly the accepted ones are known as alerted. */
  lemma {:induction false} SettlingMeans(a: Alerts, alerts: seq<Alert>, callback: Alert -> bool, k: Key)
    ensures var b := SettledAll(a, alerts, callback);
            && (k in b.inflight <==> k in a.inflight && forall e :: e in alerts ==> e.key != k)
            && (Alerted(b, k) <==> Alerted(a, k) || exists e :: e in alerts && e.key == k && callback(e))
            && b.since == a.since
  {
    if alerts != [] {
      var init := alerts[..|alerts| - 1];
      assert alerts == init + [alerts[|alerts| - 1]];
      SettlingMeans(a, init, callback, k);
    }
  }
}

/**
  Outage alerts of the RPC pool (ingestion/rpc_pool.py:202-295): which outages are known,
  which alerts have been accepted, and which are being delivered. Delivery happens outside
  the pool's lock, so scans, marks and settlements of several dispatchers interleave.
*/
module RpcAlerts {

  import opened Prelude
  import opened RpcRouting

  datatype Key = ZeroHealthy | Endpoint(url: Url)

  /** `since` is `_down_since`: when each outage was first noticed, in order of notice. */
  datatype Alerts = Alerts(since: Dict<Url, int>, alerted: set<Url>, inflight: set<Key>, zeroAlerted: bool)

  const QUIET := Alerts(Dict([], map[]), {}, {}, false)

  predicate AnyUp(urls: seq<Url>, down: set<Url>) {
    exists u :: u in urls && u !in down
  }

  /** What a scan learns about one endpoint. */
  function SyncOne(a: Alerts, u: Url, down: set<Url>, now: int): Alerts {
    if u in down then a.(since := a.since.SetDefault(u, now))
    else a.(since := a.since.Remove(u), alerted := a.alerted - {u}, inflight := a.inflight - {Endpoint(u)})
  }

  function SyncAll(a: Alerts, urls: seq<Url>, down: set<Url>, now: int): Alerts {
    if urls == [] then a
    else SyncOne(SyncAll(a, urls[..|urls| - 1], down, now), urls[|urls| - 1], down, now)
  }

  function Synced(a: Alerts, urls: seq<Url>, down: set<Url>, now: int): Alerts {
    var b := SyncAll(a, urls, down, now);
    if AnyUp(urls, down) then b.(zeroAlerted := false, inflight := b.inflight - {ZeroHealthy}) else b
  }

  function DownFor(now: int, since: int): nat {
    if now >= since then now - since else 0
  }

  predicate Cooled(now: int, since: int, cooldown: int) {
    DownFor(now, since) >= if cooldown > 0 then cooldown else 0
  }

  predicate ZeroDue(a: Alerts, urls: seq<Url>, down: set<Url>) {
    urls != [] && !AnyUp(urls, down) && !a.zeroAlerted && ZeroHealthy !in a.inflight
  }

  predicate Due(a: Alerts, u: Url, now: int, cooldown: int) {
    u in a.since.items && Cooled(now, a.since.items[u], cooldown) && u !in a.alerted && Endpoint(u) !in a.inflight
  }

  /** The endpoint alerts a scan emits, in the order in which the outages were noticed. */
  function DueKeys(a: Alerts, urls: seq<Url>, now: int, cooldown: int): (keys: seq<Key>)
    ensures forall k :: k in keys <==> k.Endpoint? && k.url in urls && Due(a, k.url, now, cooldown)
    ensures Distinct(urls) ==> Distinct(keys)
  {
    if urls == [] then []
    else
      var init := urls[..|urls| - 1];
      var last := urls[|urls| - 1];
      assert urls == init + [last];
      assert Distinct(urls) ==> Distinct(init) && forall i :: 0 <= i < |init| ==> urls[i] != urls[|init|];
      DueKeys(a, init, now, cooldown) + if Due(a, last, now, cooldown) then [Endpoint(last)] else []
  }

  /** The keys a scan emits when `a` is the state it has just synchronised. */
  function Emitted(a: Alerts, urls: seq<Url>, down: set<Url>, now: int, cooldown: int): seq<Key> {
    (if ZeroDue(a, urls, down) then [ZeroHealthy] else []) + DueKeys(a, a.since.order, now, cooldown)
  }

  function Launched(a: Alerts, keys: seq<Key>): Alerts {
    a.(inflight := a.inflight + set k | k in keys)
  }

  function Settled(a: Alerts, key: Key, delivered: bool): Alerts {
    var b := a.(inflight := a.inflight - {key});
    if !delivered then b
    else match key
         case ZeroHealthy => b.(zeroAlerted := true)
         case Endpoint(u) => b.(alerted := b.alerted + {u})
  }

  predicate Alerted(a: Alerts, key: Key) {
    match key
    case ZeroHealthy => a.zeroAlerted
    case Endpoint(u) => u in a.alerted
  }

  /** What a scan takes for the end of the outage that `key` reports. */
  predicate Recovered(urls: seq<Url>, down: set<Url>, key: Key) {
    match key
    case ZeroHealthy => AnyUp(urls, down)
    case Endpoint(u) => u in urls && u !in down
  }

  // -------------------------------------------------------------- one scan

  /** A scan changes each endpoint's entry by that endpoint's own state alone. */
  lemma {:induction false} SyncAllOf(a: Alerts, urls: seq<Url>, down: set<Url>, now: int, u: Url)
    ensures var b := SyncAll(a, urls, down, now);
            && b.zeroAlerted == a.zeroAlerted
            && (ZeroHealthy in b.inflight <==> ZeroHealthy in a.inflight)
            && (u in b.alerted <==> u in a.alerted && !Recovered(urls, down, Endpoint(u)))
            && (Endpoint(u) in b.inflight <==> Endpoint(u) in a.inflight && !Recovered(urls, down, Endpoint(u)))
            && (u in b.since.items <==> if u in urls then u in down else u in a.since.items)
            && (u in b.since.items ==> b.since.items[u] == if u in a.since.items then a.since.items[u] else now)
            && (a.since.Valid() ==> b.since.Valid())
  {
    if urls != [] {
      var init := urls[..|urls| - 1];
      assert urls == init + [urls[|urls| - 1]];
      SyncAllOf(a, init, down, now, u);
    }
  }

  /** So a scan forgets an alert, accepted or in flight, exactly when it sees its outage over. */
  lemma SyncedOf(a: Alerts, urls: seq<Url>, down: set<Url>, now: int, k: Key)
    ensures var b := Synced(a, urls, down, now);
            && (Alerted(b, k) <==> Alerted(a, k) && !Recovered(urls, down, k))
            && (k in b.inflight <==> k in a.inflight && !Recovered(urls, down, k))
  {
    SyncAllOf(a, urls, down, now, if k.Endpoint? then k.url else Url(""));
  }

  // ------------------------------------------------------ interleaved dispatchers

  /**
    The pool and every dispatcher at work, watched for the alert `key`: `flight` counts the
    emitted alerts not yet settled, `accepted` the deliveries of `key` accepted since a scan
    last saw its outage over.
  */
  datatype World = World(a: Alerts, down: set<Url>, flight: multiset<Key>, accepted: nat)

  /** Marks move endpoints in and out of the down state; a dispatch is one scan and a settlement for each alert. */
  datatype Act =
    | WentDown(url: Url, now: int)
    | CameUp(url: Url)
    | Scan(now: int, cooldown: int)
    | Settle(alert: Key, delivered: bool)

  function Step(urls: seq<Url>, w: World, act: Act, key: Key): World {
    match act
    case WentDown(u, now) =>
      if u !in urls then w
      else w.(down := w.down + {u}, a := w.a.(since := w.a.since.SetDefault(u, now)))
    case CameUp(u) => w.(down := w.down - {u})
    case Scan(now, cooldown) =>
      var b := Synced(w.a, urls, w.down, now);
      var keys := Emitted(b, urls, w.down, now, cooldown);
      World(Launched(b, keys), w.down, w.flight + multiset(keys),
            if Recovered(urls, w.down, key) then 0 else w.accepted)
    case Settle(k, delivered) =>
      if k !in w.flight then w
      else World(Settled(w.a, k, delivered), w.down, w.flight - multiset{k},
                 w.accepted + if delivered && k == key then 1 else 0)
  }

  datatype Acts = Start | Then(past: Acts, act: Act)

  function Reached(urls: seq<Url>, acts: Acts, key: Key): World {
    if acts.Start? then World(QUIET, {}, multiset{}, 0)
    else Step(urls, Reached(urls, acts.past, key), acts.act, key)
  }

  /** No scan saw the outage over while its alert was still being delivered. */
  predicate NoRecoveryInFlight(urls: seq<Url>, acts: Acts, key: Key) {
    acts.Then? ==>
      var w := Reached(urls, acts.past, key);
      && NoRecoveryInFlight(urls, acts.past, key)
      && !(acts.act.Scan? && Recovered(urls, w.down, key) && key in w.flight)
  }

  /** Every scan found all earlier alerts settled. */
  predicate DispatchesDoNotOverlap(urls: seq<Url>, acts: Acts, key: Key) {
    acts.Then? ==>
      && DispatchesDoNotOverlap(urls, acts.past, key)
      && (acts.act.Scan? ==> Reached(urls, acts.past, key).flight == multiset{})
  }

  ghost predicate Inv(urls: seq<Url>, w: World, key: Key) {
    && w.a.since.Valid()
    && (forall u :: u in w.a.since.items ==> u in urls)
    && (forall u :: u in w.down ==> u in urls && u in w.a.since.items)
    && w.flight[key] <= 1
    && (key in w.flight <==> key in w.a.inflight)
    && w.accepted == (if Alerted(w.a, key) then 1 else 0)
    && (key in w.flight ==> w.accepted == 0)
  }

  lemma EmittedOnce(a: Alerts, urls: seq<Url>, down: set<Url>, now: int, cooldown: int, key: Key)
    requires a.since.Valid()
    ensures var keys := Emitted(a, urls, down, now, cooldown);
            && multiset(keys)[key] <= 1
            && (key in keys <==> if key.ZeroHealthy? then ZeroDue(a, urls, down) else Due(a, key.url, now, cooldown))
  {
    var due := DueKeys(a, a.since.order, now, cooldown);
    DistinctOnce(due, key);
    assert multiset([ZeroHealthy] + due) == multiset([ZeroHealthy]) + multiset(due);
    assert [] + due == due;
  }

  lemma {:induction false} DistinctOnce<T(!new)>(s: seq<T>, x: T)
    requires Distinct(s)
    ensures multiset(s)[x] == if x in s then 1 else 0
  {
    if s != [] {
      var init := s[..|s| - 1];
      var last := s[|s| - 1];
      assert s == init + [last];
      DistinctOnce(init, x);
      assert last !in init;
    }
  }

  lemma SyncedOutages(a: Alerts, urls: seq<Url>, down: set<Url>, now: int)
    requires a.since.Valid()
    ensures var b := Synced(a, urls, down, now);
            && b.since.Valid()
            && (forall u :: u in b.since.items <==> if u in urls then u in down else u in a.since.items)
  {
    forall u ensures var b := SyncAll(a, urls, down, now);
                     b.since.Valid() && (u in b.since.items <==> if u in urls then u in down else u in a.since.items) {
      SyncAllOf(a, urls, down, now, u);
    }
  }

  lemma SilentWhileKnown(a: Alerts, urls: seq<Url>, down: set<Url>, now: int, cooldown: int, key: Key)
    requires a.since.Valid()
    ensures key in Emitted(a, urls, down, now, cooldown) ==> key !in a.inflight && !Alerted(a, key)
  {
    EmittedOnce(a, urls, down, now, cooldown, key);
  }

  /** What the next scan emits. */
  function NextScan(urls: seq<Url>, w: World, now: int, cooldown: int): seq<Key> {
    Emitted(Synced(w.a, urls, w.down, now), urls, w.down, now, cooldown)
  }

  /** One scan as one key sees it. */
  lemma ScanEffect(urls: seq<Url>, w: World, now: int, cooldown: int, key: Key)
    requires w.a.since.Valid()
    ensures var next := Step(urls, w, Scan(now, cooldown), key);
            var emitted := key in NextScan(urls, w, now, cooldown);
            var over := Recovered(urls, w.down, key);
            && next.a.since.Valid()
            && next.down == w.down
            && next.flight[key] == w.flight[key] + (if emitted then 1 else 0)
            && (key in next.a.inflight <==> emitted || (key in w.a.inflight && !over))
            && (Alerted(next.a, key) <==> Alerted(w.a, key) && !over)
            && next.accepted == (if over then 0 else w.accepted)
            && (emitted ==> !over && key !in w.a.inflight && !Alerted(w.a, key))
  {
    var b := Synced(w.a, urls, w.down, now);
    SyncedOf(w.a, urls, w.down, now, key);
    SyncedOutages(w.a, urls, w.down, now);
    EmittedOnce(b, urls, w.down, now, cooldown, key);
    SilentWhileKnown(b, urls, w.down, now, cooldown, key);
    SilentWhenOver(w.a, urls, w.down, now, cooldown, key);
    hide Synced, Emitted, Recovered, Due, ZeroDue;
  }

  lemma SilentWhenOver(a: Alerts, urls: seq<Url>, down: set<Url>, now: int, cooldown: int, key: Key)
    requires a.since.Valid()
    ensures Recovered(urls, down, key) ==> key !in Emitted(Synced(a, urls, down, now), urls, down, now, cooldown)
  {
    SyncedOutages(a, urls, down, now);
    EmittedOnce(Synced(a, urls, down, now), urls, down, now, cooldown, key);
    hide Synced, Emitted;
  }

  lemma ScanOutages(urls: seq<Url>, w: World, now: int, cooldown: int, key: Key, u: Url)
    requires w.a.since.Valid()
    ensures var next := Step(urls, w, Scan(now, cooldown), key);
            && (u in next.a.since.items <==> if u in urls then u in w.down else u in w.a.since.items)
            && (u in next.a.since.items ==>
                  next.a.since.items[u] == if u in w.a.since.items then w.a.since.items[u] else now)
  {
    SyncAllOf(w.a, urls, w.down, now, u);
    hide SyncAll, Emitted;
  }

  lemma ScanKeepsInv(urls: seq<Url>, w: World, now: int, cooldown: int, key: Key)
    requires Inv(urls, w, key) && !(Recovered(urls, w.down, key) && key in w.flight)
    ensures Inv(urls, Step(urls, w, Scan(now, cooldown), key), key)
  {
    ScanEffect(urls, w, now, cooldown, key);
    var next := Step(urls, w, Scan(now, cooldown), key);
    forall u ensures u in next.a.since.items ==> u in urls
             ensures u in w.down ==> u in next.a.since.items {
      ScanOutages(urls, w, now, cooldown, key, u);
    }
    hide Step, NextScan, Recovered, Alerted;
  }

  lemma StepKeepsInv(urls: seq<Url>, w: World, act: Act, key: Key)
    requires Inv(urls, w, key)
    requires !(act.Scan? && Recovered(urls, w.down, key) && key in w.flight)
    ensures Inv(urls, Step(urls, w, act, key), key)
  {
    match act
    case Scan(now, cooldown) => ScanKeepsInv(urls, w, now, cooldown, key);
    case _ =>
  }

  lemma {:induction false} ReachedInv(urls: seq<Url>, acts: Acts, key: Key)
    requires NoRecoveryInFlight(urls, acts, key)
    ensures Inv(urls, Reached(urls, acts, key), key)
  {
    if acts.Then? {
      ReachedInv(urls, acts.past, key);
      StepKeepsInv(urls, Reached(urls, acts.past, key), acts.act, key);
    }
  }

  /**
    However dispatchers overlap: while no scan sees the outage over with its alert still in
    flight, the alert is in flight at most once, and each outage as scans see it has at
    most one accepted alert.
  */
  lemma AtMostOneAlertPerOutage(urls: seq<Url>, acts: Acts, key: Key)
    requires NoRecoveryInFlight(urls, acts, key)
    ensures var w := Reached(urls, acts, key);
            w.flight[key] <= 1 && w.accepted <= 1 && w.flight[key] + w.accepted <= 1
  {
    ReachedInv(urls, acts, key);
  }

  lemma {:induction false} SerialMeansNoRecoveryInFlight(urls: seq<Url>, acts: Acts, key: Key)
    requires DispatchesDoNotOverlap(urls, acts, key)
    ensures NoRecoveryInFlight(urls, acts, key)
  {
    if acts.Then? {
      SerialMeansNoRecoveryInFlight(urls, acts.past, key);
    }
  }

  /**
    Without overlap, a scan alerts for an endpoint exactly when it is down, its cooldown
    has passed and no alert of the present outage has been accepted: a refused delivery
    is therefore emitted again by every later scan of that outage until one is accepted.
  */
  lemma DownAlertExactlyWhenDue(urls: seq<Url>, acts: Acts, u: Url, now: int, cooldown: int)
    requires DispatchesDoNotOverlap(urls, Then(acts, Scan(now, cooldown)), Endpoint(u))
    ensures var w := Reached(urls, acts, Endpoint(u));
            Endpoint(u) in NextScan(urls, w, now, cooldown)
            <==> u in w.down && u in w.a.since.items && w.accepted == 0
                 && (cooldown <= 0 || now - w.a.since.items[u] >= cooldown)
  {
    var key := Endpoint(u);
    var w := Reached(urls, acts, key);
    SerialMeansNoRecoveryInFlight(urls, acts, key);
    ReachedInv(urls, acts, key);
    SyncedOf(w.a, urls, w.down, now, key);
    SyncAllOf(w.a, urls, w.down, now, u);
    EmittedOnce(Synced(w.a, urls, w.down, now), urls, w.down, now, cooldown, key);
  }

  /** The same for the alert that no endpoint is left, which has no cooldown. */
  lemma ZeroAlertExactlyWhenDue(urls: seq<Url>, acts: Acts, now: int, cooldown: int)
    requires DispatchesDoNotOverlap(urls, Then(acts, Scan(now, cooldown)), ZeroHealthy)
    ensures var w := Reached(urls, acts, ZeroHealthy);
            ZeroHealthy in NextScan(urls, w, now, cooldown)
            <==> urls != [] && (forall u :: u in urls ==> u in w.down) && w.accepted == 0
  {
    var w := Reached(urls, acts, ZeroHealthy);
    SerialMeansNoRecoveryInFlight(urls, acts, ZeroHealthy);
    ReachedInv(urls, acts, ZeroHealthy);
    SyncedOf(w.a, urls, w.down, now, ZeroHealthy);
    SyncedOutages(w.a, urls, w.down, now);
    EmittedOnce(Synced(w.a, urls, w.down, now), urls, w.down, now, cooldown, ZeroHealthy);
  }

  // ------------------------------------------------ where the guarantee ends

  lemma OneMore(urls: seq<Url>, past: Acts, act: Act, key: Key)
    ensures Reached(urls, Then(past, act), key) == Step(urls, Reached(urls, past, key), act, key)
    ensures NoRecoveryInFlight(urls, Then(past, act), key) ==> NoRecoveryInFlight(urls, past, key)
  {
    hide Step;
  }

  /** Outage dates make a proper dictionary in every run. */
  lemma {:induction false} ReachedSince(urls: seq<Url>, acts: Acts, key: Key)
    ensures Reached(urls, acts, key).a.since.Valid()
  {
    if acts.Then? {
      ReachedSince(urls, acts.past, key);
      StepSince(urls, Reached(urls, acts.past, key), acts.act, key);
      hide Step;
    }
  }

  lemma StepSince(urls: seq<Url>, w: World, act: Act, key: Key)
    requires w.a.since.Valid()
    ensures Step(urls, w, act, key).a.since.Valid()
  {
    hide Distinct, Synced, Emitted;
    if act.Scan? {
      SyncedOutages(w.a, urls, w.down, act.now);
    }
  }

  /** The endpoints whose failure starts the outage that `key` reports. */
  function Concerned(urls: seq<Url>, key: Key): seq<Url> {
    if key.ZeroHealthy? then urls else [key.url]
  }

  function AllWentDown(acts: Acts, us: seq<Url>, t: int): Acts {
    if us == [] then acts else Then(AllWentDown(acts, us[..|us| - 1], t), WentDown(us[|us| - 1], t))
  }

  /** The outage of `key` starts again, one dispatch sees it, and two deliveries are accepted. */
  function Relapse(urls: seq<Url>, acts: Acts, key: Key, t: int): Acts {
    Then(Then(Then(AllWentDown(acts, Concerned(urls, key), t), Scan(t, 0)), Settle(key, true)), Settle(key, true))
  }

  lemma {:induction false} AllWentDownEffect(urls: seq<Url>, acts: Acts, us: seq<Url>, t: int, key: Key)
    ensures var w, z := Reached(urls, acts, key), Reached(urls, AllWentDown(acts, us, t), key);
            && z.flight == w.flight && z.accepted == w.accepted
            && z.a == w.a.(since := z.a.since)
            && (forall u :: u in w.down ==> u in z.down)
            && (forall u :: u in us && u in urls ==> u in z.down)
            && (NoRecoveryInFlight(urls, AllWentDown(acts, us, t), key) <==> NoRecoveryInFlight(urls, acts, key))
  {
    if us != [] {
      AllWentDownEffect(urls, acts, us[..|us| - 1], t, key);
      OneMore(urls, AllWentDown(acts, us[..|us| - 1], t), WentDown(us[|us| - 1], t), key);
    }
  }

  lemma ConcernedDown(urls: seq<Url>, acts: Acts, t: int, key: Key)
    ensures !Recovered(urls, Reached(urls, AllWentDown(acts, Concerned(urls, key), t), key).down, key)
  {
    AllWentDownEffect(urls, acts, Concerned(urls, key), t, key);
    hide Reached, AllWentDown;
  }

  /** Every endpoint that is down has a date. */
  lemma {:induction false} DownIsDated(urls: seq<Url>, acts: Acts, key: Key, u: Url)
    ensures var w := Reached(urls, acts, key); u in w.down ==> u in urls && u in w.a.since.items
  {
    if acts.Then? {
      DownIsDated(urls, acts.past, key, u);
      if acts.act.Scan? {
        var w := Reached(urls, acts.past, key);
        ReachedSince(urls, acts.past, key);
        ScanOutages(urls, w, acts.act.now, acts.act.cooldown, key, u);
      }
    }
  }

  /** A scan without cooldown alerts for an outage that it takes for a new one. */
  lemma NewOutageIsEmitted(urls: seq<Url>, acts: Acts, t: int, key: Key)
    requires var w := Reached(urls, acts, key);
             && key !in w.a.inflight && !Alerted(w.a, key)
             && (if key.ZeroHealthy? then urls != [] && !AnyUp(urls, w.down) else key.url in w.down)
    ensures key in NextScan(urls, Reached(urls, acts, key), t, 0)
  {
    var w := Reached(urls, acts, key);
    ReachedSince(urls, acts, key);
    SyncedOf(w.a, urls, w.down, t, key);
    SyncedOutages(w.a, urls, w.down, t);
    EmittedOnce(Synced(w.a, urls, w.down, t), urls, w.down, t, 0, key);
    if key.Endpoint? {
      DownIsDated(urls, acts, key, key.url);
    }
    hide Reached, Synced, Emitted;
  }

  lemma AcceptedTwice(urls: seq<Url>, past: Acts, key: Key)
    requires Reached(urls, past, key).flight[key] >= 2 && Reached(urls, past, key).accepted == 0
    ensures Reached(urls, Then(Then(past, Settle(key, true)), Settle(key, true)), key).accepted == 2
  {
    var once := Then(past, Settle(key, true));
    OneMore(urls, past, Settle(key, true), key);
    OneMore(urls, once, Settle(key, true), key);
    hide Reached;
  }

  /** After a scan that has just forgotten an alert in flight, the next outage is alerted besides. */
  lemma ForgottenIsDoubled(urls: seq<Url>, acts: Acts, key: Key, t: int)
    requires var w := Reached(urls, acts, key);
             key in w.flight && key !in w.a.inflight && !Alerted(w.a, key) && w.accepted == 0
    requires if key.Endpoint? then key.url in urls else urls != []
    ensures Reached(urls, Relapse(urls, acts, key, t), key).accepted == 2
  {
    hide Reached, Step, Alerted, AnyUp;
    var down := AllWentDown(acts, Concerned(urls, key), t);
    AllWentDownEffect(urls, acts, Concerned(urls, key), t, key);
    AlertedBySince(Reached(urls, acts, key).a, Reached(urls, down, key).a, key);
    ConcernedDown(urls, acts, t, key);
    NewOutageIsEmitted(urls, down, t, key);
    OneMore(urls, down, Scan(t, 0), key);
    ReachedSince(urls, down, key);
    ScanEffect(urls, Reached(urls, down, key), t, 0, key);
    AcceptedTwice(urls, Then(down, Scan(t, 0)), key);
  }

  lemma AlertedBySince(a: Alerts, b: Alerts, key: Key)
    requires b == a.(since := b.since)
    ensures Alerted(b, key) == Alerted(a, key)
  {
  }

  /**
    Every breach doubles: after any scan, in any run of any pool, that saw the outage over with
    its alert in flight, the next outage can have two accepted alerts.
  */
  lemma EveryBreachDoubles(urls: seq<Url>, past: Acts, now: int, cooldown: int, key: Key, t: int)
    requires var w := Reached(urls, past, key); Recovered(urls, w.down, key) && key in w.flight
    ensures Reached(urls, Relapse(urls, Then(past, Scan(now, cooldown)), key, t), key).accepted == 2
  {
    hide Reached, Step, Relapse, Alerted, NextScan;
    var w := Reached(urls, past, key);
    ReachedSince(urls, past, key);
    OneMore(urls, past, Scan(now, cooldown), key);
    ScanEffect(urls, w, now, cooldown, key);
    ForgottenIsDoubled(urls, Then(past, Scan(now, cooldown)), key, t);
  }

  lemma RelapseKeepsCondition(urls: seq<Url>, acts: Acts, key: Key, t: int)
    requires NoRecoveryInFlight(urls, acts, key)
    ensures NoRecoveryInFlight(urls, Relapse(urls, acts, key, t), key)
  {
    var down := AllWentDown(acts, Concerned(urls, key), t);
    var seen := Then(down, Scan(t, 0));
    AllWentDownEffect(urls, acts, Concerned(urls, key), t, key);
    ConcernedDown(urls, acts, t, key);
    hide Reached, AllWentDown, Recovered, NoRecoveryInFlight;
    ConditionOfLonger(urls, down, Scan(t, 0), key);
    ConditionOfLonger(urls, seen, Settle(key, true), key);
    ConditionOfLonger(urls, Then(seen, Settle(key, true)), Settle(key, true), key);
  }

  lemma ConditionOfLonger(urls: seq<Url>, past: Acts, act: Act, key: Key)
    ensures var w := Reached(urls, past, key);
            NoRecoveryInFlight(urls, Then(past, act), key)
            <==> NoRecoveryInFlight(urls, past, key) && !(act.Scan? && Recovered(urls, w.down, key) && key in w.flight)
  {
    hide Reached, Recovered;
  }

  /** After no scan of the run does a new outage get two accepted alerts. */
  predicate NeverDoubles(urls: seq<Url>, acts: Acts, key: Key, t: int) {
    acts.Then? ==>
      && NeverDoubles(urls, acts.past, key, t)
      && (acts.act.Scan? ==> Reached(urls, Relapse(urls, acts, key, t), key).accepted <= 1)
  }

  /**
    So the side condition of `AtMostOneAlertPerOutage` is exact: a run meets it if and only if
    after none of its scans the next outage, dispatched once, can have two accepted alerts.
  */
  lemma {:induction false} AtMostOneExactlyWhen(urls: seq<Url>, acts: Acts, key: Key, t: int)
    ensures NoRecoveryInFlight(urls, acts, key) <==> NeverDoubles(urls, acts, key, t)
  {
    if acts.Then? {
      AtMostOneExactlyWhen(urls, acts.past, key, t);
      if acts.act.Scan? {
        hide Reached, Relapse, Recovered;
        var w := Reached(urls, acts.past, key);
        if NoRecoveryInFlight(urls, acts, key) {
          RelapseKeepsCondition(urls, acts, key, t);
          AtMostOneAlertPerOutage(urls, Relapse(urls, acts, key, t), key);
        } else if Recovered(urls, w.down, key) && key in w.flight {
          EveryBreachDoubles(urls, acts.past, acts.act.now, acts.act.cooldown, key, t);
        }
      }
    }
  }

  /** The first outage of an endpoint, alerted, and over before the alert is settled. */
  function UpInFlight(u: Url): Acts {
    Then(Then(Then(Acts.Start, WentDown(u, 0)), Scan(0, 0)), CameUp(u))
  }

  /** Breaches do occur, for every endpoint of every pool. */
  lemma OverlapCanAlertTwice(urls: seq<Url>, u: Url, t: int)
    requires u in urls
    ensures var acts := Then(UpInFlight(u), Scan(1, 0));
            && !NoRecoveryInFlight(urls, acts, Endpoint(u))
            && Reached(urls, Relapse(urls, acts, Endpoint(u), t), Endpoint(u)).accepted == 2
  {
    var key := Endpoint(u);
    var a1 := Then(Acts.Start, WentDown(u, 0));
    var a2 := Then(a1, Scan(0, 0));
    var none: Dict<Url, int> := Dict([], map[]);
    assert none.Valid() && QUIET.since == none;
    assert Reached(urls, a1, key) == Step(urls, World(QUIET, {}, multiset{}, 0), WentDown(u, 0), key);
    NewOutageIsEmitted(urls, a1, 0, key);
    ReachedSince(urls, a1, key);
    ScanEffect(urls, Reached(urls, a1, key), 0, 0, key);
    hide Step, NextScan, Relapse;
    OneMore(urls, a1, Scan(0, 0), key);
    OneMore(urls, a2, CameUp(u), key);
    UpAgain(urls, Reached(urls, a2, key), u);
    EveryBreachDoubles(urls, UpInFlight(u), 1, 0, key, t);
  }

  lemma UpAgain(urls: seq<Url>, w: World, u: Url)
    requires u in urls
    ensures var z := Step(urls, w, CameUp(u), Endpoint(u));
            Recovered(urls, z.down, Endpoint(u)) && z.flight == w.flight
  {
  }

  // -------------------------------------------- what the reported down time means

  /** The present outage of an endpoint, and whether an earlier one ended that no scan has seen end. */
  datatype Clock = Clock(started: Option<int>, missed: bool)

  function Tick(c: Clock, act: Act, u: Url): Clock {
    match act
    case WentDown(v, now) => if v == u && c.started.None? then c.(started := Some(now)) else c
    case CameUp(v) => if v == u && c.started.Some? then Clock(None, true) else c
    case Scan(_, _) => if c.started.None? then c.(missed := false) else c
    case Settle(_, _) => c
  }

  function Timed(acts: Acts, u: Url): Clock {
    if acts.Start? then Clock(None, false) else Tick(Timed(acts.past, u), acts.act, u)
  }

  /** Every mark and scan happens later than all before it; `t` is after the last. */
  predicate Before(acts: Acts, t: int) {
    acts.Then? ==>
      match acts.act
      case WentDown(_, now) => now < t && Before(acts.past, now)
      case Scan(now, _) => now < t && Before(acts.past, now)
      case _ => Before(acts.past, t)
  }

  ghost predicate Dated(w: World, c: Clock, u: Url, t: int) {
    && w.a.since.Valid()
    && (c.started.Some? <==> u in w.down)
    && (u in w.a.since.items <==> c.started.Some? || c.missed)
    && (u in w.a.since.items ==> w.a.since.items[u] < t)
    && (c.started.Some? ==> c.started.value < t)
    && (c.started.Some? && !c.missed ==> w.a.since.items[u] == c.started.value)
    && (c.started.Some? && c.missed ==> w.a.since.items[u] < c.started.value)
  }

  lemma DatedStep(urls: seq<Url>, w: World, c: Clock, act: Act, key: Key, u: Url, now: int, t: int)
    requires u in urls && Dated(w, c, u, now) && now <= t
    requires act.WentDown? || act.Scan? ==> act.now == now < t
    ensures Dated(Step(urls, w, act, key), Tick(c, act, u), u, t)
  {
    hide Distinct;
    match act
    case Scan(_, cooldown) =>
      hide Step, NextScan, Alerted, Recovered;
      ScanEffect(urls, w, now, cooldown, key);
      ScanOutages(urls, w, now, cooldown, key, u);
    case _ =>
  }

  lemma {:induction false} ClockIsDated(urls: seq<Url>, acts: Acts, key: Key, u: Url, t: int)
    requires u in urls && Before(acts, t)
    ensures Dated(Reached(urls, acts, key), Timed(acts, u), u, t)
  {
    if acts.Then? {
      var now := if acts.act.WentDown? || acts.act.Scan? then acts.act.now else t;
      ClockIsDated(urls, acts.past, key, u, now);
      hide Step, Tick, Dated;
      DatedStep(urls, Reached(urls, acts.past, key), Timed(acts.past, u), acts.act, key, u, now, t);
    }
  }

  /**
    A success does not clear `_down_since`; only a scan does. So with distinct times the
    reported start of an outage is its real start exactly when no earlier outage ended
    unseen by a scan, and otherwise it is too early: the cooldown may already be over when
    the endpoint goes down.
  */
  lemma DownTimeIsExactUnlessARecoveryWasMissed(urls: seq<Url>, acts: Acts, key: Key, u: Url, t: int)
    requires u in urls && Before(acts, t) && u in Reached(urls, acts, key).down
    ensures var w := Reached(urls, acts, key);
            var c := Timed(acts, u);
            && c.started.Some? && u in w.a.since.items
            && w.a.since.items[u] <= c.started.value
            && (w.a.since.items[u] == c.started.value <==> !c.missed)
  {
    ClockIsDated(urls, acts, key, u, t);
  }
}

/**
  Endpoint selection of the RPC pool (ingestion/rpc_pool.py): health scores, the down
  state, the least-recently-used tiebreak and the forced probe slot, as a value that
  every operation maps to the next one.
*/
module RpcRouting {

  import opened Prelude

  datatype Url = Url(text: string)

  const HEALTH_START := 1.0
  const HEALTH_FAILURE_DECAY := 0.25
  const HEALTH_SUCCESS_BOOST := 0.05
  const HEALTH_DOWN := 0.0
  const PROBE_EVERY_PICKS: nat := 20

  function Min(a: real, b: real): real { if a <= b then a else b }

  function Max(a: real, b: real): real { if a >= b then a else b }

  /** The entries that `_health`, `_consecutive_failures` and `_last_used` hold for one endpoint. */
  datatype Score = Score(health: real, failures: nat, lastUsed: nat)

  datatype Pool = Pool(urls: seq<Url>, threshold: nat, recovery: real,
                       scores: map<Url, Score>, tick: nat, probing: bool)

  ghost predicate Valid(p: Pool) {
    && Distinct(p.urls)
    && p.threshold >= 1
    && 0.0 <= p.recovery <= 1.0
    && Scored(p)
    && (forall u :: u in p.urls ==> 0.0 <= p.scores[u].health <= 1.0)
    && (forall u :: u in p.urls ==> p.scores[u].lastUsed <= p.tick)
  }

  ghost predicate Scored(p: Pool) {
    && (forall u :: u in p.urls ==> u in p.scores)
    && (forall u :: u in p.scores ==> u in p.urls)
  }

  predicate IsDown(p: Pool, u: Url)
    requires u in p.scores
  {
    p.scores[u].failures >= p.threshold
  }

  function Select(p: Pool, urls: seq<Url>, down: bool): (s: seq<Url>)
    requires forall u :: u in urls ==> u in p.scores
    ensures forall u :: u in s <==> u in urls && IsDown(p, u) == down
  {
    if urls == [] then []
    else
      var init := urls[..|urls| - 1];
      var last := urls[|urls| - 1];
      assert urls == init + [last];
      Select(p, init, down) + if IsDown(p, last) == down then [last] else []
  }

  function Down(p: Pool): seq<Url>
    requires Scored(p)
  {
    Select(p, p.urls, true)
  }

  function Available(p: Pool): seq<Url>
    requires Scored(p)
  {
    Select(p, p.urls, false)
  }

  /** The members of `urls` that no other member beats on `score`, in order. */
  function Healthiest(urls: seq<Url>, scores: map<Url, Score>): (s: seq<Url>)
    requires forall u :: u in urls ==> u in scores
    ensures urls != [] ==> s != []
    ensures forall u :: u in s ==> u in urls
    ensures forall u :: u in s ==> scores[u].health == scores[s[0]].health
  {
    if urls == [] then []
    else
      var init := urls[..|urls| - 1];
      var last := urls[|urls| - 1];
      assert urls == init + [last];
      var best := Healthiest(init, scores);
      if best == [] || scores[last].health > scores[best[0]].health then [last]
      else if scores[last].health == scores[best[0]].health then best + [last]
      else best
  }

  lemma {:induction false} HealthiestMeans(urls: seq<Url>, scores: map<Url, Score>, u: Url)
    requires u in urls && forall v :: v in urls ==> v in scores
    ensures u in Healthiest(urls, scores) <==> forall v :: v in urls ==> scores[v].health <= scores[u].health
    ensures scores[u].health <= scores[Healthiest(urls, scores)[0]].health
  {
    var init := urls[..|urls| - 1];
    var last := urls[|urls| - 1];
    assert urls == init + [last];
    if init != [] {
      var best := Healthiest(init, scores);
      forall v | v in init ensures scores[v].health <= scores[best[0]].health {
        HealthiestMeans(init, scores, v);
      }
      if u in init {
        HealthiestMeans(init, scores, u);
      }
      assert best[0] in init;
    }
  }

  /** The first of the least recently used members of `urls`. */
  function LeastRecent(urls: seq<Url>, scores: map<Url, Score>): (u: Url)
    requires urls != [] && forall u :: u in urls ==> u in scores
    ensures u in urls && forall v :: v in urls ==> scores[u].lastUsed <= scores[v].lastUsed
  {
    var init := urls[..|urls| - 1];
    var last := urls[|urls| - 1];
    assert urls == init + [last];
    if init == [] then last
    else
      var best := LeastRecent(init, scores);
      if scores[last].lastUsed < scores[best].lastUsed then last else best
  }

  /** The slot in which a down endpoint is forced through; `tick` is the pick's own number. */
  predicate ForcedSlot(p: Pool, tick: nat)
    requires Scored(p)
  {
    Down(p) != [] && !p.probing && tick % PROBE_EVERY_PICKS == 0
  }

  /** The endpoints among which the next pick takes the least recently used one. */
  function Candidates(p: Pool): (s: seq<Url>)
    requires Scored(p) && p.urls != []
    ensures s != [] && forall u :: u in s ==> u in p.urls
  {
    if ForcedSlot(p, p.tick + 1) then Down(p)
    else if Available(p) != [] then Healthiest(Available(p), p.scores)
    else p.urls
  }

  function Picked(p: Pool): Url
    requires Scored(p) && p.urls != []
  {
    LeastRecent(Candidates(p), p.scores)
  }

  datatype Op = Pick | Success(url: Url) | Failure(url: Url) | Probing(on: bool)

  /** The operations applied so far, the latest outermost. */
  datatype History = Start | After(past: History, op: Op)

  /** Operations change scores and counters, never which endpoints there are. */
  ghost predicate SameEndpoints(p: Pool, q: Pool)
    requires Scored(p)
  {
    Scored(q) && q.urls == p.urls && q.threshold == p.threshold && q.recovery == p.recovery
  }

  function AfterPick(p: Pool): (q: Pool)
    requires Scored(p) && p.urls != []
    ensures SameEndpoints(p, q)
  {
    assert Picked(p) in p.scores;
    var u := Picked(p);
    p.(tick := p.tick + 1, scores := p.scores[u := p.scores[u].(lastUsed := p.tick + 1)])
  }

  function AfterSuccess(p: Pool, u: Url): (q: Pool)
    requires Scored(p)
    ensures SameEndpoints(p, q)
  {
    if u !in p.scores then p
    else
      var boosted := Min(1.0, p.scores[u].health + HEALTH_SUCCESS_BOOST);
      var risen := if IsDown(p, u) then Max(p.recovery, boosted) else boosted;
      p.(scores := p.scores[u := p.scores[u].(health := risen, failures := 0)])
  }

  function AfterFailure(p: Pool, u: Url): (q: Pool)
    requires Scored(p)
    ensures SameEndpoints(p, q)
  {
    if u !in p.scores then p
    else
      var fallen := Max(HEALTH_DOWN, p.scores[u].health - HEALTH_FAILURE_DECAY);
      p.(scores := p.scores[u := p.scores[u].(health := fallen, failures := p.scores[u].failures + 1)])
  }

  /** A pick from an empty pool raises and changes nothing. */
  function Apply(p: Pool, op: Op): (q: Pool)
    requires Scored(p)
    ensures SameEndpoints(p, q)
  {
    match op
    case Pick => if p.urls == [] then p else AfterPick(p)
    case Success(u) => AfterSuccess(p, u)
    case Failure(u) => AfterFailure(p, u)
    case Probing(on) => p.(probing := on)
  }

  function Run(p: Pool, ops: History): (q: Pool)
    requires Scored(p)
    ensures SameEndpoints(p, q)
  {
    if ops.Start? then p else Apply(Run(p, ops.past), ops.op)
  }

  /** What the picks of a run returned, in order. */
  function Picks(p: Pool, ops: History): seq<Url>
    requires Scored(p) && p.urls != []
  {
    if ops.Start? then []
    else
      var init := ops.past;
      Picks(p, init) + if ops.op.Pick? then [Picked(Run(p, init))] else []
  }

  /** Those of them that were not made in a forced slot. */
  function OrdinaryPicks(p: Pool, ops: History): seq<Url>
    requires Scored(p) && p.urls != []
  {
    if ops.Start? then []
    else
      var init := ops.past;
      var q := Run(p, init);
      OrdinaryPicks(p, init) +
      if ops.op.Pick? && !ForcedSlot(q, q.tick + 1) then [Picked(q)] else []
  }

  ghost function Best(p: Pool): set<Url>
    requires Scored(p)
  {
    set u | u in Healthiest(Available(p), p.scores)
  }

  ghost function DownSet(p: Pool): set<Url>
    requires Scored(p)
  {
    set u | u in Down(p)
  }

  // ---------------------------------------------------------------- invariants

  lemma StepKeepsValid(p: Pool, op: Op)
    requires Valid(p)
    ensures Valid(Apply(p, op))
  {
    hide Select, Healthiest, LeastRecent;
  }

  lemma {:induction false} RunKeepsValid(p: Pool, ops: History)
    requires Valid(p)
    ensures Valid(Run(p, ops))
  {
    if ops.After? {
      RunKeepsValid(p, ops.past);
      StepKeepsValid(Run(p, ops.past), ops.op);
    }
  }

  /** What one operation does to the counters that picks are ordered by. */
  lemma StepUses(p: Pool, op: Op)
    requires Scored(p) && p.urls != []
    ensures var q := Apply(p, op);
            && q.tick == p.tick + (if op.Pick? then 1 else 0)
            && Picked(p) in p.scores
            && forall u :: u in p.scores ==>
                 (u in q.scores
                  && q.scores[u].lastUsed == if op.Pick? && u == Picked(p) then q.tick else p.scores[u].lastUsed)
  {
    hide Picked, Candidates, Down, Available;
    assert Picked(p) in p.scores by {
      PickedIsAnEndpoint(p);
    }
  }

  lemma PickedIsAnEndpoint(p: Pool)
    requires Scored(p) && p.urls != []
    ensures Picked(p) in p.urls && Picked(p) in p.scores
  {
    hide Select, Healthiest, LeastRecent;
  }

  lemma {:induction false} RunCountsPicks(p: Pool, ops: History)
    requires Scored(p) && p.urls != []
    ensures Run(p, ops).tick == p.tick + |Picks(p, ops)|
  {
    hide Scored, Valid, Apply, Picked, Candidates, ForcedSlot, Down, Available;
    if ops.After? {
      RunCountsPicks(p, ops.past);
      StepUses(Run(p, ops.past), ops.op);
    }
  }

  // ------------------------------------------------- rotation among the healthiest

  /** Members of `group` not used since tick `since`. */
  ghost function Stale(p: Pool, group: set<Url>, since: nat): set<Url>
    requires Scored(p)
  {
    set u | u in group && u in p.scores && p.scores[u].lastUsed <= since
  }

  /** Before and after every operation of the run, `group` is the set of healthiest available endpoints. */
  ghost predicate BestStays(p: Pool, ops: History, group: set<Url>)
    requires Scored(p)
  {
    && Best(Run(p, ops)) == group
    && (ops.After? ==> BestStays(p, ops.past, group))
  }

  /** A pick by recency from a group with a stale member takes a stale member. */
  lemma PickTakesStale(p: Pool, group: set<Url>, since: nat)
    requires Valid(p) && p.urls != [] && since <= p.tick
    requires group == set u | u in Candidates(p)
    requires Stale(p, group, since) != {}
    ensures Picked(p) in Stale(p, group, since)
    ensures Stale(AfterPick(p), group, since) == Stale(p, group, since) - {Picked(p)}
  {
    hide Select, Healthiest, LeastRecent;
    var v :| v in Stale(p, group, since);
    assert v in Candidates(p);
  }

  /** Picks and marks elsewhere leave a group's stale members alone or use some of them. */
  lemma StaleNeverGrows(p: Pool, op: Op, group: set<Url>, since: nat)
    requires Valid(p) && since <= p.tick
    ensures Stale(Apply(p, op), group, since) <= Stale(p, group, since)
    ensures (op.Pick? && p.urls != [] ==> Picked(p) !in group)
            ==> Stale(Apply(p, op), group, since) == Stale(p, group, since)
  {
    hide Select, Healthiest, LeastRecent;
  }

  /** A forced pick takes a down endpoint, which is never among the healthiest available ones. */
  lemma ForcedPickIsDown(p: Pool)
    requires Valid(p) && p.urls != [] && ForcedSlot(p, p.tick + 1)
    ensures Picked(p) in DownSet(p) && Picked(p) !in Best(p)
  {
    hide Select, Healthiest, LeastRecent;
  }

  lemma OrdinaryPickIsBest(p: Pool)
    requires Valid(p) && p.urls != [] && Best(p) != {} && !ForcedSlot(p, p.tick + 1)
    ensures Best(p) == set u | u in Candidates(p)
  {
    hide Select, Healthiest, LeastRecent;
    var u :| u in Best(p);
    assert u in Available(p);
  }

  lemma BestIsUsed(p: Pool)
    requires Valid(p)
    ensures Stale(p, Best(p), p.tick) == Best(p)
  {
    hide Select, Healthiest, LeastRecent;
  }

  /** `picks` took, once each, the members of `group` outside `stale`. */
  ghost predicate Rotated(picks: seq<Url>, group: set<Url>, stale: set<Url>) {
    && stale <= group
    && |picks| + |stale| == |group|
    && Distinct(picks)
    && forall u :: u in picks <==> u in group && u !in stale
  }

  lemma RotatedNext(picks: seq<Url>, group: set<Url>, stale: set<Url>, u: Url)
    requires Rotated(picks, group, stale) && u in stale
    ensures Rotated(picks + [u], group, stale - {u})
  {
  }

  lemma RotationStart(p: Pool, group: set<Url>)
    requires Valid(p) && p.urls != [] && BestStays(p, Start, group)
    ensures Rotated(OrdinaryPicks(p, Start), group, Stale(Run(p, Start), group, p.tick))
  {
    BestIsUsed(p);
    hide Best, Stale;
    assert Run(p, Start) == p && Best(p) == group;
  }

  lemma {:induction false} RotationProgress(p: Pool, ops: History, group: set<Url>)
    requires Valid(p) && p.urls != [] && group != {} && BestStays(p, ops, group)
    requires |OrdinaryPicks(p, ops)| <= |group|
    ensures Rotated(OrdinaryPicks(p, ops), group, Stale(Run(p, ops), group, p.tick))
  {
    hide Rotated, Stale, Best, Apply, Picked, Candidates, ForcedSlot, Available, Down;
    if ops.Start? {
      RotationStart(p, group);
    } else {
      var init := ops.past;
      RotationProgress(p, init, group);
      RunKeepsValid(p, init);
      RunCountsPicks(p, init);
      RotationStep(p, Run(p, init), ops.op, group, OrdinaryPicks(p, init));
    }
  }

  lemma RotationStep(p: Pool, q: Pool, op: Op, group: set<Url>, before: seq<Url>)
    requires Valid(p) && Valid(q) && q.urls != [] && p.tick <= q.tick
    requires group != {} && Best(q) == group
    requires Rotated(before, group, Stale(q, group, p.tick))
    requires op.Pick? && !ForcedSlot(q, q.tick + 1) ==> |before| < |group|
    ensures Rotated(before + if op.Pick? && !ForcedSlot(q, q.tick + 1) then [Picked(q)] else [],
                    group, Stale(Apply(q, op), group, p.tick))
  {
    var stale := Stale(q, group, p.tick);
    if op.Pick? && !ForcedSlot(q, q.tick + 1) {
      assert stale != {};
      OrdinaryPickIsBest(q);
      PickTakesStale(q, group, p.tick);
      RotatedNext(before, group, stale, Picked(q));
      hide *;
    } else {
      if op.Pick? {
        ForcedPickIsDown(q);
      }
      StaleNeverGrows(q, op, group, p.tick);
      assert before + [] == before;
      hide *;
    }
  }

  lemma {:induction false} EachOnce(s: seq<Url>, group: set<Url>)
    requires Distinct(s) && forall u :: u in s <==> u in group
    ensures multiset(s) == multiset(group)
  {
    if s == [] {
      assert group == {};
    } else {
      var u := s[|s| - 1];
      var init := s[..|s| - 1];
      assert s == init + [u];
      EachOnce(init, group - {u});
      assert multiset(group) == multiset(group - {u}) + multiset{u};
    }
  }

  /**
    Round robin among equals: as long as marks do not change which endpoints are the
    healthiest, any k ordinary picks, k being their number, choose each of them exactly
    once, whatever marks, forced picks and probe switches come between.
  */
  lemma RotationVisitsEachOnce(p: Pool, ops: History, group: set<Url>)
    requires Valid(p) && p.urls != [] && group != {} && BestStays(p, ops, group)
    requires |OrdinaryPicks(p, ops)| == |group|
    ensures multiset(OrdinaryPicks(p, ops)) == multiset(group)
  {
    RotationProgress(p, ops, group);
    var stale := Stale(Run(p, ops), group, p.tick);
    assert stale == {};
    EachOnce(OrdinaryPicks(p, ops), group);
    hide *;
  }

  // ------------------------------------------------------- forced probe slots

  /** Before and after every operation `group` is the set of down endpoints and nothing probes in the background. */
  ghost predicate DownStays(p: Pool, ops: History, group: set<Url>)
    requires Scored(p)
  {
    && DownSet(Run(p, ops)) == group && !Run(p, ops).probing
    && (ops.After? ==> DownStays(p, ops.past, group))
  }

  /** Forced slots among the picks numbered `from + 1` to `to`. */
  function Slots(from: nat, to: nat): int {
    to / PROBE_EVERY_PICKS - from / PROBE_EVERY_PICKS
  }

  lemma OneSlotInTwenty(from: nat, to: nat, k: nat)
    requires to >= from + PROBE_EVERY_PICKS * k
    ensures Slots(from, to) >= k
  {
  }

  lemma SlotsStep(from: nat, to: nat)
    ensures Slots(from, to + 1) == Slots(from, to) + if (to + 1) % PROBE_EVERY_PICKS == 0 then 1 else 0
  {
  }

  lemma DownOfStale(q: Pool, group: set<Url>)
    requires Valid(q) && q.urls != [] && group != {} && DownSet(q) == group && !q.probing
    ensures ForcedSlot(q, q.tick + 1) <==> (q.tick + 1) % PROBE_EVERY_PICKS == 0
    ensures ForcedSlot(q, q.tick + 1) || Available(q) == [] ==> group == set u | u in Candidates(q)
    ensures !ForcedSlot(q, q.tick + 1) && Available(q) != [] ==> Picked(q) !in group
  {
    hide Select, Healthiest, LeastRecent;
    var d :| d in DownSet(q);
    assert d in Down(q);
    if !ForcedSlot(q, q.tick + 1) && Available(q) == [] {
      forall u | u in q.urls ensures u in group {
        assert u !in Available(q);
      }
    }
  }

  lemma ProbeStep(p: Pool, q: Pool, op: Op, group: set<Url>)
    requires Valid(p) && Valid(q) && q.urls != [] && p.tick <= q.tick
    requires group != {} && DownSet(q) == group && !q.probing
    requires Stale(q, group, p.tick) == {} || |Stale(q, group, p.tick)| <= |group| - Slots(p.tick, q.tick)
    ensures var r := Apply(q, op);
            Stale(r, group, p.tick) == {} || |Stale(r, group, p.tick)| <= |group| - Slots(p.tick, r.tick)
  {
    hide Select, Healthiest, LeastRecent, Picked, Candidates, ForcedSlot, Stale, DownSet, Scored, Available, Slots;
    StaleNeverGrows(q, op, group, p.tick);
    StepUses(q, op);
    if op.Pick? && Stale(q, group, p.tick) != {} {
      DownOfStale(q, group);
      SlotsStep(p.tick, q.tick);
      if ForcedSlot(q, q.tick + 1) || Available(q) == [] {
        PickTakesStale(q, group, p.tick);
      }
    }
  }

  lemma {:induction false} ProbeProgress(p: Pool, ops: History, group: set<Url>)
    requires Valid(p) && p.urls != [] && group != {} && DownStays(p, ops, group)
    ensures var q := Run(p, ops);
            Stale(q, group, p.tick) == {} || |Stale(q, group, p.tick)| <= |group| - Slots(p.tick, q.tick)
  {
    if ops.Start? {
      assert Stale(p, group, p.tick) == group;
    } else {
      var init := ops.past;
      ProbeProgress(p, init, group);
      RunKeepsValid(p, init);
      RunCountsPicks(p, init);
      ProbeStep(p, Run(p, init), ops.op, group);
    }
  }

  /** An endpoint was picked during a run exactly when its last use is younger than the start. */
  lemma {:induction false} UsedMeansPicked(p: Pool, ops: History, u: Url)
    requires Valid(p) && p.urls != [] && u in p.urls
    ensures u in Run(p, ops).scores && (Run(p, ops).scores[u].lastUsed > p.tick <==> u in Picks(p, ops))
  {
    if ops.After? {
      var init := ops.past;
      assert u in p.scores;
      UsedMeansPicked(p, init, u);
      RunCountsPicks(p, init);
      StepUses(Run(p, init), ops.op);
    }
  }

  /**
    No endpoint is blacklisted for ever: with d endpoints down throughout and no background
    probe, any 20 * d picks choose every one of them, whatever is marked in between.
  */
  lemma EveryDownEndpointIsProbed(p: Pool, ops: History, group: set<Url>)
    requires Valid(p) && p.urls != [] && DownStays(p, ops, group)
    requires |Picks(p, ops)| >= PROBE_EVERY_PICKS * |group|
    ensures forall u :: u in group ==> u in Picks(p, ops)
  {
    if group != {} {
      ProbeProgress(p, ops, group);
      RunCountsPicks(p, ops);
      var q := Run(p, ops);
      OneSlotInTwenty(p.tick, q.tick, |group|);
      assert Stale(q, group, p.tick) == {};
      forall u | u in group ensures u in Picks(p, ops) {
        assert u in DownSet(q);
        UsedMeansPicked(p, ops, u);
        assert u !in Stale(q, group, p.tick);
      }
    }
  }

  /** Among picks counted from `tick` on, those of the group are the ones with a number divisible by 20. */
  predicate OneInTwenty(picks: seq<Url>, group: set<Url>, tick: nat) {
    forall i :: 0 <= i < |picks| ==> (picks[i] in group <==> (tick + 1 + i) % PROBE_EVERY_PICKS == 0)
  }

  lemma OneMorePick(picks: seq<Url>, u: Url, group: set<Url>, tick: nat)
    requires OneInTwenty(picks, group, tick)
    requires u in group <==> (tick + 1 + |picks|) % PROBE_EVERY_PICKS == 0
    ensures OneInTwenty(picks + [u], group, tick)
  {
  }

  /**
    The price of probing: while some endpoint is available, down endpoints receive exactly
    the picks whose number is a multiple of 20, and no other.
  */
  lemma {:induction false} DownTrafficIsOneInTwenty(p: Pool, ops: History, group: set<Url>)
    requires Valid(p) && p.urls != [] && group != {} && DownStays(p, ops, group) && SomeUp(p, ops)
    ensures OneInTwenty(Picks(p, ops), group, p.tick)
  {
    if ops.After? {
      DownTrafficIsOneInTwenty(p, ops.past, group);
      RunKeepsValid(p, ops.past);
      RunCountsPicks(p, ops.past);
      DownTrafficStep(Run(p, ops.past), ops.op, group, Picks(p, ops.past), p.tick);
    }
  }

  lemma DownTrafficStep(q: Pool, op: Op, group: set<Url>, before: seq<Url>, from: nat)
    requires Valid(q) && q.urls != [] && group != {} && DownSet(q) == group && !q.probing && Available(q) != []
    requires OneInTwenty(before, group, from) && q.tick == from + |before|
    ensures OneInTwenty(before + if op.Pick? then [Picked(q)] else [], group, from)
  {
    hide OneInTwenty, DownSet, Available, Picked, Candidates, Apply, ForcedSlot, Down, Select;
    if op.Pick? {
      DownPickInSlot(q, group);
      OneMorePick(before, Picked(q), group, from);
    } else {
      assert before + [] == before;
    }
  }

  ghost predicate SomeUp(p: Pool, ops: History)
    requires Scored(p)
  {
    Available(Run(p, ops)) != [] && (ops.After? ==> SomeUp(p, ops.past))
  }

  /** With some endpoint available, a pick takes a down endpoint exactly in a forced slot. */
  lemma DownPickInSlot(q: Pool, group: set<Url>)
    requires Valid(q) && q.urls != [] && group != {} && DownSet(q) == group && !q.probing
    requires Available(q) != []
    ensures Picked(q) in group <==> (q.tick + 1) % PROBE_EVERY_PICKS == 0
  {
    DownOfStale(q, group);
    if ForcedSlot(q, q.tick + 1) {
      ForcedPickIsDown(q);
    }
    hide *;
  }

  // ------------------------------------------------------- picks without marks

  function JustPicks(n: nat): History {
    if n == 0 then Start else After(JustPicks(n - 1), Pick)
  }

  /** Equal but for the ticks of last use. */
  ghost predicate SameHealth(p: Pool, q: Pool) {
    && q.urls == p.urls && q.threshold == p.threshold && q.probing == p.probing
    && q.scores.Keys == p.scores.Keys
    && forall u :: u in p.scores ==>
         q.scores[u].health == p.scores[u].health && q.scores[u].failures == p.scores[u].failures
  }

  lemma {:induction false} SelectSame(p: Pool, q: Pool, urls: seq<Url>, down: bool)
    requires SameHealth(p, q) && forall u :: u in urls ==> u in p.scores
    ensures Select(p, urls, down) == Select(q, urls, down)
  {
    if urls != [] {
      SelectSame(p, q, urls[..|urls| - 1], down);
    }
  }

  lemma {:induction false} HealthiestSame(p: Pool, q: Pool, urls: seq<Url>)
    requires SameHealth(p, q) && forall u :: u in urls ==> u in p.scores
    ensures Healthiest(urls, p.scores) == Healthiest(urls, q.scores)
  {
    if urls != [] {
      HealthiestSame(p, q, urls[..|urls| - 1]);
    }
  }

  lemma SameGroups(p: Pool, q: Pool)
    requires Scored(p) && Scored(q) && SameHealth(p, q)
    ensures Down(q) == Down(p) && Available(q) == Available(p) && Best(q) == Best(p) && DownSet(q) == DownSet(p)
  {
    hide Select, Healthiest;
    SelectSame(p, q, p.urls, true);
    SelectSame(p, q, p.urls, false);
    HealthiestSame(p, q, Available(p));
  }

  lemma SameProbing(p: Pool, q: Pool)
    requires SameHealth(p, q)
    ensures q.probing == p.probing
  {
  }

  lemma PickKeepsHealth(p: Pool)
    requires Scored(p) && p.urls != []
    ensures SameHealth(p, Apply(p, Pick))
  {
    hide Picked, Candidates;
    PickedIsAnEndpoint(p);
  }

  lemma SameHealthReflexive(p: Pool)
    ensures SameHealth(p, p)
  {
  }

  lemma SameHealthTransitive(p: Pool, q: Pool, r: Pool)
    requires SameHealth(p, q) && SameHealth(q, r)
    ensures SameHealth(p, r)
  {
  }

  lemma {:induction false} PicksKeepHealth(p: Pool, n: nat)
    requires Scored(p) && p.urls != []
    ensures SameHealth(p, Run(p, JustPicks(n)))
    ensures |Picks(p, JustPicks(n))| == n && Run(p, JustPicks(n)).tick == p.tick + n
  {
    hide SameHealth, Scored, Apply, Picked;
    RunCountsPicks(p, JustPicks(n));
    if n > 0 {
      var q := Run(p, JustPicks(n - 1));
      PicksKeepHealth(p, n - 1);
      PickKeepsHealth(q);
      SameHealthTransitive(p, q, Apply(q, Pick));
    } else {
      SameHealthReflexive(p);
    }
  }

  lemma {:induction false} PicksKeepGroups(p: Pool, n: nat)
    requires Scored(p) && p.urls != []
    ensures BestStays(p, JustPicks(n), Best(p))
    ensures !p.probing ==> DownStays(p, JustPicks(n), DownSet(p))
  {
    hide SameHealth, Scored, Apply, Best, DownSet, Down, Available, Picks;
    PicksKeepHealth(p, n);
    SameGroups(p, Run(p, JustPicks(n)));
    SameProbing(p, Run(p, JustPicks(n)));
    if n > 0 {
      PicksKeepGroups(p, n - 1);
    }
  }

  /** No pick of the next n falls into a forced slot. */
  predicate NoSlotWithin(p: Pool, n: nat)
    requires Scored(p)
  {
    p.probing || Down(p) == [] || p.tick % PROBE_EVERY_PICKS + n < PROBE_EVERY_PICKS
  }

  lemma NoSlotAt(p: Pool, q: Pool, i: nat, n: nat)
    requires Scored(p) && Scored(q) && NoSlotWithin(p, n) && i < n
    requires Down(q) == Down(p) && q.probing == p.probing && q.tick == p.tick + i
    ensures !ForcedSlot(q, q.tick + 1)
  {
    hide Down;
  }

  lemma {:induction false} PicksAreOrdinary(p: Pool, i: nat, n: nat)
    requires Scored(p) && p.urls != [] && NoSlotWithin(p, n) && i <= n
    ensures OrdinaryPicks(p, JustPicks(i)) == Picks(p, JustPicks(i))
  {
    hide NoSlotWithin, ForcedSlot, Picked, SameHealth, Scored, Apply, Best, DownSet, Down, Available;
    if i > 0 {
      PicksAreOrdinary(p, i - 1, n);
      PicksKeepHealth(p, i - 1);
      var q := Run(p, JustPicks(i - 1));
      SameGroups(p, q);
      SameProbing(p, q);
      NoSlotAt(p, q, i - 1, n);
    }
  }

  /** k picks in a row, k being the number of healthiest endpoints, return each of them exactly once. */
  lemma RoundRobin(p: Pool)
    requires Valid(p) && Best(p) != {} && NoSlotWithin(p, |Best(p)|)
    ensures p.urls != [] && multiset(Picks(p, JustPicks(|Best(p)|))) == multiset(Best(p))
  {
    var k := |Best(p)|;
    BestIsUsed(p);
    var u :| u in Best(p);
    assert u in Stale(p, Best(p), p.tick);
    hide Best, NoSlotWithin, Stale;
    assert p.urls != [];
    PicksKeepGroups(p, k);
    PicksKeepHealth(p, k);
    PicksAreOrdinary(p, k, k);
    RotationVisitsEachOnce(p, JustPicks(k), Best(p));
  }

  /** 20 * d picks in a row, d being the number of down endpoints, return every one of those. */
  lemma EveryDownEndpointComesUp(p: Pool)
    requires Valid(p) && p.urls != [] && !p.probing
    ensures forall u :: u in DownSet(p) ==> u in Picks(p, JustPicks(PROBE_EVERY_PICKS * |DownSet(p)|))
  {
    var n := PROBE_EVERY_PICKS * |DownSet(p)|;
    PicksKeepGroups(p, n);
    PicksKeepHealth(p, n);
    EveryDownEndpointIsProbed(p, JustPicks(n), DownSet(p));
    hide *;
  }

  // --------------------------------------------------------------- down state

  /** The outcomes a run marked for `u`, in order. */
  function Marks(ops: History, u: Url): seq<bool> {
    if ops.Start? then []
    else Marks(ops.past, u) +
         match ops.op
         case Success(v) => if v == u then [true] else []
         case Failure(v) => if v == u then [false] else []
         case _ => []
  }

  ghost predicate EndsInFailures(marks: seq<bool>, n: nat) {
    n <= |marks| && forall i :: |marks| - n <= i < |marks| ==> !marks[i]
  }

  function FreshPool(urls: seq<Url>, threshold: int, recovery: real): (p: Pool)
    requires Distinct(urls)
    ensures Valid(p)
  {
    Pool(urls, if threshold > 1 then threshold else 1, Min(1.0, Max(0.0, recovery)),
         map u | u in urls :: Score(HEALTH_START, 0, 0), 0, false)
  }

  lemma StepCountsFailures(p: Pool, op: Op, u: Url)
    requires Scored(p) && u in p.scores
    ensures u in Apply(p, op).scores
    ensures Apply(p, op).scores[u].failures == match op
                                        case Success(v) => if u == v then 0 else p.scores[u].failures
                                        case Failure(v) => if u == v then p.scores[u].failures + 1
                                            else p.scores[u].failures
                                        case _ => p.scores[u].failures
  {
    hide Picked, Candidates;
  }

  lemma OneMoreMark(marks: seq<bool>, ok: bool, n: nat)
    ensures EndsInFailures(marks + [ok], n) <==> n == 0 || (!ok && EndsInFailures(marks, n - 1))
  {
    if n > 0 && EndsInFailures(marks + [ok], n) {
      assert !(marks + [ok])[|marks|];
      assert forall i :: |marks| + 1 - n <= i < |marks| ==> marks[i] == (marks + [ok])[i];
    }
  }

  lemma {:induction false} FailuresAreTrailing(p: Pool, ops: History, u: Url, n: nat)
    requires Scored(p) && u in p.scores && p.scores[u].failures == 0
    ensures u in Run(p, ops).scores
    ensures Run(p, ops).scores[u].failures >= n <==> EndsInFailures(Marks(ops, u), n)
  {
    hide Apply, Scored, EndsInFailures;
    if ops.Start? {
      NoMarks(n);
    } else {
      var init := ops.past;
      var op := ops.op;
      FailuresAreTrailing(p, init, u, n);
      StepCountsFailures(Run(p, init), op, u);
      if op.Failure? && op.url == u {
        OneMoreMark(Marks(init, u), false, n);
        if n > 0 {
          FailuresAreTrailing(p, init, u, n - 1);
        }
      } else if op.Success? && op.url == u {
        OneMoreMark(Marks(init, u), true, n);
      } else {
        assert Marks(ops, u) == Marks(init, u);
      }
    }
  }

  lemma NoMarks(n: nat)
    ensures EndsInFailures([], n) <==> n == 0
  {
  }

  /**
    An endpoint is down exactly when its latest `threshold` marks are all failures: picks,
    marks of other endpoints and health scores have no part in it.
  */
  lemma DownExactlyAfterThresholdFailures(urls: seq<Url>, threshold: int, recovery: real, ops: History, u: Url)
    requires Distinct(urls) && u in urls
    ensures var q := Run(FreshPool(urls, threshold, recovery), ops);
            u in DownSet(q) <==> EndsInFailures(Marks(ops, u), if threshold > 1 then threshold else 1)
  {
    var p := FreshPool(urls, threshold, recovery);
    FailuresAreTrailing(p, ops, u, p.threshold);
  }

  /** One success from the down state makes an endpoint eligible again at no less than the recovery health. */
  lemma SuccessRevives(p: Pool, u: Url)
    requires Valid(p) && u in DownSet(p)
    ensures var q := AfterSuccess(p, u);
            u in Available(q) && q.scores[u].health >= p.recovery && q.scores[u].health >= p.scores[u].health
  {
    hide Select, Healthiest, LeastRecent;
  }
}

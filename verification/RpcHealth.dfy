/**
  What marks do to health scores, and what that means for the picks (ingestion/rpc_pool.py:109-163),
  in plain numbers and without the operations' own definitions.
*/
module RpcHealth {

  import opened Prelude
  import opened RpcRouting

  // ------------------------------------------------------------------ health scores

  function Failures(u: Url, n: nat): History {
    if n == 0 then Start else After(Failures(u, n - 1), Failure(u))
  }

  function Successes(u: Url, n: nat): History {
    if n == 0 then Start else After(Successes(u, n - 1), Success(u))
  }

  /** n failures in a row take n quarters off an endpoint's health, down to zero, and count as n. */
  lemma {:induction false} FailuresWearDown(p: Pool, u: Url, n: nat)
    requires Valid(p) && u in p.urls
    ensures u in p.scores && u in Run(p, Failures(u, n)).scores
    ensures var before, after := p.scores[u], Run(p, Failures(u, n)).scores[u];
            && after.health == (if before.health >= 0.25 * n as real then before.health - 0.25 * n as real else 0.0)
            && after.failures == before.failures + n && after.lastUsed == before.lastUsed
  {
    hide Apply, Distinct;
    if n > 0 {
      FailuresWearDown(p, u, n - 1);
      RunKeepsValid(p, Failures(u, n - 1));
      OneFailure(Run(p, Failures(u, n - 1)), u);
    }
  }

  lemma OneFailure(p: Pool, u: Url)
    requires Valid(p) && u in p.scores
    ensures var q := Apply(p, Failure(u));
            && u in q.scores && q.scores[u].failures == p.scores[u].failures + 1
            && q.scores[u].lastUsed == p.scores[u].lastUsed
            && q.scores[u].health == (if p.scores[u].health >= 0.25 then p.scores[u].health - 0.25 else 0.0)
  {
  }

  lemma OneSuccess(p: Pool, u: Url)
    requires Valid(p) && u in p.scores
    ensures var q := Apply(p, Success(u));
            var lifted := if p.scores[u].health <= 0.95 then p.scores[u].health + 0.05 else 1.0;
            && u in q.scores && q.scores[u].failures == 0 && q.scores[u].lastUsed == p.scores[u].lastUsed
            && q.scores[u].health == if p.scores[u].failures >= p.threshold && lifted < p.recovery then p.recovery
                                     else lifted
  {
  }

  /** n successes in a row add n twentieths to the health of an endpoint that is up, up to one. */
  lemma {:induction false} SuccessesLift(p: Pool, u: Url, n: nat)
    requires Valid(p) && u in p.urls && u !in DownSet(p)
    ensures u in p.scores && u in Run(p, Successes(u, n)).scores
    ensures var before, after := p.scores[u], Run(p, Successes(u, n)).scores[u];
            && after.health
               == (if before.health + 0.05 * n as real <= 1.0 then before.health + 0.05 * n as real else 1.0)
            && after.failures == if n == 0 then before.failures else 0
  {
    hide Apply, DownSet, Distinct;
    UpMeans(p, u);
    if n > 0 {
      SuccessesLift(p, u, n - 1);
      RunKeepsValid(p, Successes(u, n - 1));
      OneLift(Run(p, Successes(u, n - 1)), u);
    }
  }

  lemma OneLift(p: Pool, u: Url)
    requires Valid(p) && u in p.scores && p.scores[u].failures < p.threshold
    ensures u in Apply(p, Success(u)).scores
    ensures var after := Apply(p, Success(u)).scores[u];
            && after.health == (if p.scores[u].health <= 0.95 then p.scores[u].health + 0.05 else 1.0)
            && after.failures == 0
  {
    OneSuccess(p, u);
    hide *;
  }

  lemma UpMeans(p: Pool, u: Url)
    requires Valid(p) && u in p.urls
    ensures u in DownSet(p) <==> p.scores[u].failures >= p.threshold
  {
    hide Select;
  }

  /** A success on an endpoint that is down lifts it to the recovery health at least. */
  lemma RecoveryLifts(p: Pool, u: Url)
    requires Valid(p) && u in DownSet(p)
    ensures u in p.scores && u in Apply(p, Success(u)).scores
    ensures var lifted := if p.scores[u].health <= 0.95 then p.scores[u].health + 0.05 else 1.0;
            Apply(p, Success(u)).scores[u].health == if lifted < p.recovery then p.recovery else lifted
  {
    assert u in p.scores by {
      hide Select;
    }
    UpMeans(p, u);
    OneSuccess(p, u);
    hide Scored, Apply, DownSet, Distinct;
  }

  /** Marks change nothing but the endpoint they name; picks and the probe switch change no health at all. */
  lemma OnlyOwnMarks(p: Pool, op: Op, v: Url)
    requires Valid(p) && v in p.urls
    ensures v in p.scores && v in Apply(p, op).scores
    ensures (op.Success? || op.Failure?) && op.url != v ==> Apply(p, op).scores[v] == p.scores[v]
    ensures op.Pick? || op.Probing? ==>
              && Apply(p, op).scores[v].health == p.scores[v].health
              && Apply(p, op).scores[v].failures == p.scores[v].failures
    ensures Apply(p, op).probing == if op.Probing? then op.on else p.probing
    ensures op.Probing? ==> Apply(p, op).scores == p.scores && Apply(p, op).tick == p.tick
  {
    hide Picked, Candidates;
    if op.Pick? {
      PickedIsAnEndpoint(p);
    }
  }

  // ---------------------------------------------------------------- the pick, in full

  predicate DownHere(p: Pool, u: Url)
    requires u in p.scores
  {
    p.scores[u].failures >= p.threshold
  }

  /**
    Which endpoint a pick takes: in every twentieth slot, unless the background probe is on, the
    least recently used of those that are down; else, of those that are up, one that none beats
    in health and none of equal health in time since its use; and if none is up, the least
    recently used of all.
  */
  lemma PickTakes(p: Pool)
    requires Valid(p) && p.urls != []
    ensures Picked(p) in p.scores && forall v :: v in p.urls ==> v in p.scores
    ensures var u := Picked(p);
            var anyDown, anyUp := exists v :: v in p.urls && DownHere(p, v), exists v :: v in p.urls && !DownHere(p, v);
            if anyDown && !p.probing && (p.tick + 1) % 20 == 0 then
              && DownHere(p, u)
              && forall v :: v in p.urls && DownHere(p, v) ==> p.scores[u].lastUsed <= p.scores[v].lastUsed
            else if anyUp then
              !DownHere(p, u) && forall v :: v in p.urls && !DownHere(p, v) ==>
                p.scores[v].health < p.scores[u].health
                || (p.scores[v].health == p.scores[u].health && p.scores[u].lastUsed <= p.scores[v].lastUsed)
            else
              forall v :: v in p.urls ==> p.scores[u].lastUsed <= p.scores[v].lastUsed
  {
    hide Select, Healthiest, LeastRecent, Distinct, Down, Available, Picked, Candidates;
    PickedIsAnEndpoint(p);
    GroupsMean(p);
    if ForcedSlot(p, p.tick + 1) {
      LeastUsedOf(p, Down(p));
    } else if Available(p) != [] {
      BestUsed(p);
    } else {
      LeastUsedOf(p, p.urls);
    }
  }

  lemma LeastUsedOf(p: Pool, group: seq<Url>)
    requires Valid(p) && p.urls != [] && (ForcedSlot(p, p.tick + 1) ==> group == Down(p))
    requires !ForcedSlot(p, p.tick + 1) ==> Available(p) == [] && group == p.urls
    ensures Picked(p) in group && Picked(p) in p.scores && forall v :: v in group ==> v in p.scores
    ensures forall v :: v in group ==> p.scores[Picked(p)].lastUsed <= p.scores[v].lastUsed
  {
    hide Select, Healthiest, LeastRecent, Distinct;
  }

  lemma BestUsed(p: Pool)
    requires Valid(p) && p.urls != [] && !ForcedSlot(p, p.tick + 1) && Available(p) != []
    ensures Picked(p) in Available(p) && Picked(p) in p.scores && forall v :: v in Available(p) ==> v in p.scores
    ensures forall v :: v in Available(p) ==>
              p.scores[v].health < p.scores[Picked(p)].health
              || (p.scores[v].health == p.scores[Picked(p)].health
                  && p.scores[Picked(p)].lastUsed <= p.scores[v].lastUsed)
  {
    hide Select, Healthiest, LeastRecent, Distinct, ForcedSlot, Down;
    var best, u := Healthiest(Available(p), p.scores), Picked(p);
    assert u in best;
    HealthiestMeans(Available(p), p.scores, u);
    forall v | v in Available(p)
      ensures p.scores[v].health <= p.scores[u].health
      ensures p.scores[v].health == p.scores[u].health ==> v in best
    {
      HealthiestMeans(Available(p), p.scores, v);
    }
  }

  lemma GroupsMean(p: Pool)
    requires Valid(p)
    ensures forall v :: v in p.urls ==> v in p.scores
    ensures forall v :: v in Down(p) <==> v in p.urls && DownHere(p, v)
    ensures forall v :: v in Available(p) <==> v in p.urls && !DownHere(p, v)
    ensures Down(p) != [] <==> exists v :: v in p.urls && DownHere(p, v)
    ensures Available(p) != [] <==> exists v :: v in p.urls && !DownHere(p, v)
  {
    hide Select;
    if Down(p) != [] {
      assert Down(p)[0] in Down(p);
    }
    if Available(p) != [] {
      assert Available(p)[0] in Available(p);
    }
  }

  /**
    A failure costs an endpoint its turn: unless its health was zero already, one of the
    healthiest that has just failed is not among the healthiest while another of those is up.
  */
  lemma FailedLosesItsPlace(p: Pool, u: Url, v: Url)
    requires Valid(p) && u in Best(p) && v in Best(p) && u != v && u in p.scores && p.scores[u].health > 0.0
    ensures Valid(Apply(p, Failure(u))) && u !in Best(Apply(p, Failure(u)))
  {
    hide Select, Healthiest, LeastRecent, Distinct;
    StepKeepsValid(p, Failure(u));
    var q := Apply(p, Failure(u));
    BestMeans(p, u);
    BestMeans(p, v);
    GroupsMean(q);
    assert v in q.urls && !DownHere(q, v);
    if u in Best(q) {
      BestMeans(q, u);
    }
  }

  lemma BestMeans(p: Pool, u: Url)
    requires Valid(p) && u in Best(p)
    ensures u in p.urls && u in p.scores && !DownHere(p, u)
    ensures forall v :: v in p.urls ==> v in p.scores
    ensures forall v :: v in p.urls && !DownHere(p, v) ==> p.scores[v].health <= p.scores[u].health
  {
    hide Select, Distinct;
    GroupsMean(p);
    HealthiestMeans(Available(p), p.scores, u);
    hide Healthiest;
  }

  /** So no ordinary pick takes it, however many picks follow, until something is marked again. */
  lemma FailedIsPassedOver(p: Pool, u: Url, v: Url, n: nat)
    requires Valid(p) && u in Best(p) && v in Best(p) && u != v && u in p.scores && p.scores[u].health > 0.0
    ensures p.urls != [] && u !in OrdinaryPicks(Apply(p, Failure(u)), JustPicks(n))
  {
    FailedLosesItsPlace(p, u, v);
    BestMeans(p, u);
    StillBest(p, u, v);
    PassedOver(Apply(p, Failure(u)), u, n);
  }

  /** Picks alone never leave the group of the healthiest, except in a forced slot. */
  lemma {:induction false} PassedOver(p: Pool, u: Url, n: nat)
    requires Valid(p) && p.urls != [] && Best(p) != {} && u !in Best(p)
    ensures u !in OrdinaryPicks(p, JustPicks(n))
  {
    hide Distinct, Best, Apply, Picked, ForcedSlot, Run, Scored;
    if n > 0 {
      PassedOver(p, u, n - 1);
      BestIsKept(p, n - 1);
      var q := Run(p, JustPicks(n - 1));
      if !ForcedSlot(q, q.tick + 1) {
        OrdinaryPickInBest(q);
      }
    }
  }

  lemma BestIsKept(p: Pool, n: nat)
    requires Valid(p) && p.urls != []
    ensures Valid(Run(p, JustPicks(n))) && Best(Run(p, JustPicks(n))) == Best(p)
  {
    hide Distinct, Best, Apply, Picked, SameHealth;
    RunKeepsValid(p, JustPicks(n));
    PicksKeepHealth(p, n);
    SameGroups(p, Run(p, JustPicks(n)));
  }

  lemma StillBest(p: Pool, u: Url, v: Url)
    requires Valid(p) && u in Best(p) && v in Best(p) && u != v
    ensures Best(Apply(p, Failure(u))) != {}
  {
    hide Select, LeastRecent, Distinct, Healthiest;
    StepKeepsValid(p, Failure(u));
    var q := Apply(p, Failure(u));
    BestMeans(p, v);
    GroupsMean(q);
    assert v in q.urls && !DownHere(q, v);
    assert Healthiest(Available(q), q.scores)[0] in Best(q);
  }

  lemma OrdinaryPickInBest(p: Pool)
    requires Valid(p) && p.urls != [] && Best(p) != {} && !ForcedSlot(p, p.tick + 1)
    ensures Picked(p) in Best(p)
  {
    OrdinaryPickIsBest(p);
    hide Select, Healthiest, LeastRecent, Best, ForcedSlot, Available, Down;
  }

  // ---------------------------------------------------------------- a fresh pool

  /** A fresh pool: every endpoint at full health, unused and unmarked; settings clamped. */
  lemma FreshPoolMeans(urls: seq<Url>, threshold: int, recovery: real)
    requires Distinct(urls)
    ensures var p := FreshPool(urls, threshold, recovery);
            && p.urls == urls && p.tick == 0 && !p.probing
            && (forall u :: u in urls ==> u in p.scores && p.scores[u] == Score(1.0, 0, 0))
            && p.threshold >= 1 && (threshold >= 1 ==> p.threshold == threshold)
            && (0.0 <= recovery <= 1.0 ==> p.recovery == recovery)
            && (recovery < 0.0 ==> p.recovery == 0.0) && (recovery > 1.0 ==> p.recovery == 1.0)
  {
  }

  /** After n picks from a fresh pool its first n endpoints carry the numbers of their picks. */
  ghost predicate PickedInOrder(q: Pool, urls: seq<Url>, n: nat) {
    && q.urls == urls && q.threshold >= 1 && n <= |urls| && q.tick == n
    && (forall j :: 0 <= j < |urls| ==> urls[j] in q.scores)
    && forall j :: 0 <= j < |urls| ==> q.scores[urls[j]] == Score(1.0, 0, if j < n then j + 1 else 0)
  }

  lemma {:induction false} NoneIsDown(p: Pool, urls: seq<Url>)
    requires forall u :: u in urls ==> u in p.scores && p.scores[u].failures < p.threshold
    ensures Select(p, urls, false) == urls && Select(p, urls, true) == []
  {
    if urls != [] {
      var init := urls[..|urls| - 1];
      assert urls == init + [urls[|urls| - 1]];
      NoneIsDown(p, init);
    }
  }

  lemma {:induction false} EquallyHealthy(urls: seq<Url>, scores: map<Url, Score>)
    requires forall u :: u in urls ==> u in scores && scores[u].health == 1.0
    ensures Healthiest(urls, scores) == urls
  {
    if urls != [] {
      var init := urls[..|urls| - 1];
      assert urls == init + [urls[|urls| - 1]];
      EquallyHealthy(init, scores);
    }
  }

  lemma {:induction false} FirstUnused(urls: seq<Url>, scores: map<Url, Score>, n: nat)
    requires urls != [] && forall j :: 0 <= j < |urls| ==>
               urls[j] in scores && scores[urls[j]].lastUsed == if j < n then j + 1 else 0
    ensures LeastRecent(urls, scores) == if n < |urls| then urls[n] else urls[0]
  {
    var init := urls[..|urls| - 1];
    if init != [] {
      FirstUnused(init, scores, n);
    }
  }

  lemma NextPicked(q: Pool, urls: seq<Url>, n: nat)
    requires Valid(q) && PickedInOrder(q, urls, n) && n < |urls|
    ensures Picked(q) == urls[n]
  {
    hide Select, Healthiest, LeastRecent, Distinct;
    assert forall u :: u in urls ==> u in q.scores && q.scores[u].failures < q.threshold && q.scores[u].health == 1.0;
    NoneIsDown(q, urls);
    EquallyHealthy(urls, q.scores);
    FirstUnused(urls, q.scores, n);
  }

  lemma NextStamped(q: Pool, urls: seq<Url>, n: nat)
    requires Valid(q) && PickedInOrder(q, urls, n) && n < |urls| && Picked(q) == urls[n]
    ensures PickedInOrder(Apply(q, Pick), urls, n + 1)
  {
    hide Picked, Candidates;
    assert forall j :: 0 <= j < |urls| && j != n ==> urls[j] != urls[n];
  }

  lemma FreshInOrder(urls: seq<Url>, threshold: int, recovery: real)
    requires Distinct(urls)
    ensures PickedInOrder(FreshPool(urls, threshold, recovery), urls, 0)
  {
    hide Distinct;
  }

  lemma OnePickMore(p: Pool, n: nat)
    requires Scored(p) && p.urls != []
    ensures Run(p, JustPicks(n + 1)) == Apply(Run(p, JustPicks(n)), Pick)
    ensures Picks(p, JustPicks(n + 1)) == Picks(p, JustPicks(n)) + [Picked(Run(p, JustPicks(n)))]
  {
    hide Picked, Apply;
  }

  lemma NoPickYet(p: Pool)
    requires Scored(p) && p.urls != []
    ensures Run(p, JustPicks(0)) == p && Picks(p, JustPicks(0)) == []
  {
  }

  lemma {:induction false} ServesInOrder(p: Pool, urls: seq<Url>, n: nat)
    requires Valid(p) && PickedInOrder(p, urls, 0) && n <= |urls| && urls != []
    ensures p.urls != [] && Picks(p, JustPicks(n)) == urls[..n] && PickedInOrder(Run(p, JustPicks(n)), urls, n)
  {
    hide Picked, Apply, Distinct, Run, Picks, JustPicks;
    NoPickYet(p);
    if n > 0 {
      ServesInOrder(p, urls, n - 1);
      RunKeepsValid(p, JustPicks(n - 1));
      hide PickedInOrder;
      OneInOrder(p, urls, n - 1);
    }
  }

  lemma OneInOrder(p: Pool, urls: seq<Url>, n: nat)
    requires Valid(p) && p.urls != [] && n < |urls| && Valid(Run(p, JustPicks(n)))
    requires Picks(p, JustPicks(n)) == urls[..n] && PickedInOrder(Run(p, JustPicks(n)), urls, n)
    ensures Picks(p, JustPicks(n + 1)) == urls[..n + 1] && PickedInOrder(Run(p, JustPicks(n + 1)), urls, n + 1)
  {
    hide Picked, Apply, Distinct, Run, Picks, JustPicks, PickedInOrder;
    var q := Run(p, JustPicks(n));
    NextPicked(q, urls, n);
    NextStamped(q, urls, n);
    OnePickMore(p, n);
    assert urls[..n + 1] == urls[..n] + [urls[n]];
  }

  /** A fresh pool serves its endpoints once each, in the order in which they were given. */
  lemma FreshPoolServesInOrder(urls: seq<Url>, threshold: int, recovery: real)
    requires Distinct(urls) && urls != []
    ensures Picks(FreshPool(urls, threshold, recovery), JustPicks(|urls|)) == urls
  {
    FreshInOrder(urls, threshold, recovery);
    ServesInOrder(FreshPool(urls, threshold, recovery), urls, |urls|);
  }
}

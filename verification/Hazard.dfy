/**
  The empirical survival model of time to collapse (forecast/hazard.py:26-52), in exact
  arithmetic. The number at risk is the sample count in every bin; it never shrinks.
*/
module Hazard {

  import opened Prelude

  datatype HazardFit = HazardFit(mean: Option<real>, eventCount: nat, atRisk: nat, curve: seq<real>)

  function Clamp(t: real, forward: int): real {
    var top := if t < forward as real then t else forward as real;
    if top > 0.0 then top else 0.0
  }

  function EventTimes(times: seq<real>, events: seq<bool>, forward: int): seq<real>
    requires |times| == |events|
  {
    if times == [] then []
    else
      var n := |times| - 1;
      EventTimes(times[..n], events[..n], forward) + if events[n] then [Clamp(times[n], forward)] else []
  }

  function Horizon(forward: int): nat {
    if forward > 0 then forward else 0
  }

  predicate InHour(t: real, hour: int) {
    (hour - 1) as real < t <= hour as real
  }

  function InBin(ts: seq<real>, hour: int): nat {
    if ts == [] then 0 else InBin(ts[..|ts| - 1], hour) + if InHour(ts[|ts| - 1], hour) then 1 else 0
  }

  /** Events in the first `hours` bins. */
  function InBins(ts: seq<real>, hours: nat): nat {
    if hours == 0 then 0 else InBins(ts, hours - 1) + InBin(ts, hours)
  }

  function Positive(ts: seq<real>): nat {
    if ts == [] then 0 else Positive(ts[..|ts| - 1]) + if ts[|ts| - 1] > 0.0 then 1 else 0
  }

  function Factor(ts: seq<real>, n: nat, hour: int): real
    requires n > 0
  {
    var kept := 1.0 - InBin(ts, hour) as real / n as real;
    if kept > 0.0 then kept else 0.0
  }

  function Survival(ts: seq<real>, n: nat, hours: nat): real
    requires n > 0
  {
    if hours == 0 then 1.0 else Survival(ts, n, hours - 1) * Factor(ts, n, hours)
  }

  function Sum(s: seq<real>): real {
    if s == [] then 0.0 else Sum(s[..|s| - 1]) + s[|s| - 1]
  }

  // --------------------------------------------------------------------- the bins

  /** How many of the first `hours` bins a time falls in. */
  function Hits(t: real, hours: nat): nat {
    if hours == 0 then 0 else Hits(t, hours - 1) + if InHour(t, hours) then 1 else 0
  }

  lemma {:induction false} ExactlyOneBin(t: real, hours: nat)
    ensures Hits(t, hours) == if 0.0 < t <= hours as real then 1 else 0
  {
    if hours > 0 {
      ExactlyOneBin(t, hours - 1);
    }
  }

  lemma {:induction false} OneMoreTime(ts: seq<real>, t: real, hours: nat)
    ensures InBins(ts + [t], hours) == InBins(ts, hours) + Hits(t, hours)
  {
    if hours > 0 {
      OneMoreTime(ts, t, hours - 1);
      assert (ts + [t])[..|ts|] == ts;
    }
  }

  /** The bins share the positive event times among them, each in exactly one bin. */
  lemma {:induction false} BinsShareThePositiveTimes(ts: seq<real>, hours: nat)
    requires forall i :: 0 <= i < |ts| ==> ts[i] <= hours as real
    ensures InBins(ts, hours) == Positive(ts)
  {
    if ts == [] {
      NothingInBins(hours);
    } else {
      var init := ts[..|ts| - 1];
      BinsShareThePositiveTimes(init, hours);
      assert ts == init + [ts[|ts| - 1]];
      OneMoreTime(init, ts[|ts| - 1], hours);
      ExactlyOneBin(ts[|ts| - 1], hours);
    }
  }

  lemma {:induction false} NothingInBins(hours: nat)
    ensures InBins([], hours) == 0
  {
    if hours > 0 {
      NothingInBins(hours - 1);
    }
  }

  lemma {:induction false} EventTimesAreClamped(times: seq<real>, events: seq<bool>, forward: int)
    requires |times| == |events|
    ensures var ts := EventTimes(times, events, forward);
            |ts| <= |times| && forall i :: 0 <= i < |ts| ==> 0.0 <= ts[i] <= Horizon(forward) as real
  {
    if times != [] {
      EventTimesAreClamped(times[..|times| - 1], events[..|times| - 1], forward);
    }
  }

  // ------------------------------------------------------------------- the curve

  lemma Shrinks(s: real, f: real, product: real)
    requires 0.0 <= s <= 1.0 && 0.0 <= f <= 1.0 && product == s * f
    ensures 0.0 <= product <= s
  {
    ProductIsPositive(s, f);
    ProductIsPositive(s, 1.0 - f);
    assert s * (1.0 - f) == s - s * f;
  }

  lemma FactorIsAFraction(ts: seq<real>, n: nat, hour: int)
    requires n > 0
    ensures 0.0 <= Factor(ts, n, hour) <= 1.0
    ensures Factor(ts, n, hour) >= 1.0 - InBin(ts, hour) as real / n as real
  {
    hide InBin;
    ShareIsPositive(InBin(ts, hour), n);
  }

  lemma ShareIsPositive(m: nat, n: nat)
    requires n > 0
    ensures m as real / n as real >= 0.0
  {
    var q, d := m as real / n as real, n as real;
    QuotientTimes(m as real, d);
    if q < 0.0 {
      ScaleKeepsOrder(q, 0.0, d);
    }
  }

  lemma {:induction false} SurvivalIsAFraction(ts: seq<real>, n: nat, hours: nat)
    requires n > 0
    ensures 0.0 <= Survival(ts, n, hours) <= 1.0
    ensures hours > 0 ==> Survival(ts, n, hours) <= Survival(ts, n, hours - 1)
  {
    hide Survival, Factor, InBin;
    if hours > 0 {
      SurvivalIsAFraction(ts, n, hours - 1);
      FactorIsAFraction(ts, n, hours);
      SurvivalShrinks(ts, n, hours);
    } else {
      NoHourYet(ts, n);
    }
  }

  lemma SurvivalShrinks(ts: seq<real>, n: nat, hours: nat)
    requires n > 0 && hours > 0 && 0.0 <= Survival(ts, n, hours - 1) <= 1.0 && 0.0 <= Factor(ts, n, hours) <= 1.0
    ensures 0.0 <= Survival(ts, n, hours) <= Survival(ts, n, hours - 1)
  {
    hide Survival, Factor;
    SurvivalTimes(ts, n, hours);
    Shrinks(Survival(ts, n, hours - 1), Factor(ts, n, hours), Survival(ts, n, hours));
  }

  lemma SurvivalTimes(ts: seq<real>, n: nat, hours: nat)
    requires n > 0 && hours > 0
    ensures Survival(ts, n, hours) == Survival(ts, n, hours - 1) * Factor(ts, n, hours)
  {
  }

  /** Later is never likelier. */
  lemma {:induction false} SurvivalNeverRises(ts: seq<real>, n: nat, i: nat, j: nat)
    requires n > 0 && i <= j
    ensures Survival(ts, n, j) <= Survival(ts, n, i)
    decreases j
  {
    if i < j {
      SurvivalNeverRises(ts, n, i, j - 1);
      SurvivalIsAFraction(ts, n, j);
    }
  }

  lemma ProductIsPositive(x: real, y: real)
    requires x >= 0.0 && y >= 0.0
    ensures x * y >= 0.0
  {
  }

  lemma ProductFloor(s: real, f: real, a: real, b: real)
    requires 0.0 <= s <= 1.0 && s >= 1.0 - a && f >= 1.0 - b && b >= 0.0
    ensures s * f >= 1.0 - (a + b)
  {
    var d := f - (1.0 - b);
    ProductIsPositive(s, d);
    ProductIsPositive(1.0 - s, b);
    assert s * f == s * d + s - s * b by {
      assert f == d + 1.0 - b;
    }
    assert (1.0 - s) * b == b - s * b;
  }

  lemma AddFractions(a: nat, b: nat, n: nat)
    requires n > 0
    ensures a as real / n as real + b as real / n as real == (a + b) as real / n as real
  {
    var x, y, z, d := a as real / n as real, b as real / n as real, (a + b) as real / n as real, n as real;
    QuotientTimes(a as real, d);
    QuotientTimes(b as real, d);
    QuotientTimes((a + b) as real, d);
    Distributes(x, y, d);
    if x + y < z {
      ScaleKeepsOrder(x + y, z, d);
    } else if x + y > z {
      ScaleKeepsOrder(z, x + y, d);
    }
  }

  lemma Distributes(x: real, y: real, d: real)
    ensures (x + y) * d == x * d + y * d
  {
  }

  /** Multiplying per-bin survival loses no more than the bins' shares added up. */
  lemma {:induction false} SurvivalFloor(ts: seq<real>, n: nat, hours: nat)
    requires n > 0
    ensures Survival(ts, n, hours) >= 1.0 - InBins(ts, hours) as real / n as real
  {
    hide Survival, InBins, Factor, InBin;
    if hours > 0 {
      SurvivalFloor(ts, n, hours - 1);
      FloorOfHour(ts, n, hours);
    } else {
      FloorOfStart(ts, n);
    }
  }

  lemma FloorOfStart(ts: seq<real>, n: nat)
    requires n > 0
    ensures Survival(ts, n, 0) >= 1.0 - InBins(ts, 0) as real / n as real
  {
    ShareIsPositive(InBins(ts, 0), n);
  }

  lemma FloorOfHour(ts: seq<real>, n: nat, hours: nat)
    requires n > 0 && hours > 0 && Survival(ts, n, hours - 1) >= 1.0 - InBins(ts, hours - 1) as real / n as real
    ensures Survival(ts, n, hours) >= 1.0 - InBins(ts, hours) as real / n as real
  {
    hide Factor, InBin;
    SurvivalIsAFraction(ts, n, hours - 1);
    FactorIsAFraction(ts, n, hours);
    ShareIsPositive(InBin(ts, hours), n);
    AddFractions(InBins(ts, hours - 1), InBin(ts, hours), n);
    var s, f := Survival(ts, n, hours - 1), Factor(ts, n, hours);
    FloorStep(s, f, s * f, InBins(ts, hours - 1) as real / n as real, InBin(ts, hours) as real / n as real,
              InBins(ts, hours) as real / n as real);
  }

  lemma FloorStep(s: real, f: real, product: real, a: real, b: real, sum: real)
    requires 0.0 <= s <= 1.0 && s >= 1.0 - a && f >= 1.0 - b && b >= 0.0 && product == s * f && sum == a + b
    ensures product >= 1.0 - sum
  {
    ProductFloor(s, f, a, b);
  }

  lemma {:induction false} SumBetween(s: seq<real>, n: nat, low: real)
    requires |s| == n && forall i :: 0 <= i < |s| ==> low <= s[i] <= 1.0
    ensures n as real * low <= Sum(s) <= n as real
  {
    if n > 0 {
      SumBetween(s[..n - 1], n - 1, low);
      assert n as real * low == (n - 1) as real * low + low;
    }
  }

  // ---------------------------------------------------------------------- the fit

  /** A curve that is the survival function hour by hour. */
  ghost predicate IsCurve(ts: seq<real>, n: nat, curve: seq<real>)
    requires n > 0
  {
    forall i :: 0 <= i < |curve| ==> curve[i] == Survival(ts, n, i)
  }

  /** The event falls in the hour, times beyond the horizon counting as at its end. */
  predicate FallsIn(time: real, hour: int, forward: int) {
    ((hour - 1) as real < time <= hour as real) || (hour == forward && time > forward as real)
  }

  /** The samples whose event falls in the hour. */
  function EventsIn(times: seq<real>, events: seq<bool>, forward: int, hour: int): set<int>
    requires |times| == |events|
  {
    set i | 0 <= i < |times| && events[i] && FallsIn(times[i], hour, forward)
  }

  lemma {:induction false} EventsInBin(times: seq<real>, events: seq<bool>, forward: int, hour: int)
    requires |times| == |events| && 1 <= hour <= forward
    ensures InBin(EventTimes(times, events, forward), hour) == |EventsIn(times, events, forward, hour)|
  {
    if times != [] {
      var n := |times| - 1;
      EventsInBin(times[..n], events[..n], forward, hour);
      OneMoreEvent(times, events, forward, hour);
      OneMoreInBin(EventTimes(times[..n], events[..n], forward), times[n], hour, forward);
      hide EventsIn, InBin, FallsIn;
    }
  }

  lemma OneMoreEvent(times: seq<real>, events: seq<bool>, forward: int, hour: int)
    requires |times| == |events| && times != []
    ensures var n := |times| - 1;
            |EventsIn(times, events, forward, hour)|
            == |EventsIn(times[..n], events[..n], forward, hour)|
               + if events[n] && FallsIn(times[n], hour, forward) then 1 else 0
  {
    hide FallsIn;
    var n := |times| - 1;
    var before := EventsIn(times[..n], events[..n], forward, hour);
    assert EventsIn(times, events, forward, hour)
        == before + if events[n] && FallsIn(times[n], hour, forward) then {n} else {};
  }

  lemma OneMoreInBin(ts: seq<real>, time: real, hour: int, forward: int)
    requires 1 <= hour <= forward
    ensures InBin(ts + [Clamp(time, forward)], hour) == InBin(ts, hour) + if FallsIn(time, hour, forward) then 1 else 0
    ensures ts + [] == ts
  {
    assert (ts + [Clamp(time, forward)])[..|ts|] == ts;
    if FallsIn(time, hour, forward) {
      assert InHour(Clamp(time, forward), hour);
    }
  }

  /** As many event times as events. */
  lemma {:induction false} EventsCount(times: seq<real>, events: seq<bool>, forward: int)
    requires |times| == |events|
    ensures |EventTimes(times, events, forward)| == |set i | 0 <= i < |events| && events[i]|
  {
    if times != [] {
      var n := |times| - 1;
      EventsCount(times[..n], events[..n], forward);
      var before := set i | 0 <= i < |events[..n]| && events[..n][i];
      assert (set i | 0 <= i < |events| && events[i]) == before + if events[n] then {n} else {};
    }
  }

  lemma {:induction false} InBinAtMost(ts: seq<real>, hour: int)
    ensures InBin(ts, hour) <= |ts|
  {
    if ts != [] {
      InBinAtMost(ts[..|ts| - 1], hour);
    }
  }

  /** From one hour to the next, of n samples as many as the hour has events stop surviving. */
  lemma SurvivalSteps(ts: seq<real>, n: nat, hour: nat)
    requires n > 0 && hour > 0 && |ts| <= n
    ensures Survival(ts, n, hour) * n as real == Survival(ts, n, hour - 1) * (n - InBin(ts, hour)) as real
  {
    hide Survival, InBin;
    InBinAtMost(ts, hour);
    var c := InBin(ts, hour);
    var q := c as real / n as real;
    PartOfWhole(c, n);
    NextHour(ts, n, hour, 1.0 - q);
    StepTimes(Survival(ts, n, hour - 1), Survival(ts, n, hour), q, n, c);
  }

  lemma StepTimes(before: real, after: real, q: real, n: nat, c: nat)
    requires n > 0 && c <= n && q == c as real / n as real && after == before * if 1.0 - q > 0.0 then 1.0 - q else 0.0
    requires q <= 1.0
    ensures after * n as real == before * (n - c) as real
  {
    QuotientTimes(c as real, n as real);
    assert after == before * (1.0 - q);
    Reassociate(before, q, n as real, c as real);
  }

  lemma Reassociate(s: real, q: real, d: real, c: real)
    requires q * d == c
    ensures (s * (1.0 - q)) * d == s * (d - c)
  {
    assert (s * (1.0 - q)) * d == s * ((1.0 - q) * d);
    assert (1.0 - q) * d == d - q * d;
  }

  /** The curve in plain terms. */
  ghost predicate CurveSays(times: seq<real>, events: seq<bool>, forward: int, curve: seq<real>)
    requires |times| == |events|
  {
    && |curve| == (if forward > 0 then forward else 0) + 1 && curve[0] == 1.0
    && forall h :: 1 <= h < |curve| ==>
         curve[h] * |times| as real == curve[h - 1] * (|times| - |EventsIn(times, events, forward, h)|) as real
  }

  lemma CurveIsSaid(times: seq<real>, events: seq<bool>, forward: int, curve: seq<real>)
    requires |times| == |events| && times != []
    requires |curve| == Horizon(forward) + 1 && IsCurve(EventTimes(times, events, forward), |times|, curve)
    ensures CurveSays(times, events, forward, curve)
  {
    hide EventsIn, Survival, EventTimes;
    var ts := EventTimes(times, events, forward);
    NoHourYet(ts, |times|);
    forall h | 1 <= h < |curve|
      ensures curve[h] * |times| as real == curve[h - 1] * (|times| - |EventsIn(times, events, forward, h)|) as real
    {
      HourIsSaid(times, events, forward, h, curve[h - 1], curve[h]);
    }
  }

  lemma HourIsSaid(times: seq<real>, events: seq<bool>, forward: int, h: nat, before: real, after: real)
    requires |times| == |events| && times != [] && 1 <= h <= forward
    requires before == Survival(EventTimes(times, events, forward), |times|, h - 1)
    requires after == Survival(EventTimes(times, events, forward), |times|, h)
    ensures after * |times| as real == before * (|times| - |EventsIn(times, events, forward, h)|) as real
  {
    hide EventsIn, Survival, EventTimes, InBin;
    EventTimesAreClamped(times, events, forward);
    SurvivalSteps(EventTimes(times, events, forward), |times|, h);
    EventsInBin(times, events, forward, h);
  }

  method Fit(times: seq<real>, events: seq<bool>, forward: int) returns (fit: HazardFit)
    ensures |times| != |events| || times == [] ==> fit == HazardFit(None, 0, 0, [])
    ensures |times| == |events| && times != [] ==>
              var ts := EventTimes(times, events, forward);
              && fit.eventCount == |ts| && fit.atRisk == |times|
              && (ts == [] ==> fit.mean == None && fit.curve == [])
              && (ts != [] ==>
                    && |fit.curve| == Horizon(forward) + 1 && IsCurve(ts, |times|, fit.curve)
                    && CurveSays(times, events, forward, fit.curve)
                    && fit.mean == Some(Sum(fit.curve[1..]) + 0.5 * fit.curve[0]))
    ensures |times| == |events| ==> fit.eventCount == |set i | 0 <= i < |events| && events[i]|
  {
    if |times| != |events| || times == [] {
      return HazardFit(None, 0, 0, []);
    }
    hide CurveSays;
    var ts := CollectEventTimes(times, events, forward);
    EventsCount(times, events, forward);
    if ts == [] {
      return HazardFit(None, 0, |times|, []);
    }
    var curve := CurveOf(ts, |times|, forward);
    CurveIsSaid(times, events, forward, curve);
    var sum := Total(curve[1..]);
    fit := HazardFit(Some(sum + 0.5 * curve[0]), |ts|, |times|, curve);
  }

  /** The loop over the hours. */
  method CurveOf(ts: seq<real>, n: nat, forward: int) returns (curve: seq<real>)
    requires n > 0
    ensures |curve| == Horizon(forward) + 1 && IsCurve(ts, n, curve)
  {
    hide Survival, Factor;
    NoHourYet(ts, n);
    var survival := 1.0;
    curve := [survival];
    var hour := 1;
    while hour <= forward
      invariant 1 <= hour <= Horizon(forward) + 1
      invariant |curve| == hour && survival == Survival(ts, n, hour - 1) && IsCurve(ts, n, curve)
    {
      var count := CountInBin(ts, hour);
      var kept := 1.0 - count as real / n as real;
      NextHour(ts, n, hour, kept);
      survival := survival * if kept > 0.0 then kept else 0.0;
      curve := curve + [survival];
      hour := hour + 1;
    }
  }

  lemma NoHourYet(ts: seq<real>, n: nat)
    requires n > 0
    ensures Survival(ts, n, 0) == 1.0
  {
  }

  lemma NextHour(ts: seq<real>, n: nat, hour: nat, kept: real)
    requires n > 0 && hour > 0 && kept == 1.0 - InBin(ts, hour) as real / n as real
    ensures Survival(ts, n, hour) == Survival(ts, n, hour - 1) * if kept > 0.0 then kept else 0.0
  {
  }

  method CollectEventTimes(times: seq<real>, events: seq<bool>, forward: int) returns (ts: seq<real>)
    requires |times| == |events|
    ensures ts == EventTimes(times, events, forward)
  {
    ts := [];
    var i := 0;
    while i < |times|
      invariant 0 <= i <= |times|
      invariant ts == EventTimes(times[..i], events[..i], forward)
    {
      assert times[..i + 1][..i] == times[..i] && events[..i + 1][..i] == events[..i];
      if events[i] {
        ts := ts + [Clamp(times[i], forward)];
      }
      i := i + 1;
    }
    assert times[..i] == times && events[..i] == events;
  }

  method CountInBin(ts: seq<real>, hour: int) returns (count: nat)
    ensures count == InBin(ts, hour)
  {
    count := 0;
    var i := 0;
    while i < |ts|
      invariant 0 <= i <= |ts| && count == InBin(ts[..i], hour)
    {
      assert ts[..i + 1][..i] == ts[..i];
      if (hour - 1) as real < ts[i] <= hour as real {
        count := count + 1;
      }
      i := i + 1;
    }
    assert ts[..i] == ts;
  }

  method Total(s: seq<real>) returns (sum: real)
    ensures sum == Sum(s)
  {
    sum := 0.0;
    var i := 0;
    while i < |s|
      invariant 0 <= i <= |s| && sum == Sum(s[..i])
    {
      assert s[..i + 1][..i] == s[..i];
      sum := sum + s[i];
      i := i + 1;
    }
    assert s[..i] == s;
  }

  /** The least that k positive event times among n samples leave of the survival. */
  function Floor(times: seq<real>, events: seq<bool>, forward: int): real
    requires |times| == |events| && times != []
  {
    1.0 - Positive(EventTimes(times, events, forward)) as real / |times| as real
  }

  lemma AlwaysAboveTheFloor(times: seq<real>, events: seq<bool>, forward: int, hours: nat)
    requires |times| == |events| && times != [] && hours <= Horizon(forward)
    ensures Floor(times, events, forward) <= Survival(EventTimes(times, events, forward), |times|, hours)
  {
    var ts := EventTimes(times, events, forward);
    var h := Horizon(forward);
    EventTimesAreClamped(times, events, forward);
    BinsShareThePositiveTimes(ts, h);
    SurvivalFloor(ts, |times|, h);
    SurvivalNeverRises(ts, |times|, hours, h);
    hide *;
  }

  /** The curve starts at one, never rises and stays between its floor and one. */
  lemma CurveIsBounded(times: seq<real>, events: seq<bool>, forward: int, curve: seq<real>)
    requires |times| == |events| && times != [] && |curve| == Horizon(forward) + 1
    requires IsCurve(EventTimes(times, events, forward), |times|, curve)
    ensures curve[0] == 1.0
    ensures forall i :: 0 <= i < |curve| ==> 0.0 <= curve[i] <= 1.0 && Floor(times, events, forward) <= curve[i]
    ensures forall i, j :: 0 <= i <= j < |curve| ==> curve[j] <= curve[i]
  {
    hide Floor, EventTimes;
    var ts := EventTimes(times, events, forward);
    forall i | 0 <= i < |curve| ensures Floor(times, events, forward) <= curve[i] <= 1.0 && 0.0 <= curve[i] {
      SurvivalIsAFraction(ts, |times|, i);
      AlwaysAboveTheFloor(times, events, forward, i);
    }
    forall i, j | 0 <= i <= j < |curve| ensures curve[j] <= curve[i] {
      SurvivalNeverRises(ts, |times|, i, j);
    }
  }

  /** So the mean lies between H * (1 - k/n) + 1/2 and H + 1/2. */
  lemma MeanIsBounded(times: seq<real>, events: seq<bool>, forward: int, curve: seq<real>)
    requires |times| == |events| && times != [] && |curve| == Horizon(forward) + 1
    requires IsCurve(EventTimes(times, events, forward), |times|, curve)
    ensures var h := Horizon(forward) as real;
            h * Floor(times, events, forward) + 0.5 <= Sum(curve[1..]) + 0.5 * curve[0] <= h + 0.5
  {
    hide Floor, EventTimes, IsCurve, Sum, Horizon;
    CurveIsBounded(times, events, forward, curve);
    SumBetween(curve[1..], Horizon(forward), Floor(times, events, forward));
  }
}

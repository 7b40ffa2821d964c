/**
  Walk-forward accounting (backtest/runner.py:190-198, 256-365): what the counters of a
  replay have to do with one another, in exact arithmetic.
*/
module Backtest {

  import opened Prelude
  import opened Splits

  datatype Tick = Tick(ts: int, price: real)

  datatype Band = Green | Yellow | Red | Black

  /** A scored asset at a decision time, with its entry price and the prices of its forward window. */
  datatype Candidate = Candidate(priority: int, band: Band, entry: Option<real>, future: seq<Tick>)

  datatype Hour = Hour(ts: int, candidates: seq<Candidate>)

  datatype Config = Config(topK: nat, target: real, collapse: real)

  datatype Totals = Totals(gains: seq<real>, drawdowns: seq<real>, ignitionLeads: seq<real>, collapseLeads: seq<real>,
                           collapses: nat, flagged: nat, selected: nat, useful: nat, avoided: nat, decisions: nat)

  const NONE := Totals([], [], [], [], 0, 0, 0, 0, 0, 0)

  function Threshold(entry: real, target: real): real {
    entry * (1.0 + target / 100.0)
  }

  predicate Crosses(price: real, entry: real, target: real) {
    if target >= 0.0 then price >= Threshold(entry, target) else price <= Threshold(entry, target)
  }

  function Minutes(from: int, ts: int): real {
    if ts > from then (ts - from) as real / 60.0 else 0.0
  }

  /** Minutes to the first crossing, if there is one. */
  function LeadOf(rows: seq<Tick>, from: int, entry: real, target: real): Option<real> {
    if rows == [] then None
    else if Crosses(rows[0].price, entry, target) then Some(Minutes(from, rows[0].ts))
    else LeadOf(rows[1..], from, entry, target)
  }

  /** `i` is the first tick that crosses the target. */
  predicate IsFirstCrossing(rows: seq<Tick>, entry: real, target: real, i: int) {
    && 0 <= i < |rows| && Reaches(rows[i].price, entry, target)
    && forall j :: 0 <= j < i ==> !Reaches(rows[j].price, entry, target)
  }

  /** The price has risen by the target in percent or, for a negative one, fallen by it. */
  predicate Reaches(price: real, entry: real, target: real) {
    if target >= 0.0 then price >= entry * (1.0 + target / 100.0) else price <= entry * (1.0 + target / 100.0)
  }

  /** Minutes to the first crossing, and none exactly when no tick crosses. */
  method LeadTime(rows: seq<Tick>, from: int, entry: real, target: real) returns (lead: Option<real>)
    ensures lead.Some? ==>
              exists i :: IsFirstCrossing(rows, entry, target, i)
                          && lead.value * 60.0 == if rows[i].ts > from then (rows[i].ts - from) as real else 0.0
    ensures lead.None? ==> forall i :: 0 <= i < |rows| ==> !Reaches(rows[i].price, entry, target)
    ensures lead == LeadOf(rows, from, entry, target)
  {
    var threshold := entry * (1.0 + target / 100.0);
    var i := 0;
    while i < |rows|
      invariant 0 <= i <= |rows|
      invariant forall j :: 0 <= j < i ==> !Crosses(rows[j].price, entry, target)
      invariant LeadOf(rows, from, entry, target) == LeadOf(rows[i..], from, entry, target)
    {
      if (target >= 0.0 && rows[i].price >= threshold) || (target < 0.0 && rows[i].price <= threshold) {
        assert IsFirstCrossing(rows, entry, target, i);
        return Some(Minutes(from, rows[i].ts));
      }
      i := i + 1;
    }
    lead := None;
  }

  lemma {:induction false} LeadMeansCrossing(rows: seq<Tick>, from: int, entry: real, target: real)
    ensures LeadOf(rows, from, entry, target).Some? <==> exists t :: t in rows && Crosses(t.price, entry, target)
    ensures LeadOf(rows, from, entry, target).Some? ==> LeadOf(rows, from, entry, target).value >= 0.0
  {
    if rows != [] && !Crosses(rows[0].price, entry, target) {
      LeadMeansCrossing(rows[1..], from, entry, target);
      assert rows == [rows[0]] + rows[1..];
    }
  }

  function Lowest(rows: seq<Tick>): (low: real)
    requires rows != []
    ensures (exists t :: t in rows && t.price == low) && forall t :: t in rows ==> low <= t.price
  {
    if |rows| == 1 then rows[0].price
    else
      var low := Lowest(rows[1..]);
      assert rows == [rows[0]] + rows[1..];
      if rows[0].price < low then rows[0].price else low
  }

  function Return(price: real, entry: real): real
    requires entry > 0.0
  {
    (price / entry - 1.0) * 100.0
  }

  /** Percent returns and price thresholds say the same. */
  lemma ReturnMeetsThreshold(price: real, entry: real, target: real)
    requires entry > 0.0
    ensures Return(price, entry) >= target <==> price >= Threshold(entry, target)
    ensures Return(price, entry) <= target <==> price <= Threshold(entry, target)
  {
    var q := price / entry;
    var f := 1.0 + target / 100.0;
    assert price == q * entry;
    assert (q - f) * entry == price - Threshold(entry, target) by {
      assert (q - f) * entry == q * entry - f * entry;
    }
    assert (Return(price, entry) >= target) == (q >= f);
    assert (Return(price, entry) <= target) == (q <= f);
    SignOfProduct(q - f, entry);
  }

  lemma SignOfProduct(d: real, e: real)
    requires e > 0.0
    ensures (d * e >= 0.0 <==> d >= 0.0) && (d * e <= 0.0 <==> d <= 0.0)
  {
  }

  // --------------------------------------------------------------------- the tally

  function AsSeq(o: Option<real>): seq<real> {
    if o.Some? then [o.value] else []
  }

  predicate Tradable(c: Candidate) {
    c.entry.Some? && c.entry.value > 0.0 && c.future != []
  }

  function Counted(t: Totals, c: Candidate, ts: int, cfg: Config): Totals {
    if !Tradable(c) then t.(selected := t.selected + 1)
    else
      var entry := c.entry.value;
      var final := Return(c.future[|c.future| - 1].price, entry);
      var low := Return(Lowest(c.future), entry);
      Totals(t.gains + [final], t.drawdowns + [low],
             t.ignitionLeads + AsSeq(LeadOf(c.future, ts, entry, cfg.target)),
             t.collapseLeads + AsSeq(LeadOf(c.future, ts, entry, cfg.collapse)),
             t.collapses + if low <= cfg.collapse then 1 else 0,
             t.flagged + 1, t.selected + 1,
             t.useful + if final >= cfg.target then 1 else 0,
             t.avoided + if c.band == Green || c.band == Yellow then 1 else 0,
             t.decisions)
  }

  function CountedAll(t: Totals, cs: seq<Candidate>, ts: int, cfg: Config): Totals {
    if cs == [] then t else Counted(CountedAll(t, cs[..|cs| - 1], ts, cfg), cs[|cs| - 1], ts, cfg)
  }

  predicate NotBlack(c: Candidate) {
    c.band != Black
  }

  function Urgency(c: Candidate): int {
    -c.priority
  }

  /** The best candidates that are not black, best first. */
  function TopOf(cs: seq<Candidate>, k: nat): (top: seq<Candidate>)
    ensures |top| <= k
  {
    var ranked := SortedBy(Where(cs, NotBlack), Urgency);
    if |ranked| <= k then ranked else ranked[..k]
  }

  function WithHour(t: Totals, hour: Hour, cfg: Config): Totals {
    var top := TopOf(hour.candidates, cfg.topK);
    if top == [] then t else CountedAll(t.(decisions := t.decisions + 1), top, hour.ts, cfg)
  }

  function TotalsOf(hours: seq<Hour>, cfg: Config): Totals {
    if hours == [] then NONE else WithHour(TotalsOf(hours[..|hours| - 1], cfg), hours[|hours| - 1], cfg)
  }

  method LowestPrice(rows: seq<Tick>) returns (low: real)
    requires rows != []
    ensures low == Lowest(rows)
  {
    low := rows[|rows| - 1].price;
    var i := |rows| - 1;
    while i > 0
      invariant 0 <= i < |rows| && low == Lowest(rows[i..])
    {
      i := i - 1;
      assert rows[i..][1..] == rows[i + 1..];
      if rows[i].price < low {
        low := rows[i].price;
      }
    }
  }

  method CountCandidate(t: Totals, c: Candidate, ts: int, cfg: Config) returns (u: Totals)
    ensures u == Counted(t, c, ts, cfg)
  {
    hide LeadOf, Lowest, Threshold, Crosses, IsFirstCrossing, Minutes;
    assert t.ignitionLeads + [] == t.ignitionLeads && t.collapseLeads + [] == t.collapseLeads;
    u := t.(selected := t.selected + 1);
    if c.entry.None? || c.entry.value <= 0.0 || c.future == [] {
      return;
    }
    var entry := c.entry.value;
    var final := (c.future[|c.future| - 1].price / entry - 1.0) * 100.0;
    var lowest := LowestPrice(c.future);
    var low := (lowest / entry - 1.0) * 100.0;
    u := u.(gains := u.gains + [final], drawdowns := u.drawdowns + [low], flagged := u.flagged + 1);
    var pump := LeadTime(c.future, ts, entry, cfg.target);
    if pump.Some? {
      u := u.(ignitionLeads := u.ignitionLeads + [pump.value]);
    }
    var fall := LeadTime(c.future, ts, entry, cfg.collapse);
    if fall.Some? {
      u := u.(collapseLeads := u.collapseLeads + [fall.value]);
    }
    if final >= cfg.target {
      u := u.(useful := u.useful + 1);
    }
    if low <= cfg.collapse {
      u := u.(collapses := u.collapses + 1);
    }
    if c.band == Green || c.band == Yellow {
      u := u.(avoided := u.avoided + 1);
    }
  }

  method Run(hours: seq<Hour>, cfg: Config) returns (t: Totals)
    ensures t == TotalsOf(hours, cfg)
  {
    hide TopOf, CountedAll;
    t := NONE;
    var i := 0;
    while i < |hours|
      invariant 0 <= i <= |hours| && t == TotalsOf(hours[..i], cfg)
    {
      assert hours[..i + 1][..i] == hours[..i];
      var top := TopOf(hours[i].candidates, cfg.topK);
      if top != [] {
        t := CountHour(t.(decisions := t.decisions + 1), top, hours[i].ts, cfg);
      }
      i := i + 1;
    }
    assert hours[..i] == hours;
  }

  method CountHour(start: Totals, top: seq<Candidate>, ts: int, cfg: Config) returns (t: Totals)
    ensures t == CountedAll(start, top, ts, cfg)
  {
    t := start;
    var j := 0;
    while j < |top|
      invariant 0 <= j <= |top| && t == CountedAll(start, top[..j], ts, cfg)
    {
      assert top[..j + 1][..j] == top[..j];
      t := CountCandidate(t, top[j], ts, cfg);
      j := j + 1;
    }
    assert top[..j] == top;
  }

  // ------------------------------------------------------------------ what adds up

  /** No counter exceeds the one it is a part of. */
  ghost predicate Parts(t: Totals) {
    && t.useful <= t.flagged <= t.selected
    && |t.gains| == |t.drawdowns| == t.flagged
    && t.collapses <= t.flagged && t.avoided <= t.flagged
    && |t.ignitionLeads| <= t.flagged && |t.collapseLeads| <= t.flagged
  }

  /** Each collapse has a warning time, each warning time a collapse, and each useful pick an ignition time. */
  ghost predicate AddsUp(t: Totals) {
    t.collapses == |t.collapseLeads| && t.useful <= |t.ignitionLeads|
  }

  predicate Sensible(cfg: Config) {
    cfg.target >= 0.0 > cfg.collapse
  }

  lemma CountedHasParts(t: Totals, c: Candidate, ts: int, cfg: Config)
    requires Parts(t)
    ensures Parts(Counted(t, c, ts, cfg)) && Counted(t, c, ts, cfg).selected == t.selected + 1
  {
    hide LeadOf, Return, Lowest;
  }

  lemma CountedAddsUp(t: Totals, c: Candidate, ts: int, cfg: Config)
    requires AddsUp(t) && Sensible(cfg)
    ensures AddsUp(Counted(t, c, ts, cfg))
  {
    if Tradable(c) {
      var entry := c.entry.value;
      var last := c.future[|c.future| - 1];
      assert last in c.future;
      LeadMeansCrossing(c.future, ts, entry, cfg.target);
      LeadMeansCrossing(c.future, ts, entry, cfg.collapse);
      ReturnMeetsThreshold(last.price, entry, cfg.target);
      ReturnMeetsThreshold(Lowest(c.future), entry, cfg.collapse);
      hide LeadOf, Return, Threshold;
    }
  }

  lemma {:induction false} CountedAllAddsUp(t: Totals, cs: seq<Candidate>, ts: int, cfg: Config)
    requires Parts(t)
    ensures var u := CountedAll(t, cs, ts, cfg);
            && Parts(u) && u.selected == t.selected + |cs| && u.decisions == t.decisions
            && (AddsUp(t) && Sensible(cfg) ==> AddsUp(u))
  {
    if cs != [] {
      hide Counted, AddsUp, Parts;
      var before := CountedAll(t, cs[..|cs| - 1], ts, cfg);
      CountedAllAddsUp(t, cs[..|cs| - 1], ts, cfg);
      CountedHasParts(before, cs[|cs| - 1], ts, cfg);
      CountedKeepsDecisions(before, cs[|cs| - 1], ts, cfg);
      if AddsUp(t) && Sensible(cfg) {
        CountedAddsUp(before, cs[|cs| - 1], ts, cfg);
      }
    }
  }

  lemma CountedKeepsDecisions(t: Totals, c: Candidate, ts: int, cfg: Config)
    ensures Counted(t, c, ts, cfg).decisions == t.decisions
  {
    hide LeadOf, Return, Lowest;
  }

  lemma HourAddsUp(t: Totals, hour: Hour, cfg: Config)
    requires Parts(t)
    ensures var u := WithHour(t, hour, cfg);
            && Parts(u) && t.decisions <= u.decisions <= t.decisions + 1
            && u.selected <= t.selected + cfg.topK * (u.decisions - t.decisions)
            && (AddsUp(t) && Sensible(cfg) ==> AddsUp(u))
  {
    hide TopOf, CountedAll;
    var top := TopOf(hour.candidates, cfg.topK);
    if top != [] {
      CountedAllAddsUp(t.(decisions := t.decisions + 1), top, hour.ts, cfg);
      assert cfg.topK * 1 == cfg.topK;
    }
  }

  /**
    Under every configuration no counter exceeds its whole and no more is selected than the
    decision hours allow; with sensible targets collapses, useful picks and lead times agree.
  */
  lemma {:induction false} CountersAddUp(hours: seq<Hour>, cfg: Config)
    ensures var t := TotalsOf(hours, cfg);
            && Parts(t) && t.selected <= cfg.topK * t.decisions && t.decisions <= |hours|
            && (Sensible(cfg) ==> AddsUp(t))
  {
    hide WithHour, Parts, AddsUp;
    NoneAddsUp();
    if hours != [] {
      var before := TotalsOf(hours[..|hours| - 1], cfg);
      var after := TotalsOf(hours, cfg);
      CountersAddUp(hours[..|hours| - 1], cfg);
      HourAddsUp(before, hours[|hours| - 1], cfg);
      BoundGrows(cfg.topK, before.decisions, after.decisions, before.selected, after.selected);
    }
  }

  lemma NoneAddsUp()
    ensures Parts(NONE) && AddsUp(NONE) && NONE.selected == 0 && NONE.decisions == 0
  {
  }

  lemma BoundGrows(k: nat, before: nat, after: nat, was: nat, now: nat)
    requires was <= k * before && before <= after <= before + 1 && now <= was + k * (after - before)
    ensures now <= k * after
  {
    assert k * after == k * before + k * (after - before);
  }

  // ------------------------------------------------------------------ what is counted

  /** What a counter counts. */
  datatype Measure = Flagged | Useful | Collapsed | Avoided | Ignited | Warned

  /** Does a selected candidate count? Only one with an entry price and prices after it does. */
  predicate Measured(m: Measure, c: Candidate, cfg: Config) {
    && c.entry.Some? && c.entry.value > 0.0 && c.future != []
    && var entry := c.entry.value;
       match m
       case Flagged => true
       case Useful => c.future[|c.future| - 1].price >= entry * (1.0 + cfg.target / 100.0)
       case Collapsed => exists t :: t in c.future && t.price <= entry * (1.0 + cfg.collapse / 100.0)
       case Avoided => c.band == Green || c.band == Yellow
       case Ignited => exists t :: t in c.future && Reaches(t.price, entry, cfg.target)
       case Warned => exists t :: t in c.future && Reaches(t.price, entry, cfg.collapse)
  }

  function Value(t: Totals, m: Measure): nat {
    match m
    case Flagged => t.flagged
    case Useful => t.useful
    case Collapsed => t.collapses
    case Avoided => t.avoided
    case Ignited => |t.ignitionLeads|
    case Warned => |t.collapseLeads|
  }

  function Counting(cs: seq<Candidate>, m: Measure, cfg: Config): set<int> {
    set i | 0 <= i < |cs| && Measured(m, cs[i], cfg)
  }

  lemma LowestReaches(rows: seq<Tick>, bound: real)
    requires rows != []
    ensures Lowest(rows) <= bound <==> exists t :: t in rows && t.price <= bound
  {
  }

  lemma CrossesIsReaches(rows: seq<Tick>, entry: real, target: real)
    ensures (exists t :: t in rows && Crosses(t.price, entry, target))
       <==> exists t :: t in rows && Reaches(t.price, entry, target)
  {
    forall t | t in rows ensures Crosses(t.price, entry, target) <==> Reaches(t.price, entry, target) {
    }
    hide Crosses, Reaches;
  }

  lemma CountedMeasures(t: Totals, c: Candidate, ts: int, cfg: Config, m: Measure)
    ensures Value(Counted(t, c, ts, cfg), m) == Value(t, m) + if Measured(m, c, cfg) then 1 else 0
    ensures Counted(t, c, ts, cfg).selected == t.selected + 1
  {
    hide LeadOf, Return, Lowest, Crosses, Reaches;
    if Tradable(c) {
      var entry := c.entry.value;
      match m
      case Useful => ReturnMeetsThreshold(c.future[|c.future| - 1].price, entry, cfg.target);
      case Collapsed =>
        ReturnMeetsThreshold(Lowest(c.future), entry, cfg.collapse);
        LowestReaches(c.future, Threshold(entry, cfg.collapse));
      case Ignited =>
        LeadMeansCrossing(c.future, ts, entry, cfg.target);
        CrossesIsReaches(c.future, entry, cfg.target);
      case Warned =>
        LeadMeansCrossing(c.future, ts, entry, cfg.collapse);
        CrossesIsReaches(c.future, entry, cfg.collapse);
      case _ =>
    }
  }

  lemma OneMoreCounting(cs: seq<Candidate>, c: Candidate, m: Measure, cfg: Config)
    ensures |Counting(cs + [c], m, cfg)| == |Counting(cs, m, cfg)| + if Measured(m, c, cfg) then 1 else 0
  {
    hide Measured;
    assert Counting(cs + [c], m, cfg) == Counting(cs, m, cfg) + if Measured(m, c, cfg) then {|cs|} else {};
  }

  lemma {:induction false} CountedAllMeasures(t: Totals, cs: seq<Candidate>, ts: int, cfg: Config, m: Measure)
    ensures Value(CountedAll(t, cs, ts, cfg), m) == Value(t, m) + |Counting(cs, m, cfg)|
    ensures CountedAll(t, cs, ts, cfg).selected == t.selected + |cs|
  {
    hide Counted, Measured, Value;
    if cs != [] {
      var init, last := cs[..|cs| - 1], cs[|cs| - 1];
      CountedAllMeasures(t, init, ts, cfg, m);
      CountedMeasures(CountedAll(t, init, ts, cfg), last, ts, cfg, m);
      OneMoreCounting(init, last, m, cfg);
      assert cs == init + [last];
    }
  }

  lemma {:induction false} CountingAdds(a: seq<Candidate>, b: seq<Candidate>, m: Measure, cfg: Config)
    ensures |Counting(a + b, m, cfg)| == |Counting(a, m, cfg)| + |Counting(b, m, cfg)|
  {
    if b == [] {
      assert a + b == a;
    } else {
      var init, last := b[..|b| - 1], b[|b| - 1];
      CountingAdds(a, init, m, cfg);
      OneMoreCounting(a + init, last, m, cfg);
      OneMoreCounting(init, last, m, cfg);
      assert a + b == (a + init) + [last] && b == init + [last];
    }
  }

  /** All candidates selected in a replay, hour after hour. */
  function Chosen(hours: seq<Hour>, cfg: Config): seq<Candidate> {
    if hours == [] then []
    else Chosen(hours[..|hours| - 1], cfg) + TopOf(hours[|hours| - 1].candidates, cfg.topK)
  }

  lemma HourMeasures(t: Totals, hour: Hour, cfg: Config, m: Measure)
    ensures var u, top := WithHour(t, hour, cfg), TopOf(hour.candidates, cfg.topK);
            && Value(u, m) == Value(t, m) + |Counting(top, m, cfg)|
            && u.selected == t.selected + |top|
            && u.decisions == t.decisions + if top == [] then 0 else 1
  {
    hide TopOf, CountedAll, Measured;
    var top := TopOf(hour.candidates, cfg.topK);
    CountedAllMeasures(t.(decisions := t.decisions + 1), top, hour.ts, cfg, m);
    DecisionsStay(t.(decisions := t.decisions + 1), top, hour.ts, cfg);
  }

  lemma {:induction false} DecisionsStay(t: Totals, cs: seq<Candidate>, ts: int, cfg: Config)
    ensures CountedAll(t, cs, ts, cfg).decisions == t.decisions
  {
    hide Counted;
    if cs != [] {
      DecisionsStay(t, cs[..|cs| - 1], ts, cfg);
      CountedKeepsDecisions(CountedAll(t, cs[..|cs| - 1], ts, cfg), cs[|cs| - 1], ts, cfg);
    }
  }

  /** Each counter is the number of selected candidates that it is meant to count, hours those with a selection. */
  lemma {:induction false} CountersCount(hours: seq<Hour>, cfg: Config, m: Measure)
    ensures var t := TotalsOf(hours, cfg);
            && Value(t, m) == |Counting(Chosen(hours, cfg), m, cfg)|
            && t.selected == |Chosen(hours, cfg)|
            && t.decisions == |set i | 0 <= i < |hours| && TopOf(hours[i].candidates, cfg.topK) != []|
  {
    hide WithHour, TopOf, Measured, Value;
    if hours == [] {
      NothingCounted(m);
      assert Counting([], m, cfg) == {};
    } else {
      var n := |hours| - 1;
      CountersCount(hours[..n], cfg, m);
      HourMeasures(TotalsOf(hours[..n], cfg), hours[n], cfg, m);
      CountingAdds(Chosen(hours[..n], cfg), TopOf(hours[n].candidates, cfg.topK), m, cfg);
      DecidedHours(hours, cfg);
    }
  }

  lemma NothingCounted(m: Measure)
    ensures Value(NONE, m) == 0
  {
  }

  lemma DecidedHours(hours: seq<Hour>, cfg: Config)
    requires hours != []
    ensures var n := |hours| - 1;
            |set i | 0 <= i < |hours| && TopOf(hours[i].candidates, cfg.topK) != []|
            == |set i | 0 <= i < |hours[..n]| && TopOf(hours[..n][i].candidates, cfg.topK) != []|
               + if TopOf(hours[n].candidates, cfg.topK) == [] then 0 else 1
  {
    hide TopOf;
    var n := |hours| - 1;
    var before := set i | 0 <= i < |hours[..n]| && TopOf(hours[..n][i].candidates, cfg.topK) != [];
    assert (set i | 0 <= i < |hours| && TopOf(hours[i].candidates, cfg.topK) != [])
        == before + if TopOf(hours[n].candidates, cfg.topK) == [] then {} else {n};
  }

  /** The percent returns of the selected candidates at the ends of their windows and at the lowest prices. */
  function ReturnsOf(cs: seq<Candidate>, lowest: bool): seq<real> {
    if cs == [] then []
    else
      var c := cs[|cs| - 1];
      ReturnsOf(cs[..|cs| - 1], lowest)
      + if c.entry.Some? && c.entry.value > 0.0 && c.future != []
        then [((if lowest then Lowest(c.future) else c.future[|c.future| - 1].price) / c.entry.value - 1.0) * 100.0]
        else []
  }

  lemma {:induction false} ReturnsAdd(a: seq<Candidate>, b: seq<Candidate>, lowest: bool)
    ensures ReturnsOf(a + b, lowest) == ReturnsOf(a, lowest) + ReturnsOf(b, lowest)
  {
    hide Lowest;
    if b == [] {
      assert a + b == a;
    } else {
      assert (a + b)[..|a + b| - 1] == a + b[..|b| - 1];
      ReturnsAdd(a, b[..|b| - 1], lowest);
    }
  }

  lemma {:induction false} CountedAllReturns(t: Totals, cs: seq<Candidate>, ts: int, cfg: Config)
    ensures CountedAll(t, cs, ts, cfg).gains == t.gains + ReturnsOf(cs, false)
    ensures CountedAll(t, cs, ts, cfg).drawdowns == t.drawdowns + ReturnsOf(cs, true)
  {
    hide Lowest, LeadOf;
    if cs != [] {
      CountedAllReturns(t, cs[..|cs| - 1], ts, cfg);
    }
  }

  lemma {:induction false} ReturnsAreCollected(hours: seq<Hour>, cfg: Config)
    ensures TotalsOf(hours, cfg).gains == ReturnsOf(Chosen(hours, cfg), false)
    ensures TotalsOf(hours, cfg).drawdowns == ReturnsOf(Chosen(hours, cfg), true)
  {
    hide TopOf, CountedAll;
    if hours != [] {
      var init, hour := hours[..|hours| - 1], hours[|hours| - 1];
      var before, top := TotalsOf(init, cfg), TopOf(hour.candidates, cfg.topK);
      ReturnsAreCollected(init, cfg);
      ReturnsAdd(Chosen(init, cfg), top, false);
      ReturnsAdd(Chosen(init, cfg), top, true);
      CountedAllReturns(before.(decisions := before.decisions + 1), top, hour.ts, cfg);
      hide ReturnsOf;
    }
  }

  /**
    Selected are candidates that are not black, each as often as it was scored, by falling
    priority; one is left out only when the selection is full and all in it rank as high.
  */
  lemma TopOfMeans(cs: seq<Candidate>, k: nat, c: Candidate)
    ensures var top := TopOf(cs, k);
            && |top| <= k
            && (c in top ==> c.band != Black && c in cs)
            && (forall i, j :: 0 <= i <= j < |top| ==> top[i].priority >= top[j].priority)
            && multiset(top)[c] <= multiset(cs)[c]
            && (c.band != Black && multiset(top)[c] < multiset(cs)[c] ==>
                  |top| == k && forall d :: d in top ==> d.priority >= c.priority)
  {
    var kept := Where(cs, NotBlack);
    var ranked := SortedBy(kept, Urgency);
    WhereCounts(cs, NotBlack, c);
    SortKeeps(kept, Urgency);
    hide Where, SortedBy;
    assert forall i, j :: 0 <= i <= j < |ranked| ==> Urgency(ranked[i]) <= Urgency(ranked[j]);
    CutMeans(ranked, k, c);
    assert c in ranked <==> c in multiset(ranked);
    assert c in cs <==> c in multiset(cs);
  }

  lemma CutMeans(ranked: seq<Candidate>, k: nat, c: Candidate)
    requires forall i, j :: 0 <= i <= j < |ranked| ==> ranked[i].priority >= ranked[j].priority
    ensures var top := if |ranked| <= k then ranked else ranked[..k];
            && (c in top ==> c in ranked) && multiset(top)[c] <= multiset(ranked)[c]
            && (multiset(top)[c] < multiset(ranked)[c] ==>
                  |top| == k && forall d :: d in top ==> d.priority >= c.priority)
  {
    if |ranked| > k {
      assert ranked == ranked[..k] + ranked[k..];
      var rest := ranked[k..];
      assert multiset(ranked)[c] == multiset(ranked[..k])[c] + multiset(rest)[c];
      if c in rest {
        var j :| 0 <= j < |rest| && rest[j] == c;
        assert ranked[k + j] == c;
      }
    }
  }

  /** An hour with one candidate, whose window holds one price. */
  function LonePick(price: real): Hour {
    Hour(0, [Candidate(0, Green, Some(1.0), [Tick(60, price)])])
  }

  lemma LoneTop(c: Candidate, k: nat)
    requires NotBlack(c) && k > 0
    ensures TopOf([c], k) == [c]
  {
    OneIsKept(c, NotBlack);
    OneIsSorted(c, Urgency);
    hide Where, SortedBy;
  }

  lemma OneIsKept(c: Candidate, keep: Candidate -> bool)
    requires keep(c)
    ensures Where([c], keep) == [c]
  {
    assert [c][..0] == [];
  }

  lemma OneIsSorted(c: Candidate, at: Candidate -> int)
    ensures SortedBy([c], at) == [c]
  {
    assert [c][..0] == [];
  }

  lemma LonePickTotals(price: real, cfg: Config)
    requires cfg.topK > 0
    ensures var c := LonePick(price).candidates[0];
            TotalsOf([LonePick(price)], cfg) == Counted(NONE.(decisions := 1), c, 0, cfg)
  {
    var hour := LonePick(price);
    var cs := hour.candidates;
    assert cs[..0] == [] && [hour][..0] == [];
    LoneTop(cs[0], cfg.topK);
    hide Counted, TopOf;
    assert CountedAll(NONE.(decisions := 1), cs, 0, cfg) == Counted(NONE.(decisions := 1), cs[0], 0, cfg);
    assert TotalsOf([], cfg) == NONE;
  }

  /** What a lone pick counts for. */
  lemma LonePickCounts(price: real, cfg: Config)
    requires cfg.topK > 0
    ensures var t := TotalsOf([LonePick(price)], cfg);
            && t.collapses == (if Return(price, 1.0) <= cfg.collapse then 1 else 0)
            && |t.collapseLeads| == (if Crosses(price, 1.0, cfg.collapse) then 1 else 0)
            && t.useful == (if Return(price, 1.0) >= cfg.target then 1 else 0)
            && |t.ignitionLeads| == (if Crosses(price, 1.0, cfg.target) then 1 else 0)
  {
    hide Return, Threshold, Crosses, TotalsOf;
    LonePickTotals(price, cfg);
    var rows := [Tick(60, price)];
    assert rows[0] in rows && Lowest(rows) == price;
    LeadMeansCrossing(rows, 0, 1.0, cfg.collapse);
    LeadMeansCrossing(rows, 0, 1.0, cfg.target);
  }

  lemma RiseAt(price: real, collapse: real)
    requires collapse >= 0.0 && price == 2.0 + collapse / 100.0
    ensures Return(price, 1.0) > collapse && Crosses(price, 1.0, collapse)
  {
  }

  lemma StillAt(target: real)
    requires target < 0.0
    ensures Return(1.0, 1.0) == 0.0 && !Crosses(1.0, 1.0, target)
  {
  }

  /** With a collapse target that is not negative, a rise counts as a warning of a collapse that never comes. */
  lemma RiseWarnsOfNoCollapse(cfg: Config)
    requires cfg.topK > 0 && cfg.collapse >= 0.0
    ensures !AddsUp(TotalsOf([LonePick(2.0 + cfg.collapse / 100.0)], cfg))
  {
    hide TotalsOf, Return, Crosses, LonePick;
    var price := 2.0 + cfg.collapse / 100.0;
    RiseAt(price, cfg.collapse);
    LonePickCounts(price, cfg);
  }

  /** With a negative return target, an unchanged price is a useful pick that never crosses the target. */
  lemma StillPriceIsUseful(cfg: Config)
    requires cfg.topK > 0 && cfg.target < 0.0
    ensures !AddsUp(TotalsOf([LonePick(1.0)], cfg))
  {
    hide TotalsOf, Return, Crosses, LonePick;
    StillAt(cfg.target);
    LonePickCounts(1.0, cfg);
  }

  /** The targets are sensible if and only if collapses, useful picks and lead times agree in every replay. */
  lemma CountersAddUpExactlyWhen(cfg: Config)
    ensures (forall hours :: AddsUp(TotalsOf(hours, cfg))) <==> cfg.topK == 0 || Sensible(cfg)
  {
    if cfg.topK > 0 && cfg.collapse >= 0.0 {
      RiseWarnsOfNoCollapse(cfg);
    }
    if cfg.topK > 0 && cfg.target < 0.0 {
      StillPriceIsUseful(cfg);
    }
    forall hours | cfg.topK == 0 || Sensible(cfg) ensures AddsUp(TotalsOf(hours, cfg)) {
      CountersAddUp(hours, cfg);
    }
    hide *;
  }

  function Rate(part: nat, whole: nat): real {
    if whole == 0 then 0.0 else part as real / whole as real
  }

  lemma RateIsAFraction(part: nat, whole: nat)
    requires part <= whole
    ensures 0.0 <= Rate(part, whole) <= 1.0
  {
    if whole > 0 {
      PartOfWhole(part, whole);
    }
  }

  /** So every reported rate is a fraction, whatever the targets. */
  lemma RatesAreFractions(hours: seq<Hour>, cfg: Config)
    ensures var t := TotalsOf(hours, cfg);
            && 0.0 <= Rate(t.useful, t.selected) <= 1.0
            && 0.0 <= Rate(t.collapses, t.selected) <= 1.0
            && 0.0 <= Rate(t.avoided, t.selected) <= 1.0
            && t.flagged >= t.collapses
            && 0.0 <= Rate(t.flagged - t.collapses, t.flagged) <= 1.0
  {
    CountersAddUp(hours, cfg);
    var t := TotalsOf(hours, cfg);
    RateIsAFraction(t.useful, t.selected);
    RateIsAFraction(t.collapses, t.selected);
    RateIsAFraction(t.avoided, t.selected);
    RateIsAFraction(t.flagged - t.collapses, t.flagged);
    hide TotalsOf, Rate;
  }
}

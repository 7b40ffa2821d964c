/**
  Leak-free splits: the forecast engine's samples and their embargoed split
  (forecast/engine.py:478-536), and the split of completed risk outcomes
  (risk_engine/confidence_calibration.py:27-44).
*/
module Splits {

  import opened Prelude

  // ----------------------------------------------------------- sorting and selecting

  ghost predicate Ascending<T>(s: seq<T>, at: T -> int) {
    forall i, j :: 0 <= i <= j < |s| ==> at(s[i]) <= at(s[j])
  }

  /** Behind all elements that are not later: repeated, this is a stable sort. */
  function InsertBehind<T>(s: seq<T>, x: T, at: T -> int): seq<T> {
    if s == [] || at(s[|s| - 1]) <= at(x) then s + [x]
    else InsertBehind(s[..|s| - 1], x, at) + [s[|s| - 1]]
  }

  function SortedBy<T>(s: seq<T>, at: T -> int): seq<T> {
    if s == [] then [] else InsertBehind(SortedBy(s[..|s| - 1], at), s[|s| - 1], at)
  }

  lemma {:induction false} InsertKeeps<T>(s: seq<T>, x: T, at: T -> int)
    requires Ascending(s, at)
    ensures Ascending(InsertBehind(s, x, at), at)
    ensures multiset(InsertBehind(s, x, at)) == multiset(s) + multiset{x}
    ensures forall y :: y in InsertBehind(s, x, at) ==> y == x || y in s
  {
    if s != [] {
      var init := s[..|s| - 1];
      var last := s[|s| - 1];
      assert s == init + [last];
      if at(last) > at(x) {
        InsertKeeps(init, x, at);
        var inner := InsertBehind(init, x, at);
        forall y | y in inner ensures at(y) <= at(last) {
          if y != x {
            var i :| 0 <= i < |init| && s[i] == y;
          }
        }
        LastBehind(inner, last, at);
      } else {
        forall y | y in s ensures at(y) <= at(x) {
          var i :| 0 <= i < |s| && s[i] == y;
        }
        LastBehind(s, x, at);
      }
    }
  }

  lemma LastBehind<T>(s: seq<T>, x: T, at: T -> int)
    requires Ascending(s, at) && forall y :: y in s ==> at(y) <= at(x)
    ensures Ascending(s + [x], at) && multiset(s + [x]) == multiset(s) + multiset{x}
  {
    assert forall i :: 0 <= i < |s| ==> s[i] in s;
  }

  lemma {:induction false} SortKeeps<T>(s: seq<T>, at: T -> int)
    ensures Ascending(SortedBy(s, at), at) && multiset(SortedBy(s, at)) == multiset(s)
  {
    if s != [] {
      var init := s[..|s| - 1];
      assert s == init + [s[|s| - 1]];
      SortKeeps(init, at);
      InsertKeeps(SortedBy(init, at), s[|s| - 1], at);
    }
  }

  function Where<T>(s: seq<T>, keep: T -> bool): seq<T> {
    if s == [] then []
    else Where(s[..|s| - 1], keep) + if keep(s[|s| - 1]) then [s[|s| - 1]] else []
  }

  lemma {:induction false} WhereCounts<T>(s: seq<T>, keep: T -> bool, x: T)
    ensures multiset(Where(s, keep))[x] == if keep(x) then multiset(s)[x] else 0
  {
    if s != [] {
      var init := s[..|s| - 1];
      assert s == init + [s[|s| - 1]];
      WhereCounts(init, keep, x);
    }
  }

  lemma WhereHolds<T>(s: seq<T>, keep: T -> bool, x: T)
    ensures x in Where(s, keep) <==> x in s && keep(x)
  {
    WhereCounts(s, keep, x);
    assert x in Where(s, keep) <==> x in multiset(Where(s, keep));
    assert x in s <==> x in multiset(s);
  }

  // ------------------------------------------------------------------ forecast samples

  datatype Kind = Ignition | Collapse | Other

  datatype LabelRow = LabelRow(asset: nat, ts: int, kind: Kind, positive: bool, observedAt: int)

  datatype At = At(asset: nat, ts: int)

  datatype Target = Target(ignition: Option<bool>, collapse: Option<bool>)

  datatype Sample = Sample(asset: nat, ts: int, ignition: bool, collapse: bool)

  /** One row for each asset, time and kind. */
  ghost predicate OneRowEach(rows: seq<LabelRow>) {
    forall i, j :: 0 <= i < j < |rows| ==>
      !(rows[i].asset == rows[j].asset && rows[i].ts == rows[j].ts && rows[i].kind == rows[j].kind)
  }

  predicate Says(rows: seq<LabelRow>, at: At, kind: Kind, positive: bool, decision: int) {
    exists r :: r in rows && Matches(r, at, kind, positive, decision)
  }

  /** What the rows known at the decision time say about one asset and time. */
  ghost predicate IsTarget(rows: seq<LabelRow>, at: At, t: Target, decision: int) {
    && (t.ignition == Some(true) <==> Says(rows, at, Ignition, true, decision))
    && (t.ignition == Some(false) <==> Says(rows, at, Ignition, false, decision))
    && (t.collapse == Some(true) <==> Says(rows, at, Collapse, true, decision))
    && (t.collapse == Some(false) <==> Says(rows, at, Collapse, false, decision))
  }

  function TargetAt(targets: map<At, Target>, at: At): Target {
    if at in targets then targets[at] else Target(None, None)
  }

  predicate Matches(r: LabelRow, at: At, kind: Kind, positive: bool, decision: int) {
    r.asset == at.asset && r.ts == at.ts && r.kind == kind && r.positive == positive && r.observedAt <= decision
  }

  lemma SaysOneMore(rows: seq<LabelRow>, n: nat, at: At, kind: Kind, b: bool, decision: int)
    requires n < |rows|
    ensures Says(rows[..n + 1], at, kind, b, decision)
        <==> Says(rows[..n], at, kind, b, decision) || Matches(rows[n], at, kind, b, decision)
  {
    assert rows[..n + 1] == rows[..n] + [rows[n]];
  }

  lemma NotSaidBefore(rows: seq<LabelRow>, n: nat, b: bool, decision: int)
    requires OneRowEach(rows) && n < |rows|
    ensures !Says(rows[..n], At(rows[n].asset, rows[n].ts), rows[n].kind, b, decision)
  {
    assert forall i :: 0 <= i < n ==> rows[..n][i] == rows[i];
  }

  lemma NextRow(rows: seq<LabelRow>, n: nat, at: At, t: Target, decision: int)
    requires OneRowEach(rows) && n < |rows| && IsTarget(rows[..n], at, t, decision)
    ensures var r := rows[n];
            var hit := r.observedAt <= decision && at == At(r.asset, r.ts);
            IsTarget(rows[..n + 1], at,
                     if hit && r.kind == Ignition then t.(ignition := Some(r.positive))
                     else if hit && r.kind == Collapse then t.(collapse := Some(r.positive))
                     else t, decision)
  {
    hide OneRowEach, Says;
    SaysOneMore(rows, n, at, Ignition, true, decision);
    SaysOneMore(rows, n, at, Ignition, false, decision);
    SaysOneMore(rows, n, at, Collapse, true, decision);
    SaysOneMore(rows, n, at, Collapse, false, decision);
    NotSaidBefore(rows, n, true, decision);
    NotSaidBefore(rows, n, false, decision);
  }

  method CollectTargets(rows: seq<LabelRow>, decision: int) returns (targets: map<At, Target>)
    requires OneRowEach(rows)
    ensures forall at :: IsTarget(rows, at, TargetAt(targets, at), decision)
  {
    targets := map[];
    var i := 0;
    while i < |rows|
      invariant 0 <= i <= |rows|
      invariant forall at :: IsTarget(rows[..i], at, TargetAt(targets, at), decision)
    {
      var r := rows[i];
      var at := At(r.asset, r.ts);
      ghost var before := targets;
      if r.observedAt <= decision {
        if r.kind == Ignition {
          targets := targets[at := TargetAt(targets, at).(ignition := Some(r.positive))];
        } else if r.kind == Collapse {
          targets := targets[at := TargetAt(targets, at).(collapse := Some(r.positive))];
        }
      }
      forall x ensures IsTarget(rows[..i + 1], x, TargetAt(targets, x), decision) {
        NextRow(rows, i, x, TargetAt(before, x), decision);
      }
      i := i + 1;
    }
    assert rows[..i] == rows;
  }

  ghost predicate IsSample(rows: seq<LabelRow>, s: Sample, forward: int, decision: int, hasFeatures: At -> bool) {
    && s.ts + forward <= decision
    && Says(rows, At(s.asset, s.ts), Ignition, s.ignition, decision)
    && Says(rows, At(s.asset, s.ts), Collapse, s.collapse, decision)
    && hasFeatures(At(s.asset, s.ts))
  }

  lemma SampleMeans(rows: seq<LabelRow>, s: Sample, forward: int, decision: int, hasFeatures: At -> bool)
    ensures IsSample(rows, s, forward, decision, hasFeatures) <==>
              && s.ts + forward <= decision && hasFeatures(At(s.asset, s.ts))
              && (exists r :: && r in rows && r.asset == s.asset && r.ts == s.ts && r.kind == Ignition
                              && r.positive == s.ignition && r.observedAt <= decision)
              && exists r :: && r in rows && r.asset == s.asset && r.ts == s.ts && r.kind == Collapse
                             && r.positive == s.collapse && r.observedAt <= decision
  {
    SaysMeans(rows, At(s.asset, s.ts), Ignition, s.ignition, decision);
    SaysMeans(rows, At(s.asset, s.ts), Collapse, s.collapse, decision);
    hide Says;
  }

  lemma SaysMeans(rows: seq<LabelRow>, at: At, kind: Kind, positive: bool, decision: int)
    ensures Says(rows, at, kind, positive, decision) <==>
              exists r :: && r in rows && r.asset == at.asset && r.ts == at.ts && r.kind == kind
                          && r.positive == positive && r.observedAt <= decision
  {
  }

  /** Exactly the closed, fully labelled points with features become samples. */
  method CollectSamples(rows: seq<LabelRow>, forward: int, decision: int, hasFeatures: At -> bool)
    returns (samples: set<Sample>)
    requires OneRowEach(rows)
    ensures forall s :: s in samples <==>
              && s.ts + forward <= decision && hasFeatures(At(s.asset, s.ts))
              && (exists r :: && r in rows && r.asset == s.asset && r.ts == s.ts && r.kind == Ignition
                              && r.positive == s.ignition && r.observedAt <= decision)
              && exists r :: && r in rows && r.asset == s.asset && r.ts == s.ts && r.kind == Collapse
                             && r.positive == s.collapse && r.observedAt <= decision
  {
    var targets := CollectTargets(rows, decision);
    samples := set at | at in targets && at.ts + forward <= decision && targets[at].ignition.Some?
                        && targets[at].collapse.Some? && hasFeatures(at) ::
                 Sample(at.asset, at.ts, targets[at].ignition.value, targets[at].collapse.value);
    forall s ensures s in samples <==> IsSample(rows, s, forward, decision, hasFeatures) {
      var at := At(s.asset, s.ts);
      assert IsTarget(rows, at, TargetAt(targets, at), decision);
      if IsSample(rows, s, forward, decision, hasFeatures) {
        assert TargetAt(targets, at) == Target(Some(s.ignition), Some(s.collapse));
      }
    }
    forall s { SampleMeans(rows, s, forward, decision, hasFeatures); }
    hide IsSample;
  }

  // -------------------------------------------------------------------- forecast split

  /** `share` is seven tenths of the sample count, cut to an integer however the product is rounded. */
  function TrainCount(share: int): nat {
    if share > 1 then share else 1
  }

  function ByTime(samples: seq<Sample>): seq<Sample> {
    SortedBy(samples, (s: Sample) => s.ts)
  }

  function Embargoed(test: seq<Sample>, from: int): seq<Sample> {
    Where(test, (s: Sample) => s.ts >= from)
  }

  /** None when a part would be too small or no test row survives the embargo. */
  function TrainingSplit(samples: seq<Sample>, share: int, forward: int): Option<(seq<Sample>, seq<Sample>)> {
    var ordered := ByTime(samples);
    var n := TrainCount(share);
    if n > |ordered| then None
    else
      var train, test := ordered[..n], ordered[n..];
      if |train| < 5 || test == [] then None
      else
        var purged := Embargoed(test, train[|train| - 1].ts + forward);
        if purged == [] then None else Some((train, purged))
  }

  /** No window of the first part reaches into one of the second, and all of those are closed. */
  ghost predicate Apart(train: seq<Sample>, test: seq<Sample>, forward: int, decision: int) {
    forall a, b :: a in train && b in test ==> a.ts + forward <= b.ts && b.ts + forward <= decision
  }

  /** `test` is the part of the later rows that starts no earlier than the last training window ends. */
  ghost predicate IsEmbargoed(train: seq<Sample>, later: seq<Sample>, test: seq<Sample>, forward: int) {
    train != [] && forall s :: s in test <==> s in later && s.ts >= train[|train| - 1].ts + forward
  }

  /** No sample is later than the last. */
  ghost predicate LastIsLatest(train: seq<Sample>) {
    train != [] && forall a :: a in train ==> a.ts <= train[|train| - 1].ts
  }

  lemma CutIsInOrder(samples: seq<Sample>, n: nat)
    requires 0 < n <= |ByTime(samples)|
    ensures LastIsLatest(ByTime(samples)[..n])
    ensures multiset(ByTime(samples)[..n]) + multiset(ByTime(samples)[n..]) == multiset(samples)
    ensures forall s :: s in ByTime(samples)[n..] ==> s in samples
  {
    hide SortedBy;
    var at := (s: Sample) => s.ts;
    var ordered := ByTime(samples);
    SortKeeps(samples, at);
    assert ordered == ordered[..n] + ordered[n..];
    forall s | s in ordered[n..] ensures s in samples {
      assert s in multiset(ordered);
    }
    forall a | a in ordered[..n] ensures a.ts <= ordered[n - 1].ts {
      var i :| 0 <= i < n && ordered[i] == a;
      assert at(ordered[i]) <= at(ordered[n - 1]);
    }
  }

  lemma EmbargoKeepsApart(train: seq<Sample>, later: seq<Sample>, test: seq<Sample>, forward: int, decision: int)
    requires LastIsLatest(train) && IsEmbargoed(train, later, test, forward)
    requires forall s :: s in later ==> s.ts + forward <= decision
    ensures Apart(train, test, forward, decision)
  {
  }

  lemma EmbargoedIs(train: seq<Sample>, later: seq<Sample>, forward: int)
    requires train != []
    ensures IsEmbargoed(train, later, Embargoed(later, train[|train| - 1].ts + forward), forward)
  {
    var from := train[|train| - 1].ts + forward;
    forall s ensures s in Embargoed(later, from) <==> s in later && s.ts >= from {
      WhereHolds(later, (s: Sample) => s.ts >= from, s);
    }
  }

  /**
    In any order of input and wherever the cut falls: no training window reaches into a test
    window, both parts are closed at the decision time, and of the later rows exactly those
    starting before the last training window ends are left out.
  */
  lemma ForecastSplitLeaksNothing(samples: seq<Sample>, share: int, forward: int, decision: int)
    requires forall s :: s in samples ==> s.ts + forward <= decision
    requires TrainingSplit(samples, share, forward).Some?
    ensures var (train, test) := TrainingSplit(samples, share, forward).value;
            && Apart(train, test, forward, decision)
            && |train| == (if share > 1 then share else 1) && |train| >= 5 && test != []
            && exists later ::
                 && multiset(train) + multiset(later) == multiset(samples) && IsEmbargoed(train, later, test, forward)
                 && forall a: Sample, b: Sample :: a in train && b in later ==> a.ts <= b.ts
  {
    hide ByTime, Embargoed, TrainCount, LastIsLatest, Apart, IsEmbargoed;
    var ordered := ByTime(samples);
    var n := TrainCount(share);
    var train, later := ordered[..n], ordered[n..];
    CutIsInOrder(samples, n);
    EmbargoedIs(train, later, forward);
    EmbargoKeepsApart(train, later, Embargoed(later, train[|train| - 1].ts + forward), forward, decision);
    CutIsEarlier(samples, n);
    TrainCountIs(share);
  }

  lemma TrainCountIs(share: int)
    ensures TrainCount(share) == if share > 1 then share else 1
  {
  }

  lemma CutIsEarlier(samples: seq<Sample>, n: nat)
    requires n <= |ByTime(samples)|
    ensures forall a, b :: a in ByTime(samples)[..n] && b in ByTime(samples)[n..] ==> a.ts <= b.ts
  {
    hide SortedBy;
    var at := (s: Sample) => s.ts;
    var ordered := ByTime(samples);
    SortKeeps(samples, at);
    forall a, b | a in ordered[..n] && b in ordered[n..] ensures a.ts <= b.ts {
      var i :| 0 <= i < n && ordered[i] == a;
      var j :| 0 <= j < |ordered[n..]| && ordered[n..][j] == b;
      assert at(ordered[i]) <= at(ordered[n + j]);
    }
  }

  lemma EmptyMeans(s: seq<Sample>)
    ensures s == [] <==> forall x :: x !in s
  {
    if s != [] {
      assert s[0] in s;
    }
  }

  /**
    There is no split exactly if the training part would have fewer than five samples, or more
    than there are, or if none of the later ones starts after the last training window ends.
  */
  lemma NoForecastSplitExactlyWhen(samples: seq<Sample>, share: int, forward: int)
    ensures var n, ordered := if share > 1 then share else 1, ByTime(samples);
            && |ordered| == |samples|
            && (TrainingSplit(samples, share, forward).None? <==>
                  n < 5 || n > |samples| || forall s :: s in ordered[n..] ==> s.ts < ordered[n - 1].ts + forward)
  {
    hide ByTime, Embargoed;
    var n := if share > 1 then share else 1;
    var ordered := ByTime(samples);
    SortedSize(samples);
    if 5 <= n <= |samples| {
      var from := ordered[n - 1].ts + forward;
      EmbargoIsEmpty(ordered, n, from);
      assert ordered[..n][|ordered[..n]| - 1] == ordered[n - 1];
    }
  }

  lemma SortedSize(samples: seq<Sample>)
    ensures |ByTime(samples)| == |samples|
  {
    hide SortedBy;
    SortKeeps(samples, (s: Sample) => s.ts);
    SameSize(ByTime(samples), samples);
  }

  lemma EmbargoIsEmpty(ordered: seq<Sample>, n: nat, from: int)
    requires n <= |ordered|
    ensures Embargoed(ordered[n..], from) == [] <==> forall s :: s in ordered[n..] ==> s.ts < from
  {
    forall s ensures s in Embargoed(ordered[n..], from) <==> s in ordered[n..] && s.ts >= from {
      WhereHolds(ordered[n..], (s: Sample) => s.ts >= from, s);
    }
    EmptyMeans(Embargoed(ordered[n..], from));
    hide Embargoed;
  }

  lemma SameSize<T>(s: seq<T>, t: seq<T>)
    requires multiset(s) == multiset(t)
    ensures |s| == |t|
  {
    assert |multiset(s)| == |s| && |multiset(t)| == |t|;
  }

  // ----------------------------------------------------------------- confidence split

  datatype Outcome = Outcome(scoredAt: int, evaluatedAt: int, confidence: real, survived: bool)

  datatype Split = BadFraction | Split(train: seq<Outcome>, validation: seq<Outcome>, at: Option<int>)

  /** `wanted` is the training share of the count, cut to an integer however the product is rounded. */
  function SplitIndex(n: nat, wanted: int): (k: nat)
    requires n >= 2
    ensures 1 <= k < n
    ensures 1 <= wanted < n ==> k == wanted
  {
    var atLeastOne := if wanted > 1 then wanted else 1;
    if atLeastOne < n - 1 then atLeastOne else n - 1
  }

  function ByScore(samples: seq<Outcome>): seq<Outcome> {
    SortedBy(samples, (r: Outcome) => r.scoredAt)
  }

  function Known(rows: seq<Outcome>, at: int): seq<Outcome> {
    Where(rows, (r: Outcome) => r.scoredAt < at && r.evaluatedAt <= at)
  }

  function Unknown(rows: seq<Outcome>, at: int): seq<Outcome> {
    Where(rows, (r: Outcome) => r.scoredAt < at && r.evaluatedAt > at)
  }

  function From(rows: seq<Outcome>, at: int): seq<Outcome> {
    Where(rows, (r: Outcome) => r.scoredAt >= at)
  }

  function ChronologicalSplit(samples: seq<Outcome>, fraction: real, wanted: int): Split {
    if !(0.0 < fraction < 1.0) then BadFraction
    else
      var ordered := ByScore(samples);
      if |ordered| < 2 then Split([], [], None)
      else
        var at := ordered[SplitIndex(|ordered|, wanted)].scoredAt;
        Split(Known(ordered, at), From(ordered, at), Some(at))
  }

  /** Training rows are those scored before the time and known by it, validation rows those not scored before. */
  ghost predicate IsSplitAt(samples: seq<Outcome>, split: Split, at: int) {
    && split.Split?
    && forall r ::
         && multiset(split.train)[r] == (if r.scoredAt < at && r.evaluatedAt <= at then multiset(samples)[r] else 0)
         && multiset(split.validation)[r] == (if r.scoredAt >= at then multiset(samples)[r] else 0)
  }

  /** The split time is the score time at the wanted place, kept inside, among the samples in order of score. */
  ghost predicate IsCutAt(ordered: seq<Outcome>, samples: seq<Outcome>, wanted: int, at: int) {
    && multiset(ordered) == multiset(samples)
    && (forall i, j :: 0 <= i <= j < |ordered| ==> ordered[i].scoredAt <= ordered[j].scoredAt)
    && var k := if wanted < 1 then 1 else if wanted > |samples| - 1 then |samples| - 1 else wanted;
       0 <= k < |ordered| && at == ordered[k].scoredAt
  }

  lemma SplitIsAt(samples: seq<Outcome>, at: int)
    ensures IsSplitAt(samples, Split(Known(ByScore(samples), at), From(ByScore(samples), at), Some(at)), at)
  {
    var ordered := ByScore(samples);
    SortKeeps(samples, (r: Outcome) => r.scoredAt);
    hide SortedBy;
    forall r
      ensures multiset(Known(ordered, at))[r]
           == (if r.scoredAt < at && r.evaluatedAt <= at then multiset(samples)[r] else 0)
      ensures multiset(From(ordered, at))[r] == (if r.scoredAt >= at then multiset(samples)[r] else 0)
    {
      WhereCounts(ordered, (r: Outcome) => r.scoredAt < at && r.evaluatedAt <= at, r);
      WhereCounts(ordered, (r: Outcome) => r.scoredAt >= at, r);
    }
  }

  lemma ScoresAscend(samples: seq<Outcome>)
    ensures var ordered := ByScore(samples);
            && multiset(ordered) == multiset(samples)
            && forall i, j :: 0 <= i <= j < |ordered| ==> ordered[i].scoredAt <= ordered[j].scoredAt
  {
    var at := (r: Outcome) => r.scoredAt;
    SortKeeps(samples, at);
    hide SortedBy;
    var ordered := ByScore(samples);
    forall i, j | 0 <= i <= j < |ordered| ensures ordered[i].scoredAt <= ordered[j].scoredAt {
      assert at(ordered[i]) <= at(ordered[j]);
    }
  }

  lemma ThreeParts(ordered: seq<Outcome>, at: int)
    ensures multiset(Known(ordered, at)) + multiset(Unknown(ordered, at)) + multiset(From(ordered, at))
            == multiset(ordered)
  {
    var whole := multiset(Known(ordered, at)) + multiset(Unknown(ordered, at)) + multiset(From(ordered, at));
    forall r ensures whole[r] == multiset(ordered)[r] {
      WhereCounts(ordered, (r: Outcome) => r.scoredAt < at && r.evaluatedAt <= at, r);
      WhereCounts(ordered, (r: Outcome) => r.scoredAt < at && r.evaluatedAt > at, r);
      WhereCounts(ordered, (r: Outcome) => r.scoredAt >= at, r);
    }
  }

  /**
    Every training outcome was known by the time the first validation row was scored; the
    validation part is not empty; and the rows in neither part are exactly those scored
    before the split whose outcome became known only after it.
  */
  lemma ConfidenceSplitLeaksNothing(samples: seq<Outcome>, fraction: real, wanted: int)
    requires 0.0 < fraction < 1.0 && |samples| >= 2
    ensures var split := ChronologicalSplit(samples, fraction, wanted);
            && split.Split? && split.at.Some? && split.validation != []
            && (forall t, v :: t in split.train && v in split.validation ==>
                  t.scoredAt < v.scoredAt && t.evaluatedAt <= v.scoredAt)
            && IsSplitAt(samples, split, split.at.value)
            && IsCutAt(ByScore(samples), samples, wanted, split.at.value)
            && multiset(split.train) + multiset(Unknown(ByScore(samples), split.at.value)) + multiset(split.validation)
               == multiset(samples)
  {
    hide SortedBy, ByScore, Known, From, Unknown, IsSplitAt;
    var ordered := ByScore(samples);
    ScoresAscend(samples);
    SameSize(ordered, samples);
    var row := ordered[SplitIndex(|ordered|, wanted)];
    var at := row.scoredAt;
    SplitIsAt(samples, at);
    ThreeParts(ordered, at);
    PartsAre(ordered, at);
    assert row in From(ordered, at);
  }

  lemma PartsAre(ordered: seq<Outcome>, at: int)
    ensures forall r :: r in From(ordered, at) <==> r in ordered && r.scoredAt >= at
    ensures forall r :: r in Known(ordered, at) <==> r in ordered && r.scoredAt < at && r.evaluatedAt <= at
  {
    hide Where;
    forall r ensures r in From(ordered, at) <==> r in ordered && r.scoredAt >= at
             ensures r in Known(ordered, at) <==> r in ordered && r.scoredAt < at && r.evaluatedAt <= at {
      WhereHolds(ordered, (r: Outcome) => r.scoredAt >= at, r);
      WhereHolds(ordered, (r: Outcome) => r.scoredAt < at && r.evaluatedAt <= at, r);
    }
  }
}

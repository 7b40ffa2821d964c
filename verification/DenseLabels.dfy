/**
  Dense labels on an hourly grid (data_lake/labels.py:35-75, 136-215). A grid point that cannot
  be labelled advances the clock but not the cap, so the loop ends by the clock, not by the counter.
*/
module DenseLabels {

  import opened Prelude
  import opened LabelTables

  const HOUR := 3600
  const MAX_HOURS := 168

  datatype Snap = Snap(ts: int, observedAt: int, price: real)

  /** What the query returns: positive prices known at the decision time, in market-time order. */
  predicate Selected(snaps: seq<Snap>, decision: int) {
    && (forall s :: s in snaps ==> s.price > 0.0 && s.observedAt <= decision)
    && forall i, j :: 0 <= i < j < |snaps| ==> snaps[i].ts <= snaps[j].ts
  }

  /** A snapshot that had happened and had been ingested by `t`. */
  predicate KnownAt(s: Snap, t: int) {
    s.ts <= t && s.observedAt <= t
  }

  /** The entry at `t`: of the snapshots known by then the latest, of equals the first. */
  ghost predicate IsEntry(snaps: seq<Snap>, t: int, i: int) {
    && 0 <= i < |snaps| && KnownAt(snaps[i], t)
    && forall j :: 0 <= j < |snaps| && KnownAt(snaps[j], t) ==>
         snaps[j].ts < snaps[i].ts || (snaps[j].ts == snaps[i].ts && i <= j)
  }

  predicate InWindow(s: Snap, t: int, forward: int) {
    t < s.ts <= t + forward
  }

  predicate Labelable(snaps: seq<Snap>, t: int, forward: int) {
    && (exists s :: s in snaps && KnownAt(s, t))
    && exists s :: s in snaps && InWindow(s, t, forward)
  }

  datatype Point = Point(ts: int, ignition: bool, collapse: bool)

  datatype Thresholds = Thresholds(ignition: real, collapse: real)

  function Change(price: real, entry: real): real
    requires entry > 0.0
  {
    price / entry - 1.0
  }

  /** Ignition and collapse say whether some price of the window crosses the threshold. */
  ghost predicate IsPoint(snaps: seq<Snap>, p: Point, forward: int, th: Thresholds) {
    exists i :: IsEntry(snaps, p.ts, i) && Judged(snaps, p, snaps[i].price, forward, th)
  }

  ghost predicate Judged(snaps: seq<Snap>, p: Point, entry: real, forward: int, th: Thresholds) {
    && entry > 0.0
    && (exists s :: s in snaps && InWindow(s, p.ts, forward))
    && (p.ignition <==> exists s :: s in snaps && InWindow(s, p.ts, forward) && Change(s.price, entry) >= th.ignition)
    && (p.collapse <==> exists s :: s in snaps && InWindow(s, p.ts, forward) && Change(s.price, entry) <= th.collapse)
  }

  method EntryPrice(snaps: seq<Snap>, t: int) returns (price: Option<real>, ghost at: int)
    ensures price.None? ==> forall s :: s in snaps ==> !KnownAt(s, t)
    ensures price.Some? ==> IsEntry(snaps, t, at) && price.value == snaps[at].price
  {
    var before: Option<Snap> := None;
    at := -1;
    price := None;
    var i := 0;
    while i < |snaps|
      invariant 0 <= i <= |snaps|
      invariant before.None? ==> price.None? && forall j :: 0 <= j < i ==> !KnownAt(snaps[j], t)
      invariant before.Some? ==> 0 <= at < i && before.value == snaps[at] && price == Some(snaps[at].price)
      invariant before.Some? ==> IsEntry(snaps[..i], t, at)
    {
      var s := snaps[i];
      if s.ts <= t && s.observedAt <= t && (before.None? || s.ts > before.value.ts) {
        before, at, price := Some(s), i, Some(s.price);
      }
      i := i + 1;
    }
    assert snaps[..i] == snaps;
  }

  /** Highest and lowest price of the forward window. */
  method Extremes(snaps: seq<Snap>, t: int, forward: int) returns (found: bool, peak: real, trough: real)
    ensures found <==> exists s :: s in snaps && InWindow(s, t, forward)
    ensures found ==> exists s :: s in snaps && InWindow(s, t, forward) && s.price == peak
    ensures found ==> exists s :: s in snaps && InWindow(s, t, forward) && s.price == trough
    ensures forall s :: s in snaps && InWindow(s, t, forward) ==> trough <= s.price <= peak
  {
    found, peak, trough := false, 0.0, 0.0;
    ghost var hi, lo := 0, 0;
    var i := 0;
    while i < |snaps|
      invariant 0 <= i <= |snaps|
      invariant !found ==> forall j :: 0 <= j < i ==> !InWindow(snaps[j], t, forward)
      invariant found ==> 0 <= hi < i && InWindow(snaps[hi], t, forward) && snaps[hi].price == peak
      invariant found ==> 0 <= lo < i && InWindow(snaps[lo], t, forward) && snaps[lo].price == trough
      invariant forall j :: 0 <= j < i && InWindow(snaps[j], t, forward) ==> trough <= snaps[j].price <= peak
    {
      if t < snaps[i].ts <= t + forward {
        if !found || snaps[i].price > peak {
          peak, hi := snaps[i].price, i;
        }
        if !found || snaps[i].price < trough {
          trough, lo := snaps[i].price, i;
        }
        found := true;
      }
      i := i + 1;
    }
  }

  lemma ChangeIsMonotone(a: real, b: real, entry: real)
    requires entry > 0.0 && a <= b
    ensures Change(a, entry) <= Change(b, entry)
  {
  }

  /** The extremes decide the labels. */
  lemma ExtremesJudge(snaps: seq<Snap>, t: int, forward: int, th: Thresholds, entry: real, peak: real, trough: real)
    requires entry > 0.0 && exists s :: s in snaps && InWindow(s, t, forward)
    requires exists s :: s in snaps && InWindow(s, t, forward) && s.price == peak
    requires exists s :: s in snaps && InWindow(s, t, forward) && s.price == trough
    requires forall s :: s in snaps && InWindow(s, t, forward) ==> trough <= s.price <= peak
    ensures Judged(snaps, Point(t, Change(peak, entry) >= th.ignition, Change(trough, entry) <= th.collapse),
                   entry, forward, th)
  {
    forall s | s in snaps && InWindow(s, t, forward)
      ensures Change(trough, entry) <= Change(s.price, entry) <= Change(peak, entry)
    {
      ChangeIsMonotone(trough, s.price, entry);
      ChangeIsMonotone(s.price, peak, entry);
    }
  }

  // ------------------------------------------------------------------------- the grid

  function Cap(snaps: seq<Snap>): int
    requires snaps != []
  {
    var hours := (snaps[|snaps| - 1].ts - snaps[0].ts) / HOUR;
    if hours < MAX_HOURS then hours else MAX_HOURS
  }

  function Grid(first: int, k: nat): int {
    first + k * HOUR
  }

  ghost predicate HasPointAt(points: seq<Point>, t: int) {
    exists i :: 0 <= i < |points| && points[i].ts == t
  }

  /** The points found among the first `k` grid points, and none missing. */
  ghost predicate Found(snaps: seq<Snap>, points: seq<Point>, k: nat, decision: int, forward: int, th: Thresholds)
    requires snaps != []
  {
    && (forall i :: 0 <= i < |points| ==>
          && IsPoint(snaps, points[i], forward, th)
          && points[i].ts + forward <= decision
          && exists n: nat :: n < k && points[i].ts == Grid(snaps[0].ts, n))
    && (forall i, j :: 0 <= i < j < |points| ==> points[i].ts < points[j].ts)
    && forall n: nat :: n < k && Labelable(snaps, Grid(snaps[0].ts, n), forward) ==>
        HasPointAt(points, Grid(snaps[0].ts, n))
  }

  lemma FoundAtStart(snaps: seq<Snap>, decision: int, forward: int, th: Thresholds)
    requires snaps != []
    ensures Found(snaps, [], 0, decision, forward, th)
  {
  }

  lemma FoundNothing(snaps: seq<Snap>, points: seq<Point>, k: nat, decision: int, forward: int, th: Thresholds)
    requires snaps != [] && Found(snaps, points, k, decision, forward, th)
    requires !Labelable(snaps, Grid(snaps[0].ts, k), forward)
    ensures Found(snaps, points, k + 1, decision, forward, th)
  {
    hide IsPoint, Labelable, HasPointAt, Grid;
  }

  lemma FoundOne(snaps: seq<Snap>, points: seq<Point>, k: nat, decision: int, forward: int, th: Thresholds, p: Point)
    requires snaps != [] && Found(snaps, points, k, decision, forward, th)
    requires p.ts == Grid(snaps[0].ts, k) && p.ts + forward <= decision && IsPoint(snaps, p, forward, th)
    ensures Found(snaps, points + [p], k + 1, decision, forward, th)
  {
    hide IsPoint, Labelable;
    var more := points + [p];
    forall n: nat | n < k + 1 && Labelable(snaps, Grid(snaps[0].ts, n), forward)
      ensures HasPointAt(more, Grid(snaps[0].ts, n))
    {
      if n < k {
        var i :| 0 <= i < |points| && points[i].ts == Grid(snaps[0].ts, n);
        assert more[i] == points[i];
      } else {
        assert more[|points|] == p;
      }
    }
  }

  function PointWrites(rows: Rows, asset: nat, points: seq<Point>, at: int, source: string): Rows {
    if points == [] then rows
    else
      var p := points[|points| - 1];
      var before := PointWrites(rows, asset, points[..|points| - 1], at, source);
      Written(Written(before, Write(DataLake, Key(asset, p.ts, Ignition), Label(Text(p.ignition), at, source))),
              Write(DataLake, Key(asset, p.ts, Collapse), Label(Text(p.collapse), at, source)))
  }

  function Text(b: bool): string {
    if b then "1" else "0"
  }

  // ------------------------------------------------- what the table says in plain terms

  /** The entry of a point: of the snapshots dated and ingested by then the latest, of equals the first. */
  predicate EntryAt(snaps: seq<Snap>, t: int, e: int) {
    && 0 <= e < |snaps| && snaps[e].ts <= t && snaps[e].observedAt <= t
    && forall j :: 0 <= j < |snaps| && snaps[j].ts <= t && snaps[j].observedAt <= t ==>
         snaps[j].ts < snaps[e].ts || (snaps[j].ts == snaps[e].ts && e <= j)
  }

  /** Some price after the point, within the forward window, is the entry's by the threshold or more away. */
  predicate Crosses(snaps: seq<Snap>, t: int, forward: int, entry: real, th: Thresholds, kind: LabelType) {
    exists s :: s in snaps && t < s.ts <= t + forward
                && (if kind == Ignition then s.price >= entry * (1.0 + th.ignition)
                    else s.price <= entry * (1.0 + th.collapse))
  }

  /** The label says "1" exactly if the window crosses, at the decision time, marked as interpolated. */
  ghost predicate DenseLabel(snaps: seq<Snap>, t: int, forward: int, th: Thresholds, kind: LabelType, decision: int,
                             version: string, l: Label)
  {
    && l.observedAt == decision && l.source == "dense-labels:" + version
    && exists e ::
         EntryAt(snaps, t, e)
         && l.value == if Crosses(snaps, t, forward, snaps[e].price, th, kind) then "1" else "0"
  }

  predicate Interpolated(l: Label) {
    "dense-labels:" <= l.source
  }

  /** One key of the table before and after the labels of an asset. */
  ghost predicate KeyAfter(before: Rows, after: Rows, asset: nat, snaps: seq<Snap>, points: seq<Point>, decision: int,
                           forward: int, th: Thresholds, version: string, k: Key)
  {
    if k.asset == asset && (exists i :: 0 <= i < |points| && points[i].ts == k.ts)
       && (k !in before || Interpolated(before[k]))
    then k in after && DenseLabel(snaps, k.ts, forward, th, k.kind, decision, version, after[k])
    else (k in after <==> k in before) && (k in before ==> after[k] == before[k])
  }

  function Verdict(p: Point, kind: LabelType): bool {
    if kind == Ignition then p.ignition else p.collapse
  }

  lemma OnePointWritten(rows: Rows, asset: nat, p: Point, at: int, version: string, k: Key)
    ensures var source := DENSE + version;
            var after := Written(Written(rows, Write(DataLake, Key(asset, p.ts, Ignition),
                                                     Label(Text(p.ignition), at, source))),
                                 Write(DataLake, Key(asset, p.ts, Collapse), Label(Text(p.collapse), at, source)));
            if k.asset == asset && k.ts == p.ts && (k !in rows || Interpolated(rows[k]))
            then k in after && after[k] == Label(if Verdict(p, k.kind) then "1" else "0", at, "dense-labels:" + version)
            else (k in after <==> k in rows) && (k in rows ==> after[k] == rows[k])
  {
    hide Written, Interpolated;
    var source := DENSE + version;
    var w1 := Write(DataLake, Key(asset, p.ts, Ignition), Label(Text(p.ignition), at, source));
    var w2 := Write(DataLake, Key(asset, p.ts, Collapse), Label(Text(p.collapse), at, source));
    DenseWritten(rows, w1, version, k);
    DenseWritten(Written(rows, w1), w2, version, k);
    assert k.kind.Ignition? || k.kind.Collapse?;
    assert k == Key(k.asset, k.ts, k.kind);
    assert source == "dense-labels:" + version;
  }

  /** A dense write lands on a free key and on an interpolated label, and changes no other key. */
  lemma DenseWritten(rows: Rows, w: Write, version: string, k: Key)
    requires w.via == DataLake && w.entry.source == DENSE + version
    ensures var after := Written(rows, w);
            if k == w.key && (k !in rows || Interpolated(rows[k])) then k in after && after[k] == w.entry
            else (k in after <==> k in rows) && (k in rows ==> after[k] == rows[k])
  {
    assert IsDense(w.entry.source);
    if k in rows {
      MarkersDiffer(rows[k].source);
    }
  }

  lemma {:induction false} PointWritesAt(rows: Rows, asset: nat, points: seq<Point>, at: int, version: string, k: Key)
    requires forall i, j :: 0 <= i < j < |points| ==> points[i].ts < points[j].ts
    ensures var after := PointWrites(rows, asset, points, at, DENSE + version);
            && ((k.asset != asset || forall i :: 0 <= i < |points| ==> points[i].ts != k.ts) ==>
                  (k in after <==> k in rows) && (k in rows ==> after[k] == rows[k]))
            && forall i :: 0 <= i < |points| && k.asset == asset && points[i].ts == k.ts ==>
                 if k !in rows || Interpolated(rows[k])
                 then k in after && after[k] == Label(if Verdict(points[i], k.kind) then "1" else "0", at,
                                                      "dense-labels:" + version)
                 else k in after && after[k] == rows[k]
  {
    hide Written, Text, Interpolated, Verdict;
    if points != [] {
      var init, p := points[..|points| - 1], points[|points| - 1];
      PointWritesAt(rows, asset, init, at, version, k);
      OnePointWritten(PointWrites(rows, asset, init, at, DENSE + version), asset, p, at, version, k);
      assert forall i :: 0 <= i < |init| ==> points[i] == init[i] && points[i].ts < p.ts;
    }
  }

  lemma ThresholdsAgree(price: real, entry: real, th: real)
    requires entry > 0.0
    ensures Change(price, entry) >= th <==> price >= entry * (1.0 + th)
    ensures Change(price, entry) <= th <==> price <= entry * (1.0 + th)
  {
    var q := price / entry;
    QuotientTimes(price, entry);
    var f := 1.0 + th;
    if q < f {
      ScaleKeepsOrder(q, f, entry);
    } else if q > f {
      ScaleKeepsOrder(f, q, entry);
    }
    assert entry * f == f * entry;
  }

  lemma PointMeans(snaps: seq<Snap>, p: Point, forward: int, th: Thresholds, kind: LabelType)
    requires IsPoint(snaps, p, forward, th)
    ensures exists e :: EntryAt(snaps, p.ts, e)
                        && (Verdict(p, kind) <==> Crosses(snaps, p.ts, forward, snaps[e].price, th, kind))
  {
    var e :| IsEntry(snaps, p.ts, e) && Judged(snaps, p, snaps[e].price, forward, th);
    assert EntryAt(snaps, p.ts, e);
    JudgedMeans(snaps, p, snaps[e].price, forward, th, kind);
    hide EntryAt, Crosses, IsEntry, Judged;
  }

  lemma JudgedMeans(snaps: seq<Snap>, p: Point, entry: real, forward: int, th: Thresholds, kind: LabelType)
    requires Judged(snaps, p, entry, forward, th)
    ensures Verdict(p, kind) <==> Crosses(snaps, p.ts, forward, entry, th, kind)
  {
    hide Change;
    if kind == Ignition {
      forall s | s in snaps
        ensures Change(s.price, entry) >= th.ignition <==> s.price >= entry * (1.0 + th.ignition)
      {
        ThresholdsAgree(s.price, entry, th.ignition);
      }
    } else {
      forall s | s in snaps
        ensures Change(s.price, entry) <= th.collapse <==> s.price <= entry * (1.0 + th.collapse)
      {
        ThresholdsAgree(s.price, entry, th.collapse);
      }
    }
  }

  lemma TableSays(before: Rows, asset: nat, snaps: seq<Snap>, points: seq<Point>, visited: nat, decision: int,
                  forward: int, th: Thresholds, version: string, k: Key)
    requires points == [] || (snaps != [] && Found(snaps, points, visited, decision, forward, th))
    ensures KeyAfter(before, PointWrites(before, asset, points, decision, DENSE + version), asset, snaps, points,
                     decision, forward, th, version, k)
  {
    hide IsPoint, Crosses, EntryAt, Verdict, Interpolated, PointWrites;
    PointWritesAt(before, asset, points, decision, version, k);
    if i :| 0 <= i < |points| && points[i].ts == k.ts {
      PointMeans(snaps, points[i], forward, th, k.kind);
    }
  }

  /** The grid in plain terms: whole hours from the first snapshot on, each window closed, and none passed over. */
  lemma GridSays(snaps: seq<Snap>, points: seq<Point>, visited: nat, decision: int, forward: int, th: Thresholds)
    requires snaps != [] && Found(snaps, points, visited, decision, forward, th) && |points| <= Cap(snaps)
    requires |points| < Cap(snaps) ==> Grid(snaps[0].ts, visited) + forward > decision
    ensures |points| <= 168 && 3600 * |points| <= snaps[|snaps| - 1].ts - snaps[0].ts
    ensures forall i :: 0 <= i < |points| ==>
              && points[i].ts >= snaps[0].ts && (points[i].ts - snaps[0].ts) % 3600 == 0
              && points[i].ts + forward <= decision
    ensures forall i, j :: 0 <= i < j < |points| ==> points[i].ts < points[j].ts
    ensures |points| < 168 && 3600 * (|points| + 1) <= snaps[|snaps| - 1].ts - snaps[0].ts ==>
              forall n: nat :: snaps[0].ts + 3600 * n + forward <= decision ==>
                ((exists i :: 0 <= i < |points| && points[i].ts == snaps[0].ts + 3600 * n)
                 <==> (exists s ::
                         s in snaps && s.ts <= snaps[0].ts + 3600 * n && s.observedAt <= snaps[0].ts + 3600 * n)
                      && exists s :: s in snaps && snaps[0].ts + 3600 * n < s.ts <= snaps[0].ts + 3600 * n + forward)
  {
    hide IsPoint;
    forall i | 0 <= i < |points|
      ensures points[i].ts >= snaps[0].ts && (points[i].ts - snaps[0].ts) % 3600 == 0
      ensures Labelable(snaps, points[i].ts, forward)
    {
      PointIsLabelable(snaps, points[i], forward, th);
    }
    if |points| < 168 && 3600 * (|points| + 1) <= snaps[|snaps| - 1].ts - snaps[0].ts {
      forall n: nat | snaps[0].ts + 3600 * n + forward <= decision
        ensures (exists i :: 0 <= i < |points| && points[i].ts == snaps[0].ts + 3600 * n)
           <==> Labelable(snaps, snaps[0].ts + 3600 * n, forward)
      {
        assert Grid(snaps[0].ts, n) == snaps[0].ts + 3600 * n;
        assert n < visited;
      }
    }
  }

  lemma PointIsLabelable(snaps: seq<Snap>, p: Point, forward: int, th: Thresholds)
    requires IsPoint(snaps, p, forward, th)
    ensures Labelable(snaps, p.ts, forward)
  {
    var e :| IsEntry(snaps, p.ts, e) && Judged(snaps, p, snaps[e].price, forward, th);
    assert snaps[e] in snaps;
  }

  /**
    Labels one asset: at most as many points as the history has hours, and at most 168; every
    labelled window is closed at the decision time; and unless the cap stops it, no grid point
    with a closed window, a known entry and a later price is passed over.
  */
  method GenerateForAsset(table: LabelTable, asset: nat, snaps: seq<Snap>, decision: int, forward: int,
                          th: Thresholds, version: string)
    returns (points: seq<Point>, visited: nat)
    requires Selected(snaps, decision)
    modifies table
    ensures table.rows == PointWrites(old(table.rows), asset, points, decision, DENSE + version)
    ensures forall k :: KeyAfter(old(table.rows), table.rows, asset, snaps, points, decision, forward, th, version, k)
    ensures |snaps| < 2 ==> points == []
    ensures |snaps| >= 2 ==>
              && |points| <= Cap(snaps)
              && Found(snaps, points, visited, decision, forward, th)
              && (|points| < Cap(snaps) ==> Grid(snaps[0].ts, visited) + forward > decision)
  {
    hide Found, IsPoint, Labelable, Written;
    hide KeyAfter;
    points, visited := [], 0;
    ghost var before := table.rows;
    if |snaps| < 2 {
      forall k ensures KeyAfter(before, table.rows, asset, snaps, points, decision, forward, th, version, k) {
        TableSays(before, asset, snaps, points, visited, decision, forward, th, version, k);
      }
      return;
    }
    FoundAtStart(snaps, decision, forward, th);
    var maxHours := Cap(snaps);
    var current := snaps[0].ts;
    var hourCount := 0;
    while hourCount < maxHours && current + forward <= decision
      invariant hourCount == |points| <= maxHours
      invariant current == Grid(snaps[0].ts, visited)
      invariant Found(snaps, points, visited, decision, forward, th)
      invariant table.rows == PointWrites(old(table.rows), asset, points, decision, DENSE + version)
      decreases decision - forward - current
    {
      var point := LabelPoint(snaps, decision, current, forward, th);
      if point.Some? {
        FoundOne(snaps, points, visited, decision, forward, th, point.value);
        WritePoint(table, asset, point.value, decision, version);
        assert (points + [point.value])[..|points|] == points;
        points := points + [point.value];
        hourCount := hourCount + 1;
      } else {
        FoundNothing(snaps, points, visited, decision, forward, th);
      }
      current := current + HOUR;
      visited := visited + 1;
    }
    forall k ensures KeyAfter(before, table.rows, asset, snaps, points, decision, forward, th, version, k) {
      TableSays(before, asset, snaps, points, visited, decision, forward, th, version, k);
    }
  }

  method LabelPoint(snaps: seq<Snap>, decision: int, t: int, forward: int, th: Thresholds)
    returns (point: Option<Point>)
    requires Selected(snaps, decision)
    ensures point.None? <==> !Labelable(snaps, t, forward)
    ensures point.Some? ==> point.value.ts == t && IsPoint(snaps, point.value, forward, th)
  {
    var entry, at := EntryPrice(snaps, t);
    if entry.None? {
      return None;
    }
    assert snaps[at] in snaps;
    var found, peak, trough := Extremes(snaps, t, forward);
    if !found {
      return None;
    }
    ExtremesJudge(snaps, t, forward, th, entry.value, peak, trough);
    point := Some(Point(t, Change(peak, entry.value) >= th.ignition, Change(trough, entry.value) <= th.collapse));
  }

  method WritePoint(table: LabelTable, asset: nat, p: Point, decision: int, version: string)
    modifies table
    ensures table.rows
         == Written(Written(old(table.rows),
                            Write(DataLake, Key(asset, p.ts, Ignition),
                                Label(Text(p.ignition), decision, DENSE + version))),
                    Write(DataLake, Key(asset, p.ts, Collapse), Label(Text(p.collapse), decision, DENSE + version)))
  {
    var _ := table.UpsertFromDataLake(Key(asset, p.ts, Ignition), Text(p.ignition), decision, DENSE + version);
    var _ := table.UpsertFromDataLake(Key(asset, p.ts, Collapse), Text(p.collapse), decision, DENSE + version);
  }
}

/**
  The labels table and its four writers (data_lake/labels.py:344-397, forecast/labels.py:127-170).
  Two different upserts share it; the source marker of a label says how far it is to be trusted.
*/
module LabelTables {

  datatype LabelType = Ignition | Collapse

  datatype Key = Key(asset: nat, ts: int, kind: LabelType)

  datatype Label = Label(value: string, observedAt: int, source: string)

  type Rows = map<Key, Label>

  const DENSE := "dense-labels:"
  const REPLAY := "historical-replay:"

  predicate IsDense(source: string) { DENSE <= source }

  predicate IsReplay(source: string) { REPLAY <= source }

  lemma MarkersDiffer(source: string)
    ensures !(IsDense(source) && IsReplay(source))
  {
    if IsDense(source) {
      assert source[0] == DENSE[0] == 'd';
    }
  }

  /** Interpolation counts least, replay more, an observed outcome most. */
  function Rank(source: string): nat {
    if IsDense(source) then 0 else if IsReplay(source) then 1 else 2
  }

  datatype Upsert = DataLake | Forecast

  datatype Write = Write(via: Upsert, key: Key, entry: Label)

  /** A writer calls an upsert, or seeds an asset's labels at a feature time. */
  datatype Act = Put(write: Write) | Seed(asset: nat, ts: int, ignition: Label, collapse: Label)

  datatype History = Empty | Then(past: History, act: Act)

  predicate Refused(rows: Rows, w: Write) {
    w.key in rows &&
    var existing := rows[w.key].source;
    match w.via
    case DataLake =>
      || ((IsDense(w.entry.source) || IsReplay(w.entry.source)) && !(IsDense(existing) || IsReplay(existing)))
      || (IsDense(w.entry.source) && IsReplay(existing))
    case Forecast => IsDense(w.entry.source) && !IsDense(existing)
  }

  function Written(rows: Rows, w: Write): Rows {
    if Refused(rows, w) then rows else rows[w.key := w.entry]
  }

  predicate HasLabels(rows: Rows, asset: nat, ts: int) {
    exists kind :: Key(asset, ts, kind) in rows
  }

  /** The upsert calls an act comes to; seeding calls none where any label exists. */
  function Calls(rows: Rows, act: Act): seq<Write> {
    match act
    case Put(w) => [w]
    case Seed(a, ts, ignition, collapse) =>
      if HasLabels(rows, a, ts) then []
      else [Write(Forecast, Key(a, ts, Ignition), ignition), Write(Forecast, Key(a, ts, Collapse), collapse)]
  }

  function WrittenAll(rows: Rows, ws: seq<Write>): Rows {
    if ws == [] then rows else Written(WrittenAll(rows, ws[..|ws| - 1]), ws[|ws| - 1])
  }

  function After(h: History): Rows {
    match h
    case Empty => map[]
    case Then(past, act) => WrittenAll(After(past), Calls(After(past), act))
  }

  function AllCalls(h: History): seq<Write> {
    match h
    case Empty => []
    case Then(past, act) => AllCalls(past) + Calls(After(past), act)
  }

  /** The calls that concern one key, in order. */
  function For(ws: seq<Write>, k: Key): seq<Write> {
    if ws == [] then []
    else For(ws[..|ws| - 1], k) + if ws[|ws| - 1].key == k then [ws[|ws| - 1]] else []
  }

  /** `ws[i]` is the last of the writes that rank highest. */
  ghost predicate LastOfBest(ws: seq<Write>, i: int) {
    && 0 <= i < |ws|
    && (forall j :: 0 <= j < |ws| ==> Rank(ws[j].entry.source) <= Rank(ws[i].entry.source))
    && forall j :: i < j < |ws| ==> Rank(ws[j].entry.source) < Rank(ws[i].entry.source)
  }

  ghost predicate HoldsLastOfBest(rows: Rows, k: Key, ws: seq<Write>) {
    && (k in rows <==> ws != [])
    && (k in rows ==> exists i :: LastOfBest(ws, i) && rows[k] == ws[i].entry)
  }

  /** The forecast upsert is never handed a replayed label. */
  predicate NoReplayByForecast(ws: seq<Write>) {
    forall w :: w in ws && w.via == Forecast ==> !IsReplay(w.entry.source)
  }

  /** Both upserts amount to the ranking, except that the forecast one lets a replay replace an observation. */
  lemma RefusedExactlyByRank(rows: Rows, w: Write)
    requires w.key in rows
    ensures (Refused(rows, w) <==> Rank(w.entry.source) < Rank(rows[w.key].source))
            <==> !(w.via == Forecast && IsReplay(w.entry.source) && Rank(rows[w.key].source) == 2)
  {
    MarkersDiffer(w.entry.source);
    MarkersDiffer(rows[w.key].source);
    hide IsDense, IsReplay;
  }

  lemma BestOfLonger(ws: seq<Write>, w: Write, i: int)
    requires LastOfBest(ws, i)
    ensures LastOfBest(ws + [w], if Rank(w.entry.source) < Rank(ws[i].entry.source) then i else |ws|)
  {
    hide Rank;
  }

  lemma OneMoreWrite(rows: Rows, w: Write, ws: seq<Write>)
    requires HoldsLastOfBest(rows, w.key, ws) && (w.via == Forecast ==> !IsReplay(w.entry.source))
    ensures HoldsLastOfBest(Written(rows, w), w.key, ws + [w])
  {
    var more := ws + [w];
    if w.key in rows {
      RefusedExactlyByRank(rows, w);
      var i :| LastOfBest(ws, i) && rows[w.key] == ws[i].entry;
      BestOfLonger(ws, w, i);
      hide Rank, Refused, LastOfBest;
      var next := if Rank(w.entry.source) < Rank(ws[i].entry.source) then i else |ws|;
      assert LastOfBest(more, next) && Written(rows, w)[w.key] == more[next].entry;
    } else {
      assert LastOfBest(more, |ws|);
    }
  }

  lemma {:induction false} WrittenKeepsBest(rows: Rows, k: Key, before: seq<Write>, ws: seq<Write>)
    requires HoldsLastOfBest(rows, k, before) && NoReplayByForecast(ws)
    ensures HoldsLastOfBest(WrittenAll(rows, ws), k, before + For(ws, k))
  {
    if ws == [] {
      assert before + [] == before;
    } else {
      var init := ws[..|ws| - 1];
      var last := ws[|ws| - 1];
      assert ws == init + [last];
      WrittenKeepsBest(rows, k, before, init);
      if last.key == k {
        OneMoreWrite(WrittenAll(rows, init), last, before + For(init, k));
        assert before + For(ws, k) == (before + For(init, k)) + [last];
      } else {
        assert before + For(ws, k) == before + For(init, k);
        OtherKeyUntouched(WrittenAll(rows, init), last, k, before + For(init, k));
      }
    }
  }

  lemma OtherKeyUntouched(rows: Rows, w: Write, k: Key, ws: seq<Write>)
    requires w.key != k && HoldsLastOfBest(rows, k, ws)
    ensures HoldsLastOfBest(Written(rows, w), k, ws)
  {
    hide LastOfBest, Refused;
    assert k in Written(rows, w) <==> k in rows;
    assert k in rows ==> Written(rows, w)[k] == rows[k];
  }

  lemma {:induction false} ForOfConcat(a: seq<Write>, b: seq<Write>, k: Key)
    ensures For(a + b, k) == For(a, k) + For(b, k)
  {
    if b == [] {
      assert a + b == a;
    } else {
      assert (a + b)[..|a + b| - 1] == a + b[..|b| - 1];
      ForOfConcat(a, b[..|b| - 1], k);
    }
  }

  /**
    Whatever order the writers run in, the label stored for a key is, value and marker alike,
    the last of the highest-ranking upserts made for it.
  */
  lemma {:induction false} StoredIsLastOfBest(h: History, k: Key)
    requires NoReplayByForecast(AllCalls(h))
    ensures HoldsLastOfBest(After(h), k, For(AllCalls(h), k))
  {
    if h.Then? {
      var calls := Calls(After(h.past), h.act);
      assert forall w :: w in AllCalls(h.past) || w in calls ==> w in AllCalls(h);
      StoredIsLastOfBest(h.past, k);
      WrittenKeepsBest(After(h.past), k, For(AllCalls(h.past), k), calls);
      ForOfConcat(AllCalls(h.past), calls, k);
    }
  }

  lemma {:induction false} RankNeverFallsIn(rows: Rows, ws: seq<Write>, k: Key)
    requires k in rows && NoReplayByForecast(ws)
    ensures k in WrittenAll(rows, ws) && Rank(WrittenAll(rows, ws)[k].source) >= Rank(rows[k].source)
  {
    if ws != [] {
      var init := ws[..|ws| - 1];
      var last := ws[|ws| - 1];
      assert ws == init + [last];
      RankNeverFallsIn(rows, init, k);
      if last.key == k {
        RefusedExactlyByRank(WrittenAll(rows, init), last);
      }
      hide Refused, Rank;
    }
  }

  /** Once a key holds an observed outcome, or a replay, no writer brings it down again. */
  lemma RankNeverFalls(h: History, act: Act, k: Key)
    requires NoReplayByForecast(Calls(After(h), act)) && k in After(h)
    ensures k in After(Then(h, act)) && Rank(After(Then(h, act))[k].source) >= Rank(After(h)[k].source)
  {
    RankNeverFallsIn(After(h), Calls(After(h), act), k);
  }

  // ------------------------------------------------------------------ the four writers

  const OBSERVED := "forecast:"
  const ALIGNED := "feature-aligned:"

  /** What the dense grid, the replay, the label engine and the seeding write, each under its own marker. */
  datatype WriterAct =
    | DenseLabel(key: Key, value: string, at: int, version: string)
    | ReplayedLabel(key: Key, value: string, at: int, version: string)
    | ObservedLabel(key: Key, value: string, at: int, version: string)
    | SeededLabels(asset: nat, ts: int, ignition: string, collapse: string, at: int, version: string)

  function ActOf(w: WriterAct): Act {
    match w
    case DenseLabel(key, value, at, version) => Put(Write(DataLake, key, Label(value, at, DENSE + version)))
    case ReplayedLabel(key, value, at, version) => Put(Write(DataLake, key, Label(value, at, REPLAY + version)))
    case ObservedLabel(key, value, at, version) => Put(Write(Forecast, key, Label(value, at, OBSERVED + version)))
    case SeededLabels(asset, ts, ignition, collapse, at, version) =>
      Seed(asset, ts, Label(ignition, at, ALIGNED + version), Label(collapse, at, ALIGNED + version))
  }

  function HistoryOf(ws: seq<WriterAct>): History {
    if ws == [] then Empty else Then(HistoryOf(ws[..|ws| - 1]), ActOf(ws[|ws| - 1]))
  }

  /** The markers rank as intended: dense below replayed below observed and seeded. */
  lemma MarkersRank(version: string)
    ensures Rank("dense-labels:" + version) == 0 && Rank("historical-replay:" + version) == 1
    ensures Rank("forecast:" + version) == 2 && Rank("feature-aligned:" + version) == 2
    ensures !IsReplay(OBSERVED + version) && !IsReplay(ALIGNED + version)
  {
    MarkersDiffer(REPLAY + version);
    assert DENSE + version == "dense-labels:" + version && REPLAY + version == "historical-replay:" + version;
    assert (OBSERVED + version)[0] == 'f' && (ALIGNED + version)[0] == 'f' && DENSE[0] == 'd' && REPLAY[0] == 'h';
  }

  lemma WriterCalls(rows: Rows, w: WriterAct)
    ensures NoReplayByForecast(Calls(rows, ActOf(w)))
  {
    MarkersRank(w.version);
    hide IsReplay, Rank;
  }

  lemma {:induction false} WritersNeverReplayByForecast(ws: seq<WriterAct>)
    ensures NoReplayByForecast(AllCalls(HistoryOf(ws)))
  {
    if ws != [] {
      WritersNeverReplayByForecast(ws[..|ws| - 1]);
      WriterCalls(After(HistoryOf(ws[..|ws| - 1])), ws[|ws| - 1]);
      hide IsReplay;
    }
  }

  /** Over every interleaving of the four writers the stored label is the last of the highest-ranking writes. */
  lemma FourWritersKeepPrecedence(ws: seq<WriterAct>, k: Key)
    ensures var h := HistoryOf(ws); HoldsLastOfBest(After(h), k, For(AllCalls(h), k))
  {
    WritersNeverReplayByForecast(ws);
    StoredIsLastOfBest(HistoryOf(ws), k);
  }

  /** What each writer stores where the table has nothing: its value, its time and its own marker. */
  lemma FreeKeyTakesTheWrite(ws: seq<WriterAct>, w: WriterAct, k: Key)
    requires var rows := After(HistoryOf(ws));
             if w.SeededLabels? then !HasLabels(rows, w.asset, w.ts) else w.key !in rows
    ensures var rows, next := After(HistoryOf(ws)), After(HistoryOf(ws + [w]));
            match w
            case DenseLabel(key, value, at, version) => next == rows[key := Label(value, at, "dense-labels:" + version)]
            case ReplayedLabel(key, value, at, version) =>
              next == rows[key := Label(value, at, "historical-replay:" + version)]
            case ObservedLabel(key, value, at, version) => next == rows[key := Label(value, at, "forecast:" + version)]
            case SeededLabels(a, ts, ignition, collapse, at, version) =>
              next == rows[Key(a, ts, Ignition) := Label(ignition, at, "feature-aligned:" + version)]
                          [Key(a, ts, Collapse) := Label(collapse, at, "feature-aligned:" + version)]
  {
    var rows := After(HistoryOf(ws));
    assert (ws + [w])[..|ws|] == ws;
    if w.SeededLabels? {
      SeedOnlyFillsGaps(rows, w.asset, w.ts, Label(w.ignition, w.at, ALIGNED + w.version),
                        Label(w.collapse, w.at, ALIGNED + w.version));
    } else {
      var write := ActOf(w).write;
      assert [write][..0] == [];
      assert WrittenAll(rows, [write]) == Written(rows, write);
    }
  }

  /** And no writer lowers the rank of a stored label. */
  lemma NoWriterLowersRank(ws: seq<WriterAct>, w: WriterAct, k: Key)
    requires k in After(HistoryOf(ws))
    ensures k in After(HistoryOf(ws + [w]))
    ensures Rank(After(HistoryOf(ws + [w]))[k].source) >= Rank(After(HistoryOf(ws))[k].source)
  {
    assert (ws + [w])[..|ws|] == ws;
    WriterCalls(After(HistoryOf(ws)), w);
    RankNeverFalls(HistoryOf(ws), ActOf(w), k);
    hide Rank, ActOf, After;
  }

  /**
    For other callers the condition is needed: the forecast upsert treats every label that is not
    dense as observed.
  */
  lemma ForecastReplayOverwritesObserved(k: Key, observed: Label, replayed: Label)
    requires Rank(observed.source) == 2 && IsReplay(replayed.source)
    ensures var h := Then(Then(Empty, Put(Write(Forecast, k, observed))), Put(Write(Forecast, k, replayed)));
            k in After(h) && After(h)[k] == replayed
  {
    MarkersDiffer(replayed.source);
    var w1, w2 := Write(Forecast, k, observed), Write(Forecast, k, replayed);
    assert [w1][..0] == [] && [w2][..0] == [];
    var rows: Rows := map[];
    assert WrittenAll(rows, [w1]) == rows[k := observed];
    assert WrittenAll(rows[k := observed], [w2]) == rows[k := observed][k := replayed];
    assert After(Then(Empty, Put(w1))) == rows[k := observed];
  }

  /**
    Seeding only fills gaps: it changes no existing label, and where it does write, it writes
    both types. So an interpolated label that is there first keeps the seeded outcome out.
  */
  lemma SeedOnlyFillsGaps(rows: Rows, a: nat, ts: int, ignition: Label, collapse: Label)
    ensures var next := WrittenAll(rows, Calls(rows, Seed(a, ts, ignition, collapse)));
            && (forall k :: k in rows ==> k in next && next[k] == rows[k])
            && (HasLabels(rows, a, ts) ==> next == rows)
            && (!HasLabels(rows, a, ts) ==>
                  next == rows[Key(a, ts, Ignition) := ignition][Key(a, ts, Collapse) := collapse])
  {
    if !HasLabels(rows, a, ts) {
      var w1 := Write(Forecast, Key(a, ts, Ignition), ignition);
      var w2 := Write(Forecast, Key(a, ts, Collapse), collapse);
      assert Key(a, ts, Ignition) !in rows && Key(a, ts, Collapse) !in rows;
      assert [w1, w2][..1] == [w1] && [w1][..0] == [];
      assert WrittenAll(rows, [w1]) == rows[Key(a, ts, Ignition) := ignition];
    }
  }

  // --------------------------------------------------------------------- the table itself

  class LabelTable {
    var rows: Rows

    constructor ()
      ensures rows == map[]
    {
      rows := map[];
    }

    /** data_lake/labels.py; the result says whether a row was created. */
    method UpsertFromDataLake(key: Key, value: string, at: int, source: string) returns (created: bool)
      modifies this
      ensures rows == Written(old(rows), Write(DataLake, key, Label(value, at, source)))
      ensures created <==> key !in old(rows)
    {
      if key in rows {
        var existingDense := DENSE <= rows[key].source;
        var existingReplay := REPLAY <= rows[key].source;
        var newDense := DENSE <= source;
        var newReplay := REPLAY <= source;
        if (newDense || newReplay) && !(existingDense || existingReplay) {
          return false;
        }
        if newDense && existingReplay {
          return false;
        }
        rows := rows[key := Label(value, at, source)];
        return false;
      }
      rows := rows[key := Label(value, at, source)];
      return true;
    }

    /** forecast/labels.py. */
    method UpsertFromForecast(key: Key, value: string, at: int, source: string) returns (created: bool)
      modifies this
      ensures rows == Written(old(rows), Write(Forecast, key, Label(value, at, source)))
      ensures created <==> key !in old(rows)
    {
      if key in rows {
        if DENSE <= source && !(DENSE <= rows[key].source) {
          return false;
        }
        rows := rows[key := Label(value, at, source)];
        return false;
      }
      rows := rows[key := Label(value, at, source)];
      return true;
    }
  }
}

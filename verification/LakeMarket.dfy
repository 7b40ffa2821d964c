/**
  The market series that the lake read path reconstructs (features/lake.py:87-202, 663-723):
  one query serves a whole batch of assets, and keeps one row for each pair and hour.
*/
module LakeMarket {

  type Address = nat
  type PairAddress = nat

  const HOUR: nat := 3600

  /** A pool listed in one piece of evidence; `detail` stands for its prices, volumes and reserve. */
  datatype Row = Row(observedAt: nat, base: Address, pair: PairAddress, detail: int)

  datatype Group = Group(pair: PairAddress, hour: nat)

  function GroupOf(r: Row): Group {
    Group(r.pair, r.observedAt / HOUR)
  }

  /** Rows known at the decision time that belong to the batch. */
  predicate Asked(r: Row, batch: set<Address>, ts: nat) {
    r.observedAt <= ts && r.base in batch
  }

  /**
    What the query promises, whichever way it breaks ties: of each pair and hour among the
    batch's rows exactly one row is kept, and none was observed before it.
  */
  ghost predicate Legal(rows: seq<Row>, batch: set<Address>, ts: nat, kept: set<Row>) {
    && (forall r :: r in kept ==> r in rows && Asked(r, batch, ts))
    && (forall r, s :: r in kept && s in kept && GroupOf(r) == GroupOf(s) ==> r == s)
    && (forall r :: r in rows && Asked(r, batch, ts) ==>
          exists s :: s in kept && GroupOf(s) == GroupOf(r) && s.observedAt <= r.observedAt)
  }

  /** The rows of one asset in a batch's result. */
  function Of(kept: set<Row>, a: Address): set<Row> {
    set r | r in kept && r.base == a
  }

  /** The reference: an asset's own rows, of each pair and hour those observed first. */
  ghost predicate First(rows: seq<Row>, a: Address, ts: nat, r: Row) {
    && r in rows && r.base == a && r.observedAt <= ts
    && forall s :: s in rows && s.base == a && s.observedAt <= ts && GroupOf(s) == GroupOf(r) ==>
         r.observedAt <= s.observedAt
  }

  ghost function Series(rows: seq<Row>, a: Address, ts: nat): set<Row> {
    set r | r in rows && First(rows, a, ts, r)
  }

  /** The series in plain terms: of each of the asset's pairs, in each hour, what was observed first. */
  lemma SeriesSays(rows: seq<Row>, a: Address, ts: nat, r: Row)
    ensures r in Series(rows, a, ts) <==>
              && r in rows && r.base == a && r.observedAt <= ts
              && forall s ::
                   (s in rows && s.base == a && s.pair == r.pair && s.observedAt / 3600 == r.observedAt / 3600
                    && s.observedAt <= ts) ==> r.observedAt <= s.observedAt
  {
  }

  /** And each of the asset's observations by then is represented in it. */
  lemma SeriesCovers(rows: seq<Row>, a: Address, ts: nat, r: Row) returns (s: Row)
    requires r in rows && r.base == a && r.observedAt <= ts
    ensures s in Series(rows, a, ts)
    ensures s.pair == r.pair && s.observedAt / 3600 == r.observedAt / 3600 && s.observedAt <= r.observedAt
  {
    KeptIsLegal(rows, {a}, ts);
    s := Representative(rows, {a}, ts, Kept(rows, {a}, ts), r);
    forall t | t in rows && t.base == a && t.observedAt <= ts && GroupOf(t) == GroupOf(s)
      ensures s.observedAt <= t.observedAt
    {
      assert Asked(t, {a}, ts);
    }
  }

  /** Every pair has one base token within an hour. */
  ghost predicate OneBase(rows: seq<Row>, ts: nat) {
    forall r, s :: r in rows && s in rows && r.observedAt <= ts && s.observedAt <= ts && GroupOf(r) == GroupOf(s) ==>
      r.base == s.base
  }

  /** The first observation of a pair in an hour is unambiguous. */
  ghost predicate NoTie(rows: seq<Row>, ts: nat) {
    forall r: Row, s: Row ::
      First(rows, r.base, ts, r) && First(rows, s.base, ts, s) && r.base == s.base && GroupOf(r) == GroupOf(s) ==>
          r == s
  }

  /** An asset's series does not depend on the batch it is asked in, nor on how ties are broken. */
  ghost predicate BatchIndependent(rows: seq<Row>, ts: nat) {
    forall batch, kept, alone, a ::
      a in batch && Legal(rows, batch, ts, kept) && Legal(rows, {a}, ts, alone) ==> Of(kept, a) == Of(alone, a)
  }

  lemma BatchGivesSeries(rows: seq<Row>, batch: set<Address>, ts: nat, kept: set<Row>, a: Address)
    requires OneBase(rows, ts) && NoTie(rows, ts)
    requires a in batch && Legal(rows, batch, ts, kept)
    ensures Of(kept, a) == Series(rows, a, ts)
  {
    forall r | r in Of(kept, a) ensures First(rows, a, ts, r) {
      forall s | s in rows && s.base == a && s.observedAt <= ts && GroupOf(s) == GroupOf(r)
        ensures r.observedAt <= s.observedAt
      {
        assert Asked(s, batch, ts);
      }
    }
    forall r | r in Series(rows, a, ts) ensures r in Of(kept, a) {
      assert Asked(r, batch, ts);
      var s :| s in kept && GroupOf(s) == GroupOf(r) && s.observedAt <= r.observedAt;
      assert s.base == a;
      assert First(rows, a, ts, s);
    }
  }

  // ----------------------------------------------------- the query's own choice

  /** The window function with ties going to the earlier row. */
  function Winners(rows: seq<Row>, batch: set<Address>, ts: nat): (best: map<Group, Row>)
    ensures forall g :: g in best ==> best[g] in rows && Asked(best[g], batch, ts) && GroupOf(best[g]) == g
  {
    if rows == [] then map[]
    else
      var init := rows[..|rows| - 1];
      var last := rows[|rows| - 1];
      assert rows == init + [last];
      var best := Winners(init, batch, ts);
      var g := GroupOf(last);
      if Asked(last, batch, ts) && (g !in best || last.observedAt < best[g].observedAt) then best[g := last] else best
  }

  lemma {:induction false} WinnersCover(rows: seq<Row>, batch: set<Address>, ts: nat, r: Row)
    requires r in rows && Asked(r, batch, ts)
    ensures var best := Winners(rows, batch, ts);
            GroupOf(r) in best && best[GroupOf(r)].observedAt <= r.observedAt
  {
    var init := rows[..|rows| - 1];
    assert rows == init + [rows[|rows| - 1]];
    if r in init {
      WinnersCover(init, batch, ts, r);
    }
  }

  ghost function Kept(rows: seq<Row>, batch: set<Address>, ts: nat): set<Row> {
    set g | g in Winners(rows, batch, ts) :: Winners(rows, batch, ts)[g]
  }

  lemma KeptIsLegal(rows: seq<Row>, batch: set<Address>, ts: nat)
    ensures Legal(rows, batch, ts, Kept(rows, batch, ts))
  {
    var best := Winners(rows, batch, ts);
    forall r | r in rows && Asked(r, batch, ts)
      ensures exists s :: s in Kept(rows, batch, ts) && GroupOf(s) == GroupOf(r) && s.observedAt <= r.observedAt
    {
      WinnersCover(rows, batch, ts, r);
      assert best[GroupOf(r)] in Kept(rows, batch, ts);
    }
  }

  lemma KeptOf(rows: seq<Row>, batch: set<Address>, ts: nat, a: Address)
    ensures var best := Winners(rows, batch, ts);
            (set g | g in best && best[g].base == a :: best[g]) == Of(Kept(rows, batch, ts), a)
  {
    hide Winners, GroupOf, Asked;
  }

  lemma WinnersAreSeries(rows: seq<Row>, batch: set<Address>, ts: nat, a: Address)
    requires OneBase(rows, ts) && NoTie(rows, ts) && a in batch
    ensures var best := Winners(rows, batch, ts);
            (set g | g in best && best[g].base == a :: best[g]) == Series(rows, a, ts)
  {
    KeptOf(rows, batch, ts, a);
    KeptIsLegal(rows, batch, ts);
    BatchGivesSeries(rows, batch, ts, Kept(rows, batch, ts), a);
    hide *;
  }

  // --------------------------------------------------------- both conditions are needed

  lemma Representative(rows: seq<Row>, batch: set<Address>, ts: nat, kept: set<Row>, r: Row) returns (t: Row)
    requires Legal(rows, batch, ts, kept) && r in rows && Asked(r, batch, ts)
    ensures t in kept && GroupOf(t) == GroupOf(r) && t.observedAt <= r.observedAt && t in rows && Asked(t, batch, ts)
    ensures forall s :: s in kept && GroupOf(s) == GroupOf(t) ==> s == t
  {
    t :| t in kept && GroupOf(t) == GroupOf(r) && t.observedAt <= r.observedAt;
  }

  lemma TwoBasesCompete(rows: seq<Row>, ts: nat, r: Row, s: Row)
    requires r in rows && s in rows && r.observedAt <= ts && s.observedAt <= ts
    requires GroupOf(r) == GroupOf(s) && r.base != s.base
    ensures !BatchIndependent(rows, ts)
  {
    hide Legal, Kept, GroupOf;
    var batch := {r.base, s.base};
    KeptIsLegal(rows, batch, ts);
    var t := Representative(rows, batch, ts, Kept(rows, batch, ts), r);
    var loser := if t.base == r.base then s else r;
    KeptIsLegal(rows, {loser.base}, ts);
    var own := Representative(rows, {loser.base}, ts, Kept(rows, {loser.base}, ts), loser);
    assert own in Of(Kept(rows, {loser.base}, ts), loser.base);
    assert own !in Of(Kept(rows, batch, ts), loser.base);
    assert loser.base in batch;
  }

  lemma SwapIsLegal(rows: seq<Row>, batch: set<Address>, ts: nat, kept: set<Row>, t: Row, u: Row)
    requires Legal(rows, batch, ts, kept) && t in kept
    requires u in rows && Asked(u, batch, ts) && GroupOf(u) == GroupOf(t) && u.observedAt <= t.observedAt
    ensures Legal(rows, batch, ts, kept - {t} + {u})
  {
    hide GroupOf, Asked;
    var other := kept - {t} + {u};
    forall q | q in rows && Asked(q, batch, ts)
      ensures exists p :: p in other && GroupOf(p) == GroupOf(q) && p.observedAt <= q.observedAt
    {
      var p := Representative(rows, batch, ts, kept, q);
      assert (if p == t then u else p) in other;
    }
  }

  lemma FirstIsLeast(rows: seq<Row>, ts: nat, r: Row, t: Row)
    requires First(rows, r.base, ts, r) && t in rows && t.base == r.base && t.observedAt <= ts &&
             GroupOf(t) == GroupOf(r)
    ensures r.observedAt <= t.observedAt
  {
  }

  lemma DifferenceShows(rows: seq<Row>, ts: nat, batch: set<Address>, kept: set<Row>, alone: set<Row>, t: Row)
    requires t.base in batch && Legal(rows, batch, ts, kept) && Legal(rows, {t.base}, ts, alone)
    requires t in kept && t !in alone
    ensures !BatchIndependent(rows, ts)
  {
    hide Legal;
    assert t in Of(kept, t.base) && t !in Of(alone, t.base);
  }

  lemma TieIsAmbiguous(rows: seq<Row>, ts: nat, r: Row, s: Row)
    requires First(rows, r.base, ts, r) && First(rows, s.base, ts, s) && r.base == s.base && GroupOf(r) == GroupOf(s)
    requires r != s
    ensures !BatchIndependent(rows, ts)
  {
    hide Legal, Kept, GroupOf, BatchIndependent;
    var batch := {r.base};
    var kept := Kept(rows, batch, ts);
    KeptIsLegal(rows, batch, ts);
    var t := Representative(rows, batch, ts, kept, r);
    FirstIsLeast(rows, ts, r, t);
    FirstIsLeast(rows, ts, s, t);
    FirstIsLeast(rows, ts, r, s);
    var u := if t == r then s else r;
    SwapIsLegal(rows, batch, ts, kept, t, u);
    DifferenceShows(rows, ts, batch, kept, kept - {t} + {u}, t);
  }

  /**
    Batching is safe exactly for lakes in which, at the decision time, a pair has one base
    token within an hour and its first observation there is unambiguous.
  */
  lemma BatchIndependentExactlyWhen(rows: seq<Row>, ts: nat)
    ensures BatchIndependent(rows, ts) <==> OneBase(rows, ts) && NoTie(rows, ts)
  {
    if OneBase(rows, ts) && NoTie(rows, ts) {
      forall batch, kept, alone, a | a in batch && Legal(rows, batch, ts, kept) && Legal(rows, {a}, ts, alone)
        ensures Of(kept, a) == Of(alone, a)
      {
        BatchGivesSeries(rows, batch, ts, kept, a);
        BatchGivesSeries(rows, {a}, ts, alone, a);
      }
    } else if !OneBase(rows, ts) {
      var r, s :| r in rows && s in rows && r.observedAt <= ts && s.observedAt <= ts && GroupOf(r) == GroupOf(s)
                  && r.base != s.base;
      TwoBasesCompete(rows, ts, r, s);
    } else {
      var r: Row, s: Row :| First(rows, r.base, ts, r) && First(rows, s.base, ts, s)
                            && r.base == s.base && GroupOf(r) == GroupOf(s) && r != s;
      TieIsAmbiguous(rows, ts, r, s);
    }
  }
}

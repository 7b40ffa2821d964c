/** Evidence rows, partitions and the idempotent partition merge of `ops/archive.py`. */
module Evidence {

  /** One Parquet object is kept per (source, year, month). */
  datatype Partition = Partition(source: nat, year: int, month: int)

  /** A raw evidence row; `body` stands for every column the archive does not look at. */
  datatype Row = Row(id: nat, partition: Partition, observedAt: int, body: nat)

  /** A row of the hot table; `archived` says whether `archived_at` is set. */
  datatype HotRow = HotRow(row: Row, archived: bool)

  /** The rows of one pass that belong to one partition. */
  datatype Group = Group(partition: Partition, rows: seq<Row>)

  predicate DistinctIds(rows: seq<Row>) {
    forall i, j :: 0 <= i < j < |rows| ==> rows[i].id != rows[j].id
  }

  predicate HasId(rows: seq<Row>, id: nat) {
    exists i :: 0 <= i < |rows| && rows[i].id == id
  }

  function IdsOf(rows: seq<Row>): set<nat> {
    set r <- rows :: r.id
  }

  lemma {:induction false} DistinctIdsCount(rows: seq<Row>)
    requires DistinctIds(rows)
    ensures |IdsOf(rows)| == |rows|
  {
    if rows != [] {
      var front, last := rows[..|rows| - 1], rows[|rows| - 1];
      DistinctIdsCount(front);
      assert rows == front + [last];
      assert IdsOf(rows) == IdsOf(front) + {last.id};
      assert last.id !in IdsOf(front);
    }
  }

  /** Stable first-wins deduplication on the evidence id. */
  function UniqueById(rows: seq<Row>): seq<Row> {
    if rows == [] then []
    else
      var kept := UniqueById(rows[..|rows| - 1]);
      var last := rows[|rows| - 1];
      if HasId(kept, last.id) then kept else kept + [last]
  }

  /** The merged frame a compactor writes over an existing object. */
  function Merge(existing: seq<Row>, batch: seq<Row>): seq<Row> {
    UniqueById(existing + batch)
  }

  lemma {:induction false} UniqueIsDistinct(rows: seq<Row>)
    ensures DistinctIds(UniqueById(rows))
    ensures forall r <- UniqueById(rows) :: r in rows
    ensures forall r <- rows :: HasId(UniqueById(rows), r.id)
  {
    if rows != [] {
      var front, last := rows[..|rows| - 1], rows[|rows| - 1];
      UniqueIsDistinct(front);
      var kept := UniqueById(front);
      assert rows == front + [last];
      if !HasId(kept, last.id) {
        assert UniqueById(rows)[|kept|] == last;
      }
      forall r | r in rows
        ensures HasId(UniqueById(rows), r.id)
      {
        if r in front {
          var i :| 0 <= i < |kept| && kept[i].id == r.id;
          assert UniqueById(rows)[i].id == r.id;
        }
      }
    }
  }

  lemma {:induction false} DistinctIsUnique(rows: seq<Row>)
    requires DistinctIds(rows)
    ensures UniqueById(rows) == rows
  {
    if rows != [] {
      var front := rows[..|rows| - 1];
      DistinctIsUnique(front);
      assert !HasId(front, rows[|rows| - 1].id);
    }
  }

  /** Rows that are already distinct survive, in order, in front of whatever is appended. */
  lemma {:induction false} UniqueKeepsDistinctPrefix(existing: seq<Row>, batch: seq<Row>)
    requires DistinctIds(existing)
    ensures existing <= UniqueById(existing + batch)
  {
    if batch == [] {
      DistinctIsUnique(existing);
      assert existing + batch == existing;
    } else {
      var front := batch[..|batch| - 1];
      assert (existing + batch)[..|existing + batch| - 1] == existing + front;
      UniqueKeepsDistinctPrefix(existing, front);
    }
  }

  /**
   * The merge appends: what was stored stays, in place; nothing is duplicated, nothing is invented,
   * and every id of the batch is stored afterwards.
   */
  lemma MergeAppends(existing: seq<Row>, batch: seq<Row>)
    requires DistinctIds(existing)
    ensures existing <= Merge(existing, batch)
    ensures DistinctIds(Merge(existing, batch))
    ensures forall r <- Merge(existing, batch) :: r in existing || r in batch
    ensures forall r <- batch :: HasId(Merge(existing, batch), r.id)
  {
    UniqueKeepsDistinctPrefix(existing, batch);
    UniqueIsDistinct(existing + batch);
    forall r | r in batch
      ensures r in existing + batch
    {
      var i :| 0 <= i < |batch| && batch[i] == r;
      assert (existing + batch)[|existing| + i] == r;
    }
  }

  /** Merging a batch that is already stored writes the same object again. */
  lemma {:induction false} MergeIsIdempotent(existing: seq<Row>, batch: seq<Row>)
    requires DistinctIds(existing)
    requires forall r <- batch :: HasId(existing, r.id)
    ensures Merge(existing, batch) == existing
  {
    if batch == [] {
      DistinctIsUnique(existing);
      assert existing + batch == existing;
    } else {
      var front := batch[..|batch| - 1];
      assert (existing + batch)[..|existing + batch| - 1] == existing + front;
      MergeIsIdempotent(existing, front);
      assert batch[|batch| - 1] in batch;
    }
  }

  /** Ids identify rows: every row is the one that was ingested under its id. */
  predicate Known(ever: map<nat, Row>, rows: seq<Row>) {
    forall r <- rows :: r.id in ever && ever[r.id] == r
  }

  predicate Covers(payload: seq<Row>, rows: seq<Row>) {
    forall r <- rows :: r in payload
  }

  /** Every batch row survives the merge unchanged: an id names one row only. */
  lemma MergeCovers(ever: map<nat, Row>, existing: seq<Row>, batch: seq<Row>)
    requires DistinctIds(existing) && Known(ever, existing) && Known(ever, batch)
    ensures Covers(Merge(existing, batch), batch)
    ensures Known(ever, Merge(existing, batch))
  {
    MergeAppends(existing, batch);
    var merged := Merge(existing, batch);
    forall r | r in batch
      ensures r in merged
    {
      var i :| 0 <= i < |merged| && merged[i].id == r.id;
      assert merged[i] in merged;
    }
  }
}

/** `RawEvidenceCompactor`: the merge of one partition, its retry loop, whole passes and pruning. */
module Compactor {
  import opened Prelude
  import opened Evidence
  import opened ConditionalWrites
  import opened ArchiveStores

  datatype Outcome = Merged | Conflict | WriteError

  datatype Report =
    | Done(compacted: nat, partitions: nat, pruned: nat)
    | Aborted(cause: Outcome)

  datatype Manifest = Manifest(rowCount: nat, digest: seq<Row>)

  function ManifestOf(payload: seq<Row>): Manifest {
    Manifest(|payload|, payload)
  }

  /** The only change of the store is that the group was merged into its object. */
  predicate MergedInto(before: Objects, now: Objects, g: Group) {
    && g.partition in now
    && now == before[g.partition := now[g.partition]]
    && now[g.partition].content == Merge(ContentOf(before, g.partition), g.rows)
  }

  type HotTable = map<nat, HotRow>

  /** The table after `archived_at` is set on some rows. */
  function Marked(hot: HotTable, ids: set<nat>): HotTable {
    map id | id in hot :: HotRow(hot[id].row, hot[id].archived || id in ids)
  }

  lemma MarkedTwice(hot: HotTable, a: set<nat>, b: set<nat>)
    ensures Marked(Marked(hot, a), b) == Marked(hot, a + b)
  {
  }

  predicate InFilter(filter: Option<set<Partition>>, k: Partition) {
    filter.Some? ==> k in filter.value
  }

  /** The rows of the batch that the per-partition schedule lets through. */
  function Taken(rows: seq<Row>, filter: Option<set<Partition>>): seq<Row> {
    if rows == [] then []
    else
      var last := rows[|rows| - 1];
      Taken(rows[..|rows| - 1], filter) + if InFilter(filter, last.partition) then [last] else []
  }

  function RowsOf(rows: seq<Row>, k: Partition): seq<Row> {
    Taken(rows, Some({k}))
  }

  /** The groups of a batch, in order of first appearance. */
  type Groups = Dict<Partition, seq<Row>>

  function GroupAt(groups: Groups, k: Partition): seq<Row> {
    if k in groups.items then groups.items[k] else []
  }

  /** Appends a row to the group of its partition, which is created if missing. */
  function AddRow(groups: Groups, row: Row): Groups {
    groups.Put(row.partition, GroupAt(groups, row.partition) + [row])
  }

  /** The groups split `taken` by partition; no group is empty. */
  ghost predicate GroupsOf(groups: Groups, taken: seq<Row>) {
    && groups.Valid()
    && (forall k <- groups.items :: groups.items[k] != [])
    && (forall k :: GroupAt(groups, k) == RowsOf(taken, k))
  }

  lemma NoGroups()
    ensures GroupsOf(Dict([], map[]), [])
  {
  }

  lemma AddRowKeepsGroups(groups: Groups, taken: seq<Row>, row: Row)
    requires GroupsOf(groups, taken)
    ensures GroupsOf(AddRow(groups, row), taken + [row])
  {
    var more := AddRow(groups, row);
    forall k
      ensures GroupAt(more, k) == RowsOf(taken + [row], k)
    {
      assert GroupAt(groups, k) == RowsOf(taken, k);
      TakenGrows(taken, row, Some({k}));
    }
  }

  /** There are as many groups as partitions. */
  lemma PartitionsCounted(groups: Groups, taken: seq<Row>)
    requires GroupsOf(groups, taken)
    ensures |groups.order| == |set r | r in taken :: r.partition|
  {
    var ks := set r | r in taken :: r.partition;
    forall k ensures k in groups.order <==> k in ks {
      var own := RowsOf(taken, k);
      assert GroupAt(groups, k) == own;
      TakenAre(taken, Some({k}));
      if own != [] {
        assert own[0] in own && own[0].partition == k;
      }
      assert k in ks ==> exists r :: r in taken && r.partition == k && r in own;
    }
    DistinctSize(groups.order, ks);
  }

  predicate Prunable(hot: HotTable, id: nat, retentionCutoff: int, referenced: set<nat>)
    requires id in hot
  {
    hot[id].archived && hot[id].row.observedAt < retentionCutoff && id !in referenced
  }

  /** Pruning keeps referenced, unarchived and younger rows as they are, and no others. */
  lemma PrunedKeeps(hot: HotTable, retentionCutoff: int, referenced: set<nat>)
    ensures var after := Pruned(hot, retentionCutoff, referenced);
      && (forall id <- hot :: id in referenced ==> id in after)
      && (forall id <- hot :: !hot[id].archived ==> id in after)
      && (forall id <- hot :: hot[id].row.observedAt >= retentionCutoff ==> id in after)
      && (forall id <- after :: id in hot && after[id] == hot[id])
      && (forall id <- after :: id in referenced || !after[id].archived || after[id].row.observedAt >= retentionCutoff)
  {
  }

  /**
   * The table after a pass that archived `ids`: what was archived before stays so, what the pass
   * took is archived, nothing else is; and exactly the archived, aged, unreferenced rows are gone.
   */
  predicate LeftBehind(before: HotTable, after: HotTable, ids: set<nat>, retentionCutoff: int, referenced: set<nat>) {
    && (forall id <- after :: id in before && after[id].row == before[id].row)
    && (forall id <- after :: after[id].archived <==> before[id].archived || id in ids)
    && (forall id <- before :: id in referenced ==> id in after)
    && (forall id <- before :: before[id].row.observedAt >= retentionCutoff ==> id in after)
    && (forall id <- before :: !before[id].archived && id !in ids ==> id in after)
    && (forall id <- after :: after[id].archived && id !in referenced ==> after[id].row.observedAt >= retentionCutoff)
  }

  /** Taking the filtered batch, marking and pruning leave this behind. */
  lemma PassLeavesBehind(hot: HotTable, rows: seq<Row>, filter: Option<set<Partition>>, retentionCutoff: int,
                         referenced: set<nat>)
    ensures LeftBehind(hot, Pruned(Marked(hot, IdsOf(Taken(rows, filter))), retentionCutoff, referenced),
                       set r | r in rows && (filter.Some? ==> r.partition in filter.value) :: r.id,
                       retentionCutoff, referenced)
  {
    TakenAre(rows, filter);
    var ids := set r | r in rows && (filter.Some? ==> r.partition in filter.value) :: r.id;
    assert ids == IdsOf(Taken(rows, filter));
  }

  function Pruned(hot: HotTable, retentionCutoff: int, referenced: set<nat>): HotTable {
    map id | id in hot && !Prunable(hot, id, retentionCutoff, referenced) :: hot[id]
  }

  lemma {:induction false} TakenAre(rows: seq<Row>, filter: Option<set<Partition>>)
    ensures forall r :: r in Taken(rows, filter) <==> r in rows && InFilter(filter, r.partition)
    ensures |Taken(rows, filter)| <= |rows|
  {
    if rows != [] {
      var front, last := rows[..|rows| - 1], rows[|rows| - 1];
      TakenAre(front, filter);
      assert rows == front + [last];
    }
  }

  lemma TakenGrows(rows: seq<Row>, row: Row, filter: Option<set<Partition>>)
    ensures Taken(rows + [row], filter)
            == if InFilter(filter, row.partition) then Taken(rows, filter) + [row] else Taken(rows, filter)
  {
    assert (rows + [row])[..|rows + [row]| - 1] == rows;
  }

  lemma {:induction false} TakenAreDistinct(rows: seq<Row>, filter: Option<set<Partition>>)
    requires DistinctIds(rows)
    ensures DistinctIds(Taken(rows, filter))
  {
    if rows != [] {
      var front, last := rows[..|rows| - 1], rows[|rows| - 1];
      TakenAreDistinct(front, filter);
      TakenAre(front, filter);
      var kept := Taken(front, filter);
      forall i | 0 <= i < |kept|
        ensures kept[i].id != last.id
      {
        assert kept[i] in front;
      }
    }
  }

  /** What an undisturbed pass leaves in the object of `k`. */
  function AfterMerge(before: Objects, taken: seq<Row>, k: Partition): seq<Row> {
    if RowsOf(taken, k) == [] then ContentOf(before, k) else Merge(ContentOf(before, k), RowsOf(taken, k))
  }

  /** The ids of the taken rows that belong to one of the partitions. */
  function IdsIn(taken: seq<Row>, ks: seq<Partition>): set<nat> {
    set r <- taken | r.partition in ks :: r.id
  }

  lemma IdsInGrow(taken: seq<Row>, ks: seq<Partition>, k: Partition)
    requires DistinctIds(taken) && k !in ks
    ensures IdsIn(taken, ks + [k]) == IdsIn(taken, ks) + IdsOf(RowsOf(taken, k))
    ensures |IdsIn(taken, ks + [k])| == |IdsIn(taken, ks)| + |RowsOf(taken, k)|
  {
    TakenAre(taken, Some({k}));
    TakenAreDistinct(taken, Some({k}));
    DistinctIdsCount(RowsOf(taken, k));
    forall id | id in IdsIn(taken, ks)
      ensures id !in IdsOf(RowsOf(taken, k))
    {
      var r :| r in taken && r.partition in ks && r.id == id;
      assert forall q <- taken :: q.id == id ==> q == r;
    }
  }

  lemma AllIdsIn(groups: Groups, taken: seq<Row>)
    requires GroupsOf(groups, taken) && DistinctIds(taken)
    ensures IdsIn(taken, groups.order) == IdsOf(taken) && |IdsOf(taken)| == |taken|
    ensures forall k :: k !in groups.order ==> RowsOf(taken, k) == []
  {
    DistinctIdsCount(taken);
    forall r | r in taken
      ensures r.partition in groups.order
    {
      TakenAre(taken, Some({r.partition}));
      assert GroupAt(groups, r.partition) == RowsOf(taken, r.partition);
    }
    forall k | k !in groups.order
      ensures RowsOf(taken, k) == []
    {
      assert GroupAt(groups, k) == RowsOf(taken, k);
    }
  }

  predicate AllCovered(objects: Objects, taken: seq<Row>, ks: seq<Partition>) {
    forall k <- ks :: Covers(ContentOf(objects, k), RowsOf(taken, k))
  }

  lemma CoveredStays(before: Objects, now: Objects, taken: seq<Row>, ks: seq<Partition>)
    requires Extends(before, now) && AllCovered(before, taken, ks)
    ensures AllCovered(now, taken, ks)
  {
    forall j, r | j in ks && r in RowsOf(taken, j)
      ensures r in ContentOf(now, j)
    {
      assert Covers(ContentOf(before, j), RowsOf(taken, j));
      var i :| 0 <= i < |ContentOf(before, j)| && ContentOf(before, j)[i] == r;
      assert ContentOf(now, j)[i] == r;
    }
  }

  lemma CoveredGrows(before: Objects, now: Objects, taken: seq<Row>, ks: seq<Partition>, k: Partition)
    requires Extends(before, now) && AllCovered(before, taken, ks) && Covers(ContentOf(now, k), RowsOf(taken, k))
    ensures AllCovered(now, taken, ks + [k])
  {
    CoveredStays(before, now, taken, ks);
  }

  lemma EverythingCovered(groups: Groups, taken: seq<Row>, objects: Objects)
    requires GroupsOf(groups, taken) && DistinctIds(taken) && AllCovered(objects, taken, groups.order)
    ensures forall k :: Covers(ContentOf(objects, k), RowsOf(taken, k))
  {
    AllIdsIn(groups, taken);
    forall k
      ensures Covers(ContentOf(objects, k), RowsOf(taken, k))
    {
      if k in groups.order {
        assert Covers(ContentOf(objects, k), RowsOf(taken, k));
      }
    }
  }

  /** The state of a quiet store after the partitions `ks` are merged. */
  ghost predicate MergedSoFar(start: Objects, now: Objects, taken: seq<Row>, ks: seq<Partition>) {
    forall k :: ContentOf(now, k) == (if k in ks then AfterMerge(start, taken, k) else ContentOf(start, k))
  }

  lemma MergedGrows(start: Objects, before: Objects, now: Objects, taken: seq<Row>, ks: seq<Partition>, g: Group)
    requires MergedSoFar(start, before, taken, ks) && MergedInto(before, now, g)
    requires g.partition !in ks && g.rows == RowsOf(taken, g.partition) && g.rows != []
    ensures MergedSoFar(start, now, taken, ks + [g.partition])
  {
  }

  /** Creating an object writes the batch itself. */
  lemma FirstBatchIsItsMerge(batch: seq<Row>)
    requires DistinctIds(batch)
    ensures Merge([], batch) == batch
    ensures Covers(batch, batch)
  {
    DistinctIsUnique(batch);
    assert [] + batch == batch;
  }

  /** What one attempt meets: the store at its stat, at its read and at its put. */
  datatype Sight = Sight(seen: Objects, read: Objects, met: Objects)

  /** The attempt is decided by its own three looks at the store, as in the protocol. */
  ghost predicate Attempted(sight: Sight, g: Group, put: PutResult, payload: seq<Row>, now: Objects) {
    var guard := GuardFor(sight.seen, g.partition);
    && Extends(sight.seen, sight.read) && Extends(sight.read, sight.met)
    && payload == Payload(guard, ContentOf(sight.read, g.partition), g.rows)
    && (put.Stored? <==> GuardHolds(sight.met, g.partition, guard))
    && PutOutcome(sight.met, now, g.partition, payload, put)
  }

  /** Stat, read, merge and conditional put of one attempt. */
  method PutMerged(store: ArchiveStore, g: Group) returns (put: PutResult, payload: seq<Row>, ghost sight: Sight)
    requires store.Valid() && DistinctIds(g.rows) && Known(store.ever, g.rows)
    modifies store
    ensures store.Valid() && Attempted(sight, g, put, payload, store.objects)
    ensures Extends(old(store.objects), sight.seen) && Extends(old(store.objects), store.objects)
    ensures old(store.landed) <= store.landed
    ensures put.PreconditionFailed? ==> old(store.landed)[g.partition] < store.landed[g.partition]
    ensures put.Stored? ==> Covers(payload, g.rows)
    ensures old(store.Quiet()) ==>
      && store.Quiet() && store.landed == old(store.landed) &&
          sight == Sight(old(store.objects), old(store.objects), old(store.objects))
      && payload == Merge(ContentOf(old(store.objects), g.partition), g.rows)
  {
    hide UniqueById, DistinctIds, Known, Covers, Merge, Extends, PutOutcome;
    var k := g.partition;
    ghost var start := store.objects;
    var stat := store.StatObject(k);
    ghost var statted, seen := store.Now(), store.objects;
    if stat.Some? {
      var existing := store.ReadObject(k);
      ghost var read := store.objects;
      assert Grown(statted, store.Now(), k);
      payload := Merge(existing, g.rows);
      MergeAppends(existing, g.rows);
      MergeCovers(store.ever, existing, g.rows);
      ghost var met;
      put, met := store.PutIfMatch(k, payload, stat.value.etag);
      sight := Sight(seen, read, met);
      ExtendsTransitive(start, seen, read);
      ExtendsTransitive(start, read, met);
      ExtendsTransitive(start, met, store.objects);
    } else {
      FirstBatchIsItsMerge(g.rows);
      payload := g.rows;
      ghost var met;
      put, met := store.PutIfAbsent(k, payload);
      sight := Sight(seen, seen, met);
      ExtendsItself(seen);
      ExtendsTransitive(start, seen, met);
      ExtendsTransitive(start, met, store.objects);
    }
  }

  /** What is stat'ed has the size of the payload, and what is read then is the payload. */
  predicate ReadsBack(sized: Objects, read: Objects, k: Partition, payload: seq<Row>) {
    |ContentOf(sized, k)| == |payload| && ContentOf(read, k) == payload
  }

  /** Read-back verification: size first, then the bytes. */
  method Verified(store: ArchiveStore, k: Partition, payload: seq<Row>)
    returns (ok: bool, ghost sized: Objects, ghost read: Objects)
    requires store.Valid() && k in store.objects
    modifies store
    ensures store.Valid() && Moved(old(store.Now()), store.Now())
    ensures Extends(old(store.objects), sized) && Extends(sized, read) && Extends(read, store.objects)
    ensures ok <==> ReadsBack(sized, read, k, payload)
    ensures ok ==> k in store.objects && store.objects[k].content == payload
    ensures !ok && old(store.objects)[k].content == payload ==> old(store.landed)[k] < store.landed[k]
    ensures old(store.Quiet()) ==>
              store.Quiet() && store.landed == old(store.landed) && store.objects == old(store.objects)
  {
    var written := store.StatObject(k);
    ghost var mid := store.Now();
    sized, read := store.objects, store.objects;
    assert Grown(old(store.Now()), mid, k);
    if written.value.size != |payload| {
      return false, sized, read;
    }
    var stored := store.ReadObject(k);
    MovedTransitive(old(store.Now()), mid, store.Now());
    assert Grown(old(store.Now()), store.Now(), k);
    read := store.objects;
    ok := stored == payload;
  }

  datatype PassStart = PassStart(hot: HotTable, objects: Objects, landed: multiset<Partition>, quiet: bool)

  class RawEvidenceCompactor {
    const store: ArchiveStore
    /** The hot table as this session sees it. */
    var hot: HotTable
    var manifests: map<Partition, Manifest>

    ghost predicate RowsKnown()
      reads this
    {
      forall id <- hot :: hot[id].row.id == id && id in store.ever && store.ever[id] == hot[id].row
    }

    /** Every row marked archived is in the object of its partition. */
    ghost predicate MarksInLake(objects: Objects)
      reads this
    {
      forall id <- hot :: hot[id].archived ==> hot[id].row in ContentOf(objects, hot[id].row.partition)
    }

    ghost predicate Valid()
      reads this, store
    {
      store.Valid() && RowsKnown() && MarksInLake(store.objects)
    }

    ghost predicate InHot(rows: seq<Row>)
      reads this
    {
      forall r <- rows :: r.id in hot && hot[r.id].row == r
    }

    ghost predicate GroupOk(g: Group)
      reads this
    {
      g.rows != [] && DistinctIds(g.rows) && InHot(g.rows) && forall r <- g.rows :: r.partition == g.partition
    }

    constructor (store: ArchiveStore)
      requires store.Valid()
      ensures Valid() && this.store == store && hot == map[] && manifests == map[]
    {
      this.store, hot, manifests := store, map[], map[];
    }

    /** Marks stay justified as the objects grow. */
    lemma MarksStay(before: Objects, now: Objects)
      requires Extends(before, now) && MarksInLake(before)
      ensures MarksInLake(now)
    {
      forall id | id in hot && hot[id].archived
        ensures hot[id].row in ContentOf(now, hot[id].row.partition)
      {
        var k := hot[id].row.partition;
        var i :| 0 <= i < |before[k].content| && before[k].content[i] == hot[id].row;
        assert now[k].content[i] == hot[id].row;
      }
    }

    /** Sets `archived_at` on the rows of a group. */
    method MarkArchived(rows: seq<Row>)
      requires InHot(rows)
      modifies this`hot
      ensures hot == Marked(old(hot), IdsOf(rows))
    {
      for i := 0 to |rows|
        invariant hot == Marked(old(hot), IdsOf(rows[..i]))
      {
        assert rows[i] in rows;
        assert rows[..i + 1] == rows[..i] + [rows[i]];
        hot := hot[rows[i].id := hot[rows[i].id].(archived := true)];
      }
      assert rows[..|rows|] == rows;
    }

    /**
     * One attempt: put, verify, record the manifest, mark the rows. Rivals may write again between
     * the read-back and the manifest, which then describes an earlier version of the object.
     */
    method MergeOnePartition(g: Group) returns (outcome: Outcome)
      requires Valid() && GroupOk(g)
      modifies this`hot, this`manifests, store
      ensures Valid()
      ensures Extends(old(store.objects), store.objects) && old(store.landed) <= store.landed
      ensures outcome.Merged? ==>
                Covers(ContentOf(store.objects, g.partition), g.rows) && hot == Marked(old(hot), IdsOf(g.rows))
      ensures outcome.Merged? ==> exists written: seq<Row> ::
        && written <= ContentOf(store.objects, g.partition) && Covers(written, g.rows)
        && manifests == old(manifests)[g.partition := Manifest(|written|, written)]
      ensures outcome.Merged? && old(store.Quiet()) ==>
        && g.partition in manifests && manifests[g.partition].digest == ContentOf(store.objects, g.partition)
        && manifests[g.partition].rowCount == |ContentOf(store.objects, g.partition)|
      ensures !outcome.Merged? ==> manifests == old(manifests)
      ensures !outcome.Merged? ==> hot == old(hot) && old(store.landed)[g.partition] < store.landed[g.partition]
      ensures old(store.Quiet()) ==>
        && outcome.Merged? && store.Quiet() && store.landed == old(store.landed)
        && MergedInto(old(store.objects), store.objects, g)
    {
      assert Known(store.ever, g.rows);
      var put, payload, sight := PutMerged(store, g);
      MarksStay(old(store.objects), store.objects);
      if put.PreconditionFailed? {
        return Conflict;
      }
      ghost var mid := store.objects;
      var ok, sized, read := Verified(store, g.partition, payload);
      MarksStay(mid, store.objects);
      if !ok {
        return WriteError;
      }
      RecordMerged(g, payload);
      outcome := Merged;
    }

    /** The database's half: rivals may come and go before the manifest is written and the rows are marked. */
    method RecordMerged(g: Group, written: seq<Row>)
      requires Valid() && GroupOk(g) && Covers(written, g.rows)
      requires g.partition in store.objects && store.objects[g.partition].content == written
      modifies this`hot, this`manifests, store
      ensures Valid() && Extends(old(store.objects), store.objects) && old(store.landed) <= store.landed
      ensures hot == Marked(old(hot), IdsOf(g.rows)) && Covers(ContentOf(store.objects, g.partition), g.rows)
      ensures manifests == old(manifests)[g.partition := ManifestOf(written)] &&
              written <= ContentOf(store.objects, g.partition)
      ensures old(store.Quiet()) ==>
                store.Quiet() && store.landed == old(store.landed) && store.objects == old(store.objects)
    {
      store.Yield();
      MarksStay(old(store.objects), store.objects);
      var now := store.objects[g.partition].content;
      assert Covers(now, g.rows) by {
        forall r | r in g.rows ensures r in now {
          var i :| 0 <= i < |written| && written[i] == r;
          assert now[i] == r;
        }
      }
      manifests := manifests[g.partition := ManifestOf(written)];
      MarkArchived(g.rows);
    }

    /** A lost race is retried on the fresh object; the third loss fails the pass. */
    method CompactPartition(g: Group) returns (outcome: Outcome, ghost attempts: nat)
      requires Valid() && GroupOk(g)
      modifies this`hot, this`manifests, store
      ensures Valid()
      ensures Extends(old(store.objects), store.objects) && old(store.landed) <= store.landed
      ensures outcome.Merged? ==>
                Covers(ContentOf(store.objects, g.partition), g.rows) && hot == Marked(old(hot), IdsOf(g.rows))
      ensures !outcome.Merged? ==> hot == old(hot)
      ensures 1 <= attempts <= 3 && (outcome.Conflict? ==> attempts == 3)
      ensures outcome.Conflict? ==> old(store.landed)[g.partition] + 3 <= store.landed[g.partition]
      ensures outcome.WriteError? ==> old(store.landed)[g.partition] < store.landed[g.partition]
      ensures old(store.Quiet()) ==>
        && outcome.Merged? && store.Quiet() && store.landed == old(store.landed)
        && MergedInto(old(store.objects), store.objects, g)
    {
      var attempt := 0;
      outcome, attempts := Conflict, 0;
      while attempt < MERGE_RETRIES
        invariant 0 <= attempt <= MERGE_RETRIES && attempts == attempt
        invariant Valid() && hot == old(hot) && outcome.Conflict?
        invariant Extends(old(store.objects), store.objects) && old(store.landed) <= store.landed
        invariant old(store.landed)[g.partition] + attempt <= store.landed[g.partition]
        invariant old(store.Quiet()) ==> store.Quiet() && attempt == 0
        invariant old(store.Quiet()) ==> store.landed == old(store.landed) && store.objects == old(store.objects)
      {
        outcome := MergeOnePartition(g);
        attempts := attempts + 1;
        if !outcome.Conflict? {
          return;
        }
        attempt := attempt + 1;
      }
    }

    /**
     * Deletes aged, archived rows that no normalized table refers to. Referenced, unarchived and
     * younger rows stay as they are, and no others do.
     */
    method Prune(retentionCutoff: int, referenced: set<nat>) returns (deleted: nat)
      requires Valid()
      modifies this`hot
      ensures Valid()
      ensures forall id <- old(hot) :: id in referenced ==> id in hot
      ensures forall id <- old(hot) :: !old(hot)[id].archived ==> id in hot
      ensures forall id <- old(hot) :: old(hot)[id].row.observedAt >= retentionCutoff ==> id in hot
      ensures forall id <- hot :: id in old(hot) && hot[id] == old(hot)[id]
      ensures forall id <- hot :: id in referenced || !hot[id].archived || hot[id].row.observedAt >= retentionCutoff
      ensures hot == Pruned(old(hot), retentionCutoff, referenced)
      ensures deleted == |old(hot)| - |hot|
    {
      hide Prunable;
      PrunedKeeps(hot, retentionCutoff, referenced);
      deleted := DeletePrunable(retentionCutoff, referenced);
    }

    /** The loop over the rows that the query selects. */
    method DeletePrunable(retentionCutoff: int, referenced: set<nat>) returns (deleted: nat)
      requires Valid()
      modifies this`hot
      ensures Valid()
      ensures hot == Pruned(old(hot), retentionCutoff, referenced)
      ensures deleted == |old(hot)| - |hot|
    {
      var victims := set id | id in hot && Prunable(hot, id, retentionCutoff, referenced);
      deleted := 0;
      while victims != {}
        invariant victims <= hot.Keys && hot.Keys <= old(hot).Keys
        invariant forall id <- hot :: hot[id] == old(hot)[id]
        invariant forall id <- old(hot) :: id in hot <==>
                  id in victims || !Prunable(old(hot), id, retentionCutoff, referenced)
        invariant forall id <- victims :: Prunable(old(hot), id, retentionCutoff, referenced)
        invariant deleted == |old(hot)| - |hot|
      {
        var id :| id in victims;
        victims := victims - {id};
        assert hot.Keys - {id} == (hot - {id}).Keys;
        assert |(hot - {id}).Keys| == |hot.Keys| - 1;
        hot := hot - {id};
        deleted := deleted + 1;
      }
    }

    /** The per-partition groups of a batch, in order of first appearance. */
    method GroupBatch(rows: seq<Row>, filter: Option<set<Partition>>) returns (groups: Groups)
      ensures GroupsOf(groups, Taken(rows, filter))
    {
      hide GroupsOf, AddRow, Distinct, InFilter;
      NoGroups();
      groups := Dict([], map[]);
      for i := 0 to |rows|
        invariant GroupsOf(groups, Taken(rows[..i], filter))
      {
        var row := rows[i];
        TakenGrows(rows[..i], row, filter);
        assert rows[..i + 1] == rows[..i] + [row];
        if InFilter(filter, row.partition) {
          AddRowKeepsGroups(groups, Taken(rows[..i], filter), row);
          groups := AddRow(groups, row);
        }
      }
      assert rows[..|rows|] == rows;
    }

    /** How the session and the store looked when the pass began. */
    ghost function Start(): PassStart
      reads this, store
    {
      PassStart(hot, store.objects, store.landed, store.Quiet())
    }

    /** The partitions `ks` of the pass are merged, marked and counted. */
    ghost predicate Progress(start: PassStart, taken: seq<Row>, ks: seq<Partition>, compacted: nat)
      reads this, store
    {
      && Valid() && InHot(taken)
      && Extends(start.objects, store.objects) && start.landed <= store.landed
      && hot == Marked(start.hot, IdsIn(taken, ks)) && compacted == |IdsIn(taken, ks)|
      && AllCovered(store.objects, taken, ks)
      && (start.quiet ==> store.Quiet() && MergedSoFar(start.objects, store.objects, taken, ks))
    }

    lemma ProgressStarts(taken: seq<Row>)
      requires Valid() && InHot(taken)
      ensures Progress(Start(), taken, [], 0)
    {
      assert IdsIn(taken, []) == {};
      assert Marked(hot, {}) == hot;
    }

    lemma ProgressGrows(start: PassStart, was: PassStart, g: Group, taken: seq<Row>, ks: seq<Partition>, done: nat)
      requires was.hot == Marked(start.hot, IdsIn(taken, ks)) && done == |IdsIn(taken, ks)| &&
               AllCovered(was.objects, taken, ks)
      requires forall r <- taken :: r.id in was.hot && was.hot[r.id].row == r
      requires Extends(start.objects, was.objects) && start.landed <= was.landed
      requires start.quiet ==> was.quiet && MergedSoFar(start.objects, was.objects, taken, ks)
      requires Valid() && Extends(was.objects, store.objects) && was.landed <= store.landed &&
               hot == Marked(was.hot, IdsOf(g.rows))
      requires was.quiet ==> store.Quiet() && MergedInto(was.objects, store.objects, g)
      requires DistinctIds(taken) && g.rows == RowsOf(taken, g.partition) && g.rows != [] && g.partition !in ks
      requires Covers(ContentOf(store.objects, g.partition), g.rows)
      ensures Progress(start, taken, ks + [g.partition], done + |g.rows|)
    {
      hide Valid, Taken, Covers, Merge, AfterMerge;
      IdsInGrow(taken, ks, g.partition);
      MarkedTwice(start.hot, IdsIn(taken, ks), IdsOf(g.rows));
      CoveredGrows(was.objects, store.objects, taken, ks, g.partition);
      if start.quiet {
        MergedGrows(start.objects, was.objects, store.objects, taken, ks, g);
      }
    }

    /** The merge of the next partition of a pass. */
    method MergeNextGroup(g: Group, ghost start: PassStart, ghost taken: seq<Row>, ghost ks: seq<Partition>,
                          ghost done: nat)
      returns (cause: Outcome)
      requires Progress(start, taken, ks, done)
      requires GroupOk(g) && DistinctIds(taken) && g.rows == RowsOf(taken, g.partition) && g.partition !in ks
      modifies this`hot, this`manifests, store
      ensures cause.Merged? ==> Progress(start, taken, ks + [g.partition], done + |g.rows|)
      ensures !cause.Merged? ==>
        && Progress(start, taken, ks, done) && !start.quiet
        && start.landed[g.partition] < store.landed[g.partition]
    {
      ghost var was := Start();
      assert forall r <- taken :: r.id in was.hot && was.hot[r.id].row == r;
      assert g.rows != [];
      assert was.hot == Marked(start.hot, IdsIn(taken, ks)) && AllCovered(was.objects, taken, ks) &&
          Extends(start.objects, was.objects);
      assert Valid() && start.landed <= was.landed && done == |IdsIn(taken, ks)|;
      assert start.quiet ==> was.quiet && MergedSoFar(start.objects, was.objects, taken, ks);
      hide *;
      ghost var attempts;
      cause, attempts := CompactPartition(g);
      if cause.Merged? {
        ProgressGrows(start, was, g, taken, ks, done);
      } else {
        ProgressStays(start, was, taken, ks, done);
      }
    }

    lemma ProgressStays(start: PassStart, was: PassStart, taken: seq<Row>, ks: seq<Partition>, done: nat)
      requires was.hot == Marked(start.hot, IdsIn(taken, ks)) && done == |IdsIn(taken, ks)| &&
               AllCovered(was.objects, taken, ks)
      requires forall r <- taken :: r.id in was.hot && was.hot[r.id].row == r
      requires Extends(start.objects, was.objects) && start.landed <= was.landed && (start.quiet ==> was.quiet) &&
               !was.quiet
      requires Valid() && Extends(was.objects, store.objects) && was.landed <= store.landed && hot == was.hot
      ensures Progress(start, taken, ks, done)
    {
      CoveredStays(was.objects, store.objects, taken, ks);
    }

    /** The merges of one pass, partition after partition, up to the first failure. */
    method MergeGroups(groups: Groups, ghost start: PassStart, ghost taken: seq<Row>)
      returns (cause: Outcome, compacted: nat, ghost done: nat)
      requires Progress(start, taken, [], 0) && DistinctIds(taken) && GroupsOf(groups, taken)
      modifies this`hot, this`manifests, store
      ensures done <= |groups.order| && Progress(start, taken, groups.order[..done], compacted)
      ensures cause.Merged? ==> done == |groups.order|
      ensures !cause.Merged? ==>
        !start.quiet && done < |groups.order| && start.landed[groups.order[done]] < store.landed[groups.order[done]]
    {
      hide *;
      cause, compacted, done := Merged, 0, 0;
      var order := groups.order;
      for i := 0 to |order|
        invariant done == i && Progress(start, taken, order[..i], compacted)
        invariant cause.Merged?
      {
        var g := Group(order[i], GroupAt(groups, order[i]));
        NextGroup(start, groups, taken, i, compacted);
        cause := MergeNextGroup(g, start, taken, order[..i], compacted);
        if !cause.Merged? {
          return;
        }
        assert order[..i + 1] == order[..i] + [order[i]];
        compacted, done := compacted + |g.rows|, i + 1;
      }
    }

    lemma NextGroup(start: PassStart, groups: Groups, taken: seq<Row>, i: nat, compacted: nat)
      requires DistinctIds(taken) && GroupsOf(groups, taken) && i < |groups.order|
      requires Progress(start, taken, groups.order[..i], compacted)
      ensures var g := Group(groups.order[i], GroupAt(groups, groups.order[i]));
        GroupOk(g) && g.partition !in groups.order[..i] && g.rows == RowsOf(taken, g.partition)
    {
      var k := groups.order[i];
      assert k in groups.order;
      TakenAre(taken, Some({k}));
      TakenAreDistinct(taken, Some({k}));
    }

    lemma ProgressEnds(start: PassStart, groups: Groups, taken: seq<Row>, compacted: nat)
      requires DistinctIds(taken) && GroupsOf(groups, taken) && Progress(start, taken, groups.order, compacted)
      ensures hot == Marked(start.hot, IdsOf(taken)) && compacted == |taken|
      ensures forall k :: Covers(ContentOf(store.objects, k), RowsOf(taken, k))
      ensures start.quiet ==> forall k :: ContentOf(store.objects, k) == AfterMerge(start.objects, taken, k)
    {
      AllIdsIn(groups, taken);
      EverythingCovered(groups, taken, store.objects);
    }

    /**
     * One pass. `rows` is the database's answer to the batch query; under the merge lock the store
     * is quiet. An aborted pass keeps the marks of the partitions it finished and prunes nothing.
     */
    method Compact(rows: seq<Row>, filter: Option<set<Partition>>, retentionCutoff: int, referenced: set<nat>)
      returns (report: Report)
      requires Valid() && DistinctIds(rows) && InHot(rows)
      modifies this`hot, this`manifests, store
      ensures Valid() && Extends(old(store.objects), store.objects)
      ensures report.Done? ==>
        && hot == Pruned(Marked(old(hot), IdsOf(Taken(rows, filter))), retentionCutoff, referenced)
        && report.compacted == |Taken(rows, filter)| && report.pruned == |old(hot)| - |hot|
        && report.partitions == |set r | r in Taken(rows, filter) :: r.partition|
        && LeftBehind(old(hot), hot, set r | r in rows && (filter.Some? ==> r.partition in filter.value) :: r.id,
                      retentionCutoff, referenced)
        && (forall k :: Covers(ContentOf(store.objects, k), RowsOf(Taken(rows, filter), k)))
      ensures report.Aborted? ==>
        && (exists ks: seq<Partition> :: hot == Marked(old(hot), IdsIn(Taken(rows, filter), ks))
                                         && AllCovered(store.objects, Taken(rows, filter), ks))
        && (exists k :: old(store.landed)[k] < store.landed[k])
      ensures old(store.Quiet()) ==>
        && report.Done? && store.Quiet()
        && forall k :: ContentOf(store.objects, k) == AfterMerge(old(store.objects), Taken(rows, filter), k)
    {
      var groups := GroupBatch(rows, filter);
      ghost var taken := Taken(rows, filter);
      TakenAre(rows, filter);
      TakenAreDistinct(rows, filter);
      ghost var start := Start();
      ProgressStarts(taken);
      var cause, compacted, done := MergeGroups(groups, start, taken);
      if !cause.Merged? {
        return Aborted(cause);
      }
      assert groups.order[..done] == groups.order;
      ProgressEnds(start, groups, taken, compacted);
      PartitionsCounted(groups, taken);
      assert hot.Keys == start.hot.Keys;
      PassLeavesBehind(start.hot, rows, filter, retentionCutoff, referenced);
      var pruned := Prune(retentionCutoff, referenced);
      report := Done(compacted, |groups.order|, pruned);
    }
  }

  /** Unarchived rows older than the cutoff: what is still to be compacted. */
  function Backlog(hot: HotTable, cutoff: int): set<nat> {
    set id | id in hot && hot[id].row.observedAt < cutoff && !hot[id].archived
  }

  /** `due_partitions`: the partitions with a backlog. */
  function DuePartitions(hot: HotTable, cutoff: int): set<Partition> {
    set id | id in Backlog(hot, cutoff) :: hot[id].row.partition
  }

  /** The answer of the batch query: the oldest `limit` rows of the backlog, oldest first. */
  ghost predicate IsBatch(hot: HotTable, cutoff: int, limit: nat, rows: seq<Row>) {
    && DistinctIds(rows)
    && (forall r <- rows :: r.id in Backlog(hot, cutoff) && hot[r.id].row == r)
    && |rows| == (if |Backlog(hot, cutoff)| < limit then |Backlog(hot, cutoff)| else limit)
    && (forall i, j :: 0 <= i < j < |rows| ==> rows[i].observedAt <= rows[j].observedAt)
    && (forall r, id :: r in rows && id in Backlog(hot, cutoff) - IdsOf(rows) ==>
        r.observedAt <= hot[id].row.observedAt)
  }

  /** The hot table after a completed pass over `rows`, as `Compact` leaves it. */
  function AfterPass(hot: HotTable, rows: seq<Row>, filter: Option<set<Partition>>, retentionCutoff: int,
                     referenced: set<nat>): HotTable {
    Pruned(Marked(hot, IdsOf(Taken(rows, filter))), retentionCutoff, referenced)
  }

  predicate RowsMatch(hot: HotTable) {
    forall id <- hot :: hot[id].row.id == id
  }

  /** A pass takes exactly the scheduled part of its batch off the backlog; pruning takes nothing from it. */
  lemma PassShrinksBacklog(
    hot: HotTable, cutoff: int, limit: nat, rows: seq<Row>, filter: Option<set<Partition>>, retentionCutoff: int,
    referenced: set<nat>)
    requires RowsMatch(hot) && IsBatch(hot, cutoff, limit, rows)
    ensures var after := AfterPass(hot, rows, filter, retentionCutoff, referenced);
      && RowsMatch(after)
      && Backlog(after, cutoff) == Backlog(hot, cutoff) - IdsOf(Taken(rows, filter))
      && |Backlog(after, cutoff)| == |Backlog(hot, cutoff)| - |Taken(rows, filter)|
  {
    TakenAre(rows, filter);
    TakenAreDistinct(rows, filter);
    DistinctIdsCount(Taken(rows, filter));
    var after := AfterPass(hot, rows, filter, retentionCutoff, referenced);
    assert Backlog(after, cutoff) == Backlog(hot, cutoff) - IdsOf(Taken(rows, filter));
    assert IdsOf(Taken(rows, filter)) <= Backlog(hot, cutoff);
  }

  /**
   * A scheduled pass moves exactly when its partitions occur among the oldest `limit` rows: a due
   * partition whose rows are all younger than a full batch is not helped by being scheduled.
   */
  lemma ScheduledPassMoves(
    hot: HotTable, cutoff: int, limit: nat, rows: seq<Row>, due: set<Partition>, retentionCutoff: int,
    referenced: set<nat>)
    requires RowsMatch(hot) && IsBatch(hot, cutoff, limit, rows)
    ensures Backlog(AfterPass(hot, rows, Some(due), retentionCutoff, referenced), cutoff) != Backlog(hot, cutoff)
       <==> exists r <- rows :: r.partition in due
  {
    PassShrinksBacklog(hot, cutoff, limit, rows, Some(due), retentionCutoff, referenced);
    TakenAre(rows, Some(due));
    if r :| r in rows && r.partition in due {
      assert r in Taken(rows, Some(due));
      assert r.id in IdsOf(Taken(rows, Some(due)));
    } else {
      assert IdsOf(Taken(rows, Some(due))) == {};
    }
  }

  /** Consecutive unfiltered passes with a fixed cutoff and no new aged rows. */
  ghost predicate IsDrain(hots: seq<HotTable>, batches: seq<seq<Row>>, cutoff: int, limit: nat, retentionCutoff: int,
                          referenced: set<nat>) {
    && |hots| == |batches| + 1
    && RowsMatch(hots[0])
    && forall i :: 0 <= i < |batches| ==>
         IsBatch(hots[i], cutoff, limit, batches[i]) &&
             hots[i + 1] == AfterPass(hots[i], batches[i], None, retentionCutoff, referenced)
  }

  lemma {:induction false} TakenUnfiltered(rows: seq<Row>)
    ensures Taken(rows, None) == rows
  {
    if rows != [] {
      TakenUnfiltered(rows[..|rows| - 1]);
    }
  }

  lemma {:induction false} DrainShrinks(
    hots: seq<HotTable>, batches: seq<seq<Row>>, cutoff: int, limit: nat, retentionCutoff: int, referenced: set<nat>,
    i: nat)
    requires IsDrain(hots, batches, cutoff, limit, retentionCutoff, referenced) && i <= |batches|
    ensures RowsMatch(hots[i])
    ensures var n := |Backlog(hots[0], cutoff)|;
      |Backlog(hots[i], cutoff)| == if n < i * limit then 0 else n - i * limit
  {
    if i > 0 {
      DrainShrinks(hots, batches, cutoff, limit, retentionCutoff, referenced, i - 1);
      PassShrinksBacklog(hots[i - 1], cutoff, limit, batches[i - 1], None, retentionCutoff, referenced);
      TakenUnfiltered(batches[i - 1]);
      assert i * limit == (i - 1) * limit + limit;
    }
  }

  /** ceil(n / limit) unfiltered passes leave no partition due, and fewer do not. */
  lemma PassesDrainBacklog(
    hots: seq<HotTable>, batches: seq<seq<Row>>, cutoff: int, limit: nat, retentionCutoff: int, referenced: set<nat>)
    requires IsDrain(hots, batches, cutoff, limit, retentionCutoff, referenced)
    ensures DuePartitions(hots[|batches|], cutoff) == {} <==> |Backlog(hots[0], cutoff)| <= |batches| * limit
    ensures (forall id <- hots[|batches|] ::
               hots[|batches|][id].archived || hots[|batches|][id].row.observedAt >= cutoff)
       <==> |set id | id in hots[0] && !hots[0][id].archived && hots[0][id].row.observedAt < cutoff|
            <= |batches| * limit
  {
    var last := hots[|batches|];
    assert (set id | id in hots[0] && !hots[0][id].archived && hots[0][id].row.observedAt < cutoff)
        == Backlog(hots[0], cutoff);
    assert Backlog(last, cutoff) == {} <==>
      forall id <- last :: last[id].archived || last[id].row.observedAt >= cutoff by {
      if Backlog(last, cutoff) == {} {
        forall id | id in last ensures last[id].archived || last[id].row.observedAt >= cutoff {
          assert id !in Backlog(last, cutoff);
        }
      }
    }
    DrainShrinks(hots, batches, cutoff, limit, retentionCutoff, referenced, |batches|);
    if Backlog(last, cutoff) != {} {
      var id :| id in Backlog(last, cutoff);
      assert last[id].row.partition in DuePartitions(last, cutoff);
    }
  }
}

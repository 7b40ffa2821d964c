/** What every step of the archive protocol keeps, and what that means for whole runs. */
module ArchiveSafety {
  import opened Prelude
  import opened Evidence
  import opened ConditionalWrites
  import opened ArchiveProtocol

  /** A row is safe once it is known and in the object of its partition. */
  predicate Archived(s: State, id: nat) {
    id in s.ever && InLake(s, s.ever[id])
  }

  predicate ObjectOk(s: State, k: Partition)
    requires k in s.objects
  {
    var o := s.objects[k];
    && DistinctIds(o.content)
    && (forall r <- o.content :: r.partition == k && r.id in s.ever && s.ever[r.id] == r)
    && (k, o.etag) in s.issued && s.issued[(k, o.etag)] == o.content
  }

  /** Every content an ETag ever stood for is a prefix of what the object holds now. */
  predicate TagsOk(s: State) {
    forall t <- s.issued :: t.0 in s.objects && s.issued[t] <= s.objects[t.0].content
  }

  predicate HotOk(s: State) {
    forall id <- s.hot :: s.hot[id].row.id == id && id in s.ever && s.ever[id] == s.hot[id].row
  }

  /** No row is lost: it is hot, or in the lake; archived rows are in the lake in any case. */
  predicate RowsOk(s: State) {
    && (forall id <- s.ever :: s.ever[id].id == id)
    && (forall id <- s.ever :: id in s.hot || Archived(s, id))
    && (forall id <- s.hot :: s.hot[id].archived ==> Archived(s, id))
  }

  predicate GroupOk(s: State, g: Group) {
    && g.rows != []
    && DistinctIds(g.rows)
    && forall r <- g.rows :: r.partition == g.partition && r.id in s.ever && s.ever[r.id] == r
  }

  predicate TxnOk(s: State, txn: Txn) {
    && (forall id <- txn.marked :: Archived(s, id))
    && (forall id <- txn.pruned :: Archived(s, id))
  }

  /** What a compactor in the middle of a merge may rely on, whatever its rivals do. */
  predicate PcOk(s: State, p: Pid, pc: Pc, g: Group) {
    var k := g.partition;
    match pc
    case Reading(tag) =>
      k in s.objects && (tag.Some? ==> (k, tag.value) in s.issued)
    case Putting(guard, read) =>
      && (guard.IfMatch? ==> (k, guard.etag) in s.issued && s.issued[(k, guard.etag)] <= read)
      && (!guard.IfAbsent? ==> k in s.objects && read <= s.objects[k].content)
    case Renaming(replacement) =>
      k in s.objects && s.lock == Some(p) && s.backend.Local? && replacement == Merge(s.objects[k].content, g.rows)
    case CheckingSize(payload) => Covers(payload, g.rows)
    case CheckingHash(payload) => Covers(payload, g.rows)
    case _ => true
  }

  predicate ProcOk(s: State, p: Pid, proc: Proc) {
    && TxnOk(s, proc.txn)
    && (forall g <- proc.todo :: GroupOk(s, g))
    && (Merging(proc.pc) ==> proc.todo != [] && PcOk(s, p, proc.pc, proc.todo[0]))
    && (proc.pc.Locking? ==> proc.todo != [])
    && (Merging(proc.pc) && s.backend.Local? ==> s.lock == Some(p))
  }

  ghost predicate Inv(s: State) {
    && (forall k <- s.objects :: ObjectOk(s, k))
    && TagsOk(s)
    && HotOk(s)
    && RowsOk(s)
    && (forall p <- s.procs :: ProcOk(s, p, s.procs[p]))
  }

  /** How the store and the set of known rows may change: both only grow. */
  predicate Grows(s: State, s': State) {
    && s'.backend == s.backend
    && (forall id <- s.ever :: id in s'.ever && s'.ever[id] == s.ever[id])
    && (forall k <- s.objects :: k in s'.objects && s.objects[k].content <= s'.objects[k].content)
    && (forall t <- s.issued :: t in s'.issued && s'.issued[t] == s.issued[t])
  }

  /** The prefix order makes "is in the lake" stable. */
  lemma ArchivedIsStable(s: State, s': State, id: nat)
    requires Grows(s, s') && Archived(s, id)
    ensures Archived(s', id)
  {
    var row := s.ever[id];
    var i :| 0 <= i < |Content(s, row.partition)| && Content(s, row.partition)[i] == row;
    assert Content(s', row.partition)[i] == row;
  }

  lemma TxnIsStable(s: State, s': State, txn: Txn)
    requires Grows(s, s') && TxnOk(s, txn)
    ensures TxnOk(s', txn)
  {
    forall id | id in txn.marked + txn.pruned
      ensures Archived(s', id)
    {
      ArchivedIsStable(s, s', id);
    }
  }

  lemma GroupsAreStable(s: State, s': State, todo: seq<Group>)
    requires Grows(s, s')
    requires forall g <- todo :: GroupOk(s, g)
    ensures forall g <- todo :: GroupOk(s', g)
  {
    forall g | g in todo
      ensures GroupOk(s', g)
    {
      assert GroupOk(s, g);
    }
  }

  /** Groups and session stay in order as the store grows; the program counter is a separate matter. */
  lemma WorkIsStable(s: State, s': State, p: Pid, proc: Proc, proc': Proc)
    requires Grows(s, s') && ProcOk(s, p, proc)
    requires proc'.todo == proc.todo && proc'.txn == proc.txn
    requires Merging(proc'.pc) ==> proc.todo != [] && PcOk(s', p, proc'.pc, proc.todo[0])
    requires Merging(proc'.pc) && s.backend.Local? ==> s'.lock == Some(p)
    requires proc'.pc.Locking? ==> proc.todo != []
    ensures ProcOk(s', p, proc')
  {
    TxnIsStable(s, s', proc.txn);
    GroupsAreStable(s, s', proc.todo);
  }

  /** A process that did not move keeps what it relies on, unless the lock it needs was taken away. */
  lemma ProcIsStable(s: State, s': State, p: Pid, proc: Proc)
    requires Grows(s, s') && ProcOk(s, p, proc)
    requires s.lock == Some(p) ==> s'.lock == Some(p)
    requires proc.pc.Renaming? ==> s'.objects == s.objects
    ensures ProcOk(s', p, proc)
  {
    WorkIsStable(s, s', p, proc, proc);
  }

  /** The other processes after a step of `p` (or of nobody) that only grows the store. */
  lemma OthersAreStable(s: State, s': State, actor: Option<Pid>)
    requires Inv(s) && Grows(s, s')
    requires forall q <- s.procs :: Some(q) != actor ==> q in s'.procs && s'.procs[q] == s.procs[q]
    requires forall q <- s'.procs :: Some(q) != actor ==> q in s.procs
    requires forall q <- s.procs :: Some(q) != actor && s.lock == Some(q) ==> s'.lock == Some(q)
    requires forall q <- s.procs :: Some(q) != actor && s.procs[q].pc.Renaming? ==> s'.objects == s.objects
    ensures forall q <- s'.procs :: Some(q) != actor ==> ProcOk(s', q, s'.procs[q])
  {
    forall q | q in s'.procs && Some(q) != actor
      ensures ProcOk(s', q, s'.procs[q])
    {
      ProcIsStable(s, s', q, s.procs[q]);
    }
  }

  lemma StoreStaysOk(s: State, s': State)
    requires Grows(s, s') && s'.objects == s.objects && s'.issued == s.issued
    requires (forall k <- s.objects :: ObjectOk(s, k)) && TagsOk(s)
    ensures (forall k <- s'.objects :: ObjectOk(s', k)) && TagsOk(s')
  {
    forall k | k in s'.objects
      ensures ObjectOk(s', k)
    {
      assert ObjectOk(s, k);
    }
  }

  lemma RowsStayOk(s: State, s': State)
    requires Grows(s, s') && RowsOk(s) && s'.ever == s.ever && s'.hot == s.hot
    ensures RowsOk(s')
  {
    forall id | Archived(s, id)
      ensures Archived(s', id)
    {
      ArchivedIsStable(s, s', id);
    }
  }

  /** A step of `p` that leaves the store and the tables alone. */
  lemma PrivateStepKeepsInv(s: State, s': State, p: Pid)
    requires Inv(s)
    requires s' == s.(procs := s'.procs, lock := s'.lock)
    requires p in s'.procs && s'.procs == s.procs[p := s'.procs[p]]
    requires ProcOk(s', p, s'.procs[p])
    requires s'.lock == s.lock || s.lock == Some(p) || s.lock == None
    ensures Inv(s')
  {
    OthersAreStable(s, s', Some(p));
    RowsStayOk(s, s');
    forall q | q in s'.procs
      ensures ProcOk(s', q, s'.procs[q])
    {
    }
  }

  lemma FreshIsOk(s: State, p: Pid)
    ensures ProcOk(s, p, FRESH_PROC)
  {
  }

  lemma ActorIsOk(s: State, p: Pid)
    requires Inv(s)
    ensures ProcOk(s, p, ProcOf(s, p))
  {
  }

  /**
   * The heart of the protocol. The bytes read may be newer than the ETag held, but contents only
   * grow: if the ETag still matches, tag content, bytes read and current content coincide.
   */
  lemma GuardedPutExtends(s: State, k: Partition, etag: ETag, read: seq<Row>, rows: seq<Row>)
    requires Inv(s) && GuardHolds(s.objects, k, IfMatch(etag))
    requires (k, etag) in s.issued && s.issued[(k, etag)] <= read <= s.objects[k].content
    ensures read == s.objects[k].content
    ensures s.objects[k].content <= Merge(read, rows)
  {
    assert ObjectOk(s, k);
    MergeAppends(read, rows);
  }

  /** Replacing an object by an extension of itself keeps the store in order. */
  lemma WriteKeepsStore(s: State, s': State, k: Partition, payload: seq<Row>, tag: ETag)
    requires (forall j <- s.objects :: ObjectOk(s, j)) && TagsOk(s)
    requires Content(s, k) <= payload && DistinctIds(payload) && TagIsHonest(s, k, tag, payload)
    requires forall r <- payload :: r.partition == k && r.id in s.ever && s.ever[r.id] == r
    requires s'.backend == s.backend && s'.ever == s.ever
    requires s'.objects == s.objects[k := Object(payload, tag)] && s'.issued == s.issued[(k, tag) := payload]
    ensures Grows(s, s')
    ensures (forall j <- s'.objects :: ObjectOk(s', j)) && TagsOk(s')
  {
    hide DistinctIds, TagsOk;
    forall j | j in s'.objects
      ensures ObjectOk(s', j)
    {
      if j != k {
        assert ObjectOk(s, j);
      }
    }
    WriteKeepsTags(s, s', k, payload, tag);
  }

  lemma WriteKeepsTags(s: State, s': State, k: Partition, payload: seq<Row>, tag: ETag)
    requires (forall j <- s.objects :: ObjectOk(s, j)) && TagsOk(s)
    requires Content(s, k) <= payload && TagIsHonest(s, k, tag, payload)
    requires s'.objects == s.objects[k := Object(payload, tag)] && s'.issued == s.issued[(k, tag) := payload]
    ensures TagsOk(s')
    ensures forall t <- s.issued :: t in s'.issued && s'.issued[t] == s.issued[t]
  {
    hide ObjectOk, DistinctIds;
    forall t | t in s'.issued
      ensures t.0 in s'.objects && s'.issued[t] <= s'.objects[t.0].content
    {
      if t != (k, tag) {
        assert t in s.issued;
      }
    }
  }

  predicate WriteOk(s: State, k: Partition, write: Option<Object>) {
    write.Some? ==>
      var o := write.value;
      && Content(s, k) <= o.content && DistinctIds(o.content) && TagIsHonest(s, k, o.etag, o.content)
      && forall r <- o.content :: r.partition == k && r.id in s.ever && s.ever[r.id] == r
  }

  lemma ApplyKeepsStore(s: State, p: Pid, k: Partition, e: Effect)
    requires Inv(s) && WriteOk(s, k, e.write)
    ensures var s' := Apply(s, p, k, e);
      Grows(s, s') && (forall j <- s'.objects :: ObjectOk(s', j)) && TagsOk(s')
  {
    var s' := Apply(s, p, k, e);
    if e.write.Some? {
      WriteKeepsStore(s, s', k, e.write.value.content, e.write.value.etag);
    } else {
      StoreStaysOk(s, s');
    }
  }

  /** While `p` writes, no rival can be between its check and its rename. */
  lemma ApplyKeepsOthers(s: State, p: Pid, k: Partition, e: Effect)
    requires Inv(s) && Merging(ProcOf(s, p).pc) && Grows(s, Apply(s, p, k, e))
    ensures var s' := Apply(s, p, k, e);
      forall q <- s'.procs :: q != p ==> ProcOk(s', q, s'.procs[q])
  {
    ActorIsOk(s, p);
    OthersAreStable(s, Apply(s, p, k, e), Some(p));
  }

  lemma ApplyKeepsRows(s: State, p: Pid, k: Partition, e: Effect)
    requires HotOk(s) && RowsOk(s) && Grows(s, Apply(s, p, k, e))
    ensures HotOk(Apply(s, p, k, e)) && RowsOk(Apply(s, p, k, e))
  {
    hide Archived;
    RowsStayOk(s, Apply(s, p, k, e));
  }

  /** A merge step is fine once its write extends the object and its process knows what it needs. */
  lemma ApplyKeepsInv(s: State, p: Pid, k: Partition, e: Effect)
    requires Inv(s) && Merging(ProcOf(s, p).pc) && WriteOk(s, k, e.write)
    requires ProcOk(Apply(s, p, k, e), p, e.proc)
    ensures Inv(Apply(s, p, k, e)) && Grows(s, Apply(s, p, k, e))
  {
    hide ObjectOk, ProcOk, Grows, RowsOk;
    var s' := Apply(s, p, k, e);
    ApplyKeepsStore(s, p, k, e);
    ApplyKeepsRows(s, p, k, e);
    assert forall q <- s'.procs :: ProcOk(s', q, s'.procs[q]) by {
      ApplyKeepsOthers(s, p, k, e);
    }
  }

  /** The common case: groups and session stay, only the program counter has to be justified. */
  lemma MoveKeepsInv(s: State, p: Pid, e: Effect)
    requires Inv(s) && Merging(ProcOf(s, p).pc) && ProcOf(s, p).todo != []
    requires e.proc.todo == ProcOf(s, p).todo && e.proc.txn == ProcOf(s, p).txn
    requires WriteOk(s, e.proc.todo[0].partition, e.write)
    requires e.leaves <==> e.proc.pc.Failed?
    requires !e.proc.pc.Locking?
    requires var k := e.proc.todo[0].partition; PcOk(Apply(s, p, k, e), p, e.proc.pc, e.proc.todo[0])
    ensures var s' := Apply(s, p, e.proc.todo[0].partition, e); Inv(s') && Grows(s, s')
  {
    var k := e.proc.todo[0].partition;
    var s' := Apply(s, p, k, e);
    ActorIsOk(s, p);
    ApplyKeepsStore(s, p, k, e);
    WorkIsStable(s, s', p, ProcOf(s, p), e.proc);
    ApplyKeepsInv(s, p, k, e);
  }

  /** What the pending merge is going to write covers its batch and extends the object. */
  lemma MergedWriteOk(s: State, g: Group, tag: ETag)
    requires Inv(s) && GroupOk(s, g) && g.partition in s.objects
    requires var merged := Merge(s.objects[g.partition].content, g.rows); TagIsHonest(s, g.partition, tag, merged)
    ensures var merged := Merge(s.objects[g.partition].content, g.rows);
      WriteOk(s, g.partition, Some(Object(merged, tag))) && Covers(merged, g.rows)
  {
    assert ObjectOk(s, g.partition);
    var content := s.objects[g.partition].content;
    MergeAppends(content, g.rows);
    MergeCovers(s.ever, content, g.rows);
  }

  lemma PutKeepsInv(s: State, p: Pid, tag: ETag, acknowledged: bool)
    requires Inv(s) && MergeEnabled(s, p, Put(tag, acknowledged))
    ensures var s' := MergeNext(s, p, Put(tag, acknowledged)); Inv(s') && Grows(s, s')
  {
    var proc := ProcOf(s, p);
    var g := proc.todo[0];
    ActorIsOk(s, p);
    assert GroupOk(s, g);
    if GuardHolds(s.objects, g.partition, proc.pc.guard) && proc.pc.guard.IfMatch? {
      GuardedPutExtends(s, g.partition, proc.pc.guard.etag, proc.pc.read, g.rows);
      MergedWriteOk(s, g, tag);
    }
    MoveKeepsInv(s, p, MergeEffect(s, p, Put(tag, acknowledged)));
  }

  lemma RenameKeepsInv(s: State, p: Pid, tag: ETag, acknowledged: bool)
    requires Inv(s) && MergeEnabled(s, p, Rename(tag, acknowledged))
    ensures var s' := MergeNext(s, p, Rename(tag, acknowledged)); Inv(s') && Grows(s, s')
  {
    var g := ProcOf(s, p).todo[0];
    ActorIsOk(s, p);
    assert GroupOk(s, g);
    MergedWriteOk(s, g, tag);
    MoveKeepsInv(s, p, MergeEffect(s, p, Rename(tag, acknowledged)));
  }

  /** Reading later than the stat is harmless: what is read still extends what the tag stood for. */
  lemma LookKeepsInv(s: State, p: Pid, op: MergeOp)
    requires Inv(s) && MergeEnabled(s, p, op) && (op.Stat? || op.Read? || op.CheckSize?)
    ensures Inv(MergeNext(s, p, op)) && Grows(s, MergeNext(s, p, op))
  {
    ActorIsOk(s, p);
    var k := ProcOf(s, p).todo[0].partition;
    assert k in s.objects ==> ObjectOk(s, k);
    MoveKeepsInv(s, p, MergeEffect(s, p, op));
  }

  /** Only a verified group is marked, so every mark names a row that is in its object. */
  lemma VerifiedGroupIsArchived(s: State, g: Group, payload: seq<Row>)
    requires GroupOk(s, g) && Covers(payload, g.rows) && Content(s, g.partition) == payload
    ensures forall id <- IdsOf(g.rows) :: Archived(s, id)
  {
    forall id | id in IdsOf(g.rows)
      ensures Archived(s, id)
    {
      var r :| r in g.rows && r.id == id;
      assert InLake(s, r);
    }
  }

  /** Marking an archived group and moving on keeps a process in order. */
  lemma ProcAfterGroup(s: State, s': State, p: Pid, proc: Proc, txn: Txn)
    requires ProcOk(s, p, proc) && proc.todo != [] && Merging(proc.pc) && Grows(s, s')
    requires txn == proc.txn.(marked := proc.txn.marked + IdsOf(proc.todo[0].rows))
    requires forall id <- IdsOf(proc.todo[0].rows) :: Archived(s, id)
    requires proc.todo[1..] != [] ==> s'.lock == s.lock
    ensures proc.todo[1..] != [] ==> ProcOk(s', p, Proc(Stating, proc.todo[1..], 0, txn))
    ensures ProcOk(s', p, Proc(Finished, [], 0, txn))
  {
    assert TxnOk(s, txn);
    TxnIsStable(s, s', txn);
    assert forall h <- proc.todo[1..] :: h in proc.todo;
    GroupsAreStable(s, s', proc.todo[1..]);
  }

  lemma CheckHashKeepsInv(s: State, p: Pid)
    requires Inv(s) && MergeEnabled(s, p, CheckHash)
    ensures var s' := MergeNext(s, p, CheckHash); Inv(s') && Grows(s, s')
  {
    var proc, e := ProcOf(s, p), MergeEffect(s, p, CheckHash);
    var g := proc.todo[0];
    ActorIsOk(s, p);
    if Content(s, g.partition) == proc.pc.payload {
      assert GroupOk(s, g);
      VerifiedGroupIsArchived(s, g, proc.pc.payload);
      ApplyKeepsStore(s, p, g.partition, e);
      ProcAfterGroup(s, Apply(s, p, g.partition, e), p, proc, e.proc.txn);
      ApplyKeepsInv(s, p, g.partition, e);
    } else {
      MoveKeepsInv(s, p, e);
    }
  }

  lemma MergeStepKeepsInv(s: State, p: Pid, op: MergeOp)
    requires Inv(s) && MergeEnabled(s, p, op)
    ensures Inv(MergeNext(s, p, op)) && Grows(s, MergeNext(s, p, op))
  {
    match op
    case Put(tag, acknowledged) => PutKeepsInv(s, p, tag, acknowledged);
    case Rename(tag, acknowledged) => RenameKeepsInv(s, p, tag, acknowledged);
    case CheckHash => CheckHashKeepsInv(s, p);
    case _ => LookKeepsInv(s, p, op);
  }

  /** New rows start out hot, so growing the tables loses nothing either. */
  lemma RowsGrow(s: State, s': State)
    requires Grows(s, s') && RowsOk(s) && HotOk(s)
    requires forall id <- s'.ever :: s'.ever[id].id == id && (id in s.ever || id in s'.hot)
    requires forall id <- s.hot :: id in s'.hot || Archived(s, id)
    requires forall id <- s'.hot :: s'.hot[id].archived ==> Archived(s, id)
    ensures RowsOk(s')
  {
    forall id | Archived(s, id)
      ensures Archived(s', id)
    {
      ArchivedIsStable(s, s', id);
    }
  }

  lemma IngestKeepsTables(s: State, row: Row)
    requires HotOk(s) && RowsOk(s) && row.id !in s.ever
    ensures var s' := Next(s, Ingest(row)); HotOk(s') && RowsOk(s') && Grows(s, s')
  {
    RowsGrow(s, Next(s, Ingest(row)));
  }

  lemma IngestKeepsInv(s: State, row: Row)
    requires Inv(s) && Enabled(s, Ingest(row))
    ensures var s' := Next(s, Ingest(row)); Inv(s') && Grows(s, s')
  {
    hide ObjectOk, ProcOk, InLake, RowsOk, HotOk;
    var s' := Next(s, Ingest(row));
    IngestKeepsTables(s, row);
    OthersAreStable(s, s', None);
    StoreStaysOk(s, s');
  }

  lemma CommitKeepsInv(s: State, p: Pid)
    requires Inv(s) && SessionEnabled(s, p, Commit)
    ensures var s' := SessionNext(s, p, Commit); Inv(s') && Grows(s, s')
  {
    var s' := SessionNext(s, p, Commit);
    CommitKeepsTables(s, p);
    hide ObjectOk, TagsOk, HotOk, RowsOk, ProcOk, Committed;
    OthersAreStable(s, s', Some(p));
    FreshIsOk(s', p);
    StoreStaysOk(s, s');
  }

  lemma CommitKeepsTables(s: State, p: Pid)
    requires Inv(s) && SessionEnabled(s, p, Commit)
    ensures var s' := SessionNext(s, p, Commit); HotOk(s') && RowsOk(s') && Grows(s, s')
  {
    hide ObjectOk, TagsOk, InLake, GroupOk, PcOk;
    ActorIsOk(s, p);
    RowsGrow(s, SessionNext(s, p, Commit));
  }

  lemma OpenKeepsInv(s: State, p: Pid, groups: seq<Group>)
    requires Inv(s) && SessionEnabled(s, p, Open(groups))
    ensures var s' := SessionNext(s, p, Open(groups)); Inv(s') && Grows(s, s')
  {
    var s' := SessionNext(s, p, Open(groups));
    ActorIsOk(s, p);
    assert forall g <- groups :: SelectableGroup(s, g) && GroupOk(s', g);
    assert ProcOk(s', p, s'.procs[p]) by {
      TxnIsStable(s, s', ProcOf(s, p).txn);
    }
    PrivateStepKeepsInv(s, s', p);
  }

  lemma PruneKeepsInv(s: State, p: Pid, ids: set<nat>)
    requires Inv(s) && SessionEnabled(s, p, Prune(ids))
    ensures var s' := SessionNext(s, p, Prune(ids)); Inv(s') && Grows(s, s')
  {
    var s' := SessionNext(s, p, Prune(ids));
    ActorIsOk(s, p);
    var txn := s'.procs[p].txn;
    assert TxnOk(s, txn) by {
      forall id | id in txn.pruned
        ensures Archived(s, id)
      {
        assert id in ids || id in ProcOf(s, p).txn.pruned;
      }
    }
    assert ProcOk(s', p, s'.procs[p]) by {
      TxnIsStable(s, s', txn);
    }
    PrivateStepKeepsInv(s, s', p);
  }

  lemma BoundaryKeepsInv(s: State, p: Pid, step: SessionOp)
    requires Inv(s) && SessionEnabled(s, p, step) && (step.AcquireLock? || step.Fail? || step.Abort?)
    ensures Inv(SessionNext(s, p, step)) && Grows(s, SessionNext(s, p, step))
  {
    var s' := SessionNext(s, p, step);
    assert ProcOk(s', p, s'.procs[p]) by {
      ActorIsOk(s, p);
      FreshIsOk(s', p);
      if !step.Abort? {
        WorkIsStable(s, s', p, ProcOf(s, p), s'.procs[p]);
      }
    }
    PrivateStepKeepsInv(s, s', p);
  }

  lemma SessionStepKeepsInv(s: State, p: Pid, step: SessionOp)
    requires Inv(s) && SessionEnabled(s, p, step)
    ensures Inv(SessionNext(s, p, step)) && Grows(s, SessionNext(s, p, step))
  {
    match step
    case Open(groups) => OpenKeepsInv(s, p, groups);
    case Prune(ids) => PruneKeepsInv(s, p, ids);
    case Commit => CommitKeepsInv(s, p);
    case _ => BoundaryKeepsInv(s, p, step);
  }

  /** Every step of every process keeps the invariant and only grows the lake. */
  lemma StepKeepsInv(s: State, a: Action)
    requires Inv(s) && Enabled(s, a)
    ensures Inv(Next(s, a)) && Grows(s, Next(s, a))
  {
    match a
    case Ingest(row) => IngestKeepsInv(s, row);
    case InSession(p, step) => SessionStepKeepsInv(s, p, step);
    case InMerge(p, op) => MergeStepKeepsInv(s, p, op);
  }

  lemma {:induction false} RunKeepsInv(states: seq<State>, actions: seq<Action>, i: nat)
    requires IsRun(states, actions) && i < |states|
    ensures Inv(states[i])
  {
    if i > 0 {
      RunKeepsInv(states, actions, i - 1);
      StepKeepsInv(states[i - 1], actions[i - 1]);
    }
  }

  lemma {:induction false} RunGrows(states: seq<State>, actions: seq<Action>, i: nat, j: nat)
    requires IsRun(states, actions) && i <= j < |states|
    ensures Grows(states[i], states[j])
    decreases j
  {
    hide Next, Enabled, Inv, Grows;
    if i < j {
      RunGrows(states, actions, i, j - 1);
      RunKeepsInv(states, actions, j - 1);
      StepKeepsInv(states[j - 1], actions[j - 1]);
      GrowsOn(states[i], states[j - 1], states[j]);
    } else {
      GrowsItself(states[i]);
    }
  }

  lemma GrowsItself(s: State)
    ensures Grows(s, s)
  {
  }

  lemma GrowsOn(s: State, s': State, s'': State)
    requires Grows(s, s') && Grows(s', s'')
    ensures Grows(s, s'')
  {
  }

  /**
   * Each partition object is free of duplicate ids, holds only rows that were ingested for it, and
   * is a prefix of every later version of itself.
   */
  lemma ObjectsAreAppendOnly(states: seq<State>, actions: seq<Action>, i: nat, j: nat, k: Partition)
    requires IsRun(states, actions) && i <= j < |states| && k in states[i].objects
    ensures DistinctIds(states[i].objects[k].content)
    ensures forall r <- states[i].objects[k].content ::
              r.partition == k && r.id in states[i].ever && states[i].ever[r.id] == r
    ensures k in states[j].objects && states[i].objects[k].content <= states[j].objects[k].content
  {
    RunKeepsInv(states, actions, i);
    assert ObjectOk(states[i], k);
    RunGrows(states, actions, i, j);
  }

  /** In every reachable state every row ever ingested is in the hot table or in its object. */
  lemma NoRowIsLost(states: seq<State>, actions: seq<Action>, i: nat, j: nat, id: nat)
    requires IsRun(states, actions) && i <= j < |states| && id in states[i].ever
    ensures id in states[j].ever && states[j].ever[id] == states[i].ever[id]
    ensures (id in states[j].hot && states[j].hot[id].row == states[i].ever[id]) ||
            InLake(states[j], states[i].ever[id])
  {
    RunKeepsInv(states, actions, j);
    RunGrows(states, actions, i, j);
  }

  /** A row committed as archived, or gone from the hot table, is in its object from then on. */
  lemma ArchivedOrPrunedIsInLake(states: seq<State>, actions: seq<Action>, i: nat, j: nat, id: nat)
    requires IsRun(states, actions) && i <= j < |states| && id in states[i].ever
    requires id !in states[i].hot || states[i].hot[id].archived
    ensures InLake(states[j], states[i].ever[id])
  {
    RunKeepsInv(states, actions, i);
    RunGrows(states, actions, i, j);
    ArchivedIsStable(states[i], states[j], id);
  }

  /** On local disk the lock admits one process to the merges at a time. */
  lemma LocalMergesExclude(states: seq<State>, actions: seq<Action>, i: nat, p: Pid, q: Pid)
    requires IsRun(states, actions) && i < |states| && states[i].backend.Local?
    requires Merging(ProcOf(states[i], p).pc) && Merging(ProcOf(states[i], q).pc)
    ensures p == q
  {
    RunKeepsInv(states, actions, i);
    ActorIsOk(states[i], p);
    ActorIsOk(states[i], q);
  }

  /** A write covers its group even when its writer never learns of it. */
  lemma WriteCovers(s: State, p: Pid, op: MergeOp)
    requires Inv(s) && MergeEnabled(s, p, op) && MergeEffect(s, p, op).write.Some?
    ensures Covers(MergeEffect(s, p, op).write.value.content, ProcOf(s, p).todo[0].rows)
  {
    var proc := ProcOf(s, p);
    var g := proc.todo[0];
    ActorIsOk(s, p);
    assert GroupOk(s, g);
    match op
    case Put(tag, _) =>
      if !proc.pc.guard.IfAbsent? {
        GuardedPutExtends(s, g.partition, proc.pc.guard.etag, proc.pc.read, g.rows);
        MergedWriteOk(s, g, tag);
      }
    case Rename(tag, _) => MergedWriteOk(s, g, tag);
  }

  predicate Unanswered(op: MergeOp) {
    (op.Put? || op.Rename?) && !op.acknowledged
  }

  lemma UnansweredStep(s: State, p: Pid, op: MergeOp)
    requires Inv(s) && MergeEnabled(s, p, op) && Unanswered(op) && MergeEffect(s, p, op).write.Some?
    ensures var t := MergeNext(s, p, op);
      var g := ProcOf(s, p).todo[0];
      && ProcOf(t, p).pc.Failed? && ProcOf(t, p).txn == ProcOf(s, p).txn && t.hot == s.hot && t.lock != Some(p)
      && g.partition in t.objects && Covers(Content(t, g.partition), g.rows)
  {
    WriteCovers(s, p, op);
    hide Inv, Covers, TagIsHonest, Merge;
  }

  lemma CoveredMergesToItself(s: State, s': State, g: Group)
    requires Grows(s, s') && Inv(s') && g.partition in s.objects && Covers(Content(s, g.partition), g.rows)
    ensures forall r <- g.rows :: r in Content(s', g.partition)
    ensures Merge(Content(s', g.partition), g.rows) == Content(s', g.partition)
  {
    assert ObjectOk(s', g.partition);
    MergeIsIdempotent(Content(s', g.partition), g.rows);
    hide Inv, TagsOk;
  }

  /**
   * A write whose answer is lost looks failed: nothing is marked and the lock is given back. Its
   * rows are in the object all the same, and merging the group again, at any later time, would
   * write the object as it then is.
   */
  lemma LostAnswerIsHarmless(states: seq<State>, actions: seq<Action>, i: nat, j: nat, p: Pid)
    requires IsRun(states, actions) && i < j < |states| && actions[i].InMerge? && actions[i].p == p
    requires Unanswered(actions[i].op) && MergeEffect(states[i], p, actions[i].op).write.Some?
    ensures var s, t := states[i], states[i + 1];
      && ProcOf(t, p).pc.Failed? && ProcOf(t, p).txn == ProcOf(s, p).txn && t.hot == s.hot && t.lock != Some(p)
    ensures var g := ProcOf(states[i], p).todo[0];
      && (forall r <- g.rows :: r in Content(states[j], g.partition))
      && Merge(Content(states[j], g.partition), g.rows) == Content(states[j], g.partition)
  {
    RunKeepsInv(states, actions, i);
    RunKeepsInv(states, actions, j);
    RunGrows(states, actions, i + 1, j);
    UnansweredStep(states[i], p, actions[i].op);
    CoveredMergesToItself(states[i + 1], states[j], ProcOf(states[i], p).todo[0]);
    hide Inv, Covers, MergeEffect, Merge, Grows, TagIsHonest;
  }
}

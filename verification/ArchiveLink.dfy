/**
 * The compactor object and the protocol are two accounts of one program. What the object's methods
 * promise of an attempt, of its verification and of its marks is what the protocol's steps do.
 */
module ArchiveLink {
  import opened Prelude
  import opened Evidence
  import opened ConditionalWrites
  import P = ArchiveProtocol
  import C = Compactor
  import opened ArchiveStores

  /** The protocol's process at the stat, the read and the put of one attempt, with rivals in between. */
  predicate StepsOfAttempt(s1: P.State, s2: P.State, s3: P.State, p: P.Pid, g: Group) {
    && P.MergeEnabled(s1, p, P.Stat(true)) && P.ProcOf(s1, p).todo[0] == g
    && P.ProcOf(s2, p) == P.MergeEffect(s1, p, P.Stat(true)).proc
    && (if g.partition in s1.objects
        then P.MergeEnabled(s2, p, P.Read) && P.ProcOf(s3, p) == P.MergeEffect(s2, p, P.Read).proc
        else P.ProcOf(s3, p) == P.ProcOf(s2, p))
  }

  /** What the put carries: the guard of the stat and the payload of what was read. */
  lemma CarriedToPut(s1: P.State, s2: P.State, s3: P.State, p: P.Pid, g: Group)
    requires StepsOfAttempt(s1, s2, s3, p, g)
    ensures var proc, guard := P.ProcOf(s3, p), GuardFor(s1.objects, g.partition);
      && proc.pc.Putting? && proc.pc.guard == guard && proc.todo != [] && proc.todo[0] == g
      && Payload(guard, proc.pc.read, g.rows) == Payload(guard, ContentOf(s2.objects, g.partition), g.rows)
  {
    hide Merge;
  }

  /** On local disk a put that passes its If-Match check is followed by the rename, with no rival write in between. */
  predicate RenameFollows(s3: P.State, s4: P.State, p: P.Pid, tag: ETag)
    requires P.MergeEnabled(s3, p, P.Put(tag, true))
  {
    var checked := P.MergeNext(s3, p, P.Put(tag, true));
    P.ProcOf(checked, p).pc.Renaming? ==>
      && s4.objects == s3.objects && P.ProcOf(s4, p) == P.ProcOf(checked, p)
      && P.MergeEnabled(s4, p, P.Rename(tag, true))
  }

  /** The state when the put is done: at once on S3, after the rename on local disk. */
  function PutDone(s3: P.State, s4: P.State, p: P.Pid, tag: ETag): P.State
    requires P.MergeEnabled(s3, p, P.Put(tag, true)) && RenameFollows(s3, s4, p, tag)
  {
    var put := P.MergeNext(s3, p, P.Put(tag, true));
    if P.ProcOf(put, p).pc.Renaming? then P.MergeNext(s4, p, P.Rename(tag, true)) else put
  }

  /** A put replaces the object or conflicts. */
  lemma PutDoes(s3: P.State, s4: P.State, p: P.Pid, tag: ETag)
    requires P.MergeEnabled(s3, p, P.Put(tag, true)) && RenameFollows(s3, s4, p, tag)
    ensures var proc, s' := P.ProcOf(s3, p), PutDone(s3, s4, p, tag);
      var k, payload := proc.todo[0].partition, Payload(proc.pc.guard, proc.pc.read, proc.todo[0].rows);
      if GuardHolds(s3.objects, k, proc.pc.guard)
      then s'.objects == s3.objects[k := Object(payload, tag)] && P.ProcOf(s', p).pc == P.CheckingSize(payload)
      else s'.objects == s3.objects && P.ProcOf(s', p).attempt == proc.attempt + 1
  {
    hide Merge;
  }

  /**
   * An attempt of the object that meets the store at the states of the protocol's stat, read and
   * put leaves what the protocol's put leaves, and fails exactly when that put conflicts. On local
   * disk this takes the lock, which keeps rivals out between the check and the rename.
   */
  lemma AttemptIsProtocolSteps(
    s1: P.State, s2: P.State, s3: P.State, s4: P.State, p: P.Pid, g: Group, put: PutResult, payload: seq<Row>,
    now: Objects, tag: ETag)
    requires StepsOfAttempt(s1, s2, s3, p, g)
    requires C.Attempted(C.Sight(s1.objects, s2.objects, s3.objects), g, put, payload, now)
    requires put.Stored? ==> g.partition in now && now[g.partition].etag == tag
    requires P.MergeEnabled(s3, p, P.Put(tag, true)) && RenameFollows(s3, s4, p, tag)
    ensures var s5 := PutDone(s3, s4, p, tag);
      && s5.objects == now
      && (put.Stored? ==> P.ProcOf(s5, p).pc == P.CheckingSize(payload))
      && (put.PreconditionFailed? ==> P.ProcOf(s5, p).attempt == P.ProcOf(s3, p).attempt + 1)
  {
    hide P.MergeNext, P.MergeEnabled, P.MergeEffect, P.ProcOf, Merge, Extends, StepsOfAttempt, RenameFollows, PutDone;
    CarriedToPut(s1, s2, s3, p, g);
    PutDoes(s3, s4, p, tag);
  }

  /** The protocol's process at the check of the size and, if that passes, at the check of the hash. */
  predicate StepsOfVerification(s1: P.State, s2: P.State, p: P.Pid, payload: seq<Row>, k: Partition) {
    var proc := P.ProcOf(s1, p);
    && proc.pc == P.CheckingSize(payload) && proc.todo != [] && proc.todo[0].partition == k
    && (|ContentOf(s1.objects, k)| == |payload| ==> P.ProcOf(s2, p) == proc.(pc := P.CheckingHash(payload)))
  }

  /**
   * The object's read-back and the protocol's two checks pass alike, and only then is the group
   * marked. The protocol may also pass a size by chance; here it counts rows, as the object does.
   */
  lemma VerificationIsProtocolSteps(s1: P.State, s2: P.State, p: P.Pid, payload: seq<Row>, k: Partition)
    requires StepsOfVerification(s1, s2, p, payload, k)
    ensures var proc, same := P.ProcOf(s1, p), |ContentOf(s1.objects, k)| == |payload|;
      && P.MergeEnabled(s1, p, P.CheckSize(same))
      && var sized := P.MergeEffect(s1, p, P.CheckSize(same)).proc;
         if !same then sized.pc.Failed? && sized.txn == proc.txn && !C.ReadsBack(s1.objects, s2.objects, k, payload)
         else
           && sized == P.ProcOf(s2, p) && P.MergeEnabled(s2, p, P.CheckHash)
           && var hashed := P.MergeEffect(s2, p, P.CheckHash).proc;
              if C.ReadsBack(s1.objects, s2.objects, k, payload)
              then !hashed.pc.Failed? && hashed.txn.marked == proc.txn.marked + IdsOf(proc.todo[0].rows)
              else hashed.pc.Failed? && hashed.txn == proc.txn
  {
  }

  /**
   * At the end of a pass the protocol may delete what the object prunes, and its commit leaves the
   * hot table as marking and pruning leave the object's.
   */
  lemma CommitIsMarkAndPrune(s: P.State, p: P.Pid, cutoff: int, referenced: set<nat>)
    requires var proc := P.ProcOf(s, p); (proc.pc.Finished? || proc.pc.Idle?) && proc.txn.pruned == {}
    ensures var done := C.Marked(s.hot, P.ProcOf(s, p).txn.marked);
      var prune := P.Prune(set id | id in done && C.Prunable(done, id, cutoff, referenced));
      && P.SessionEnabled(s, p, prune)
      && P.SessionEnabled(P.SessionNext(s, p, prune), p, P.Commit)
      && P.SessionNext(P.SessionNext(s, p, prune), p, P.Commit).hot == C.Pruned(done, cutoff, referenced)
  {
    var done := C.Marked(s.hot, P.ProcOf(s, p).txn.marked);
    assert forall id :: id in done <==> id in s.hot;
  }

  lemma TakenMayBeOpened(
    s: P.State, rows: seq<Row>, cutoff: int, limit: nat, filter: Option<set<Partition>>, k: Partition)
    requires C.IsBatch(s.hot, cutoff, limit, rows) && C.RowsOf(C.Taken(rows, filter), k) != []
    ensures P.SelectableGroup(s, Group(k, C.RowsOf(C.Taken(rows, filter), k)))
  {
    var taken := C.Taken(rows, filter);
    C.TakenAre(rows, filter);
    C.TakenAreDistinct(rows, filter);
    C.TakenAre(taken, Some({k}));
    C.TakenAreDistinct(taken, Some({k}));
    hide C.Taken, DistinctIds;
    forall r | r in C.RowsOf(taken, k) ensures r.partition == k && r.id in s.hot && s.hot[r.id] == HotRow(r, false) {
      assert r in taken && r in rows;
      assert r.id in C.Backlog(s.hot, cutoff);
    }
  }

  /** The groups of a batch of the backlog may be opened by a process of the protocol. */
  lemma BatchMayBeOpened(
    s: P.State, rows: seq<Row>, cutoff: int, limit: nat, filter: Option<set<Partition>>, groups: C.Groups, k: Partition)
    requires C.IsBatch(s.hot, cutoff, limit, rows) && C.GroupsOf(groups, C.Taken(rows, filter)) && k in groups.items
    ensures P.SelectableGroup(s, Group(k, groups.items[k]))
  {
    assert C.GroupAt(groups, k) == C.RowsOf(C.Taken(rows, filter), k) && groups.items[k] != [];
    hide C.GroupsOf, C.RowsOf, C.IsBatch, P.SelectableGroup;
    TakenMayBeOpened(s, rows, cutoff, limit, filter, k);
  }
}

/**
 * What the merge lock is for. The local If-Match check and the rename behind it are two steps, so
 * the check alone does not stop a writer that bypasses the lock: this module says which rows a
 * rename loses, shows a run that loses one, and derives when none are lost.
 */
module ArchiveLock {
  import opened Prelude
  import opened Evidence
  import opened ConditionalWrites
  import opened ArchiveProtocol
  import opened ArchiveProgress
  import S = ArchiveSafety

  // ------------------------------------------------------- what holds even without the lock

  predicate RowsOk(s: State, rows: seq<Row>) {
    DistinctIds(rows) && Known(s.ever, rows)
  }

  /** While the tag of the stat is on the object, the object is what was read after that stat. */
  predicate PcOk(s: State, pc: Pc, k: Partition) {
    match pc
    case Reading(tag) => tag.Some? ==> (k, tag.value) in s.issued
    case Putting(guard, read) =>
      && RowsOk(s, read)
      && (guard.IfMatch? ==> (k, guard.etag) in s.issued)
      && (guard.IfMatch? && GuardHolds(s.objects, k, guard) ==> read == s.objects[k].content)
    case Renaming(replacement) => RowsOk(s, replacement)
    case _ => true
  }

  predicate ProcOk(s: State, proc: Proc) {
    && (forall g <- proc.todo :: RowsOk(s, g.rows))
    && (proc.todo != [] ==> PcOk(s, proc.pc, proc.todo[0].partition))
  }

  predicate ObjectOk(s: State, k: Partition)
    requires k in s.objects
  {
    RowsOk(s, s.objects[k].content) && (k, s.objects[k].etag) in s.issued
  }

  ghost predicate Inv(s: State) {
    && s.backend.Local?
    && (forall id <- s.hot :: s.hot[id].row.id == id && id in s.ever && s.ever[id] == s.hot[id].row)
    && (forall k <- s.objects :: ObjectOk(s, k))
    && (forall p <- s.procs :: ProcOk(s, s.procs[p]))
  }

  /** Known rows and issued tags only grow in number. */
  predicate Remembers(s: State, s': State) {
    && s'.backend == s.backend
    && (forall id <- s.ever :: id in s'.ever && s'.ever[id] == s.ever[id])
    && (forall t <- s.issued :: t in s'.issued)
  }

  lemma RowsStayOk(s: State, s': State, rows: seq<Row>)
    requires Remembers(s, s') && RowsOk(s, rows)
    ensures RowsOk(s', rows)
  {
  }

  /** A version of an object with a tag that is not new is an old one. */
  predicate NewVersionsOnly(s: State, s': State) {
    forall k <- s'.objects :: (k, s'.objects[k].etag) in s.issued ==> k in s.objects && s.objects[k] == s'.objects[k]
  }

  lemma ProcStaysOk(s: State, s': State, proc: Proc)
    requires Remembers(s, s') && NewVersionsOnly(s, s') && ProcOk(s, proc)
    ensures ProcOk(s', proc)
  {
    forall g | g in proc.todo ensures RowsOk(s', g.rows) {
      RowsStayOk(s, s', g.rows);
    }
    match proc.pc
    case Putting(_, read) => if proc.todo != [] { RowsStayOk(s, s', read); }
    case Renaming(replacement) => if proc.todo != [] { RowsStayOk(s, s', replacement); }
    case _ =>
  }

  /** A step after which the mover and every object are in order keeps the invariant. */
  lemma MoverKeepsInv(s: State, s': State, p: Pid)
    requires Inv(s) && Remembers(s, s') && NewVersionsOnly(s, s')
    requires forall q <- s'.procs :: q != p ==> q in s.procs && s'.procs[q] == s.procs[q]
    requires p in s'.procs && ProcOk(s', s'.procs[p])
    requires forall k <- s'.objects :: (k in s.objects && s'.objects[k] == s.objects[k]) || ObjectOk(s', k)
    requires forall id <- s'.hot :: id in s.hot && s'.hot[id].row == s.hot[id].row
    ensures Inv(s')
  {
    forall q | q in s'.procs && q != p ensures ProcOk(s', s'.procs[q]) {
      ProcStaysOk(s, s', s.procs[q]);
    }
    forall k | k in s'.objects ensures ObjectOk(s', k) {
      if k in s.objects && s'.objects[k] == s.objects[k] {
        assert ObjectOk(s, k);
        RowsStayOk(s, s', s.objects[k].content);
      }
    }
  }

  lemma ActorIsOk(s: State, p: Pid)
    requires Inv(s)
    ensures ProcOk(s, ProcOf(s, p))
  {
  }

  lemma MergedIsOk(s: State, read: seq<Row>, rows: seq<Row>)
    requires RowsOk(s, read) && RowsOk(s, rows)
    ensures RowsOk(s, Merge(read, rows))
    ensures forall r :: r in Merge(read, rows) <==> r in read || r in rows
  {
    MergeAppends(read, rows);
    MergeCovers(s.ever, read, rows);
    forall r | r in read ensures r in Merge(read, rows) {
      var i :| 0 <= i < |read| && read[i] == r;
      assert Merge(read, rows)[i] == r;
    }
  }

  /** What a merge step may write and leave its process with. */
  predicate EffectOk(s: State, k: Partition, e: Effect) {
    && (e.write.Some? ==> RowsOk(s, e.write.value.content) && (k, e.write.value.etag) !in s.issued)
    && (forall g <- e.proc.todo :: RowsOk(s, g.rows))
  }

  lemma EffectIsOk(s: State, p: Pid, op: MergeOp)
    requires Inv(s) && MergeEnabled(s, p, op) && StampIsNew(s, InMerge(p, op))
    ensures EffectOk(s, ProcOf(s, p).todo[0].partition, MergeEffect(s, p, op))
  {
    var proc := ProcOf(s, p);
    ActorIsOk(s, p);
    assert RowsOk(s, proc.todo[0].rows);
    if op.Put? && !proc.pc.guard.IfAbsent? {
      MergedIsOk(s, proc.pc.read, proc.todo[0].rows);
    }
    assert forall g <- proc.todo[1..] :: g in proc.todo;
  }

  /** The program counter after a merge step, in the state after it. */
  lemma CounterIsOk(s: State, p: Pid, op: MergeOp)
    requires Inv(s) && MergeEnabled(s, p, op) && StampIsNew(s, InMerge(p, op))
    ensures var k, e := ProcOf(s, p).todo[0].partition, MergeEffect(s, p, op);
      e.proc.todo != [] ==> PcOk(Apply(s, p, k, e), e.proc.pc, e.proc.todo[0].partition)
  {
    var proc := ProcOf(s, p);
    var k := proc.todo[0].partition;
    ActorIsOk(s, p);
    assert RowsOk(s, proc.todo[0].rows);
    assert k in s.objects ==> ObjectOk(s, k);
    if op.Put? && !proc.pc.guard.IfAbsent? {
      MergedIsOk(s, proc.pc.read, proc.todo[0].rows);
    }
    hide DistinctIds, Known, Merge;
  }

  lemma ApplyRemembers(s: State, p: Pid, k: Partition, e: Effect)
    requires EffectOk(s, k, e)
    ensures var s' := Apply(s, p, k, e);
      && Remembers(s, s') && NewVersionsOnly(s, s')
      && (forall j <- s'.objects :: (j in s.objects && s'.objects[j] == s.objects[j]) || ObjectOk(s', j))
  {
    hide DistinctIds, Known;
  }

  lemma MergeMoveKeepsInv(s: State, p: Pid, op: MergeOp)
    requires Inv(s) && MergeEnabled(s, p, op) && StampIsNew(s, InMerge(p, op))
    ensures Inv(MergeNext(s, p, op))
  {
    var k, e := ProcOf(s, p).todo[0].partition, MergeEffect(s, p, op);
    var s' := Apply(s, p, k, e);
    EffectIsOk(s, p, op);
    CounterIsOk(s, p, op);
    ApplyRemembers(s, p, k, e);
    assert s'.procs == s.procs[p := e.proc];
    assert ProcOk(s', e.proc) by {
      forall g | g in e.proc.todo ensures RowsOk(s', g.rows) {
        RowsStayOk(s, s', g.rows);
      }
    }
    hide MergeEffect, MergeEnabled, ObjectOk, ProcOk, RowsOk, Apply, Remembers, NewVersionsOnly;
    MoverKeepsInv(s, s', p);
  }

  lemma SessionMoveKeepsInv(s: State, p: Pid, step: SessionOp)
    requires Inv(s) && SessionEnabled(s, p, step)
    ensures Inv(SessionNext(s, p, step))
  {
    var s' := SessionNext(s, p, step);
    ActorIsOk(s, p);
    assert Remembers(s, s') && NewVersionsOnly(s, s');
    if step.Open? {
      forall g | g in step.groups ensures RowsOk(s', g.rows) {
        assert SelectableGroup(s, g);
      }
    }
    assert ProcOk(s', s'.procs[p]) by {
      ProcStaysOk(s, s', ProcOf(s, p));
    }
    MoverKeepsInv(s, s', p);
  }

  lemma IngestKeepsInv(s: State, row: Row)
    requires Inv(s) && Enabled(s, Ingest(row))
    ensures Inv(Next(s, Ingest(row)))
  {
    var s' := Next(s, Ingest(row));
    forall p | p in s'.procs ensures ProcOk(s', s'.procs[p]) {
      ProcStaysOk(s, s', s.procs[p]);
    }
    forall k | k in s'.objects ensures ObjectOk(s', k) {
      assert ObjectOk(s, k);
      RowsStayOk(s, s', s.objects[k].content);
    }
  }

  lemma MoveKeepsInv(s: State, m: Move)
    requires Inv(s) && CanMove(s, m)
    ensures Inv(AfterMove(s, m))
  {
    match m
    case Lawful(Ingest(row)) => IngestKeepsInv(s, row);
    case Lawful(InSession(p, step)) => SessionMoveKeepsInv(s, p, step);
    case Lawful(InMerge(p, op)) => MergeMoveKeepsInv(s, p, op);
    case Bypass(p) =>
      ActorIsOk(s, p);
      MoverKeepsInv(s, AfterMove(s, m), p);
  }

  lemma {:induction false} LooseRunKeepsInv(states: seq<State>, moves: seq<Move>, i: nat)
    requires IsLooseRun(states, moves) && i < |states|
    ensures Inv(states[i])
  {
    if i > 0 {
      LooseRunKeepsInv(states, moves, i - 1);
      MoveKeepsInv(states[i - 1], moves[i - 1]);
    }
  }

  // ------------------------------------------------------------- which rows a rename loses

  /** Moves `i` and `j` are one local writer's passed If-Match check and its rename. */
  ghost predicate CheckThenRename(states: seq<State>, moves: seq<Move>, i: nat, j: nat, p: Pid) {
    && IsLooseRun(states, moves) && i < j < |moves|
    && moves[i].Lawful? && moves[i].action.InMerge? && moves[i].action.p == p && moves[i].action.op.Put?
    && ProcOf(states[i + 1], p).pc.Renaming?
    && moves[j].Lawful? && moves[j].action.InMerge? && moves[j].action.p == p && moves[j].action.op.Rename?
    && forall t :: i < t < j ==> Mover(moves[t]) != Some(p)
  }

  /** A check that passes fixes what the rename will write: the object as it is now, and the batch. */
  lemma PassedCheck(s: State, p: Pid, op: MergeOp)
    requires Inv(s) && MergeEnabled(s, p, op) && op.Put? && ProcOf(MergeNext(s, p, op), p).pc.Renaming?
    ensures var g := ProcOf(s, p).todo[0];
      && ProcOf(MergeNext(s, p, op), p).pc.replacement == Merge(Content(s, g.partition), g.rows)
      && ProcOf(MergeNext(s, p, op), p).todo == ProcOf(s, p).todo
      && RowsOk(s, Content(s, g.partition)) && RowsOk(s, g.rows)
  {
    var k, e := ProcOf(s, p).todo[0].partition, MergeEffect(s, p, op);
    ActorIsOk(s, p);
    assert k in s.objects ==> ObjectOk(s, k);
    ApplyFrame(s, p, k, e, p, k);
  }

  lemma OthersMove(s: State, m: Move, p: Pid)
    requires CanMove(s, m) && Mover(m) != Some(p)
    ensures ProcOf(AfterMove(s, m), p) == ProcOf(s, p)
  {
    if m.Lawful? {
      StepFrame(s, m.action, p, Partition(0, 0, 0));
    }
  }

  lemma {:induction false} WaitsToRename(states: seq<State>, moves: seq<Move>, i: nat, j: nat, p: Pid)
    requires IsLooseRun(states, moves) && i < j <= |moves| && forall t :: i < t < j ==> Mover(moves[t]) != Some(p)
    ensures ProcOf(states[j], p) == ProcOf(states[i + 1], p)
    decreases j
  {
    hide AfterMove, CanMove, ProcOf;
    if i + 1 < j {
      WaitsToRename(states, moves, i, j - 1, p);
      OthersMove(states[j - 1], moves[j - 1], p);
    }
  }

  lemma RenameReplaces(s: State, p: Pid, op: MergeOp)
    requires MergeEnabled(s, p, op) && op.Rename?
    ensures Content(MergeNext(s, p, op), ProcOf(s, p).todo[0].partition) == ProcOf(s, p).pc.replacement
  {
  }

  /** After a rename the object holds what it held at the writer's own check, and the writer's batch. */
  lemma RenamedContent(states: seq<State>, moves: seq<Move>, i: nat, j: nat, p: Pid)
    requires CheckThenRename(states, moves, i, j, p)
    ensures ProcOf(states[i], p).todo != []
    ensures var g := ProcOf(states[i], p).todo[0];
      forall r :: r in Content(states[j + 1], g.partition) <==> r in Content(states[i], g.partition) || r in g.rows
  {
    LooseRunKeepsInv(states, moves, i);
    assert CanMove(states[i], moves[i]) && states[i + 1] == AfterMove(states[i], moves[i]);
    assert CanMove(states[j], moves[j]) && states[j + 1] == AfterMove(states[j], moves[j]);
    PassedCheck(states[i], p, moves[i].action.op);
    WaitsToRename(states, moves, i, j, p);
    RenameReplaces(states[j], p, moves[j].action.op);
    var g := ProcOf(states[i], p).todo[0];
    MergedIsOk(states[i], Content(states[i], g.partition), g.rows);
    hide *;
  }

  /**
   * Exactly which rows a local rename loses, whoever holds the lock or bypasses it: a stored row
   * vanishes if and only if it was neither in the object at this writer's own check nor in its batch.
   */
  lemma RenameLosesExactly(states: seq<State>, moves: seq<Move>, i: nat, j: nat, p: Pid, row: Row)
    requires CheckThenRename(states, moves, i, j, p) && ProcOf(states[i], p).todo != []
    requires row in Content(states[j], ProcOf(states[i], p).todo[0].partition)
    ensures var g := ProcOf(states[i], p).todo[0];
      row !in Content(states[j + 1], g.partition) <==> row !in Content(states[i], g.partition) && row !in g.rows
  {
    RenamedContent(states, moves, i, j, p);
  }

  // -------------------------------------------------------------------- when none are lost

  /** Does the move replace the object of `k`? */
  predicate Overwrites(s: State, m: Move, k: Partition)
    requires CanMove(s, m)
  {
    m.Lawful? && Lands(s, m.action, k)
  }

  lemma ContentStays(s: State, m: Move, k: Partition)
    requires CanMove(s, m) && !Overwrites(s, m, k)
    ensures Content(AfterMove(s, m), k) == Content(s, k)
  {
    if m.Lawful? && m.action.InSession? {
      SessionFrame(s, m.action.p, m.action.step, m.action.p);
    }
  }

  lemma {:induction false} NobodyOverwrites(states: seq<State>, moves: seq<Move>, i: nat, j: nat, k: Partition)
    requires IsLooseRun(states, moves) && i <= j <= |moves|
    requires forall t :: i <= t < j ==> !Overwrites(states[t], moves[t], k)
    ensures Content(states[j], k) == Content(states[i], k)
    decreases j
  {
    hide AfterMove, CanMove, Overwrites, Content;
    if i < j {
      NobodyOverwrites(states, moves, i, j - 1, k);
      ContentStays(states[j - 1], moves[j - 1], k);
    }
  }

  /** Each write that lands on `k` in these steps is made by the holder of the lock. */
  ghost predicate WritersHoldTheLock(states: seq<State>, moves: seq<Move>, i: nat, j: nat, k: Partition)
    requires IsLooseRun(states, moves) && j <= |moves|
  {
    forall t :: i <= t < j && Overwrites(states[t], moves[t], k) ==> states[t].lock == Mover(moves[t])
  }

  /**
   * With the lock nothing is lost: a writer that holds it from its check to its rename, among
   * writers that do not write without it, renames over an object that is as it was at the check.
   */
  lemma HoldingTheLockLosesNothing(states: seq<State>, moves: seq<Move>, i: nat, j: nat, p: Pid, row: Row)
    requires CheckThenRename(states, moves, i, j, p) && ProcOf(states[i], p).todo != []
    requires forall t :: i < t < j ==> states[t].lock == Some(p)
    requires WritersHoldTheLock(states, moves, i + 1, j, ProcOf(states[i], p).todo[0].partition)
    requires row in Content(states[j], ProcOf(states[i], p).todo[0].partition)
    ensures row in Content(states[j + 1], ProcOf(states[i], p).todo[0].partition)
  {
    var k := ProcOf(states[i], p).todo[0].partition;
    forall t | i + 1 <= t < j ensures !Overwrites(states[t], moves[t], k) {
      assert Mover(moves[t]) != Some(p) && states[t].lock == Some(p);
    }
    NobodyOverwrites(states, moves, i + 1, j, k);
    LooseRunKeepsInv(states, moves, i);
    CheckWritesNothing(states[i], p, moves[i].action.op, k);
    RenameLosesExactly(states, moves, i, j, p, row);
    hide *;
  }

  lemma CheckWritesNothing(s: State, p: Pid, op: MergeOp, k: Partition)
    requires MergeEnabled(s, p, op) && op.Put? && ProcOf(MergeNext(s, p, op), p).pc.Renaming?
    ensures Content(MergeNext(s, p, op), k) == Content(s, k)
  {
    var e := MergeEffect(s, p, op);
    ApplyFrame(s, p, ProcOf(s, p).todo[0].partition, e, p, k);
  }

  /** Gone from the hot table and in no object. */
  predicate Lost(s: State, id: nat) {
    id in s.ever && id !in s.hot && !InLake(s, s.ever[id])
  }

  /** As long as nobody bypasses the lock, a local run is a run of the protocol, and no row is ever lost. */
  lemma WithoutBypassNothingIsLost(states: seq<State>, moves: seq<Move>, i: nat, id: nat)
    requires IsLooseRun(states, moves) && i < |states| && forall t :: 0 <= t < |moves| ==> moves[t].Lawful?
    ensures !Lost(states[i], id)
  {
    var actions := seq(|moves|, t requires 0 <= t < |moves| && moves[t].Lawful? => moves[t].action);
    forall t | 0 <= t < |actions|
      ensures Enabled(states[t], actions[t]) && states[t + 1] == Next(states[t], actions[t])
    {
      assert CanMove(states[t], moves[t]) && states[t + 1] == AfterMove(states[t], moves[t]);
    }
    hide Next, Enabled;
    assert IsRun(states, actions);
    if id in states[i].ever {
      S.NoRowIsLost(states, actions, i, i, id);
    }
  }

  // ------------------------------------------------------------------- a run that loses a row

  predicate OnlyBypasser(moves: seq<Move>, p: Pid) {
    forall m <- moves :: m.Bypass? ==> m.p == p
  }

  ghost predicate Reachable(s: State) {
    exists states, moves :: IsLooseRun(states, moves) && states[|moves|] == s && OnlyBypasser(moves, 1)
  }

  lemma Play(s: State, m: Move) returns (s': State)
    requires Reachable(s) && CanMove(s, m) && (m.Bypass? ==> m.p == 1)
    ensures s' == AfterMove(s, m) && Reachable(s')
  {
    hide CanMove, AfterMove, Init;
    var states, moves :| IsLooseRun(states, moves) && states[|moves|] == s && OnlyBypasser(moves, 1);
    s' := AfterMove(s, m);
    assert IsLooseRun(states + [s'], moves + [m]) && (states + [s'])[|moves + [m]|] == s';
    assert OnlyBypasser(moves + [m], 1);
  }

  const SHARED := Partition(0, 2024, 1)
  const R0 := Row(0, SHARED, 0, 0)
  const R1 := Row(1, SHARED, 0, 0)

  /** A compactor working on a batch of one row. */
  function At(pc: Pc, row: Row): Proc {
    Proc(pc, [Group(SHARED, [row])], 0, NO_CHANGES)
  }

  function WithProc(s: State, p: Pid, proc: Proc): State {
    s.(procs := s.procs[p := proc])
  }

  /** A compactor selects a row and enters its merge, with the lock or past it. */
  lemma PlayEnter(s: State, p: Pid, row: Row, bypass: bool) returns (t: State)
    requires Reachable(s) && s.backend.Local? && ProcOf(s, p) == FRESH_PROC
    requires if bypass then p == 1 else s.lock == None
    requires row.partition == SHARED && row.id in s.hot && s.hot[row.id] == HotRow(row, false)
    ensures Reachable(t) && t == WithProc(s, p, At(Stating, row)).(lock := if bypass then s.lock else Some(p))
  {
    hide Reachable;
    assert SelectableGroup(s, Group(SHARED, [row]));
    var s1 := Play(s, Lawful(InSession(p, Open([Group(SHARED, [row])]))));
    assert s1 == WithProc(s, p, At(Locking, row));
    t := Play(s1, if bypass then Bypass(p) else Lawful(InSession(p, AcquireLock)));
  }

  lemma PlayStatAndRead(s: State, p: Pid, row: Row) returns (t: State)
    requires Reachable(s) && SHARED in s.objects && ProcOf(s, p) == At(Stating, row)
    ensures Reachable(t)
    ensures t == WithProc(s, p, At(Putting(IfMatch(s.objects[SHARED].etag), s.objects[SHARED].content), row))
  {
    hide Reachable;
    var s1 := Play(s, Lawful(InMerge(p, Stat(true))));
    assert s1 == WithProc(s, p, At(Reading(Some(s.objects[SHARED].etag)), row));
    t := Play(s1, Lawful(InMerge(p, Read)));
  }

  /** Up to the point where the If-Match check has passed and the rename is still to come. */
  lemma PlayToCheck(s: State, p: Pid, row: Row, tag: ETag) returns (t: State)
    requires Reachable(s) && s.backend.Local? && SHARED in s.objects && (SHARED, tag) !in s.issued
    requires ProcOf(s, p) == At(Stating, row)
    ensures Reachable(t) && t == WithProc(s, p, At(Renaming(Merge(s.objects[SHARED].content, [row])), row))
  {
    hide Reachable;
    var s1 := PlayStatAndRead(s, p, row);
    t := Play(s1, Lawful(InMerge(p, Put(tag, true))));
    hide Merge;
  }

  lemma PlayRename(s: State, p: Pid, row: Row, content: seq<Row>, tag: ETag) returns (t: State)
    requires Reachable(s) && (SHARED, tag) !in s.issued && ProcOf(s, p) == At(Renaming(content), row)
    ensures Reachable(t)
    ensures t == WithProc(s, p, At(CheckingSize(content), row))
                 .(objects := s.objects[SHARED := Object(content, tag)], issued := s.issued[(SHARED, tag) := content])
  {
    hide Reachable;
    t := Play(s, Lawful(InMerge(p, Rename(tag, true))));
  }

  /** The write is verified, the row marked archived, pruned and committed. */
  lemma PlayToCommit(s: State, p: Pid, row: Row, content: seq<Row>) returns (t: State)
    requires Reachable(s) && ProcOf(s, p) == At(CheckingSize(content), row) && Content(s, SHARED) == content
    requires row.id in s.hot && s.lock != Some(p)
    ensures Reachable(t) && t == WithProc(s, p, FRESH_PROC).(hot := s.hot - {row.id})
  {
    hide Reachable;
    var s1 := Play(s, Lawful(InMerge(p, CheckSize(true))));
    assert s1 == WithProc(s, p, At(CheckingHash(content), row));
    var s2 := PlayMark(s1, p, row, content);
    t := PlayPrune(s2, p, row.id);
    assert t.procs == s.procs[p := FRESH_PROC];
  }

  lemma PlayMark(s: State, p: Pid, row: Row, content: seq<Row>) returns (t: State)
    requires Reachable(s) && ProcOf(s, p) == At(CheckingHash(content), row) && Content(s, SHARED) == content
    requires s.lock != Some(p)
    ensures Reachable(t) && t == WithProc(s, p, Proc(Finished, [], 0, Txn({row.id}, {})))
  {
    hide Reachable;
    assert IdsOf([row]) == {row.id} && NO_CHANGES.marked + {row.id} == {row.id};
    t := Play(s, Lawful(InMerge(p, CheckHash)));
  }

  lemma PlayPrune(s: State, p: Pid, id: nat) returns (t: State)
    requires Reachable(s) && ProcOf(s, p) == Proc(Finished, [], 0, Txn({id}, {})) && id in s.hot
    ensures Reachable(t) && t == WithProc(s, p, FRESH_PROC).(hot := s.hot - {id})
  {
    hide Reachable;
    var none: set<nat> := {};
    assert none + {id} == {id};
    var s1 := Play(s, Lawful(InSession(p, Prune({id}))));
    assert s1 == WithProc(s, p, Proc(Finished, [], 0, Txn({id}, {id})));
    t := Play(s1, Lawful(InSession(p, Commit)));
    assert Committed(s1, Txn({id}, {id})) == s.hot - {id};
  }

  /** An object with one row, stored by a compactor that crashed before its commit. */
  lemma PlayFirstWrite() returns (t: State)
    ensures Reachable(t)
    ensures t == State(Local, map[0 := HotRow(R0, false), 1 := HotRow(R1, false)], map[0 := R0, 1 := R1],
                       map[SHARED := Object([R0], 0)], map[(SHARED, 0) := [R0]], None, map[0 := FRESH_PROC])
  {
    var s0 := State(Local, map[], map[], map[], map[], None, map[]);
    var none: seq<Move> := [];
    assert IsLooseRun([s0], none) && [s0][|none|] == s0 && OnlyBypasser(none, 1);
    hide Reachable;
    var s1 := Play(s0, Lawful(Ingest(R0)));
    var s2 := Play(s1, Lawful(Ingest(R1)));
    var s3 := PlayEnter(s2, 0, R0, false);
    t := PlayCreate(s3, 0, R0);
    assert t.hot == map[0 := HotRow(R0, false), 1 := HotRow(R1, false)];
  }

  lemma PlayCreate(s: State, p: Pid, row: Row) returns (t: State)
    requires Reachable(s) && SHARED !in s.objects && (SHARED, 0) !in s.issued
    requires ProcOf(s, p) == At(Stating, row) && s.lock == Some(p)
    ensures Reachable(t)
    ensures t == WithProc(s, p, FRESH_PROC)
                 .(objects := s.objects[SHARED := Object([row], 0)], issued := s.issued[(SHARED, 0) := [row]],
                   lock := None)
  {
    hide Reachable;
    var s1 := Play(s, Lawful(InMerge(p, Stat(true))));
    assert s1 == WithProc(s, p, At(Putting(IfAbsent, []), row));
    var s2 := Play(s1, Lawful(InMerge(p, Put(0, true))));
    t := Play(s2, Lawful(InSession(p, Abort)));
    assert t.procs == s.procs[p := FRESH_PROC];
  }

  lemma MergeOfOneRow(x: Row, y: Row)
    ensures Merge([x], [x]) == [x] && (x.id != y.id ==> Merge([x], [y]) == [x, y])
  {
    assert [x] + [x] == [x, x] && [x] + [y] == [x, y];
    assert [x, x][..1] == [x] && [x, y][..1] == [x] && [x][..0] == [];
    assert UniqueById([x]) == [x];
  }

  /** Compactor 0 holds the lock, compactor 1 bypasses it, and both are past their If-Match checks. */
  lemma PlayBothPastChecks() returns (t: State)
    ensures Reachable(t)
    ensures t == State(Local, map[0 := HotRow(R0, false), 1 := HotRow(R1, false)], map[0 := R0, 1 := R1],
                       map[SHARED := Object([R0], 0)], map[(SHARED, 0) := [R0]], Some(0),
                       map[0 := At(Renaming([R0]), R0), 1 := At(Renaming([R0, R1]), R1)])
  {
    hide Reachable, Merge;
    MergeOfOneRow(R0, R1);
    var s0 := PlayFirstWrite();
    var s1 := PlayEnter(s0, 0, R0, false);
    var s2 := PlayEnter(s1, 1, R1, true);
    var s3 := PlayToCheck(s2, 0, R0, 1);
    t := PlayToCheck(s3, 1, R1, 1);
    assert t.procs == map[0 := At(Renaming([R0]), R0), 1 := At(Renaming([R0, R1]), R1)];
  }

  /**
   * The If-Match check does not stop a writer that bypasses the lock: in this run, where only
   * compactor 1 does, its row is verified, pruned and committed, and then the lock's holder
   * renames over it.
   */
  lemma BypassLosesARow()
    ensures exists states, moves :: IsLooseRun(states, moves) && OnlyBypasser(moves, 1) && Lost(states[|moves|], 1)
  {
    var s0 := PlayBothPastChecks();
    var s1 := PlayRename(s0, 1, R1, [R0, R1], 1);
    var s2 := PlayToCommit(s1, 1, R1, [R0, R1]);
    var s3 := PlayRename(s2, 0, R0, [R0], 2);
    assert Lost(s3, 1);
  }
}

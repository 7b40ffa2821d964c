/**
 * The archive compaction protocol of `ops/archive.py` as a state machine. Any number of compactor
 * processes interleave their steps; each may crash, roll back or fail between any two of them.
 *
 * On S3 a conditional put is one atomic step. On local disk the If-Match check and the rename are
 * two steps and only the merge lock keeps rivals out in between.
 */
module ArchiveProtocol {
  import opened Prelude
  import opened Evidence
  import opened ConditionalWrites

  type Pid = nat

  datatype Backend = Local | S3

  /** What a database session has changed and not yet committed. */
  datatype Txn = Txn(marked: set<nat>, pruned: set<nat>)

  datatype Pc =
    | Idle
    | Locking
    | Stating
    | Reading(tag: Option<ETag>)
    | Putting(guard: Guard, read: seq<Row>)
    | Renaming(replacement: seq<Row>)
    | CheckingSize(payload: seq<Row>)
    | CheckingHash(payload: seq<Row>)
    | Finished
    | Failed

  /** One compactor with its session; `attempt` counts the conflicts on the partition at hand. */
  datatype Proc = Proc(pc: Pc, todo: seq<Group>, attempt: nat, txn: Txn)

  const NO_CHANGES := Txn({}, {})
  const FRESH_PROC := Proc(Idle, [], 0, NO_CHANGES)

  /**
   * `ever` remembers every row ingested. `issued` remembers which content each ETag of an object
   * has identified: the store may hand out any tag that never identifies two contents.
   */
  datatype State = State(
    backend: Backend,
    hot: map<nat, HotRow>,
    ever: map<nat, Row>,
    objects: Objects,
    issued: map<(Partition, ETag), seq<Row>>,
    lock: Option<Pid>,
    procs: map<Pid, Proc>)

  /** Steps a compactor takes inside the merge of one partition. */
  datatype MergeOp =
    | Stat(tagged: bool)
    | Read
    | Put(tag: ETag, acknowledged: bool)
    | Rename(tag: ETag, acknowledged: bool)
    | CheckSize(sameSize: bool)
    | CheckHash

  /** Steps around the merges; `Fail` is any raised error, `Abort` is a rollback or a crash. */
  datatype SessionOp =
    | Open(groups: seq<Group>)
    | AcquireLock
    | Prune(ids: set<nat>)
    | Commit
    | Fail
    | Abort

  datatype Action =
    | Ingest(row: Row)
    | InSession(p: Pid, step: SessionOp)
    | InMerge(p: Pid, op: MergeOp)

  function ProcOf(s: State, p: Pid): Proc {
    if p in s.procs then s.procs[p] else FRESH_PROC
  }

  function Content(s: State, k: Partition): seq<Row> {
    ContentOf(s.objects, k)
  }

  /** Is the row in the object of its partition? */
  predicate InLake(s: State, row: Row) {
    row in Content(s, row.partition)
  }

  predicate Init(s: State) {
    s.hot == map[] && s.ever == map[] && s.objects == map[] && s.issued == map[] && s.lock == None && s.procs == map[]
  }

  /** A pass may take any unarchived hot rows, grouped by partition. */
  predicate SelectableGroup(s: State, g: Group) {
    && g.rows != []
    && DistinctIds(g.rows)
    && forall r <- g.rows :: r.partition == g.partition && r.id in s.hot && s.hot[r.id] == HotRow(r, false)
  }

  /** A process inside the merge of some partition; on local disk these hold the lock. */
  predicate Merging(pc: Pc) {
    !(pc.Idle? || pc.Locking? || pc.Finished? || pc.Failed?)
  }

  /** Equal ETags of one object mean equal content. */
  predicate TagIsHonest(s: State, k: Partition, tag: ETag, content: seq<Row>) {
    (k, tag) in s.issued ==> s.issued[(k, tag)] == content
  }

  /** The process of action `a`, if it has one. */
  function Actor(a: Action): Option<Pid> {
    if a.Ingest? then None else Some(a.p)
  }

  predicate MergeEnabled(s: State, p: Pid, op: MergeOp) {
    var proc := ProcOf(s, p);
    && proc.todo != []
    && var k := proc.todo[0].partition;
       match op
       case Stat(_) => proc.pc.Stating?
       case Read => proc.pc.Reading?
       case Put(tag, _) => proc.pc.Putting? &&
           TagIsHonest(s, k, tag, Payload(proc.pc.guard, proc.pc.read, proc.todo[0].rows))
       case Rename(tag, _) => proc.pc.Renaming? && TagIsHonest(s, k, tag, proc.pc.replacement)
       case CheckSize(sameSize) => proc.pc.CheckingSize? && (Content(s, k) == proc.pc.payload ==> sameSize)
       case CheckHash => proc.pc.CheckingHash?
  }

  predicate SessionEnabled(s: State, p: Pid, step: SessionOp) {
    var proc := ProcOf(s, p);
    match step
    case Open(groups) =>
      && !Merging(proc.pc) && !proc.pc.Locking?
      && groups != []
      && forall g <- groups :: SelectableGroup(s, g)
    case AcquireLock => proc.pc.Locking? && (s.backend.Local? ==> s.lock == None)
    case Prune(ids) =>
      && (proc.pc.Idle? || proc.pc.Finished?)
      && forall id <- ids :: id in s.hot && (s.hot[id].archived || id in proc.txn.marked)
    case Commit => proc.pc.Idle? || proc.pc.Finished? || proc.pc.Failed?
    case Fail => Merging(proc.pc) || proc.pc.Locking?
    case Abort => true
  }

  predicate Enabled(s: State, a: Action) {
    match a
    case Ingest(row) => row.id !in s.ever
    case InSession(p, step) => SessionEnabled(s, p, step)
    case InMerge(p, op) => MergeEnabled(s, p, op)
  }

  function SetProc(s: State, p: Pid, proc: Proc): State {
    s.(procs := s.procs[p := proc])
  }

  /** Leaving the merge, normally or not, gives the lock back. */
  function Leave(s: State, p: Pid, proc: Proc): State {
    SetProc(s, p, proc).(lock := if s.lock == Some(p) then None else s.lock)
  }

  /** What a merge step does: the process's new record, the object it writes, whether it leaves the lock. */
  datatype Effect = Effect(proc: Proc, write: Option<Object>, leaves: bool)

  function Stay(proc: Proc): Effect {
    Effect(proc, None, false)
  }

  function GiveUp(proc: Proc, write: Option<Object>): Effect {
    Effect(proc.(pc := Failed), write, true)
  }

  /** Another compactor won: stat again, or give up after the last attempt. */
  function Conflicted(proc: Proc): Effect {
    var again := proc.(attempt := proc.attempt + 1);
    if again.attempt < MERGE_RETRIES then Stay(again.(pc := Stating)) else GiveUp(again, None)
  }

  /** The store now holds `payload`; an unacknowledged write looks like an error to its writer. */
  function Written(proc: Proc, payload: seq<Row>, tag: ETag, acknowledged: bool): Effect {
    var write := Some(Object(payload, tag));
    if acknowledged then Effect(proc.(pc := CheckingSize(payload)), write, false) else GiveUp(proc, write)
  }

  /** The verified group is marked in the session and the pass moves to the next partition. */
  function GroupDone(proc: Proc): Effect
    requires proc.todo != []
  {
    var txn := proc.txn.(marked := proc.txn.marked + IdsOf(proc.todo[0].rows));
    var rest := proc.todo[1..];
    if rest == [] then Effect(Proc(Finished, [], 0, txn), None, true)
    else Stay(Proc(Stating, rest, 0, txn))
  }

  function Committed(s: State, txn: Txn): map<nat, HotRow> {
    map id | id in s.hot && id !in txn.pruned :: HotRow(s.hot[id].row, s.hot[id].archived || id in txn.marked)
  }

  function SessionNext(s: State, p: Pid, step: SessionOp): State
    requires SessionEnabled(s, p, step)
  {
    var proc := ProcOf(s, p);
    match step
    case Open(groups) => SetProc(s, p, proc.(pc := Locking, todo := groups, attempt := 0))
    case AcquireLock =>
      SetProc(s, p, proc.(pc := Stating)).(lock := if s.backend.Local? then Some(p) else s.lock)
    case Prune(ids) => SetProc(s, p, proc.(txn := proc.txn.(pruned := proc.txn.pruned + ids)))
    case Commit => SetProc(s, p, FRESH_PROC).(hot := Committed(s, proc.txn))
    case Fail => Leave(s, p, proc.(pc := Failed))
    case Abort => Leave(s, p, FRESH_PROC)
  }

  function PutEffect(s: State, proc: Proc, tag: ETag, acknowledged: bool): Effect
    requires proc.pc.Putting? && proc.todo != []
  {
    var payload := Payload(proc.pc.guard, proc.pc.read, proc.todo[0].rows);
    if !GuardHolds(s.objects, proc.todo[0].partition, proc.pc.guard) then Conflicted(proc)
    else if s.backend.Local? && proc.pc.guard.IfMatch? then Stay(proc.(pc := Renaming(payload)))
    else Written(proc, payload, tag, acknowledged)
  }

  function MergeEffect(s: State, p: Pid, op: MergeOp): Effect
    requires MergeEnabled(s, p, op)
  {
    var proc := ProcOf(s, p);
    var k := proc.todo[0].partition;
    match op
    case Stat(tagged) =>
      if k !in s.objects then Stay(proc.(pc := Putting(IfAbsent, [])))
      else Stay(proc.(pc := Reading(if tagged then Some(s.objects[k].etag) else None)))
    case Read =>
      var guard := if proc.pc.tag.Some? then IfMatch(proc.pc.tag.value) else NoTag;
      Stay(proc.(pc := Putting(guard, Content(s, k))))
    case Put(tag, acknowledged) => PutEffect(s, proc, tag, acknowledged)
    case Rename(tag, acknowledged) => Written(proc, proc.pc.replacement, tag, acknowledged)
    case CheckSize(sameSize) =>
      if sameSize then Stay(proc.(pc := CheckingHash(proc.pc.payload))) else GiveUp(proc, None)
    case CheckHash =>
      if Content(s, k) == proc.pc.payload then GroupDone(proc) else GiveUp(proc, None)
  }

  function Apply(s: State, p: Pid, k: Partition, e: Effect): State {
    var s' := if e.leaves then Leave(s, p, e.proc) else SetProc(s, p, e.proc);
    if e.write.None? then s'
    else s'.(objects := s.objects[k := e.write.value],
             issued := s.issued[(k, e.write.value.etag) := e.write.value.content])
  }

  function MergeNext(s: State, p: Pid, op: MergeOp): State
    requires MergeEnabled(s, p, op)
  {
    Apply(s, p, ProcOf(s, p).todo[0].partition, MergeEffect(s, p, op))
  }

  function Next(s: State, a: Action): State
    requires Enabled(s, a)
  {
    match a
    case Ingest(row) => s.(hot := s.hot[row.id := HotRow(row, false)], ever := s.ever[row.id := row])
    case InSession(p, step) => SessionNext(s, p, step)
    case InMerge(p, op) => MergeNext(s, p, op)
  }

  /** `states` is a run: it starts empty and takes one enabled action at a time. */
  ghost predicate IsRun(states: seq<State>, actions: seq<Action>) {
    && |states| == |actions| + 1
    && Init(states[0])
    && forall i :: 0 <= i < |actions| ==>
         Enabled(states[i], actions[i]) && states[i + 1] == Next(states[i], actions[i])
  }

  // ------------------------------------------------------------ local disk without discipline

  /** A step on local disk where a writer may also enter its merges without taking the lock. */
  datatype Move = Lawful(action: Action) | Bypass(p: Pid)

  function Mover(m: Move): Option<Pid> {
    match m
    case Lawful(a) => Actor(a)
    case Bypass(p) => Some(p)
  }

  /** A local tag is made of the time of the write, so every write has a new one. */
  predicate StampIsNew(s: State, a: Action) {
    a.InMerge? && (a.op.Put? || a.op.Rename?) && ProcOf(s, a.p).todo != [] ==>
      (ProcOf(s, a.p).todo[0].partition, a.op.tag) !in s.issued
  }

  predicate CanMove(s: State, m: Move) {
    match m
    case Lawful(a) => Enabled(s, a) && StampIsNew(s, a)
    case Bypass(p) => ProcOf(s, p).pc.Locking? && ProcOf(s, p).todo != []
  }

  function AfterMove(s: State, m: Move): State
    requires CanMove(s, m)
  {
    match m
    case Lawful(a) => Next(s, a)
    case Bypass(p) => SetProc(s, p, ProcOf(s, p).(pc := Stating))
  }

  /** A run on local disk in which some writers may bypass the lock. */
  ghost predicate IsLooseRun(states: seq<State>, moves: seq<Move>) {
    && |states| == |moves| + 1
    && Init(states[0]) && states[0].backend.Local?
    && forall i :: 0 <= i < |moves| ==>
         CanMove(states[i], moves[i]) && states[i + 1] == AfterMove(states[i], moves[i])
  }
}

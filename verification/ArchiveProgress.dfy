/** Conflicts of the archive protocol, charged to the rival writes that cause them. */
module ArchiveProgress {
  import opened Prelude
  import opened Evidence
  import opened ConditionalWrites
  import opened ArchiveProtocol

  /** Does this step replace the object of `k`? */
  predicate Lands(s: State, a: Action, k: Partition)
    requires Enabled(s, a)
  {
    a.InMerge? && ProcOf(s, a.p).todo[0].partition == k && MergeEffect(s, a.p, a.op).write.Some?
  }

  predicate RivalLands(s: State, a: Action, p: Pid, k: Partition)
    requires Enabled(s, a)
  {
    Actor(a) != Some(p) && Lands(s, a, k)
  }

  /** Writes on `k` by processes other than `p` in steps `i` to `j`. */
  ghost function RivalWrites(states: seq<State>, actions: seq<Action>, i: nat, j: nat, p: Pid, k: Partition): nat
    requires IsRun(states, actions) && i <= j <= |actions|
  {
    if i == j then 0
    else RivalWrites(states, actions, i, j - 1, p, k) + if RivalLands(states[j - 1], actions[j - 1], p, k) then 1 else 0
  }

  function TagNow(s: State, k: Partition): Option<ETag> {
    if k in s.objects then Some(s.objects[k].etag) else None
  }

  /** Given the object's tag now, the compactor's coming put is bound to conflict. */
  predicate Stale(pc: Pc, now: Option<ETag>) {
    match pc
    case Reading(tag) => tag.None? || now != tag
    case Putting(guard, _) => guard.NoTag? || now != (if guard.IfMatch? then Some(guard.etag) else None)
    case _ => false
  }

  /** Conflicts so far, counting the one that is already bound to come. */
  function Charge(proc: Proc, now: Option<ETag>): nat {
    proc.attempt + if Stale(proc.pc, now) then 1 else 0
  }

  /** Steps of `p` inside one partition merge on a store that returns ETags. */
  predicate WithinMerge(a: Action, p: Pid) {
    Actor(a) == Some(p) ==> a.InMerge? && a.op != Stat(false) && !a.op.CheckHash?
  }

  /** The merge of one partition, from its first stat on, with no session change in between. */
  ghost predicate OneMerge(states: seq<State>, actions: seq<Action>, i: nat, j: nat, p: Pid) {
    && IsRun(states, actions) && i <= j <= |actions|
    && ProcOf(states[i], p).pc.Stating? && ProcOf(states[i], p).todo != [] && ProcOf(states[i], p).attempt == 0
    && forall t :: i <= t < j ==> WithinMerge(actions[t], p)
  }

  predicate TagHeld(pc: Pc) {
    (pc.Reading? ==> pc.tag.Some?) && (pc.Putting? ==> !pc.guard.NoTag?)
  }

  lemma ApplyFrame(s: State, q: Pid, k: Partition, e: Effect, p: Pid, j: Partition)
    ensures p != q ==> ProcOf(Apply(s, q, k, e), p) == ProcOf(s, p)
    ensures ProcOf(Apply(s, q, k, e), q) == e.proc
    ensures e.write.None? || j != k ==> TagNow(Apply(s, q, k, e), j) == TagNow(s, j)
  {
  }

  lemma SessionFrame(s: State, q: Pid, step: SessionOp, p: Pid)
    requires SessionEnabled(s, q, step)
    ensures p != q ==> ProcOf(SessionNext(s, q, step), p) == ProcOf(s, p)
    ensures SessionNext(s, q, step).objects == s.objects
  {
  }

  /** A process and an object are changed by that process and by landing writes only. */
  lemma StepFrame(s: State, a: Action, p: Pid, k: Partition)
    requires Enabled(s, a)
    ensures Actor(a) != Some(p) ==> ProcOf(Next(s, a), p) == ProcOf(s, p)
    ensures !Lands(s, a, k) ==> TagNow(Next(s, a), k) == TagNow(s, k)
  {
    match a
    case Ingest(_) =>
    case InSession(q, step) => SessionFrame(s, q, step, p);
    case InMerge(q, op) => ApplyFrame(s, q, ProcOf(s, q).todo[0].partition, MergeEffect(s, q, op), p, k);
  }

  /** A conflict only turns a pending conflict into a counted one. */
  lemma EffectCharges(s: State, p: Pid, op: MergeOp, now: Option<ETag>)
    requires MergeEnabled(s, p, op) && op != Stat(false) && !op.CheckHash? && TagHeld(ProcOf(s, p).pc)
    ensures var proc, e, before := ProcOf(s, p), MergeEffect(s, p, op), TagNow(s, ProcOf(s, p).todo[0].partition);
      && e.proc.todo == proc.todo && TagHeld(e.proc.pc)
      && (e.write.Some? || now == before ==> Charge(e.proc, now) <= Charge(proc, before))
  {
  }

  lemma OwnStepCharges(s: State, a: Action, p: Pid)
    requires Enabled(s, a) && Actor(a) == Some(p) && WithinMerge(a, p) && TagHeld(ProcOf(s, p).pc)
    ensures ProcOf(s, p).todo != []
    ensures var s', k := Next(s, a), ProcOf(s, p).todo[0].partition;
      && ProcOf(s', p).todo == ProcOf(s, p).todo && TagHeld(ProcOf(s', p).pc)
      && Charge(ProcOf(s', p), TagNow(s', k)) <= Charge(ProcOf(s, p), TagNow(s, k))
  {
    var k, e := ProcOf(s, p).todo[0].partition, MergeEffect(s, p, a.op);
    ApplyFrame(s, p, k, e, p, k);
    EffectCharges(s, p, a.op, TagNow(Apply(s, p, k, e), k));
  }

  /** Only a write that lands can make another compactor's put conflict. */
  lemma RivalStepCharges(s: State, a: Action, p: Pid)
    requires Enabled(s, a) && Actor(a) != Some(p) && ProcOf(s, p).todo != []
    ensures var s', k := Next(s, a), ProcOf(s, p).todo[0].partition;
      && ProcOf(s', p) == ProcOf(s, p)
      && Charge(ProcOf(s', p), TagNow(s', k)) <= Charge(ProcOf(s, p), TagNow(s, k)) + if Lands(s, a, k) then 1 else 0
  {
    StepFrame(s, a, p, ProcOf(s, p).todo[0].partition);
  }

  lemma StepCharges(s: State, a: Action, p: Pid)
    requires Enabled(s, a) && WithinMerge(a, p) && TagHeld(ProcOf(s, p).pc) && ProcOf(s, p).todo != []
    ensures var s', k := Next(s, a), ProcOf(s, p).todo[0].partition;
      && ProcOf(s', p).todo == ProcOf(s, p).todo && TagHeld(ProcOf(s', p).pc)
      && Charge(ProcOf(s', p), TagNow(s', k))
         <= Charge(ProcOf(s, p), TagNow(s, k)) + if RivalLands(s, a, p, k) then 1 else 0
  {
    if Actor(a) == Some(p) {
      OwnStepCharges(s, a, p);
    } else {
      RivalStepCharges(s, a, p);
    }
  }

  /**
   * Every conflict in the merge of one partition is paid for by a different write of a rival on
   * that partition; a pending conflict is paid for as well.
   */
  lemma {:induction false} ConflictsAreCharged(states: seq<State>, actions: seq<Action>, i: nat, j: nat, p: Pid)
    requires OneMerge(states, actions, i, j, p)
    ensures ProcOf(states[j], p).todo == ProcOf(states[i], p).todo
    ensures TagHeld(ProcOf(states[j], p).pc)
    ensures var todo := ProcOf(states[i], p).todo;
      Charge(ProcOf(states[j], p), TagNow(states[j], todo[0].partition))
          <= RivalWrites(states, actions, i, j, p, todo[0].partition)
    decreases j
  {
    hide Next, Enabled;
    if i < j {
      ConflictsAreCharged(states, actions, i, j - 1, p);
      StepCharges(states[j - 1], actions[j - 1], p);
    }
  }

  lemma FreshStep(s: State, a: Action, p: Pid, k: Partition)
    requires Enabled(s, a) && !RivalLands(s, a, p, k)
    requires ProcOf(s, p).todo != [] && ProcOf(s, p).todo[0].partition == k
    requires Actor(a) == Some(p) ==>
               a == InMerge(p, Stat(true)) || (a == InMerge(p, Read) && !Stale(ProcOf(s, p).pc, TagNow(s, k)))
    requires Actor(a) != Some(p) ==> !Stale(ProcOf(s, p).pc, TagNow(s, k))
    ensures ProcOf(Next(s, a), p).todo == ProcOf(s, p).todo
    ensures !Stale(ProcOf(Next(s, a), p).pc, TagNow(Next(s, a), k))
  {
    if Actor(a) == Some(p) {
      var e := MergeEffect(s, p, a.op);
      ApplyFrame(s, p, k, e, p, k);
    } else {
      StepFrame(s, a, p, k);
    }
  }

  /** As long as no rival write lands, what the stat saw is still there. */
  lemma {:induction false} UndisturbedStaysFresh(states: seq<State>, actions: seq<Action>, i: nat, j: nat, p: Pid)
    requires IsRun(states, actions) && i < j <= |actions|
    requires actions[i] == InMerge(p, Stat(true))
    requires forall t :: i < t < j && Actor(actions[t]) == Some(p) ==> actions[t] == InMerge(p, Read)
    requires forall t :: i < t < j ==> !RivalLands(states[t], actions[t], p, ProcOf(states[i], p).todo[0].partition)
    ensures ProcOf(states[i], p).todo != [] && ProcOf(states[j], p).todo == ProcOf(states[i], p).todo
    ensures !Stale(ProcOf(states[j], p).pc, TagNow(states[j], ProcOf(states[i], p).todo[0].partition))
    decreases j
  {
    if i < j - 1 {
      UndisturbedStaysFresh(states, actions, i, j - 1, p);
    }
    FreshStep(states[j - 1], actions[j - 1], p, ProcOf(states[i], p).todo[0].partition);
  }

  /** A lost race means that between this compactor's stat and its put a rival's write landed. */
  lemma ConflictHasRival(states: seq<State>, actions: seq<Action>, i: nat, j: nat, p: Pid, put: MergeOp)
    requires IsRun(states, actions) && i < j < |actions|
    requires actions[i] == InMerge(p, Stat(true)) && actions[j] == InMerge(p, put) && put.Put?
    requires forall t :: i < t < j && Actor(actions[t]) == Some(p) ==> actions[t] == InMerge(p, Read)
    requires var proc := ProcOf(states[j], p); !GuardHolds(states[j].objects, proc.todo[0].partition, proc.pc.guard)
    ensures exists t :: i < t < j && RivalLands(states[t], actions[t], p, ProcOf(states[i], p).todo[0].partition)
  {
    if forall t :: i < t < j ==> !RivalLands(states[t], actions[t], p, ProcOf(states[i], p).todo[0].partition) {
      UndisturbedStaysFresh(states, actions, i, j, p);
      assert false;
    }
  }

  /** A step at which `p` fails for a reason other than a conflict. */
  predicate OtherError(s: State, a: Action, p: Pid)
    requires Enabled(s, a)
  {
    Actor(a) == Some(p) && ProcOf(Next(s, a), p).pc.Failed? && a.InMerge?
    && (a.op.CheckSize? || Lands(s, a, ProcOf(s, p).todo[0].partition))
  }

  lemma AliveStep(s: State, a: Action, p: Pid)
    requires Enabled(s, a) && Actor(a) == Some(p) && WithinMerge(a, p) && !OtherError(s, a, p)
    requires Merging(ProcOf(s, p).pc) && ProcOf(Next(s, a), p).attempt < MERGE_RETRIES
    ensures Merging(ProcOf(Next(s, a), p).pc)
  {
    var k, e := ProcOf(s, p).todo[0].partition, MergeEffect(s, p, a.op);
    ApplyFrame(s, p, k, e, p, k);
  }

  /**
   * A compactor that meets at most two rival writes on its partition never runs out of attempts:
   * unless its own write or verification fails, the merge is still alive and past its last conflict.
   */
  lemma {:induction false} TwoRivalsNeverExhaust(states: seq<State>, actions: seq<Action>, i: nat, j: nat, p: Pid)
    requires OneMerge(states, actions, i, j, p)
    requires RivalWrites(states, actions, i, j, p, ProcOf(states[i], p).todo[0].partition) <= 2
    requires forall t :: i <= t < j ==> !OtherError(states[t], actions[t], p)
    ensures ProcOf(states[j], p).attempt <= 2
    ensures Merging(ProcOf(states[j], p).pc)
    decreases j
  {
    hide Next, Enabled, OtherError, TagHeld;
    ConflictsAreCharged(states, actions, i, j, p);
    if i < j {
      TwoRivalsNeverExhaust(states, actions, i, j - 1, p);
      if Actor(actions[j - 1]) != Some(p) {
        StepFrame(states[j - 1], actions[j - 1], p, ProcOf(states[i], p).todo[0].partition);
      } else {
        AliveStep(states[j - 1], actions[j - 1], p);
      }
    }
  }

  predicate InTime(proc: Proc) {
    Merging(proc.pc) || proc.pc.Locking? ==> proc.attempt <= 2
  }

  lemma StepInTime(s: State, a: Action, p: Pid)
    requires Enabled(s, a) && InTime(ProcOf(s, p))
    ensures InTime(ProcOf(Next(s, a), p))
  {
    match a
    case Ingest(_) =>
    case InSession(q, step) => SessionFrame(s, q, step, p);
    case InMerge(q, op) => ApplyFrame(s, q, ProcOf(s, q).todo[0].partition, MergeEffect(s, q, op), p,
                                      ProcOf(s, q).todo[0].partition);
  }

  /** No merge goes on after its third conflict. */
  lemma {:induction false} ThirdConflictIsFinal(states: seq<State>, actions: seq<Action>, i: nat, p: Pid)
    requires IsRun(states, actions) && i < |states|
    ensures Merging(ProcOf(states[i], p).pc) ==> ProcOf(states[i], p).attempt < 3
    ensures InTime(ProcOf(states[i], p))
  {
    hide Next, Enabled;
    if i > 0 {
      ThirdConflictIsFinal(states, actions, i - 1, p);
      StepInTime(states[i - 1], actions[i - 1], p);
    }
  }

  // ------------------------------------------------------------ the merge comes to its end

  /** Steps of `p` between two states of a run. */
  ghost function OwnSteps(states: seq<State>, actions: seq<Action>, i: nat, j: nat, p: Pid): nat
    requires IsRun(states, actions) && i <= j <= |actions|
  {
    if i == j then 0
    else OwnSteps(states, actions, i, j - 1, p) + if Actor(actions[j - 1]) == Some(p) then 1 else 0
  }

  /** How far an attempt has come. */
  function Depth(pc: Pc): nat {
    match pc
    case Reading(_) => 1
    case Putting(_, _) => 2
    case Renaming(_) => 3
    case CheckingSize(_) => 4
    case CheckingHash(_) => 5
    case _ => 0
  }

  function Distance(proc: Proc): nat {
    3 * proc.attempt + Depth(proc.pc)
  }

  /** Each own step leads on: through the attempt, or into the next one. */
  lemma OwnStepLeadsOn(s: State, a: Action, p: Pid)
    requires Enabled(s, a) && Actor(a) == Some(p) && WithinMerge(a, p)
    requires Merging(ProcOf(Next(s, a), p).pc)
    ensures Distance(ProcOf(Next(s, a), p)) >= Distance(ProcOf(s, p)) + 1
  {
    var k, e := ProcOf(s, p).todo[0].partition, MergeEffect(s, p, a.op);
    ApplyFrame(s, p, k, e, p, k);
  }

  lemma {:induction false} OwnStepsBounded(states: seq<State>, actions: seq<Action>, i: nat, j: nat, p: Pid)
    requires OneMerge(states, actions, i, j, p)
    requires forall t :: i <= t <= j ==> Merging(ProcOf(states[t], p).pc)
    ensures OwnSteps(states, actions, i, j, p) <= Distance(ProcOf(states[j], p))
    decreases j
  {
    hide Next, Enabled;
    if i < j {
      OwnStepsBounded(states, actions, i, j - 1, p);
      assert Merging(ProcOf(states[j], p).pc) && states[j] == Next(states[j - 1], actions[j - 1]);
      if Actor(actions[j - 1]) == Some(p) {
        OwnStepLeadsOn(states[j - 1], actions[j - 1], p);
      } else {
        StepFrame(states[j - 1], actions[j - 1], p, ProcOf(states[i], p).todo[0].partition);
      }
    }
  }

  lemma {:induction false} LargestTag(tags: set<ETag>) returns (bound: ETag)
    ensures forall t :: t in tags ==> t < bound
  {
    bound := 0;
    if tags != {} {
      var t :| t in tags;
      var rest := LargestTag(tags - {t});
      bound := if t < rest then rest else t + 1;
      assert forall u :: u in tags ==> u == t || u in tags - {t};
    }
  }

  /** The store can always answer a write with a tag it has not used. */
  lemma FreshTag(s: State, k: Partition) returns (tag: ETag)
    ensures (k, tag) !in s.issued
  {
    var tags := set t | t in s.issued :: t.1;
    assert forall t :: t in s.issued ==> t.1 in tags;
    tag := LargestTag(tags);
    assert (k, tag).1 == tag;
  }

  /** Inside a merge the compactor never waits: some step of its own is possible. */
  lemma NeverStuck(s: State, p: Pid) returns (op: MergeOp)
    requires Merging(ProcOf(s, p).pc) && ProcOf(s, p).todo != []
    ensures MergeEnabled(s, p, op) && (ProcOf(s, p).pc.CheckingHash? <==> op.CheckHash?)
    ensures !op.CheckHash? ==> WithinMerge(InMerge(p, op), p)
  {
    var pc := ProcOf(s, p).pc;
    var tag := FreshTag(s, ProcOf(s, p).todo[0].partition);
    op := match pc
          case Stating => Stat(true)
          case Reading(_) => Read
          case Putting(_, _) => Put(tag, true)
          case Renaming(_) => Rename(tag, true)
          case CheckingSize(_) => CheckSize(true)
          case _ => CheckHash;
  }

  lemma {:induction false} AliveThroughout(states: seq<State>, actions: seq<Action>, i: nat, t: nat, j: nat, p: Pid)
    requires OneMerge(states, actions, i, j, p) && i <= t <= j
    requires RivalWrites(states, actions, i, j, p, ProcOf(states[i], p).todo[0].partition) <= 2
    requires forall u :: i <= u < j ==> !OtherError(states[u], actions[u], p)
    ensures Merging(ProcOf(states[t], p).pc)
    decreases j
  {
    hide Next, Enabled, OtherError;
    if t < j {
      AliveThroughout(states, actions, i, t, j - 1, p);
    } else {
      TwoRivalsNeverExhaust(states, actions, i, j, p);
    }
  }

  /**
   * With at most two rival writes and no other error a merge comes to its last check within
   * eleven steps of its own, however the rivals' steps fall between them, and a step of its own
   * is possible until then.
   */
  lemma TwoRivalsReachTheLastCheck(states: seq<State>, actions: seq<Action>, i: nat, j: nat, p: Pid)
    requires OneMerge(states, actions, i, j, p)
    requires RivalWrites(states, actions, i, j, p, ProcOf(states[i], p).todo[0].partition) <= 2
    requires forall t :: i <= t < j ==> !OtherError(states[t], actions[t], p)
    ensures OwnSteps(states, actions, i, j, p) <= 11
    ensures OwnSteps(states, actions, i, j, p) == 11 ==> ProcOf(states[j], p).pc.CheckingHash?
    ensures ProcOf(states[j], p).pc.CheckingHash? ||
            exists op :: MergeEnabled(states[j], p, op) && WithinMerge(InMerge(p, op), p)
  {
    hide Next, Enabled, OtherError, RivalWrites, OwnSteps;
    TwoRivalsNeverExhaust(states, actions, i, j, p);
    ConflictsAreCharged(states, actions, i, j, p);
    forall t | i <= t <= j ensures Merging(ProcOf(states[t], p).pc) {
      AliveThroughout(states, actions, i, t, j, p);
    }
    OwnStepsBounded(states, actions, i, j, p);
    var op := NeverStuck(states[j], p);
  }

  /** The compactor's own write of `payload` is done and being verified. */
  predicate Verifying(s: State, p: Pid, k: Partition, payload: seq<Row>) {
    && (ProcOf(s, p).pc == CheckingSize(payload) || ProcOf(s, p).pc == CheckingHash(payload))
    && ProcOf(s, p).todo != [] && ProcOf(s, p).todo[0].partition == k && Content(s, k) == payload
  }

  lemma VerifyingStep(s: State, a: Action, p: Pid, k: Partition, payload: seq<Row>)
    requires Enabled(s, a) && Verifying(s, p, k, payload) && !RivalLands(s, a, p, k)
    requires Actor(a) == Some(p) ==> a.InMerge? && !a.op.CheckHash?
    ensures Verifying(Next(s, a), p, k, payload)
  {
    if Actor(a) == Some(p) {
      ApplyFrame(s, p, k, MergeEffect(s, p, a.op), p, k);
    } else {
      QuietStep(s, a, p, k);
    }
  }

  lemma QuietStep(s: State, a: Action, p: Pid, k: Partition)
    requires Enabled(s, a) && Actor(a) != Some(p) && !Lands(s, a, k)
    ensures ProcOf(Next(s, a), p) == ProcOf(s, p) && Content(Next(s, a), k) == Content(s, k)
  {
    StepFrame(s, a, p, k);
    match a
    case Ingest(_) =>
    case InSession(q, step) => SessionFrame(s, q, step, p);
    case InMerge(q, op) =>
  }

  lemma {:induction false} StaysVerifying(states: seq<State>, actions: seq<Action>, i: nat, j: nat, p: Pid,
                                          k: Partition, payload: seq<Row>)
    requires IsRun(states, actions) && i <= j <= |actions| && Verifying(states[i], p, k, payload)
    requires forall t :: i <= t < j && Actor(actions[t]) == Some(p) ==> actions[t].InMerge? && !actions[t].op.CheckHash?
    requires forall t :: i <= t < j ==> !RivalLands(states[t], actions[t], p, k)
    ensures Verifying(states[j], p, k, payload)
    decreases j
  {
    if i < j {
      StaysVerifying(states, actions, i, j - 1, p, k, payload);
      hide Next, Enabled, Verifying, RivalLands;
      VerifyingStep(states[j - 1], actions[j - 1], p, k, payload);
    }
  }

  /**
    Unless a rival writes on top of it before the last check, a merge that has written marks its
    group and moves on.
  */
  lemma UndisturbedWriteIsMarked(states: seq<State>, actions: seq<Action>, i: nat, j: nat, p: Pid, k: Partition,
                                 payload: seq<Row>)
    requires IsRun(states, actions) && i <= j < |actions| && Verifying(states[i], p, k, payload)
    requires forall t :: i <= t < j && Actor(actions[t]) == Some(p) ==> actions[t].InMerge? && !actions[t].op.CheckHash?
    requires forall t :: i <= t < j ==> !RivalLands(states[t], actions[t], p, k)
    requires actions[j] == InMerge(p, CheckHash)
    ensures var was, now := ProcOf(states[j], p), ProcOf(states[j + 1], p);
      && was.todo != [] && now.todo == was.todo[1..] && !now.pc.Failed?
      && now.txn.marked == was.txn.marked + IdsOf(was.todo[0].rows)
  {
    StaysVerifying(states, actions, i, j, p, k, payload);
    ApplyFrame(states[j], p, k, MergeEffect(states[j], p, CheckHash), p, k);
    hide RivalLands;
  }

  predicate Checks(pc: Pc) {
    pc.CheckingSize? || pc.CheckingHash?
  }

  /** No rival writes on the partition while `p` verifies its own write. */
  ghost predicate VerifiesInPeace(states: seq<State>, actions: seq<Action>, i: nat, j: nat, p: Pid, k: Partition)
    requires IsRun(states, actions) && j <= |actions|
  {
    forall t :: i <= t < j && Checks(ProcOf(states[t], p).pc) ==> !RivalLands(states[t], actions[t], p, k)
  }

  predicate ReadsOwnWrite(s: State, p: Pid, k: Partition) {
    Checks(ProcOf(s, p).pc) ==> Verifying(s, p, k, ProcOf(s, p).pc.payload)
  }

  lemma OwnStepReadsOwnWrite(s: State, a: Action, p: Pid, k: Partition)
    requires Enabled(s, a) && Actor(a) == Some(p) && WithinMerge(a, p) && ReadsOwnWrite(s, p, k)
    requires ProcOf(s, p).todo != [] && ProcOf(s, p).todo[0].partition == k
    ensures ReadsOwnWrite(Next(s, a), p, k)
  {
    ApplyFrame(s, p, k, MergeEffect(s, p, a.op), p, k);
  }

  lemma {:induction false} StillReadsOwnWrite(states: seq<State>, actions: seq<Action>, i: nat, j: nat, p: Pid,
                                              k: Partition)
    requires OneMerge(states, actions, i, j, p) && ProcOf(states[i], p).todo[0].partition == k
    requires VerifiesInPeace(states, actions, i, j, p, k)
    ensures ReadsOwnWrite(states[j], p, k)
    decreases j
  {
    if i < j {
      hide Next, Enabled, RivalLands, Verifying, Lands;
      StillReadsOwnWrite(states, actions, i, j - 1, p, k);
      ConflictsAreCharged(states, actions, i, j - 1, p);
      var s, a := states[j - 1], actions[j - 1];
      if Actor(a) == Some(p) {
        OwnStepReadsOwnWrite(s, a, p, k);
      } else {
        OthersLetItRead(s, a, p, k);
      }
    }
  }

  lemma OthersLetItRead(s: State, a: Action, p: Pid, k: Partition)
    requires Enabled(s, a) && Actor(a) != Some(p) && ReadsOwnWrite(s, p, k)
    requires Checks(ProcOf(s, p).pc) ==> !RivalLands(s, a, p, k)
    ensures ReadsOwnWrite(Next(s, a), p, k)
  {
    if Checks(ProcOf(s, p).pc) {
      QuietStep(s, a, p, k);
    } else {
      StepFrame(s, a, p, k);
    }
    hide Next, Enabled, RivalLands;
  }

  /**
   * A merge that meets at most two rival writes, none of them during its own verification, and no
   * other error marks its whole group and moves on within twelve steps of its own.
   */
  lemma MarkedWithinTwelveSteps(states: seq<State>, actions: seq<Action>, i: nat, j: nat, p: Pid)
    requires OneMerge(states, actions, i, j, p) && j < |actions| && actions[j] == InMerge(p, CheckHash)
    requires RivalWrites(states, actions, i, j, p, ProcOf(states[i], p).todo[0].partition) <= 2
    requires VerifiesInPeace(states, actions, i, j, p, ProcOf(states[i], p).todo[0].partition)
    requires forall t :: i <= t < j ==> !OtherError(states[t], actions[t], p)
    ensures OwnSteps(states, actions, i, j + 1, p) <= 12
    ensures var was, now := ProcOf(states[i], p), ProcOf(states[j + 1], p);
      && now.todo == was.todo[1..] && !now.pc.Failed?
      && now.txn.marked == ProcOf(states[j], p).txn.marked + IdsOf(was.todo[0].rows)
  {
    var k := ProcOf(states[i], p).todo[0].partition;
    hide Next, RivalWrites, RivalLands, OtherError, VerifiesInPeace, ReadsOwnWrite;
    TwoRivalsReachTheLastCheck(states, actions, i, j, p);
    StillReadsOwnWrite(states, actions, i, j, p, k);
    ConflictsAreCharged(states, actions, i, j, p);
    LastCheckReads(states[j], p, k);
    UndisturbedWriteIsMarked(states, actions, j, j, p, k, ProcOf(states[j], p).pc.payload);
  }

  lemma LastCheckReads(s: State, p: Pid, k: Partition)
    requires Enabled(s, InMerge(p, CheckHash)) && ReadsOwnWrite(s, p, k)
    ensures ProcOf(s, p).pc.CheckingHash? && Verifying(s, p, k, ProcOf(s, p).pc.payload)
  {
  }
}

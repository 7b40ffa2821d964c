/**
  What the broker's steps deliver (engine/state.py:46-96): losses are real, callbacks and handlers
  move events on, newcomers displace the oldest, and a broadcast reaches every open subscriber.
*/
module BrokerDelivery {

  import opened Prelude
  import opened EventBroker

  // ------------------------------------------------------------------ no false losses

  /** An event is recorded as lost only from a queue that is full or a loop that is closed. */
  lemma LossIsReal(st: State, step: Step, id: QueueId, e: Event)
    requires Inv(st) && id in st.subs
    ensures id in Next(st, step).subs
    ensures var was, now := st.subs[id], Next(st, step).subs[id];
            && (e in was.lost ==> e in now.lost)
            && (e in now.lost && e !in was.lost ==>
                  if now.lost[e].QueueFull? then |was.queue| == 1000
                  else was.home.Some? && was.home.value in st.closed)
  {
    hide Accounts, Distinct, Increasing;
    match step
    case Finish => UntrackedAllKeeps(st, if st.phase.Sending? then st.phase.dead else [], id);
    case Send => SendLoses(st, id, e);
    case RunCallback(x) =>
      hide PhaseInv, TableInv;
      QueueBound(st);
    case Connect(_, _) => hide SubInv, PhaseInv;
    case _ => hide SubInv, PhaseInv, TableInv;
  }

  lemma SendLoses(st: State, id: QueueId, e: Event)
    requires Inv(st) && id in st.subs
    ensures id in Next(st, Send).subs
    ensures var was, now := st.subs[id], Next(st, Send).subs[id];
            && (e in was.lost ==> e in now.lost)
            && (e in now.lost && e !in was.lost ==>
                  if now.lost[e].QueueFull? then |was.queue| == 1000
                  else was.home.Some? && was.home.value in st.closed)
  {
    hide Accounts, Distinct, Increasing, TableInv;
    QueueBound(st);
    if st.phase.Sending? && st.phase.next < |st.phase.targets| {
      SendFacts(st);
    }
    hide SubInv, PhaseInv;
  }

  lemma QueueBound(st: State)
    requires Inv(st)
    ensures forall x :: x in st.subs ==> |st.subs[x].queue| <= 1000
  {
    forall x | x in st.subs ensures |st.subs[x].queue| <= 1000 {
      assert SubInv(st, x);
    }
  }

  /** Two accounts of a subscriber that differ at most in whether it is tracked. */
  predicate SameMail(s: Sub, t: Sub) {
    t == s.(until := t.until)
  }

  lemma {:induction false} UntrackedAllKeeps(st: State, ids: seq<QueueId>, id: QueueId)
    requires id in st.subs
    ensures id in UntrackAll(st, ids).subs && SameMail(st.subs[id], UntrackAll(st, ids).subs[id])
    ensures UntrackAll(st, ids).count == st.count && UntrackAll(st, ids).closed == st.closed
    ensures UntrackAll(st, ids).phase == st.phase
  {
    if ids != [] {
      UntrackedAllKeeps(st, ids[..|ids| - 1], id);
    }
  }

  /** In every state of the run the subscriber's queue had room and its loop, if any, was open. */
  predicate Undisturbed(h: History, id: QueueId) {
    var st := Reached(h);
    && (id in st.subs ==>
          |st.subs[id].queue| < 1000 && (st.subs[id].home.Some? ==> st.subs[id].home.value !in st.closed))
    && (h.Then? ==> Undisturbed(h.past, id))
  }

  lemma {:induction false} NothingLost(h: History, id: QueueId)
    requires Undisturbed(h, id)
    ensures id in Reached(h).subs ==> Reached(h).subs[id].lost == map[]
  {
    if h.Then? {
      NothingLost(h.past, id);
      var st := Reached(h.past);
      ReachedInv(h.past);
      if id in st.subs {
        LossAll(st, h.step, id);
      } else {
        FreshSub(st, h.step, id);
      }
    }
  }

  lemma LossAll(st: State, step: Step, id: QueueId)
    requires Inv(st) && id in st.subs && st.subs[id].lost == map[]
    requires |st.subs[id].queue| < 1000 && (st.subs[id].home.Some? ==> st.subs[id].home.value !in st.closed)
    ensures id in Next(st, step).subs && Next(st, step).subs[id].lost == map[]
  {
    hide Inv, Next;
    LossIsReal(st, step, id, 0);
    forall e ensures e !in Next(st, step).subs[id].lost {
      LossIsReal(st, step, id, e);
    }
  }

  lemma FreshSub(st: State, step: Step, id: QueueId)
    requires Inv(st) && id !in st.subs
    ensures id in Next(st, step).subs ==> Next(st, step).subs[id].lost == map[]
  {
    hide Served;
    if step.Finish? && st.phase.Sending? {
      UntrackAllKeepsInv(st, st.phase.dead);
    }
  }

  /**
    A tracked subscriber whose queue was never full and whose loop never closed has, between
    broadcasts, every event since it connected: received, queued or pending, each once and in order.
  */
  lemma EveryEventArrives(h: History, id: QueueId)
    requires Undisturbed(h, id) && Reached(h).phase.Idle? && id in Reached(h).queues
    ensures var st := Reached(h);
            && id in st.subs && st.subs[id].start <= st.count
            && st.subs[id].Log() == seq(st.count - st.subs[id].start, i requires 0 <= i => st.subs[id].start + i)
  {
    ReachedInv(h);
    NothingLost(h, id);
    var st := Reached(h);
    assert SubInv(st, id);
    EverySubscriberAccounts(h, id);
    hide Reached, Inv, Undisturbed;
    AllInOrder(st.subs[id].Log(), st.subs[id].start, st.count);
  }

  /** An increasing sequence of exactly the numbers from `from` to `to` is their enumeration. */
  lemma {:induction false} AllInOrder(s: seq<Event>, from: nat, end: nat)
    requires Increasing(s) && from <= end && forall e :: e in s <==> from <= e < end
    ensures s == seq(end - from, i requires 0 <= i => from + i)
    decreases end
  {
    if from == end {
      NothingIn(s);
    } else {
      assert end - 1 in s;
      var init, last := s[..|s| - 1], s[|s| - 1];
      assert last in s;
      var i :| 0 <= i < |s| && s[i] == end - 1;
      assert last == end - 1;
      forall e ensures e in init <==> from <= e < end - 1 {
        if e in init {
          var j :| 0 <= j < |init| && s[j] == e;
          assert s[j] in s;
        }
        if from <= e < end - 1 {
          assert e in s;
          var j :| 0 <= j < |s| && s[j] == e;
          assert init[j] == e;
        }
      }
      AllInOrder(init, from, end - 1);
      assert s == init + [last];
    }
  }

  lemma NothingIn(s: seq<Event>)
    ensures (forall e :: e !in s) ==> s == []
  {
    if s != [] {
      assert s[0] in s;
    }
  }

  // ------------------------------------------------------------ callbacks and handlers

  /** A callback of an open loop moves the oldest pending event behind the queue, or drops it from a full one. */
  lemma CallbackMoves(st: State, id: QueueId)
    requires id in st.subs && st.subs[id].pending != []
    ensures var was, next := st.subs[id], Next(st, RunCallback(id));
            && id in next.subs && next == st.(subs := st.subs[id := next.subs[id]])
            && var now := next.subs[id];
               if was.home.Some? && was.home.value in st.closed then now == was
               else
                 && now.pending == was.pending[1..] && now.received == was.received
                 && (|was.queue| < 1000 ==> now.queue == was.queue + [was.pending[0]] && now.lost == was.lost)
                 && (|was.queue| >= 1000 ==> now.queue == was.queue)
                 && now.home == was.home
  {
  }

  /** A handler takes the oldest event of its queue. */
  lemma HandlerTakes(st: State, id: QueueId)
    requires id in st.subs && st.subs[id].queue != []
    ensures var was, next := st.subs[id], Next(st, Receive(id));
            && id in next.subs && next == st.(subs := st.subs[id := next.subs[id]])
            && var now := next.subs[id];
               && now.received == was.received + [was.queue[0]] && now.queue == was.queue[1..]
               && now.pending == was.pending && now.lost == was.lost && now.home == was.home
  {
  }

  function Repeated(st: State, step: Step, n: nat): State {
    if n == 0 then st else Next(Repeated(st, step, n - 1), step)
  }

  lemma {:induction false} CallbacksMove(st: State, id: QueueId, n: nat)
    requires id in st.subs && n <= |st.subs[id].pending| && |st.subs[id].queue| + n <= 1000
    requires st.subs[id].home.Some? ==> st.subs[id].home.value !in st.closed
    ensures var s, next := st.subs[id], Repeated(st, RunCallback(id), n);
            && id in next.subs && next.closed == st.closed
            && var t := next.subs[id];
               && t.queue == s.queue + s.pending[..n] && t.pending == s.pending[n..]
               && t.received == s.received && t.home == s.home
  {
    if n > 0 {
      hide Next;
      CallbacksMove(st, id, n - 1);
      CallbackMoves(Repeated(st, RunCallback(id), n - 1), id);
    }
  }

  lemma {:induction false} HandlersTake(st: State, id: QueueId, n: nat)
    requires id in st.subs && n <= |st.subs[id].queue|
    ensures var s, next := st.subs[id], Repeated(st, Receive(id), n);
            && id in next.subs
            && var t := next.subs[id];
               t.received == s.received + s.queue[..n] && t.queue == s.queue[n..] && t.pending == s.pending
  {
    if n > 0 {
      hide Next;
      HandlersTake(st, id, n - 1);
      HandlerTakes(Repeated(st, Receive(id), n - 1), id);
    }
  }

  /** Left alone, an open loop and its handler deliver all that is pending and queued, in order. */
  lemma AllIsDelivered(st: State, id: QueueId)
    requires id in st.subs && |st.subs[id].queue| + |st.subs[id].pending| <= 1000
    requires st.subs[id].home.Some? ==> st.subs[id].home.value !in st.closed
    ensures var s := st.subs[id];
            var moved := Repeated(st, RunCallback(id), |s.pending|);
            var taken := Repeated(moved, Receive(id), |s.queue| + |s.pending|);
            id in taken.subs && taken.subs[id].received == s.Log()
  {
    var s := st.subs[id];
    CallbacksMove(st, id, |s.pending|);
    HandlersTake(Repeated(st, RunCallback(id), |s.pending|), id, |s.queue| + |s.pending|);
    hide Repeated;
  }

  /** A closed loop stays closed. */
  lemma ClosedStays(st: State, step: Step, home: LoopId)
    ensures home in Next(st, Close(home)).closed
    ensures home in st.closed ==> home in Next(st, step).closed
  {
    if step.Finish? && st.phase.Sending? {
      ClosedByUntracking(st, st.phase.dead);
    }
  }

  lemma {:induction false} ClosedByUntracking(st: State, ids: seq<QueueId>)
    ensures UntrackAll(st, ids).closed == st.closed
  {
    if ids != [] {
      ClosedByUntracking(st, ids[..|ids| - 1]);
    }
  }

  // --------------------------------------------------------------- who is tracked

  /**
    A newcomer goes last with nothing behind it; if 256 were tracked, the oldest of them, and no
    other, is dropped; nobody else's events change.
  */
  lemma ConnectMeans(st: State, id: QueueId, running: Option<LoopId>)
    requires Inv(st) && id !in st.subs
    ensures var next := Next(st, Connect(id, running));
            && next.queues == (if |st.queues| >= 256 then st.queues[1..] else st.queues) + [id]
            && id in next.subs && next.subs[id] == Sub(running, [], [], [], map[], st.count, None)
            && (if running.Some? then id in next.loops && next.loops[id] == running.value else id !in next.loops)
            && (forall x :: x in st.subs ==>
                  x in next.subs && SameMail(st.subs[x], next.subs[x])
                  && (next.subs[x].until == if |st.queues| >= 256 && x == st.queues[0] then Some(st.count)
                                            else st.subs[x].until))
            && next.count == st.count && next.closed == st.closed && next.phase == st.phase
  {
    hide SubInv, PhaseInv;
    assert id !in st.queues && id !in st.loops;
    if |st.queues| >= MAX_SUBSCRIBERS {
      OmitFirst(st.queues);
      assert st.queues[0] in st.queues;
    }
  }

  /** A disconnected subscriber is tracked no longer; its events and everybody else stay as they are. */
  lemma DisconnectMeans(st: State, id: QueueId)
    requires Inv(st)
    ensures var next := Next(st, Disconnect(id));
            && next.queues == Omit(st.queues, id) && id !in next.loops
            && (forall x :: x in st.subs ==>
                  x in next.subs && SameMail(st.subs[x], next.subs[x])
                  && (next.subs[x].until == if x == id && id in st.queues then Some(st.count) else st.subs[x].until))
            && next.count == st.count && next.closed == st.closed && next.phase == st.phase
  {
    hide SubInv, PhaseInv;
    if id !in st.queues {
      OmitAbsent(st.queues, id);
    }
  }

  lemma {:induction false} OmitAbsent(s: seq<QueueId>, x: QueueId)
    requires x !in s
    ensures Omit(s, x) == s
  {
    if s != [] {
      var init := s[..|s| - 1];
      assert s == init + [s[|s| - 1]];
      OmitAbsent(init, x);
    }
  }

  // ------------------------------------------------------------------- the broadcast

  /** What a broadcast of `e` does to a tracked subscriber. */
  predicate Offered(was: Sub, now: Sub, closed: set<LoopId>, e: Event) {
    if was.home.Some? && was.home.value in closed then
      now == was.(lost := was.lost[e := LoopClosed], until := now.until)
    else if was.home.Some? then
      now == was.(pending := was.pending + [e], until := now.until)
    else if |was.queue| < 1000 then
      now == was.(queue := was.queue + [e], until := now.until)
    else
      now == was.(lost := was.lost[e := QueueFull], until := now.until)
  }

  predicate LoopGone(s: Sub, closed: set<LoopId>) {
    s.home.Some? && s.home.value in closed
  }

  /** How one subscriber stands when the first `n` targets have been served. */
  ghost predicate StandsAt(st: State, mid: State, n: nat, x: QueueId)
    requires n <= |st.queues| && x in st.subs && mid.phase.Sending?
  {
    && x in mid.subs
    && (if x in st.queues[..n]
        then Offered(st.subs[x], mid.subs[x], st.closed, st.count) && mid.subs[x].until == st.subs[x].until
        else mid.subs[x] == st.subs[x])
    && (x in mid.phase.dead <==> x in st.queues[..n] && LoopGone(st.subs[x], st.closed))
  }

  ghost predicate SameTables(st: State, mid: State, n: nat) {
    && mid.queues == st.queues && mid.loops == st.loops && mid.closed == st.closed
    && mid.count == st.count + 1 && mid.subs.Keys == st.subs.Keys
    && mid.phase.Sending? && mid.phase.targets == TargetsOf(st.queues, st.loops) && mid.phase.next == n
    && (forall x :: x in mid.phase.dead ==> x in st.subs)
  }

  /** The first `n` targets have been served, the others have not. */
  ghost predicate ServedSoFar(st: State, mid: State, n: nat) {
    n <= |st.queues| && SameTables(st, mid, n) && forall x :: x in st.subs ==> StandsAt(st, mid, n, x)
  }

  lemma BegunSoFar(st: State)
    requires Inv(st) && st.phase.Idle?
    ensures ServedSoFar(st, Next(st, Begin), 0)
  {
    hide SubInv, Distinct;
  }

  lemma HomesAreLoops(st: State, i: nat)
    requires Inv(st) && i < |st.queues|
    ensures st.queues[i] in st.subs
    ensures st.subs[st.queues[i]].home
         == if st.queues[i] in st.loops then Some(st.loops[st.queues[i]]) else None
  {
    assert st.queues[i] in st.queues;
    assert SubInv(st, st.queues[i]);
  }

  lemma TargetIs(st: State, mid: State, n: nat)
    requires Inv(st) && n < |st.queues| && SameTables(st, mid, n)
    ensures n < |mid.phase.targets| && st.queues[n] in st.subs && st.queues[n] in mid.subs
    ensures mid.phase.targets[n] == Target(st.queues[n], st.subs[st.queues[n]].home)
  {
    HomesAreLoops(st, n);
    hide Inv;
  }

  lemma TablesStay(st: State, mid: State, n: nat, id: QueueId, s: Sub, dead: seq<QueueId>)
    requires SameTables(st, mid, n) && id in st.subs && forall x :: x in dead ==> x in st.subs
    ensures SameTables(st, mid.(subs := mid.subs[id := s], phase := Sending(mid.phase.targets, n + 1, dead)), n + 1)
  {
    hide TargetsOf;
  }

  /** The next send, from its own target. */
  lemma SendsNext(st: State, mid: State, n: nat)
    requires Inv(st) && st.phase.Idle? && n < |st.queues| && SameTables(st, mid, n)
    requires st.queues[n] in st.subs && mid.subs[st.queues[n]] == st.subs[st.queues[n]]
    ensures var id, next := st.queues[n], Next(mid, Send);
            && SameTables(st, next, n + 1)
            && next.subs == mid.subs[id := next.subs[id]]
            && Offered(st.subs[id], next.subs[id], st.closed, st.count) && next.subs[id].until == st.subs[id].until
            && next.phase.dead == mid.phase.dead + if LoopGone(st.subs[id], st.closed) then [id] else []
  {
    hide Inv, Served, Offered, Next;
    var id := st.queues[n];
    TargetIs(st, mid, n);
    TablesMean(st, mid, n);
    hide SameTables;
    var t := mid.phase.targets[n];
    ServedIsOffered(mid, t, st.count);
    SendIs(mid);
    var dead := mid.phase.dead + if LoopGone(st.subs[id], st.closed) then [id] else [];
    TablesStay(st, mid, n, id, Served(mid, t, st.count), dead);
  }

  lemma TablesMean(st: State, mid: State, n: nat)
    requires SameTables(st, mid, n)
    ensures mid.phase.Sending? && mid.phase.next == n && mid.closed == st.closed && mid.count == st.count + 1
    ensures mid.subs.Keys == st.subs.Keys && forall x :: x in mid.phase.dead ==> x in st.subs
  {
  }

  lemma ServedIsOffered(st: State, t: Target, e: Event)
    requires t.id in st.subs && t.home == st.subs[t.id].home
    ensures Offered(st.subs[t.id], Served(st, t, e), st.closed, e)
    ensures Served(st, t, e).until == st.subs[t.id].until
  {
  }

  lemma SendIs(st: State)
    requires st.phase.Sending? && st.phase.next < |st.phase.targets| && st.count > 0
    requires st.phase.targets[st.phase.next].id in st.subs
    ensures var t, next := st.phase.targets[st.phase.next], Next(st, Send);
            next == st.(subs := st.subs[t.id := Served(st, t, st.count - 1)],
                        phase := Sending(st.phase.targets, st.phase.next + 1,
                                         st.phase.dead
                                         + if t.home.Some? && t.home.value in st.closed then [t.id] else []))
  {
    hide Served;
    assert st.phase.dead + [] == st.phase.dead;
  }

  lemma OneMoreServed(st: State, mid: State, n: nat)
    requires Inv(st) && st.phase.Idle? && ServedSoFar(st, mid, n) && n < |st.queues|
    ensures ServedSoFar(st, Next(mid, Send), n + 1)
  {
    hide Inv, SubInv, Next, SameTables, StandsAt, Offered;
    var id, next := st.queues[n], Next(mid, Send);
    HomesAreLoops(st, n);
    NotServedYet(st, mid, n);
    SendsNext(st, mid, n);
    TablesFacts(st, mid, n);
    TablesFacts(st, next, n + 1);
    forall x | x in st.subs ensures StandsAt(st, next, n + 1, x) {
      assert StandsAt(st, mid, n, x);
      StandsNext(st, mid, next, n, x);
    }
  }

  lemma TablesFacts(st: State, mid: State, n: nat)
    requires SameTables(st, mid, n)
    ensures mid.phase.Sending? && mid.subs.Keys == st.subs.Keys
  {
  }

  lemma NotServedYet(st: State, mid: State, n: nat)
    requires Inv(st) && ServedSoFar(st, mid, n) && n < |st.queues| && st.queues[n] in st.subs
    ensures st.queues[n] !in st.queues[..n] && mid.subs[st.queues[n]] == st.subs[st.queues[n]]
  {
    TrackedOnce(st);
    assert StandsAt(st, mid, n, st.queues[n]);
    hide Inv;
  }

  lemma StandsNext(st: State, mid: State, next: State, n: nat, x: QueueId)
    requires n < |st.queues| && x in st.subs && mid.phase.Sending? && next.phase.Sending? && StandsAt(st, mid, n, x)
    requires var id := st.queues[n];
             && id in st.subs && id in next.subs && id !in st.queues[..n]
             && next.subs == mid.subs[id := next.subs[id]]
             && Offered(st.subs[id], next.subs[id], st.closed, st.count) && next.subs[id].until == st.subs[id].until
             && next.phase.dead == mid.phase.dead + if LoopGone(st.subs[id], st.closed) then [id] else []
    ensures StandsAt(st, next, n + 1, x)
  {
    hide Offered;
    assert st.queues[..n + 1] == st.queues[..n] + [st.queues[n]];
  }

  lemma TrackedOnce(st: State)
    requires Inv(st)
    ensures Distinct(st.queues)
  {
    hide SubInv, PhaseInv;
  }

  lemma {:induction false} SentSoFar(st: State, n: nat)
    requires Inv(st) && st.phase.Idle? && n <= |st.queues|
    ensures ServedSoFar(st, SentTo(Next(st, Begin), n), n)
  {
    hide Inv, Next, ServedSoFar;
    if n == 0 {
      BegunSoFar(st);
    } else {
      SentSoFar(st, n - 1);
      OneMoreServed(st, SentTo(Next(st, Begin), n - 1), n - 1);
    }
  }

  lemma {:induction false} UntrackAllMeans(st: State, ids: seq<QueueId>, x: QueueId)
    requires Distinct(st.queues) && forall y :: y in ids ==> y in st.subs
    ensures var next := UntrackAll(st, ids);
            && Distinct(next.queues) && next.subs.Keys == st.subs.Keys
            && (x in next.queues <==> x in st.queues && x !in ids)
            && (x in st.subs ==> SameMail(st.subs[x], next.subs[x]))
            && (x in st.subs && x !in ids ==> next.subs[x] == st.subs[x])
            && next.count == st.count && next.closed == st.closed && next.phase == st.phase
  {
    if ids != [] {
      var init := ids[..|ids| - 1];
      assert ids == init + [ids[|ids| - 1]];
      UntrackAllMeans(st, init, x);
      OmitLength(UntrackAll(st, init).queues, ids[|ids| - 1]);
    }
  }

  /**
    A broadcast that nothing interrupts offers one event, the next in number, to every tracked
    subscriber and to nobody else: into the queue, behind what is pending on its loop, or lost
    for one of the two causes; and it drops exactly those whose loop has closed.
  */
  lemma BroadcastMeans(st: State, x: QueueId)
    requires Inv(st) && st.phase.Idle?
    ensures var next := Broadcasted(st);
            && next.count == st.count + 1 && next.phase.Idle? && next.closed == st.closed
            && next.subs.Keys == st.subs.Keys
            && (x in st.queues ==> x in st.subs && Offered(st.subs[x], next.subs[x], st.closed, st.count))
            && (x in st.subs && x !in st.queues ==> next.subs[x] == st.subs[x])
            && (x in next.queues <==> x in st.queues && x in st.subs && !LoopGone(st.subs[x], st.closed))
  {
    hide Inv, SentTo, Distinct, Next, Offered, ServedSoFar, Broadcasted;
    var mid := SentTo(Next(st, Begin), |st.queues|);
    SentSoFar(st, |st.queues|);
    BroadcastIs(st);
    AllServed(st, mid, x);
    TrackedOnce(st);
    UntrackAllMeans(mid, mid.phase.dead, x);
    if x in st.subs && x in st.queues {
      OfferedStays(st.subs[x], mid.subs[x], Broadcasted(st).subs[x], st.closed, st.count);
    }
  }

  lemma OfferedStays(was: Sub, mid: Sub, now: Sub, closed: set<LoopId>, e: Event)
    requires Offered(was, mid, closed, e) && SameMail(mid, now)
    ensures Offered(was, now, closed, e)
  {
  }

  lemma AllServed(st: State, mid: State, x: QueueId)
    requires Inv(st) && ServedSoFar(st, mid, |st.queues|)
    ensures SameTables(st, mid, |st.queues|)
    ensures x in st.queues ==> x in st.subs
    ensures x in st.subs ==>
              && x in mid.subs
              && (if x in st.queues
                  then Offered(st.subs[x], mid.subs[x], st.closed, st.count) && mid.subs[x].until == st.subs[x].until
                  else mid.subs[x] == st.subs[x])
              && (x in mid.phase.dead <==> x in st.queues && LoopGone(st.subs[x], st.closed))
  {
    assert st.queues[..|st.queues|] == st.queues;
    hide Offered, SubInv, PhaseInv;
    if x in st.subs {
      assert StandsAt(st, mid, |st.queues|, x);
    }
  }

  lemma BroadcastIs(st: State)
    requires Inv(st) && st.phase.Idle?
    ensures var mid := SentTo(Next(st, Begin), |st.queues|);
            && mid.phase.Sending? && mid.phase.next == |st.queues| == |mid.phase.targets|
            && Broadcasted(st) == UntrackAll(mid, mid.phase.dead).(phase := Idle)
  {
    hide Inv, Distinct, Offered, StandsAt, SentTo;
    SentSoFar(st, |st.queues|);
    BegunSoFar(st);
  }
}

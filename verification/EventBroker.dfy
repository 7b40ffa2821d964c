/**
  The event broker between the worker thread and its subscribers (engine/state.py:29-96), as
  steps: a broadcast copies its targets under the lock, then serves them one by one while
  subscribers come and go, loops run their callbacks or close, and handlers drain queues.
  Events are numbered in the order of their broadcasts.
*/
module EventBroker {

  import opened Prelude

  type QueueId = nat
  type LoopId = nat
  type Event = nat

  const MAX_QUEUE_SIZE: nat := 1000
  const MAX_SUBSCRIBERS: nat := 256

  datatype Loss = QueueFull | LoopClosed

  /**
    A subscriber: what its handler has taken, what its queue holds, what its loop has still to
    put, and (for the record) which events were dropped and why, the first event it could
    get and, once it is no longer tracked, the first it could not.
  */
  datatype Sub = Sub(home: Option<LoopId>, received: seq<Event>, queue: seq<Event>, pending: seq<Event>,
                     lost: map<Event, Loss>, start: nat, until: Option<nat>)
  {
    function Log(): seq<Event> { received + queue + pending }
  }

  datatype Target = Target(id: QueueId, home: Option<LoopId>)

  /** A broadcast in progress has served the first `next` of its targets; `dead` found their loop closed. */
  datatype Phase = Idle | Sending(targets: seq<Target>, next: nat, dead: seq<QueueId>)

  datatype State = State(queues: seq<QueueId>, loops: map<QueueId, LoopId>, subs: map<QueueId, Sub>,
                         closed: set<LoopId>, count: nat, phase: Phase)

  const INITIAL := State([], map[], map[], {}, 0, Idle)

  datatype Step =
    | Connect(id: QueueId, running: Option<LoopId>)
    | Disconnect(id: QueueId)
    | Begin
    | Send
    | Finish
    | RunCallback(id: QueueId)
    | Receive(id: QueueId)
    | Close(home: LoopId)

  function Put(s: Sub, e: Event): Sub {
    if |s.queue| < MAX_QUEUE_SIZE then s.(queue := s.queue + [e]) else s.(lost := s.lost[e := QueueFull])
  }

  function Untrack(st: State, id: QueueId): State {
    if id !in st.queues || id !in st.subs then st
    else st.(queues := Omit(st.queues, id), loops := st.loops - {id},
             subs := st.subs[id := st.subs[id].(until := Some(st.count))])
  }

  function Connected(st: State, id: QueueId, running: Option<LoopId>): State {
    var room := if |st.queues| >= MAX_SUBSCRIBERS then Untrack(st, st.queues[0]) else st;
    room.(queues := room.queues + [id],
          loops := if running.Some? then room.loops[id := running.value] else room.loops,
          subs := room.subs[id := Sub(running, [], [], [], map[], st.count, None)])
  }

  function TargetsOf(queues: seq<QueueId>, loops: map<QueueId, LoopId>): (ts: seq<Target>)
    ensures |ts| == |queues|
    ensures forall i :: 0 <= i < |ts| ==>
              ts[i] == Target(queues[i], if queues[i] in loops then Some(loops[queues[i]]) else None)
  {
    seq(|queues|, i requires 0 <= i < |queues| =>
          Target(queues[i], if queues[i] in loops then Some(loops[queues[i]]) else None))
  }

  /** One target served: put directly, scheduled on its loop, or found to be on a closed loop. */
  function Served(st: State, t: Target, e: Event): Sub
    requires t.id in st.subs
  {
    var s := st.subs[t.id];
    if t.home.None? then Put(s, e)
    else if t.home.value in st.closed then s.(lost := s.lost[e := LoopClosed])
    else s.(pending := s.pending + [e])
  }

  function UntrackAll(st: State, ids: seq<QueueId>): State {
    if ids == [] then st else Untrack(UntrackAll(st, ids[..|ids| - 1]), ids[|ids| - 1])
  }

  /** A step that cannot happen leaves the state as it is. */
  function Next(st: State, step: Step): State {
    match step
    case Connect(id, running) => if id in st.subs then st else Connected(st, id, running)
    case Disconnect(id) => Untrack(st, id)
    case Begin =>
      if st.phase.Sending? then st
      else st.(count := st.count + 1, phase := Sending(TargetsOf(st.queues, st.loops), 0, []))
    case Send =>
      if st.phase.Idle? || st.phase.next >= |st.phase.targets| || st.count == 0 then st
      else
        var t := st.phase.targets[st.phase.next];
        if t.id !in st.subs then st
        else
          st.(subs := st.subs[t.id := Served(st, t, st.count - 1)],
              phase := Sending(st.phase.targets, st.phase.next + 1,
                               if t.home.Some? && t.home.value in st.closed
                               then st.phase.dead + [t.id] else st.phase.dead))
    case Finish =>
      if st.phase.Idle? || st.phase.next < |st.phase.targets| then st
      else UntrackAll(st, st.phase.dead).(phase := Idle)
    case RunCallback(id) =>
      if id !in st.subs || st.subs[id].pending == [] || (st.subs[id].home.Some? && st.subs[id].home.value in st.closed)
      then st
      else
        var s := st.subs[id];
        st.(subs := st.subs[id := Put(s.(pending := s.pending[1..]), s.pending[0])])
    case Receive(id) =>
      if id !in st.subs || st.subs[id].queue == [] then st
      else
        var s := st.subs[id];
        st.(subs := st.subs[id := s.(received := s.received + [s.queue[0]], queue := s.queue[1..])])
    case Close(home) => st.(closed := st.closed + {home})
  }

  datatype History = Start | Then(past: History, step: Step)

  function Reached(h: History): State {
    if h.Start? then INITIAL else Next(Reached(h.past), h.step)
  }

  // ------------------------------------------------------------------- invariant

  ghost predicate Increasing(s: seq<Event>) {
    forall i, j :: 0 <= i < j < |s| ==> s[i] < s[j]
  }

  /** The subscriber has seen to every event from `start` up to `upTo`, in order. */
  ghost predicate Accounts(s: Sub, upTo: nat) {
    && |s.queue| <= MAX_QUEUE_SIZE
    && (s.home.None? ==> s.pending == [])
    && Increasing(s.Log())
    && (forall e :: e in s.Log() ==> s.start <= e < upTo && e !in s.lost)
    && (forall e :: e in s.lost ==> s.start <= e < upTo)
    && forall e :: s.start <= e < upTo ==> e in s.Log() || e in s.lost
  }

  /** First event the subscriber will not be offered as things stand. */
  function Horizon(st: State, id: QueueId): nat
    requires id in st.subs
  {
    if st.subs[id].until.Some? then st.subs[id].until.value else st.count
  }

  /** The broadcast in progress has still to serve the subscriber. */
  predicate Awaits(p: Phase, id: QueueId) {
    p.Sending? && exists i :: p.next <= i < |p.targets| && p.targets[i].id == id
  }

  /** First event the subscriber has not been served. */
  function UpTo(st: State, id: QueueId): int
    requires id in st.subs
  {
    if Awaits(st.phase, id) then st.count - 1 else Horizon(st, id)
  }

  ghost predicate SubInv(st: State, id: QueueId)
    requires id in st.subs
  {
    && UpTo(st, id) >= 0
    && Accounts(st.subs[id], UpTo(st, id))
    && st.subs[id].start <= st.count
    && (id in st.queues <==> st.subs[id].until.None?)
    && (st.subs[id].until.Some? ==> st.subs[id].until.value <= st.count)
    && (id in st.queues ==> st.subs[id].home == if id in st.loops then Some(st.loops[id]) else None)
  }

  ghost predicate TargetInv(st: State, i: int)
    requires st.phase.Sending? && 0 <= i < |st.phase.targets|
  {
    var t := st.phase.targets[i];
    && t.id in st.subs
    && t.home == st.subs[t.id].home
    && st.subs[t.id].start < st.count
    && Horizon(st, t.id) == st.count
  }

  ghost predicate PhaseInv(st: State) {
    st.phase.Sending? ==>
      && st.count > 0
      && st.phase.next <= |st.phase.targets|
      && (forall i, j :: 0 <= i < j < |st.phase.targets| ==> st.phase.targets[i].id != st.phase.targets[j].id)
      && (forall i :: 0 <= i < |st.phase.targets| ==> TargetInv(st, i))
  }

  ghost predicate TableInv(st: State) {
    && Distinct(st.queues) && |st.queues| <= MAX_SUBSCRIBERS
    && (forall id :: id in st.queues ==> id in st.subs)
    && (forall id :: id in st.loops ==> id in st.queues)
  }

  ghost predicate Inv(st: State) {
    && TableInv(st)
    && PhaseInv(st)
    && forall id :: id in st.subs ==> SubInv(st, id)
  }

  // ------------------------------------------------------------ one subscriber

  lemma IncreasingAppend(s: seq<Event>, e: Event)
    requires Increasing(s) && forall x :: x in s ==> x < e
    ensures Increasing(s + [e])
  {
    forall i, j | 0 <= i < j < |s + [e]| ensures (s + [e])[i] < (s + [e])[j] {
      assert (s + [e])[i] == s[i] && s[i] in s;
    }
  }

  lemma AppendsToLog(s: Sub, t: Sub, e: Event)
    requires Accounts(s, e) && s.start <= e
    requires t.Log() == s.Log() + [e] && t.lost == s.lost && t.start == s.start && t.home == s.home
    requires |t.queue| <= MAX_QUEUE_SIZE && (t.home.None? ==> t.pending == [])
    ensures Accounts(t, e + 1)
  {
    IncreasingAppend(s.Log(), e);
  }

  lemma DropsNew(s: Sub, t: Sub, e: Event, why: Loss)
    requires Accounts(s, e) && s.start <= e && t == s.(lost := s.lost[e := why])
    ensures Accounts(t, e + 1)
  {
  }

  /** Serving the next event, whichever way, accounts for it. */
  lemma ServedAccounts(st: State, t: Target, e: Event)
    requires t.id in st.subs && t.home == st.subs[t.id].home
    requires Accounts(st.subs[t.id], e) && st.subs[t.id].start <= e
    ensures Accounts(Served(st, t, e), e + 1)
  {
    var s := st.subs[t.id];
    var u := Served(st, t, e);
    if t.home.None? {
      if |s.queue| < MAX_QUEUE_SIZE {
        assert u.Log() == s.Log() + [e];
        AppendsToLog(s, u, e);
      } else {
        DropsNew(s, u, e, QueueFull);
      }
    } else if t.home.value in st.closed {
      DropsNew(s, u, e, LoopClosed);
    } else {
      assert u.Log() == s.Log() + [e];
      AppendsToLog(s, u, e);
    }
  }

  lemma IncreasingWithout(a: seq<Event>, e: Event, b: seq<Event>)
    requires Increasing(a + [e] + b)
    ensures Increasing(a + b) && e !in a + b
  {
    var s := a + [e] + b;
    assert s[|a|] == e;
    assert forall i :: 0 <= i < |a| ==> a[i] == s[i] && (a + b)[i] == s[i];
    assert forall i :: |a| <= i < |a + b| ==> (a + b)[i] == s[i + 1];
  }

  /** A callback moves its event into the queue, or drops it when the queue is full. */
  lemma CallbackAccounts(s: Sub, upTo: nat)
    requires Accounts(s, upTo) && s.pending != []
    ensures Accounts(Put(s.(pending := s.pending[1..]), s.pending[0]), upTo)
  {
    var e := s.pending[0];
    var t := Put(s.(pending := s.pending[1..]), e);
    var head := s.received + s.queue;
    assert s.Log() == head + [e] + s.pending[1..];
    if |s.queue| < MAX_QUEUE_SIZE {
      assert t.Log() == s.Log();
    } else {
      IncreasingWithout(head, e, s.pending[1..]);
      assert t.Log() == head + s.pending[1..];
      assert forall x :: x in s.Log() <==> x in t.Log() || x == e;
    }
  }

  lemma UntrackedAccounts(s: Sub, upTo: int, now: nat)
    requires upTo >= 0 && Accounts(s, upTo)
    ensures Accounts(s.(until := Some(now)), upTo)
  {
    assert s.(until := Some(now)).Log() == s.Log();
  }

  lemma ReceiveAccounts(s: Sub, upTo: nat)
    requires Accounts(s, upTo) && s.queue != []
    ensures Accounts(s.(received := s.received + [s.queue[0]], queue := s.queue[1..]), upTo)
  {
    var t := s.(received := s.received + [s.queue[0]], queue := s.queue[1..]);
    assert t.Log() == s.Log();
  }

  // ------------------------------------------------------------------ the steps

  /** A step that changes no target's loop, start or horizon leaves the broadcast in progress in order. */
  lemma TargetsStay(st: State, next: State)
    requires PhaseInv(st) && next.count == st.count
    requires next.phase.Sending? ==>
               st.phase.Sending? && next.phase.targets == st.phase.targets && next.phase.next <= |st.phase.targets|
    requires forall id :: id in st.subs ==>
               (id in next.subs && next.subs[id].home == st.subs[id].home && next.subs[id].start == st.subs[id].start
                && (Horizon(st, id) == st.count ==> Horizon(next, id) == st.count))
    ensures PhaseInv(next)
  {
    if next.phase.Sending? {
      forall i | 0 <= i < |st.phase.targets| ensures TargetInv(next, i) {
        assert TargetInv(st, i);
      }
    }
  }

  lemma NewcomerIsNoTarget(st: State, id: QueueId)
    requires PhaseInv(st) && id !in st.subs
    ensures !Awaits(st.phase, id)
  {
    if st.phase.Sending? {
      forall i | 0 <= i < |st.phase.targets| ensures st.phase.targets[i].id != id {
        assert TargetInv(st, i);
      }
    }
  }

  lemma NewcomerAccounts(running: Option<LoopId>, count: nat)
    ensures Accounts(Sub(running, [], [], [], map[], count, None), count)
  {
    assert Sub(running, [], [], [], map[], count, None).Log() == [];
  }

  lemma UntrackKeepsInv(st: State, id: QueueId)
    requires Inv(st)
    ensures Inv(Untrack(st, id))
  {
    hide Accounts, Increasing;
    var next := Untrack(st, id);
    assert TableInv(next) by {
      OmitLength(st.queues, id);
    }
    hide Distinct;
    forall x | x in next.subs ensures SubInv(next, x) {
      UntrackKeepsSub(st, id, x);
    }
    hide SubInv;
    TargetsStay(st, next);
  }

  lemma UntrackKeepsSub(st: State, id: QueueId, x: QueueId)
    requires Inv(st) && x in st.subs
    ensures x in Untrack(st, id).subs && SubInv(Untrack(st, id), x)
  {
    hide Accounts, Increasing, Distinct;
    assert SubInv(st, x);
    UntrackedAccounts(st.subs[x], UpTo(st, x), st.count);
  }

  lemma {:induction false} UntrackAllKeepsInv(st: State, ids: seq<QueueId>)
    requires Inv(st)
    ensures Inv(UntrackAll(st, ids)) && UntrackAll(st, ids).phase == st.phase
    ensures UntrackAll(st, ids).count == st.count && UntrackAll(st, ids).subs.Keys == st.subs.Keys
  {
    if ids != [] {
      UntrackAllKeepsInv(st, ids[..|ids| - 1]);
      UntrackKeepsInv(UntrackAll(st, ids[..|ids| - 1]), ids[|ids| - 1]);
      hide Inv;
    }
  }

  lemma ConnectKeepsInv(st: State, id: QueueId, running: Option<LoopId>)
    requires Inv(st) && id !in st.subs
    ensures Inv(Connected(st, id, running))
  {
    var room := if |st.queues| >= MAX_SUBSCRIBERS then Untrack(st, st.queues[0]) else st;
    if |st.queues| >= MAX_SUBSCRIBERS {
      UntrackKeepsInv(st, st.queues[0]);
      OmitLength(st.queues, st.queues[0]);
    }
    AddKeepsInv(room, id, running);
  }

  lemma AddKeepsInv(room: State, id: QueueId, running: Option<LoopId>)
    requires Inv(room) && id !in room.subs && |room.queues| < MAX_SUBSCRIBERS
    ensures Inv(room.(queues := room.queues + [id],
                      loops := if running.Some? then room.loops[id := running.value] else room.loops,
                      subs := room.subs[id := Sub(running, [], [], [], map[], room.count, None)]))
  {
    hide Accounts, Increasing;
    var next := room.(queues := room.queues + [id],
                      loops := if running.Some? then room.loops[id := running.value] else room.loops,
                      subs := room.subs[id := Sub(running, [], [], [], map[], room.count, None)]);
    assert id !in room.queues;
    forall x | x in next.subs ensures SubInv(next, x) {
      if x == id {
        NewcomerIsNoTarget(room, id);
        NewcomerAccounts(running, room.count);
      } else {
        assert SubInv(room, x);
      }
    }
    TargetsStay(room, next);
  }

  lemma BeginKeepsInv(st: State)
    requires Inv(st) && st.phase.Idle?
    ensures Inv(Next(st, Begin))
  {
    hide Accounts, Increasing;
    var next := Next(st, Begin);
    forall x | x in next.subs ensures SubInv(next, x) {
      assert SubInv(st, x);
      if x in st.queues {
        var i :| 0 <= i < |st.queues| && st.queues[i] == x;
        assert next.phase.targets[i].id == x;
      } else {
        assert forall i :: 0 <= i < |st.queues| ==>
            next.phase.targets[i].id == st.queues[i] && st.queues[i] in st.queues;
        assert !Awaits(next.phase, x);
      }
    }
    assert PhaseInv(next) by {
      forall i | 0 <= i < |next.phase.targets| ensures TargetInv(next, i) {
        assert st.queues[i] in st.queues;
        assert SubInv(st, st.queues[i]);
      }
    }
  }

  /** What a send finds and does. */
  lemma SendFacts(st: State)
    requires Inv(st) && st.phase.Sending? && st.phase.next < |st.phase.targets|
    ensures var t, next := st.phase.targets[st.phase.next], Next(st, Send);
            && t.id in st.subs && t.home == st.subs[t.id].home && st.subs[t.id].start < st.count
            && Horizon(st, t.id) == st.count && st.count > 0
            && next == st.(subs := st.subs[t.id := Served(st, t, st.count - 1)], phase := next.phase)
            && next.phase.Sending? && next.phase.targets == st.phase.targets && next.phase.next == st.phase.next + 1
            && SameRoute(st.subs[t.id], next.subs[t.id])
  {
    hide Accounts, Increasing, Distinct, SubInv;
    assert TargetInv(st, st.phase.next);
  }

  /** Serving a subscriber leaves its loop, its start and its end alone. */
  predicate SameRoute(s: Sub, t: Sub) {
    t.home == s.home && t.start == s.start && t.until == s.until
  }

  lemma SendAwaits(st: State, x: QueueId)
    requires Inv(st) && st.phase.Sending? && st.phase.next < |st.phase.targets|
    ensures var t := st.phase.targets[st.phase.next];
            && Awaits(st.phase, t.id)
            && (Awaits(Next(st, Send).phase, x) <==> Awaits(st.phase, x) && x != t.id)
  {
    hide Accounts, Increasing, Distinct, SubInv, TargetInv, TableInv, Served;
    SendFacts(st);
    AwaitsAfter(st.phase, Next(st, Send).phase, x);
  }

  lemma SendKeepsInv(st: State)
    requires Inv(st) && st.phase.Sending? && st.phase.next < |st.phase.targets|
    ensures Inv(Next(st, Send))
  {
    hide Accounts, Increasing, Distinct, SubInv, TargetInv, Next, Served;
    var next := Next(st, Send);
    SendFacts(st);
    forall x | x in next.subs ensures SubInv(next, x) {
      SendKeepsSub(st, x);
    }
    TargetsStay(st, next);
  }

  lemma SendKeepsSub(st: State, x: QueueId)
    requires Inv(st) && st.phase.Sending? && st.phase.next < |st.phase.targets| && x in st.subs
    ensures x in Next(st, Send).subs && SubInv(Next(st, Send), x)
  {
    hide Accounts, Increasing, Distinct, PhaseInv, TableInv, Next, Served, Awaits;
    var t := st.phase.targets[st.phase.next];
    SendFacts(st);
    SendAwaits(st, x);
    assert SubInv(st, x) && SubInv(st, t.id);
    ServedAccounts(st, t, st.count - 1);
  }

  lemma AwaitsAfter(p: Phase, q: Phase, x: QueueId)
    requires p.Sending? && q.Sending? && p.next < |p.targets| && q.targets == p.targets && q.next == p.next + 1
    requires forall i, j :: 0 <= i < j < |p.targets| ==> p.targets[i].id != p.targets[j].id
    ensures Awaits(q, x) <==> Awaits(p, x) && x != p.targets[p.next].id
  {
  }

  lemma FinishKeepsInv(st: State)
    requires Inv(st) && st.phase.Sending? && st.phase.next >= |st.phase.targets|
    ensures Inv(Next(st, Finish))
  {
    hide Accounts, Increasing;
    var ids := st.phase.dead;
    UntrackAllKeepsInv(st, ids);
    var mid := UntrackAll(st, ids);
    var next := mid.(phase := Idle);
    forall x | x in next.subs ensures SubInv(next, x) {
      assert SubInv(mid, x);
    }
  }

  lemma OneSubChanges(st: State, id: QueueId, s: Sub)
    requires Inv(st) && id in st.subs && Accounts(s, UpTo(st, id))
    requires s.home == st.subs[id].home && s.start == st.subs[id].start && s.until == st.subs[id].until
    ensures Inv(st.(subs := st.subs[id := s]))
  {
    hide Accounts, Increasing;
    var next := st.(subs := st.subs[id := s]);
    assert SubInv(st, id);
    forall x | x in next.subs ensures SubInv(next, x) {
      assert SubInv(st, x);
    }
    TargetsStay(st, next);
  }

  lemma NextKeepsInv(st: State, step: Step)
    requires Inv(st)
    ensures Inv(Next(st, step))
  {
    match step
    case Connect(id, running) => if id !in st.subs { ConnectKeepsInv(st, id, running); }
    case Disconnect(id) => UntrackKeepsInv(st, id);
    case Begin => if st.phase.Idle? { BeginKeepsInv(st); }
    case Send => if st.phase.Sending? && st.phase.next < |st.phase.targets| { SendKeepsInv(st); }
    case Finish => if st.phase.Sending? && st.phase.next >= |st.phase.targets| { FinishKeepsInv(st); }
    case RunCallback(id) =>
      if id in st.subs && st.subs[id].pending != [] {
        assert SubInv(st, id);
        CallbackAccounts(st.subs[id], UpTo(st, id));
        var s := st.subs[id];
        OneSubChanges(st, id, Put(s.(pending := s.pending[1..]), s.pending[0]));
      }
    case Receive(id) =>
      if id in st.subs && st.subs[id].queue != [] {
        assert SubInv(st, id);
        ReceiveAccounts(st.subs[id], UpTo(st, id));
        var s := st.subs[id];
        OneSubChanges(st, id, s.(received := s.received + [s.queue[0]], queue := s.queue[1..]));
      }
    case Close(home) => CloseKeepsInv(st, home);
  }

  lemma CloseKeepsInv(st: State, home: LoopId)
    requires Inv(st)
    ensures Inv(st.(closed := st.closed + {home}))
  {
    hide Accounts, Increasing;
    var next := st.(closed := st.closed + {home});
    forall x | x in next.subs ensures SubInv(next, x) {
      assert SubInv(st, x);
    }
    TargetsStay(st, next);
  }

  lemma {:induction false} ReachedInv(h: History)
    ensures Inv(Reached(h))
  {
    if h.Then? {
      ReachedInv(h.past);
      NextKeepsInv(Reached(h.past), h.step);
    }
  }

  // ---------------------------------------------------------------- main results

  /** At no time are there more than 256 subscribers, more than 1000 events in a queue, or loops of untracked queues. */
  lemma AlwaysBounded(h: History)
    ensures var st := Reached(h);
            && |st.queues| <= MAX_SUBSCRIBERS
            && (forall id :: id in st.subs ==> |st.subs[id].queue| <= MAX_QUEUE_SIZE)
            && (forall id :: id in st.loops ==> id in st.queues)
  {
    ReachedInv(h);
    var st := Reached(h);
    forall id | id in st.subs ensures |st.subs[id].queue| <= MAX_QUEUE_SIZE {
      assert SubInv(st, id);
    }
  }

  /**
    Between broadcasts, what a subscriber has received, has queued and has pending on its loop
    is in broadcast order, without repetition, and made of events since it connected; every
    such event it does not have was dropped because its queue was full or its loop closed, or
    came after it was evicted or disconnected.
  */
  lemma EverySubscriberAccounts(h: History, id: QueueId)
    requires Reached(h).phase.Idle? && id in Reached(h).subs
    ensures var st := Reached(h);
            var s := st.subs[id];
            && Increasing(s.Log())
            && (forall e :: e in s.Log() ==> s.start <= e < st.count)
            && forall e :: s.start <= e < st.count ==>
                 (e in s.Log() <==> !(e in s.lost || (s.until.Some? && e >= s.until.value)))
  {
    ReachedInv(h);
    assert SubInv(Reached(h), id);
  }

  // ---------------------------------------------------------------------- the object

  function SentTo(st: State, n: nat): State {
    if n == 0 then st else Next(SentTo(st, n - 1), Send)
  }

  /** A broadcast that nothing interrupts: begin, serve every target, finish. */
  function Broadcasted(st: State): State {
    var begun := Next(st, Begin);
    Next(SentTo(begun, if begun.phase.Sending? then |begun.phase.targets| else 0), Finish)
  }

  /** The broker with the queues and loops it talks to; `subs` and `closed` are theirs. */
  class SseBroker {
    var queues: seq<QueueId>
    var loops: map<QueueId, LoopId>
    var subs: map<QueueId, Sub>
    var closed: set<LoopId>
    var count: nat

    function View(phase: Phase): State
      reads this
    {
      State(queues, loops, subs, closed, count, phase)
    }

    ghost predicate Valid()
      reads this
    {
      Inv(View(Idle))
    }

    constructor ()
      ensures Valid() && View(Idle) == INITIAL
    {
      queues, loops, subs, closed, count := [], map[], map[], {}, 0;
      new;
      ReachedInv(Start);
    }

    method Untracked(id: QueueId)
      requires id in queues && id in subs
      modifies `queues, `loops, `subs
      ensures forall phase :: View(phase) == Untrack(old(View(phase)), id)
    {
      queues := Omit(queues, id);
      loops := loops - {id};
      subs := subs[id := subs[id].(until := Some(count))];
    }

    /** `id` names the queue object that the call creates. */
    method Connect(id: QueueId, running: Option<LoopId>)
      requires Valid() && id !in subs
      modifies `queues, `loops, `subs
      ensures Valid() && View(Idle) == Next(old(View(Idle)), Step.Connect(id, running))
    {
      NextKeepsInv(View(Idle), Step.Connect(id, running));
      hide SubInv, PhaseInv, Distinct;
      if |queues| >= MAX_SUBSCRIBERS {
        Untracked(queues[0]);
      }
      queues := queues + [id];
      if running.Some? {
        loops := loops[id := running.value];
      }
      subs := subs[id := Sub(running, [], [], [], map[], count, None)];
    }

    method Disconnect(id: QueueId)
      requires Valid()
      modifies `queues, `loops, `subs
      ensures Valid() && View(Idle) == Next(old(View(Idle)), Step.Disconnect(id))
    {
      NextKeepsInv(View(Idle), Step.Disconnect(id));
      if id in queues {
        Untracked(id);
      }
    }

    /** A full queue drops the event. */
    method Enqueue(id: QueueId, e: Event)
      requires id in subs
      modifies `subs
      ensures subs == old(subs)[id := Put(old(subs)[id], e)]
    {
      if |subs[id].queue| < MAX_QUEUE_SIZE {
        subs := subs[id := subs[id].(queue := subs[id].queue + [e])];
      } else {
        subs := subs[id := subs[id].(lost := subs[id].lost[e := QueueFull])];
      }
    }

    method Serve(targets: seq<Target>, i: nat, dead: seq<QueueId>) returns (found: seq<QueueId>)
      requires i < |targets| && Inv(View(Sending(targets, i, dead)))
      modifies `subs
      ensures View(Sending(targets, i + 1, found)) == Next(old(View(Sending(targets, i, dead))), Send)
    {
      hide SubInv, Accounts, Distinct, Increasing, TableInv;
      var t := targets[i];
      assert TargetInv(View(Sending(targets, i, dead)), i);
      found := dead;
      if t.home.Some? {
        if t.home.value in closed {
          found := dead + [t.id];
          subs := subs[t.id := subs[t.id].(lost := subs[t.id].lost[count - 1 := LoopClosed])];
        } else {
          subs := subs[t.id := subs[t.id].(pending := subs[t.id].pending + [count - 1])];
        }
      } else {
        Enqueue(t.id, count - 1);
      }
    }

    method Broadcast()
      requires Valid()
      modifies `queues, `loops, `subs, `count
      ensures Valid() && View(Idle) == Broadcasted(old(View(Idle)))
    {
      var targets := TargetsOf(queues, loops);
      BeginKeepsInv(View(Idle));
      ghost var begun := Next(View(Idle), Begin);
      count := count + 1;
      hide Inv, Next;
      var dead: seq<QueueId> := [];
      var i := 0;
      while i < |targets|
        invariant 0 <= i <= |targets|
        invariant View(Sending(targets, i, dead)) == SentTo(begun, i)
        invariant Inv(View(Sending(targets, i, dead)))
      {
        NextKeepsInv(View(Sending(targets, i, dead)), Send);
        dead := Serve(targets, i, dead);
        i := i + 1;
      }
      Prune(targets, dead);
    }

    method Prune(targets: seq<Target>, dead: seq<QueueId>)
      requires Inv(View(Sending(targets, |targets|, dead)))
      modifies `queues, `loops, `subs
      ensures Valid() && View(Idle) == Next(old(View(Sending(targets, |targets|, dead))), Finish)
    {
      ghost var st := View(Sending(targets, |targets|, dead));
      var i := 0;
      while i < |dead|
        invariant 0 <= i <= |dead|
        invariant View(Sending(targets, |targets|, dead)) == UntrackAll(st, dead[..i])
      {
        assert dead[..i + 1][..i] == dead[..i];
        if dead[i] in queues && dead[i] in subs {
          Untracked(dead[i]);
        }
        i := i + 1;
      }
      assert dead[..i] == dead;
      FinishKeepsInv(st);
    }
  }
}

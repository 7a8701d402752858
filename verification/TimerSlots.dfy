/**
 Each task id that State remembers names the one live task of its kind, in every run. This is
 what makes removing a task by its remembered id, and starting one only when the id is 0,
 correct.
 */
module TimerSlots {
  import opened Tasks
  import opened Timers
  import opened TimerBatches

  /** The live tasks of a kind: the one remembered, or none when the id is 0. */
  predicate Slot(tasks: set<nat>, id: nat) {
    tasks == if id == 0 then {} else {id}
  }

  /** The ids State remembers, and the serials of registration replies still to come. */
  datatype Ids = Ids(reset: nat, heartbeat: nat, period: nat, write: nat, register: nat, replies: set<nat>)

  function IdsIn(s: State): Ids {
    Ids(s.resetId, s.heartbeatId, s.periodId, s.writeId, s.registerId, s.registerReplies)
  }

  predicate AtMostOne(r: set<nat>) {
    r == {} || exists x | x in r :: r == {x}
  }

  /** A registration task is the remembered one, and there is never both a task and a reply to come. */
  predicate RegisterSlot(tasks: set<nat>, id: nat, replies: set<nat>) {
    tasks <= {id} && AtMostOne(replies) && (replies != {} ==> id != 0 && tasks == {})
  }

  /** What the remembered ids say about the live tasks of one kind. */
  predicate SlotOf(cb: Callback, tasks: set<nat>, ids: Ids) {
    match cb
    case UnsetKeepAlive => Slot(tasks, ids.reset)
    case Heartbeat => Slot(tasks, ids.heartbeat)
    case PerSecond => Slot(tasks, ids.period)
    case WriteBridges => Slot(tasks, ids.write)
    case Register => RegisterSlot(tasks, ids.register, ids.replies)
    case DelayedDeny => true
  }

  predicate AllSlots(live: map<nat, Callback>, ids: Ids) {
    forall cb: Callback :: SlotOf(cb, IdsOf(live, cb), ids)
  }

  /** Being alive means that a reset is pending, and that heartbeats go on; the tick never stops. */
  predicate Beating(alive: bool, ids: Ids) {
    (alive <==> ids.reset != 0) && (alive ==> ids.heartbeat != 0) && ids.period != 0
  }

  /** The invariant. */
  predicate Slots(s: State) {
    Valid(s.tasks) && AllSlots(s.tasks.live, IdsIn(s)) && Beating(s.alive, IdsIn(s))
  }

  lemma ErasedIds(live: map<nat, Callback>, id: nat, cb: Callback)
    ensures IdsOf(live - {id}, cb) == IdsOf(live, cb) - {id}
  {}

  lemma LiveIdsArePositive(q: Queue<Callback>, id: nat)
    requires Valid(q) && id in q.live
    ensures 1 <= id < q.nextId
  {}

  lemma PopKeepsValid(q: Queue<Callback>)
    requires Valid(q) && q.queue != []
    ensures Valid(Pop(q))
  {
    PartOfOrdered(q.queue, 1, |q.queue|, q.nextId);
    forall id | id in Pop(q).live ensures Queued(q.queue[1..], id) {
      assert Queued(q.queue, id);
      QueuedCons(q.queue, id);
    }
  }

  lemma EraseKeepsValid(q: Queue<Callback>, id: nat)
    requires Valid(q)
    ensures Valid(EraseTask(q, id))
  {}

  /** The remembered ids with one slot set. */
  function WithSlot(ids: Ids, cb: Callback, id: nat): Ids {
    match cb
    case UnsetKeepAlive => ids.(reset := id)
    case Heartbeat => ids.(heartbeat := id)
    case PerSecond => ids.(period := id)
    case WriteBridges => ids.(write := id)
    case Register => ids.(register := if id == 0 then ids.register else id)
    case DelayedDeny => ids
  }

  lemma ErasedSlots(live: map<nat, Callback>, ids: Ids, id: nat)
    requires AllSlots(live, ids) && id in live && id != 0
    ensures AllSlots(live - {id}, WithSlot(ids, live[id], 0))
    ensures live[id] == Register ==> IdsOf(live - {id}, Register) == {} && ids.replies == {} && ids.register == id
  {
    assert id in IdsOf(live, live[id]);
    forall c: Callback
      ensures SlotOf(c, IdsOf(live - {id}, c), WithSlot(ids, live[id], 0))
      ensures c == live[id] == Register ==> IdsOf(live - {id}, Register) == {} && ids.replies == {} && ids.register == id
    {
      ErasedIds(live, id, c);
      assert SlotOf(c, IdsOf(live, c), ids);
    }
  }

  /** The slot of a popped task is empty, the other slots are as before. */
  lemma PopSlots(s: State)
    requires Slots(s) && s.tasks.queue != [] && s.tasks.queue[0].id in s.tasks.live
    ensures var t, p := s.tasks.queue[0].id, Pop(s.tasks);
      && Valid(p) && p.nextId == s.tasks.nextId && AllSlots(p.live, WithSlot(IdsIn(s), s.tasks.live[t], 0))
      && (s.tasks.live[t] == Register ==> s.registerReplies == {} && s.registerId != 0 && IdsOf(p.live, Register) == {})
  {
    var t := s.tasks.queue[0].id;
    PopKeepsValid(s.tasks);
    LiveIdsArePositive(s.tasks, t);
    ErasedSlots(s.tasks.live, IdsIn(s), t);
  }

  lemma AddedToSlots(live: map<nat, Callback>, ids: Ids, f: Callback, id: nat)
    requires AllSlots(live, ids) && id !in live && id != 0 && (f.DelayedDeny? || IdsOf(live, f) == {})
    requires f.Register? ==> ids.replies == {}
    ensures AllSlots(live[id := f], WithSlot(ids, f, id))
  {
    var after, now := live[id := f], WithSlot(ids, f, id);
    forall c: Callback ensures SlotOf(c, IdsOf(after, c), now) {
      assert IdsOf(after, c) == IdsOf(live, c) + (if f == c then {id} else {});
      assert SlotOf(c, IdsOf(live, c), ids);
    }
  }

  lemma NextIdIsNew(q: Queue<Callback>)
    requires Valid(q)
    ensures q.nextId !in q.live && q.nextId != 0
  {}

  /** A task is added where its slot is empty, and remembered there. */
  lemma AddedSlots(q: Queue<Callback>, ids: Ids, f: Callback, delayMs: nat, now: nat)
    requires Valid(q) && q.nextId + 1 < TWO_TO_32 && AllSlots(q.live, ids) && (f.DelayedDeny? || IdsOf(q.live, f) == {})
    requires f.Register? ==> ids.replies == {}
    ensures Valid(AddTask(q, f, delayMs, now)) && AddTask(q, f, delayMs, now).nextId == q.nextId + 1
    ensures AllSlots(AddTask(q, f, delayMs, now).live, WithSlot(ids, f, q.nextId))
  {
    AddKeepsValid(q, f, delayMs, now);
    NextIdIsNew(q);
    AddedToSlots(q.live, ids, f, q.nextId);
  }

  /** What firing does to the queue and to the remembered ids. */
  lemma FireShape(s: State, inp: Input)
    requires CanFire(s, inp.now)
    ensures var f, cb, p := Fire(s, inp), s.tasks.live[s.tasks.queue[0].id], Pop(s.tasks);
      match cb
      case UnsetKeepAlive => f.tasks == p && !f.alive && IdsIn(f) == IdsIn(s).(reset := 0)
      case Heartbeat =>
        && f.alive == s.alive
        && if s.alive then f.tasks == AddTask(p, Heartbeat, HEARTBEAT_MS, inp.now) && IdsIn(f) == IdsIn(s).(heartbeat := p.nextId)
           else f.tasks == p && IdsIn(f) == IdsIn(s).(heartbeat := 0)
      case PerSecond =>
        && f.alive == s.alive
        && f.tasks == AddTask(p, PerSecond, TICK_MS, inp.now) && IdsIn(f) == IdsIn(s).(period := p.nextId)
      case WriteBridges => f.alive == s.alive && f.tasks == p && IdsIn(f) == IdsIn(s).(write := 0)
      case Register =>
        && f.alive == s.alive && f.tasks == p
        && IdsIn(f) == if inp.accepted then IdsIn(s).(replies := s.registerReplies + {s.nextSerial}) else IdsIn(s)
      case _ => f.alive == s.alive && f.tasks == p && IdsIn(f) == IdsIn(s)
  {}

  /** The slots after a task was popped and, possibly, another added where its slot is empty. */
  predicate SlotsIn(q: Queue<Callback>, alive: bool, ids: Ids) {
    Valid(q) && AllSlots(q.live, ids) && Beating(alive, ids)
  }

  lemma FireKeepsSlots(s: State, inp: Input)
    requires Slots(s) && CanFire(s, inp.now) && s.tasks.nextId + 1 < TWO_TO_32
    ensures Slots(Fire(s, inp)) && s.tasks.nextId <= Fire(s, inp).tasks.nextId <= s.tasks.nextId + 1
  {
    PopSlots(s);
    var cb, p, f := s.tasks.live[s.tasks.queue[0].id], Pop(s.tasks), Fire(s, inp);
    if cb.Heartbeat? {
      AddedSlots(p, WithSlot(IdsIn(s), cb, 0), Heartbeat, HEARTBEAT_MS, inp.now);
    } else if cb.PerSecond? {
      AddedSlots(p, WithSlot(IdsIn(s), cb, 0), PerSecond, TICK_MS, inp.now);
    }
    FireShape(s, inp);
    assert SlotsIn(f.tasks, f.alive, IdsIn(f));
  }

  // ---------- dropping the dead ----------

  lemma QueuedConcat(a: seq<Task>, b: seq<Task>, id: nat)
    ensures Queued(a + b, id) <==> Queued(a, id) || Queued(b, id)
  {
    if Queued(a, id) {
      var i :| 0 <= i < |a| && a[i].id == id;
      assert (a + b)[i].id == id;
    }
    if Queued(b, id) {
      var i :| 0 <= i < |b| && b[i].id == id;
      assert (a + b)[|a| + i].id == id;
    }
  }

  lemma MemberIsQueued(q: seq<Task>, t: Task)
    requires t in q
    ensures Queued(q, t.id)
  {}

  lemma QueuedMember(q: seq<Task>, id: nat) returns (t: Task)
    requires Queued(q, id)
    ensures t in q && t.id == id
  {
    var i :| 0 <= i < |q| && q[i].id == id;
    t := q[i];
  }

  /** A live task is either in the batch or still queued. */
  lemma LiveIsPending(s: State, now: nat, id: nat)
    requires Valid(s.tasks) && id in s.tasks.live
    ensures var b := Collect(s.tasks, now);
      if id in b.rest.live then Queued(b.rest.queue, id) else Queued(b.ran, id)
  {
    var b := Collect(s.tasks, now);
    CollectLeavesTheRest(s.tasks, now);
    if id !in b.rest.live {
      var t := QueuedMember(s.tasks.queue, id);
      DueAndLater(s.tasks.queue, now);
      if t.when > now {
        MemberIsQueued(b.rest.queue, t);
      }
      RunsExactlyTheDue(s.tasks, now);
      MemberIsQueued(b.ran, t);
    }
  }

  lemma DroppedLive(s: State, now: nat)
    requires Valid(s.tasks)
    ensures Dropped(s, now).tasks.live == s.tasks.live
    ensures forall id | id in s.tasks.live :: Queued(Dropped(s, now).tasks.queue, id)
  {
    var b := Collect(s.tasks, now);
    CollectLeavesTheRest(s.tasks, now);
    forall id | id in s.tasks.live
      ensures Queued(b.ran + b.rest.queue, id) && (id in b.rest.live || Queued(b.ran, id))
    {
      LiveIsPending(s, now, id);
      QueuedConcat(b.ran, b.rest.queue, id);
    }
    RestoredIsOriginal(b.rest.live, b.ran, s.tasks.live);
  }

  lemma RestoredIsOriginal(rest: map<nat, Callback>, ran: seq<Task>, live: map<nat, Callback>)
    requires forall id | id in rest :: id in live && rest[id] == live[id]
    requires forall id | id in live :: id in rest || Queued(ran, id)
    ensures Restored(rest, ran, live) == live
  {}

  lemma DroppedIsValid(s: State, now: nat)
    requires Valid(s.tasks)
    ensures Valid(Dropped(s, now).tasks) && Dropped(s, now).tasks.live == s.tasks.live
    ensures Dropped(s, now).tasks.nextId == s.tasks.nextId
    ensures forall t | t in Dropped(s, now).tasks.queue :: t in s.tasks.queue
  {
    var b := Collect(s.tasks, now);
    DroppedLive(s, now);
    CollectLeavesTheRest(s.tasks, now);
    RunsExactlyTheDue(s.tasks, now);
    DueAndLater(s.tasks.queue, now);
    RanIds(s, now);
    ConcatInOrder(b.ran, b.rest.queue, now, s.tasks.nextId);
  }

  lemma RanIds(s: State, now: nat)
    requires Valid(s.tasks)
    ensures var b := Collect(s.tasks, now);
      && IdsOk(b.ran, s.tasks.nextId)
      && forall i, j | 0 <= i < |b.ran| && 0 <= j < |b.rest.queue| :: b.ran[i].id != b.rest.queue[j].id
  {
    var b := Collect(s.tasks, now);
    RanIsPending(s, now);
    RunsExactlyTheDue(s.tasks, now);
    CollectLeavesTheRest(s.tasks, now);
    forall i | 0 <= i < |b.ran| ensures 1 <= b.ran[i].id < s.tasks.nextId && !Queued(b.rest.queue, b.ran[i].id) {
      assert b.ran[i] in b.ran;
      LiveIdsArePositive(s.tasks, b.ran[i].id);
    }
  }

  lemma DroppedKeepsSlots(s: State, now: nat)
    requires Slots(s)
    ensures Slots(Dropped(s, now))
  {
    DroppedIsValid(s, now);
  }

  /** Due tasks before later ones keep the order. */
  lemma ConcatInOrder(a: seq<Task>, b: seq<Task>, now: nat, limit: nat)
    requires IdsOk(a, limit) && IdsOk(b, limit) && Sorted(b)
    requires (forall t | t in a :: t.when <= now) && (forall t | t in b :: t.when > now)
    requires forall i, j | 0 <= i < |a| && 0 <= j < |b| :: a[i].id != b[j].id
    ensures IdsOk(a + b, limit) && Sorted(a + b)
  {}

  // ---------- the other events ----------

  /** Removing the remembered task of a kind empties its slot; removing id 0 removes nothing. */
  lemma EraseSlot(q: Queue<Callback>, ids: Ids, cb: Callback, id: nat)
    requires Valid(q) && AllSlots(q.live, ids) && !cb.DelayedDeny? && !cb.Register?
    requires WithSlot(ids, cb, id) == ids
    ensures Valid(EraseTask(q, id)) && EraseTask(q, id).nextId == q.nextId
    ensures AllSlots(EraseTask(q, id).live, WithSlot(ids, cb, 0)) && IdsOf(EraseTask(q, id).live, cb) == {}
  {
    if id in q.live {
      LiveIdsArePositive(q, id);
      assert SlotOf(cb, IdsOf(q.live, cb), ids) && IdsOf(q.live, cb) == {id};
      assert id in IdsOf(q.live, cb);
      ErasedSlots(q.live, ids, id);
    } else {
      assert q.live - {id} == q.live;
      assert id != 0 ==> id in IdsOf(q.live, cb);
    }
  }

  lemma MarkAliveKeepsSlots(s: State, now: nat)
    requires Valid(s.tasks) && AllSlots(s.tasks.live, IdsIn(s)) && s.tasks.nextId + 1 < TWO_TO_32
    ensures var a := MarkAlive(s, now);
      && Valid(a.tasks) && AllSlots(a.tasks.live, IdsIn(a)) && a.tasks.nextId == s.tasks.nextId + 1
      && a.alive && a.resetId == s.tasks.nextId && IdsIn(a) == IdsIn(s).(reset := a.resetId)
  {
    EraseSlot(s.tasks, IdsIn(s), UnsetKeepAlive, s.resetId);
    AddedSlots(EraseTask(s.tasks, s.resetId), IdsIn(s).(reset := 0), UnsetKeepAlive, RESET_MS, now);
  }

  lemma KeepAliveKeepsSlots(s: State, suppress: bool, completes: bool, now: nat)
    requires Slots(s) && s.tasks.nextId + 2 < TWO_TO_32
    ensures Slots(HandleKeepAlive(s, suppress, completes, now))
    ensures s.tasks.nextId <= HandleKeepAlive(s, suppress, completes, now).tasks.nextId <= s.tasks.nextId + 2
  {
    var publish := !suppress && s.keepAliveTokens > 0;
    var s1 := if suppress then s else s.(keepAliveTokens := s.keepAliveTokens - 1);
    var s2 := if publish then s1.(republishes := s1.republishes + 1) else s1;
    assert IdsIn(s2) == IdsIn(s) && s2.tasks == s.tasks && s2.alive == s.alive;
    assert SlotsIn(s2.tasks, s2.alive, IdsIn(s2));
    WakeKeepsSlots(s2, now);
  }

  /** Marks the system alive and starts the heartbeat if there is none. */
  function Wake(s: State, now: nat): State {
    var a := MarkAlive(s, now);
    if a.heartbeatId == 0 then RunHeartbeat(a, now) else a
  }

  lemma WakeKeepsSlots(s: State, now: nat)
    requires Slots(s) && s.tasks.nextId + 2 < TWO_TO_32
    ensures Slots(Wake(s, now)) && s.tasks.nextId <= Wake(s, now).tasks.nextId <= s.tasks.nextId + 2
  {
    MarkAliveKeepsSlots(s, now);
    var a := MarkAlive(s, now);
    if a.heartbeatId == 0 {
      AddedSlots(a.tasks, IdsIn(a), Heartbeat, HEARTBEAT_MS, now);
      var b := RunHeartbeat(a, now);
      assert SlotsIn(b.tasks, b.alive, IdsIn(b));
    } else {
      assert SlotsIn(a.tasks, a.alive, IdsIn(a));
    }
  }

  lemma LoginShape(s: State, password: string, right: bool, delayMs: nat, now: nat)
    ensures var a := Login(s, password, right, delayMs, now);
      && a.alive == s.alive && IdsIn(a) == IdsIn(s)
      && (a.tasks == s.tasks || a.tasks == AddTask(s.tasks, DelayedDeny, delayMs, now))
  {
    var a := Attempted(s, password);
    assert a.alive == s.alive && IdsIn(a) == IdsIn(s) && a.tasks == s.tasks;
  }

  lemma LoginKeepsSlots(s: State, password: string, right: bool, delayMs: nat, now: nat)
    requires Slots(s) && s.tasks.nextId + 1 < TWO_TO_32
    ensures var a := Login(s, password, right, delayMs, now);
      Slots(a) && s.tasks.nextId <= a.tasks.nextId <= s.tasks.nextId + 1 && a.alive == s.alive && IdsIn(a) == IdsIn(s)
  {
    AddedSlots(s.tasks, IdsIn(s), DelayedDeny, delayMs, now);
    LoginShape(s, password, right, delayMs, now);
  }

  lemma DebounceShape(s: State, now: nat)
    ensures var a, t := Debounce(s, now), if s.writeId != 0 then EraseTask(s.tasks, s.writeId) else s.tasks;
      && a.alive == s.alive
      && if s.lastWritten == s.bridges then a.tasks == t && IdsIn(a) == IdsIn(s).(write := 0)
         else a.tasks == AddTask(t, WriteBridges, WRITE_MS, now) && IdsIn(a) == IdsIn(s).(write := t.nextId)
  {}

  lemma DebounceKeepsSlots(s: State, now: nat)
    requires Slots(s) && s.tasks.nextId + 1 < TWO_TO_32
    ensures var a := Debounce(s, now);
      && Slots(a) && s.tasks.nextId <= a.tasks.nextId <= s.tasks.nextId + 1
      && a.alive == s.alive && IdsIn(a) == IdsIn(s).(write := a.writeId)
  {
    EraseSlot(s.tasks, IdsIn(s), WriteBridges, s.writeId);
    var t := if s.writeId != 0 then EraseTask(s.tasks, s.writeId) else s.tasks;
    AddedSlots(t, IdsIn(s).(write := 0), WriteBridges, WRITE_MS, now);
    DebounceShape(s, now);
  }

  /** The remembered id may be reused only when no registration task is left. */
  predicate RegisterIdle(s: State) {
    s.registerId == 0 ==> IdsOf(s.tasks.live, Register) == {} && s.registerReplies == {}
  }

  lemma SlotsRegisterIdle(s: State)
    requires Slots(s)
    ensures RegisterIdle(s)
  {}

  lemma InitiateKeepsSlots(s: State, delayMs: nat, now: nat)
    requires Slots(s) && s.tasks.nextId + 1 < TWO_TO_32
    ensures var a := InitiateRegistration(s, delayMs, now);
      && Slots(a) && s.tasks.nextId <= a.tasks.nextId <= s.tasks.nextId + 1
      && a.alive == s.alive && IdsIn(a) == IdsIn(s).(register := a.registerId)
  {
    SlotsRegisterIdle(s);
    if s.registerId == 0 {
      AddedSlots(s.tasks, IdsIn(s), Register, delayMs, now);
    }
    var a := InitiateRegistration(s, delayMs, now);
    assert SlotsIn(a.tasks, a.alive, IdsIn(a));
  }

  lemma ConnectedKeepsSlots(s: State, bridge: string, connected: bool, delayMs: nat, now: nat)
    requires Slots(s) && s.tasks.nextId + 2 < TWO_TO_32
    ensures var a := BridgeConnected(s, bridge, connected, delayMs, now);
      && Slots(a) && s.tasks.nextId <= a.tasks.nextId <= s.tasks.nextId + 2
      && a.alive == s.alive && a.resetId == s.resetId && a.heartbeatId == s.heartbeatId && a.periodId == s.periodId
  {
    var s0 := s.(bridgesConnected := s.bridgesConnected[bridge := false]);
    InitiateKeepsSlots(s0, delayMs, now);
    var s1 := Noted(s, bridge, connected, delayMs, now);
    DebounceKeepsSlots(s1.(bridges := s1.bridges[bridge := StateOf(s1.bridges, bridge).(connected := connected)]), now);
  }

  // ---------- performing ----------

  lemma MaybeFireKeepsSlots(s: State, inp: Input)
    requires Slots(s) && s.tasks.nextId + 1 < TWO_TO_32
    ensures var f := MaybeFire(s, inp);
      Slots(f) && s.tasks.nextId <= f.tasks.nextId <= s.tasks.nextId + 1
  {
    if CanFire(s, inp.now) {
      FireKeepsSlots(s, inp);
    }
  }

  lemma {:induction false} FireNKeepsSlots(s: State, inp: nat -> Input, n: nat)
    requires Slots(s) && s.tasks.nextId + n < TWO_TO_32
    ensures Slots(FireN(s, inp, n)) && s.tasks.nextId <= FireN(s, inp, n).tasks.nextId <= s.tasks.nextId + n
    decreases n
  {
    if n > 0 {
      FireNKeepsSlots(s, inp, n - 1);
      MaybeFireKeepsSlots(FireN(s, inp, n - 1), inp(n - 1));
    }
  }

  lemma PerformKeepsSlots(s: State, now: nat, inp: nat -> Input)
    requires Slots(s) && InputsOk(now, inp) && s.tasks.nextId + |Collect(s.tasks, now).ran| < TWO_TO_32
    ensures Slots(Perform(s, now, inp)) && s.tasks.nextId <= Perform(s, now, inp).tasks.nextId
  {
    PerformIsFiring(s, now, inp);
    DroppedIsValid(s, now);
    DroppedKeepsSlots(s, now);
    FireNKeepsSlots(Dropped(s, now), inp, |Collect(s.tasks, now).ran|);
  }

  // ---------- runs ----------

  /** Ids are left for the tasks the event can add, and batch readings do not go back. */
  ghost predicate Fits(s: State, e: Event) {
    match e
    case PerformTasks(now, inp) => InputsOk(now, inp) && s.tasks.nextId + |Collect(s.tasks, now).ran| < TWO_TO_32
    case _ => s.tasks.nextId + 2 < TWO_TO_32
  }

  lemma NextKeepsSlots(s: State, e: Event)
    requires Slots(s) && Fits(s, e)
    ensures Slots(Next(s, e))
  {
    match e
    case KeepAlive(suppress, completes, now) => KeepAliveKeepsSlots(s, suppress, completes, now);
    case PerformTasks(now, inp) => PerformKeepsSlots(s, now, inp);
    case TryLogin(password, right, delayMs, now) => LoginKeepsSlots(s, password, right, delayMs, now);
    case Connected(bridge, connected, delayMs, now) => ConnectedKeepsSlots(s, bridge, connected, delayMs, now);
    case Status(bridge, msg, now) =>
      DebounceKeepsSlots(s.(bridges := s.bridges[bridge := StateOf(s.bridges, bridge).(msg := msg)]), now);
    case PortalMode(mode, now) => DebounceKeepsSlots(s.(mode := mode), now);
    case Registered(serial, now) => RegisteredKeepsSlots(s, serial);
  }

  /** The only reply there can be frees the id. */
  lemma RegisteredKeepsSlots(s: State, serial: nat)
    requires Slots(s)
    ensures Slots(RegisterReply(s, serial))
    ensures serial in s.registerReplies ==> RegisterReply(s, serial).registerReplies == {}
  {
    if serial in s.registerReplies {
      assert SlotOf(Register, IdsOf(s.tasks.live, Register), IdsIn(s));
      OnlyMember(s.registerReplies, serial);
      var a := RegisterReply(s, serial);
      assert SlotsIn(a.tasks, a.alive, IdsIn(a));
    }
  }

  lemma OnlyMember(a: set<nat>, x: nat)
    requires x in a && AtMostOne(a)
    ensures a - {x} == {}
  {}

  ghost predicate FitsRun(s: State, es: seq<Event>) {
    es != [] ==> FitsRun(s, es[..|es| - 1]) && Fits(Run(s, es[..|es| - 1]), es[|es| - 1])
  }
}

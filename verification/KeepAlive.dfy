/**
 Keep-alive and heartbeat over whole runs (handle_keepalive, unset_keepalive and heartbeat in
 src/state.cpp, on the task queue of src/queuedtasks.cpp).
 */
module KeepAlive {
  import opened Durations
  import opened Tasks
  import opened Timers
  import opened TimerBatches
  import opened TimerSlots

  lemma StartHasSlots(online: bool, now: nat)
    ensures Slots(Start(online, now)) && Start(online, now).tasks.nextId <= 3
  {
    var s := Initial(online);
    assert forall cb: Callback :: IdsOf(s.tasks.live, cb) == {};
    assert AllSlots(s.tasks.live, IdsIn(s));
    AddedSlots(s.tasks, IdsIn(s), Register, 0, now);
    var s1 := InitiateRegistration(s, 0, now);
    assert SlotOf(PerSecond, IdsOf(s1.tasks.live, PerSecond), IdsIn(s1));
    AddedSlots(s1.tasks, IdsIn(s1), PerSecond, TICK_MS, now);
    var s2 := Start(online, now);
    assert SlotsIn(s2.tasks, s2.alive, IdsIn(s2));
  }

  /**
   Main result: after every event of every run, `alive` holds exactly when one reset task is
   live, and the remembered id names it; there is at most one live heartbeat task, its id is
   remembered exactly while there is one, and there is one whenever the system is alive.
   */
  lemma {:induction false} EveryRunKeepsAliveExact(online: bool, now: nat, es: seq<Event>)
    requires FitsRun(Start(online, now), es)
    ensures var s := Run(Start(online, now), es);
      && Slots(s)
      && (s.alive ==> s.resetId != 0 && IdsOf(s.tasks.live, UnsetKeepAlive) == {s.resetId})
      && (!s.alive ==> s.resetId == 0 && IdsOf(s.tasks.live, UnsetKeepAlive) == {})
      && (s.heartbeatId != 0 ==> IdsOf(s.tasks.live, Heartbeat) == {s.heartbeatId})
      && (s.heartbeatId == 0 ==> IdsOf(s.tasks.live, Heartbeat) == {} && !s.alive)
    decreases |es|
  {
    StartHasSlots(online, now);
    if es != [] {
      EveryRunKeepsAliveExact(online, now, es[..|es| - 1]);
      NextKeepsSlots(Run(Start(online, now), es[..|es| - 1]), es[|es| - 1]);
    }
    var s := Run(Start(online, now), es);
    assert SlotOf(UnsetKeepAlive, IdsOf(s.tasks.live, UnsetKeepAlive), IdsIn(s));
    assert SlotOf(Heartbeat, IdsOf(s.tasks.live, Heartbeat), IdsIn(s));
  }

  // ---------- due times ----------

  function DueOf(q: seq<Task>, id: nat): nat {
    if q == [] then 0 else if q[0].id == id then q[0].when else DueOf(q[1..], id)
  }

  lemma {:induction false} DueOfMember(q: seq<Task>, t: Task)
    requires Distinct(q) && t in q
    ensures DueOf(q, t.id) == t.when
  {
    if q[0] != t {
      assert q == [q[0]] + q[1..];
      var j :| 0 <= j < |q| && q[j] == t;
      assert q[0].id != q[j].id;
      DueOfMember(q[1..], t);
    }
  }

  /** A task that stays queued keeps its due time. */
  lemma DueStays(q: seq<Task>, r: seq<Task>, id: nat)
    requires Distinct(q) && Distinct(r) && Queued(q, id)
    requires forall t | t in q && t.id == id :: t in r
    ensures DueOf(r, id) == DueOf(q, id)
  {}

  // ---------- how many heartbeats are left ----------

  const BEAT: nat := HEARTBEAT_MS * MILLISECOND

  function Left(reset: nat, beat: nat, now: nat): nat {
    var from := if beat < now then now else beat;
    if beat > reset then 0 else 1 + (if from >= reset then 0 else (reset - from) / BEAT)
  }

  /** Heartbeats that can still be published if no keep-alive comes. */
  function Budget(s: State, now: nat): nat {
    if !s.alive then 0 else Left(DueOf(s.tasks.queue, s.resetId), DueOf(s.tasks.queue, s.heartbeatId), now)
  }

  lemma LeftShrinks(reset: nat, beat: nat, now: nat, later: nat)
    requires now <= later
    ensures Left(reset, beat, later) <= Left(reset, beat, now)
  {}

  /** One heartbeat fired at `at` uses up at least one. */
  lemma LeftAfterBeat(reset: nat, beat: nat, now: nat, at: nat)
    requires beat <= reset && beat <= at && now <= at
    ensures 1 + Left(reset, at + BEAT, at) <= Left(reset, beat, now)
  {}

  predicate KeepsTasks(q: seq<Task>, r: seq<Task>, id: nat) {
    forall t | t in q && t.id == id :: t in r
  }

  lemma InsertKeeps(q: seq<Task>, r: seq<Task>, t: Task, id: nat)
    requires KeepsTasks(q, r, id)
    ensures KeepsTasks(q, Insert(r, t), id)
  {
    InsertMembers(r, t);
  }

  lemma PoppedKeeps(q: seq<Task>, id: nat)
    requires q != [] && q[0].id != id
    ensures KeepsTasks(q, q[1..], id)
  {}

  /** Budgets agree when the two slots keep their tasks, and time only lowers them. */
  lemma BudgetStays(s: State, a: State, now: nat, later: nat)
    requires Slots(s) && Slots(a) && now <= later && a.alive == s.alive
    requires a.resetId == s.resetId && a.heartbeatId == s.heartbeatId
    requires s.alive ==> KeepsTasks(s.tasks.queue, a.tasks.queue, s.resetId) && KeepsTasks(s.tasks.queue, a.tasks.queue, s.heartbeatId)
    ensures Budget(a, later) <= Budget(s, now)
  {
    if s.alive {
      SlotsQueued(s);
      DueStays(s.tasks.queue, a.tasks.queue, s.resetId);
      DueStays(s.tasks.queue, a.tasks.queue, s.heartbeatId);
      LeftShrinks(DueOf(s.tasks.queue, s.resetId), DueOf(s.tasks.queue, s.heartbeatId), now, later);
    }
  }

  lemma SlotsQueued(s: State)
    requires Slots(s) && s.alive
    ensures Queued(s.tasks.queue, s.resetId) && Queued(s.tasks.queue, s.heartbeatId) && s.resetId != s.heartbeatId
    ensures s.resetId in s.tasks.live && s.tasks.live[s.resetId] == UnsetKeepAlive
    ensures s.heartbeatId in s.tasks.live && s.tasks.live[s.heartbeatId] == Heartbeat
  {
    assert SlotOf(UnsetKeepAlive, IdsOf(s.tasks.live, UnsetKeepAlive), IdsIn(s));
    assert SlotOf(Heartbeat, IdsOf(s.tasks.live, Heartbeat), IdsIn(s));
    assert s.resetId in IdsOf(s.tasks.live, UnsetKeepAlive);
    assert s.heartbeatId in IdsOf(s.tasks.live, Heartbeat);
  }

  /** The heartbeat's task at the head is replaced by the next one; the reset stays. */
  lemma BeatUsesOne(q: seq<Task>, r: seq<Task>, reset: Task, beat: Task, last: nat, at: nat)
    requires q != [] && Sorted(q) && Distinct(q) && reset in q && reset.id != q[0].id
    requires r == Insert(q[1..], beat) && Distinct(r) && beat.when == at + BEAT && q[0].when <= at && last <= at
    ensures 1 + Left(DueOf(r, reset.id), DueOf(r, beat.id), at) <= Left(DueOf(q, reset.id), DueOf(q, q[0].id), last)
  {
    DueOfMember(q, reset);
    DueOfMember(q, q[0]);
    PoppedKeeps(q, reset.id);
    InsertMembers(q[1..], beat);
    DueOfMember(r, reset);
    DueOfMember(r, beat);
    LeftAfterBeat(reset.when, q[0].when, last, at);
  }

  /** A heartbeat fired while alive, with the slots it sets. */
  lemma BeatShape(s: State, inp: Input)
    requires CanFire(s, inp.now) && s.alive && s.tasks.live[s.tasks.queue[0].id] == Heartbeat
    ensures var f := Fire(s, inp);
      && f.heartbeats == s.heartbeats + 1 && f.alive && f.resetId == s.resetId && f.heartbeatId == s.tasks.nextId
      && f.tasks.queue == Insert(s.tasks.queue[1..], Task(inp.now + BEAT, s.tasks.nextId))
  {}

  lemma HeadIsTheBeat(s: State)
    requires Slots(s) && s.tasks.queue != [] && s.tasks.queue[0].id in s.tasks.live
    requires s.tasks.live[s.tasks.queue[0].id] == Heartbeat
    ensures s.tasks.queue[0].id == s.heartbeatId
  {
    assert SlotOf(Heartbeat, IdsOf(s.tasks.live, Heartbeat), IdsIn(s));
    assert s.tasks.queue[0].id in IdsOf(s.tasks.live, Heartbeat);
  }

  lemma FireBeatBudget(s: State, inp: Input, last: nat)
    requires Slots(s) && CanFire(s, inp.now) && s.tasks.nextId + 1 < TWO_TO_32 && last <= inp.now
    requires s.alive && s.tasks.live[s.tasks.queue[0].id] == Heartbeat
    ensures Fire(s, inp).heartbeats == s.heartbeats + 1
    ensures 1 + Budget(Fire(s, inp), inp.now) <= Budget(s, last)
  {
    SlotsQueued(s);
    HeadIsTheBeat(s);
    FireKeepsSlots(s, inp);
    BeatShape(s, inp);
    var reset := QueuedMember(s.tasks.queue, s.resetId);
    BeatUsesOne(s.tasks.queue, Fire(s, inp).tasks.queue, reset, Task(inp.now + BEAT, s.tasks.nextId), last, inp.now);
  }

  /** Firing anything else leaves the two tasks where they are. */
  lemma FireOtherKeepsTasks(s: State, inp: Input, id: nat)
    requires CanFire(s, inp.now) && s.tasks.queue[0].id != id
    ensures KeepsTasks(s.tasks.queue, Fire(s, inp).tasks.queue, id)
  {
    FireShape(s, inp);
    PoppedKeeps(s.tasks.queue, id);
    InsertMembers(s.tasks.queue[1..], Task(inp.now + TICK_MS * MILLISECOND, s.tasks.nextId));
    InsertMembers(s.tasks.queue[1..], Task(inp.now + BEAT, s.tasks.nextId));
  }

  lemma FireOtherBudget(s: State, inp: Input, last: nat)
    requires Slots(s) && CanFire(s, inp.now) && s.tasks.nextId + 1 < TWO_TO_32 && last <= inp.now
    requires s.alive && !s.tasks.live[s.tasks.queue[0].id].Heartbeat? && !s.tasks.live[s.tasks.queue[0].id].UnsetKeepAlive?
    ensures Budget(Fire(s, inp), inp.now) <= Budget(s, last)
  {
    FireKeepsSlots(s, inp);
    SlotsQueued(s);
    FireOtherKeepsTasks(s, inp, s.resetId);
    FireOtherKeepsTasks(s, inp, s.heartbeatId);
    FireShape(s, inp);
    BudgetStays(s, Fire(s, inp), last, inp.now);
  }

  /** A callback never makes the system alive; only a heartbeat of a living system is published. */
  lemma CallbackLife(s: State, cb: Callback, inp: Input)
    ensures var f := RunCallback(s, cb, inp);
      && (f.alive ==> s.alive && f.resetId == s.resetId)
      && (!s.alive ==> f.heartbeatId == 0 || f.heartbeatId == s.heartbeatId)
      && f.heartbeats == s.heartbeats + (if cb.Heartbeat? && s.alive then 1 else 0)
  {}

  lemma FireBudget(s: State, inp: Input, last: nat)
    requires Slots(s) && CanFire(s, inp.now) && s.tasks.nextId + 1 < TWO_TO_32 && last <= inp.now
    ensures Fire(s, inp).heartbeats + Budget(Fire(s, inp), inp.now) <= s.heartbeats + Budget(s, last)
  {
    var cb := s.tasks.live[s.tasks.queue[0].id];
    CallbackLife(s.(tasks := Pop(s.tasks)), cb, inp);
    if s.alive && cb.Heartbeat? {
      FireBeatBudget(s, inp, last);
    } else if s.alive && !cb.UnsetKeepAlive? {
      FireOtherBudget(s, inp, last);
    }
  }

  /** The latest reading of the clock after n tasks of a batch. */
  function LastReading(now: nat, inp: nat -> Input, n: nat): nat {
    if n == 0 then now else inp(n - 1).now
  }

  /** From s at `last` to f at `at`: the budget covers what was published, and life did not return. */
  predicate Fading(s: State, last: nat, f: State, at: nat) {
    && f.heartbeats + Budget(f, at) <= s.heartbeats + Budget(s, last)
    && (f.alive ==> s.alive && f.resetId == s.resetId)
    && (!s.alive ==> f.heartbeatId == 0 || f.heartbeatId == s.heartbeatId)
  }

  lemma FadingIsTransitive(s: State, last: nat, f: State, at: nat, g: State, later: nat)
    requires Fading(s, last, f, at) && Fading(f, at, g, later)
    ensures Fading(s, last, g, later)
  {}

  lemma MaybeFireFades(s: State, inp: Input, last: nat)
    requires Slots(s) && s.tasks.nextId + 1 < TWO_TO_32 && last <= inp.now
    ensures Fading(s, last, MaybeFire(s, inp), inp.now)
  {
    if CanFire(s, inp.now) {
      FireBudget(s, inp, last);
      CallbackLife(s.(tasks := Pop(s.tasks)), s.tasks.live[s.tasks.queue[0].id], inp);
    } else {
      BudgetLater(s, last, inp.now);
    }
  }

  lemma FadeStep(s: State, last: nat, f: State, at: nat, inp: Input)
    requires Fading(s, last, f, at) && Slots(f) && f.tasks.nextId + 1 < TWO_TO_32 && at <= inp.now
    ensures Fading(s, last, MaybeFire(f, inp), inp.now)
  {
    MaybeFireFades(f, inp, at);
    FadingIsTransitive(s, last, f, at, MaybeFire(f, inp), inp.now);
  }

  lemma ReadingsGrow(now: nat, inp: nat -> Input, n: nat)
    requires InputsOk(now, inp)
    ensures now <= LastReading(now, inp, n) <= inp(n).now
  {}

  /** After k firings: slots and ids, and the budget fading from s. */
  ghost predicate FadesSoFar(s: State, now: nat, inp: nat -> Input, last: nat, k: nat, f: State) {
    Slots(f) && f.tasks.nextId <= s.tasks.nextId + k && Fading(s, last, f, LastReading(now, inp, k))
  }

  lemma OneMoreFades(s: State, now: nat, inp: nat -> Input, last: nat, k: nat, f: State)
    requires k > 0 && InputsOk(now, inp) && s.tasks.nextId + k < TWO_TO_32 && FadesSoFar(s, now, inp, last, k - 1, f)
    ensures FadesSoFar(s, now, inp, last, k, MaybeFire(f, inp(k - 1)))
  {
    ReadingsGrow(now, inp, k - 1);
    OnceFades(s, last, f, LastReading(now, inp, k - 1), inp(k - 1), s.tasks.nextId + k - 1);
  }

  lemma OnceFades(s: State, last: nat, f: State, at: nat, inp: Input, ids: nat)
    requires Slots(f) && f.tasks.nextId <= ids && ids + 1 < TWO_TO_32 && Fading(s, last, f, at) && at <= inp.now
    ensures var g := MaybeFire(f, inp); Slots(g) && g.tasks.nextId <= ids + 1 && Fading(s, last, g, inp.now)
  {
    MaybeFireKeepsSlots(f, inp);
    FadeStep(s, last, f, at, inp);
  }

  lemma NoneFades(s: State, now: nat, inp: nat -> Input, last: nat)
    requires Slots(s) && last <= now
    ensures FadesSoFar(s, now, inp, last, 0, s)
  {
    BudgetLater(s, last, now);
  }

  lemma {:induction false} FireNFades(s: State, now: nat, inp: nat -> Input, n: nat, last: nat)
    requires InputsOk(now, inp) && s.tasks.nextId + n < TWO_TO_32 && FadesSoFar(s, now, inp, last, 0, s)
    ensures FadesSoFar(s, now, inp, last, n, FireN(s, inp, n))
    decreases n
  {
    if n > 0 {
      FireNFades(s, now, inp, n - 1, last);
      OneMoreFades(s, now, inp, last, n, FireN(s, inp, n - 1));
    }
  }

  lemma BudgetLater(s: State, now: nat, later: nat)
    requires now <= later
    ensures Budget(s, later) <= Budget(s, now)
  {}

  lemma DroppedBudget(s: State, now: nat, last: nat)
    requires Slots(s)
    ensures Budget(Dropped(s, now), last) == Budget(s, last)
  {
    DroppedIsValid(s, now);
    var d := Dropped(s, now);
    if s.alive {
      SlotsQueued(s);
      DroppedLive(s, now);
      DueStays(d.tasks.queue, s.tasks.queue, s.resetId);
      DueStays(d.tasks.queue, s.tasks.queue, s.heartbeatId);
    }
  }

  lemma PerformFades(s: State, now: nat, inp: nat -> Input, last: nat)
    requires Slots(s) && last <= now && Fits(s, PerformTasks(now, inp))
    ensures Fading(s, last, Perform(s, now, inp), LastReading(now, inp, |Collect(s.tasks, now).ran|))
  {
    PerformIsFiring(s, now, inp);
    DroppedIsValid(s, now);
    DroppedKeepsSlots(s, now);
    DroppedBudget(s, now, last);
    NoneFades(Dropped(s, now), now, inp, last);
    FireNFades(Dropped(s, now), now, inp, |Collect(s.tasks, now).ran|, last);
  }

  // ---------- runs without a keep-alive ----------

  /** The latest clock reading an event makes. */
  function LastOf(s: State, e: Event): nat {
    match e
    case PerformTasks(now, inp) => LastReading(now, inp, |Collect(s.tasks, now).ran|)
    case _ => e.now
  }

  function LastOver(s: State, es: seq<Event>, start: nat): nat {
    if es == [] then start else LastOf(Run(s, es[..|es| - 1]), es[|es| - 1])
  }

  /** A run with a steady clock and ids to spare. */
  ghost predicate SteadyRun(s: State, es: seq<Event>, start: nat) {
    es != [] ==>
      && SteadyRun(s, es[..|es| - 1], start)
      && LastOver(s, es[..|es| - 1], start) <= es[|es| - 1].now
      && Fits(Run(s, es[..|es| - 1]), es[|es| - 1])
  }

  predicate NoKeepAlive(es: seq<Event>) {
    forall i | 0 <= i < |es| :: !es[i].KeepAlive?
  }

  /** Events other than keep-alives and task runs leave the two tasks alone. */
  lemma OtherEventsKeepTasks(s: State, e: Event, id: nat)
    requires !e.KeepAlive? && !e.PerformTasks?
    ensures KeepsTasks(s.tasks.queue, Next(s, e).tasks.queue, id)
    ensures Next(s, e).heartbeats == s.heartbeats && Next(s, e).alive == s.alive
    ensures Next(s, e).resetId == s.resetId && Next(s, e).heartbeatId == s.heartbeatId
  {
    match e
    case TryLogin(password, right, delayMs, now) => LoginKeepsTasks(s, password, right, delayMs, now, id);
    case Connected(bridge, connected, delayMs, now) => ConnectedKeepsTasks(s, bridge, connected, delayMs, now, id);
    case Status(bridge, msg, now) =>
      DebounceKeepsTasks(s.(bridges := s.bridges[bridge := StateOf(s.bridges, bridge).(msg := msg)]), now, id);
    case PortalMode(mode, now) => DebounceKeepsTasks(s.(mode := mode), now, id);
    case Registered(serial, now) =>
  }

  lemma LoginKeepsTasks(s: State, password: string, right: bool, delayMs: nat, now: nat, id: nat)
    ensures var a := Login(s, password, right, delayMs, now);
      && KeepsTasks(s.tasks.queue, a.tasks.queue, id) && a.heartbeats == s.heartbeats && a.alive == s.alive
      && a.resetId == s.resetId && a.heartbeatId == s.heartbeatId
  {
    LoginShape(s, password, right, delayMs, now);
    InsertMembers(s.tasks.queue, Task(now + delayMs * MILLISECOND, s.tasks.nextId));
  }

  lemma DebounceKeepsTasks(s: State, now: nat, id: nat)
    ensures var a := Debounce(s, now);
      && KeepsTasks(s.tasks.queue, a.tasks.queue, id) && a.heartbeats == s.heartbeats && a.alive == s.alive
      && a.resetId == s.resetId && a.heartbeatId == s.heartbeatId
  {
    InsertMembers(s.tasks.queue, Task(now + WRITE_MS * MILLISECOND, s.tasks.nextId));
  }

  lemma ConnectedKeepsTasks(s: State, bridge: string, connected: bool, delayMs: nat, now: nat, id: nat)
    ensures var a := BridgeConnected(s, bridge, connected, delayMs, now);
      && KeepsTasks(s.tasks.queue, a.tasks.queue, id) && a.heartbeats == s.heartbeats && a.alive == s.alive
      && a.resetId == s.resetId && a.heartbeatId == s.heartbeatId
  {
    InsertMembers(s.tasks.queue, Task(now + delayMs * MILLISECOND, s.tasks.nextId));
    var s1 := Noted(s, bridge, connected, delayMs, now);
    DebounceKeepsTasks(s1.(bridges := s1.bridges[bridge := StateOf(s1.bridges, bridge).(connected := connected)]), now, id);
  }

  lemma NextFades(s: State, e: Event, last: nat)
    requires Slots(s) && Fits(s, e) && last <= e.now && !e.KeepAlive?
    ensures Fading(s, last, Next(s, e), LastOf(s, e))
  {
    if e.PerformTasks? {
      PerformFades(s, e.now, e.inp, last);
    } else {
      OtherEventsKeepTasks(s, e, s.resetId);
      OtherEventsKeepTasks(s, e, s.heartbeatId);
      NextKeepsSlots(s, e);
      BudgetStays(s, Next(s, e), last, e.now);
    }
  }

  /** Main result: without another keep-alive no more heartbeats are published than were left. */
  lemma {:induction false} HeartbeatsAreBounded(s: State, es: seq<Event>, start: nat)
    requires Slots(s) && SteadyRun(s, es, start) && NoKeepAlive(es)
    ensures Slots(Run(s, es))
    ensures Run(s, es).heartbeats + Budget(Run(s, es), LastOver(s, es, start)) <= s.heartbeats + Budget(s, start)
    decreases |es|
  {
    if es != [] {
      var init, e := es[..|es| - 1], es[|es| - 1];
      assert !es[|es| - 1].KeepAlive?;
      assert NoKeepAlive(init) by {
        forall i | 0 <= i < |init| ensures !init[i].KeepAlive? { assert !es[i].KeepAlive?; }
      }
      HeartbeatsAreBounded(s, init, start);
      NextKeepsSlots(Run(s, init), e);
      NextFades(Run(s, init), e, LastOver(s, init, start));
    }
  }

  /** What a keep-alive that gets through does to the tasks. */
  lemma KeepAliveShape(s: State, suppress: bool, completes: bool, now: nat)
    requires completes || suppress || s.keepAliveTokens <= 0
    ensures var a := HandleKeepAlive(s, suppress, completes, now);
      var t := AddTask(EraseTask(s.tasks, s.resetId), UnsetKeepAlive, RESET_MS, now);
      && a.alive && a.resetId == s.tasks.nextId
      && if s.heartbeatId == 0 then
           a.tasks == AddTask(t, Heartbeat, HEARTBEAT_MS, now) && a.heartbeats == s.heartbeats + 1 && a.heartbeatId == t.nextId
         else a.tasks == t && a.heartbeats == s.heartbeats && a.heartbeatId == s.heartbeatId
  {
    var publish := !suppress && s.keepAliveTokens > 0;
    var s1 := if suppress then s else s.(keepAliveTokens := s.keepAliveTokens - 1);
    MarkedFields(if publish then s1.(republishes := s1.republishes + 1) else s1, now);
  }

  lemma MarkedFields(s: State, now: nat)
    ensures var a := MarkAlive(s, now);
      && a.alive && a.resetId == s.tasks.nextId && a.heartbeatId == s.heartbeatId && a.heartbeats == s.heartbeats
      && a.tasks == AddTask(EraseTask(s.tasks, s.resetId), UnsetKeepAlive, RESET_MS, now)
  {}

  /** A keep-alive that gets through leaves at most 21 heartbeats, counting one published at once. */
  lemma KeepAliveLeaves21(s: State, suppress: bool, completes: bool, now: nat)
    requires Slots(s) && s.tasks.nextId + 2 < TWO_TO_32
    requires completes || suppress || s.keepAliveTokens <= 0
    ensures var a := HandleKeepAlive(s, suppress, completes, now); a.heartbeats + Budget(a, now) <= s.heartbeats + 21
  {
    KeepAliveKeepsSlots(s, suppress, completes, now);
    KeepAliveShape(s, suppress, completes, now);
    AwakeBudget(s, HandleKeepAlive(s, suppress, completes, now), now);
  }

  /** The tasks and slots of a system that has just been marked alive. */
  lemma AwakeBudget(s: State, a: State, now: nat)
    requires Slots(a) && a.alive && a.resetId == s.tasks.nextId
    requires var reset, beat := Task(now + RESET_MS * MILLISECOND, s.tasks.nextId), Task(now + BEAT, s.tasks.nextId + 1);
      if s.heartbeatId == 0 then
        a.heartbeats == s.heartbeats + 1 && a.heartbeatId == beat.id && a.tasks.queue == Insert(Insert(s.tasks.queue, reset), beat)
      else a.heartbeats == s.heartbeats && a.tasks.queue == Insert(s.tasks.queue, reset)
    ensures a.heartbeats + Budget(a, now) <= s.heartbeats + 21
  {
    FreshDues(s.tasks.queue, a.tasks.queue, Task(now + RESET_MS * MILLISECOND, s.tasks.nextId), Task(now + BEAT, s.tasks.nextId + 1));
    BudgetOf(a, now);
    FreshBudget(DueOf(a.tasks.queue, a.heartbeatId), now);
  }

  lemma BudgetOf(s: State, now: nat)
    requires s.alive
    ensures Budget(s, now) == Left(DueOf(s.tasks.queue, s.resetId), DueOf(s.tasks.queue, s.heartbeatId), now)
  {}

  lemma FreshDues(q: seq<Task>, r: seq<Task>, reset: Task, beat: Task)
    requires Distinct(r)
    ensures r == Insert(q, reset) ==> DueOf(r, reset.id) == reset.when
    ensures r == Insert(Insert(q, reset), beat) ==> DueOf(r, reset.id) == reset.when && DueOf(r, beat.id) == beat.when
  {
    InsertMembers(q, reset);
    InsertMembers(Insert(q, reset), beat);
    if r == Insert(q, reset) {
      DueOfMember(r, reset);
    } else if r == Insert(Insert(q, reset), beat) {
      DueOfMember(r, reset);
      DueOfMember(r, beat);
    }
  }

  lemma FreshBudget(beat: nat, now: nat)
    ensures Left(now + RESET_MS * MILLISECOND, beat, now) <= 21
    ensures Left(now + RESET_MS * MILLISECOND, now + BEAT, now) <= 20
  {}

  /** Main result: from a keep-alive that gets through, at most 21 heartbeats are published until the next one. */
  lemma AtMost21AfterTheLast(s: State, suppress: bool, completes: bool, now: nat, es: seq<Event>)
    requires Slots(s) && s.tasks.nextId + 2 < TWO_TO_32
    requires completes || suppress || s.keepAliveTokens <= 0
    requires NoKeepAlive(es) && SteadyRun(HandleKeepAlive(s, suppress, completes, now), es, now)
    ensures Run(HandleKeepAlive(s, suppress, completes, now), es).heartbeats <= s.heartbeats + 21
  {
    KeepAliveLeaves21(s, suppress, completes, now);
    KeepAliveKeepsSlots(s, suppress, completes, now);
    HeartbeatsAreBounded(HandleKeepAlive(s, suppress, completes, now), es, now);
  }

  // ---------- quiescence ----------

  predicate NewOrRest(live: map<nat, Callback>, rest: map<nat, Callback>, limit: nat) {
    forall id | id in live :: id in rest || id >= limit
  }

  lemma CallbackAddsNew(s: State, cb: Callback, inp: Input, rest: map<nat, Callback>, limit: nat)
    requires NewOrRest(s.tasks.live, rest, limit) && limit <= s.tasks.nextId && s.tasks.nextId + 1 < TWO_TO_32
    ensures NewOrRest(RunCallback(s, cb, inp).tasks.live, rest, limit)
    ensures s.tasks.nextId <= RunCallback(s, cb, inp).tasks.nextId <= s.tasks.nextId + 1
  {}

  lemma {:induction false} BatchAddsNew(s: State, callbacks: seq<Callback>, inp: nat -> Input, n: nat)
    requires n <= |callbacks| && s.tasks.nextId + n < TWO_TO_32
    ensures var r := RunBatch(s, callbacks, inp, n);
      && NewOrRest(r.tasks.live, s.tasks.live, s.tasks.nextId)
      && s.tasks.nextId <= r.tasks.nextId <= s.tasks.nextId + n
    decreases n
  {
    if n > 0 {
      BatchAddsNew(s, callbacks, inp, n - 1);
      CallbackAddsNew(RunBatch(s, callbacks, inp, n - 1), callbacks[n - 1], inp(n - 1), s.tasks.live, s.tasks.nextId);
    }
  }

  /** A task that is due when tasks are performed is not live afterwards. */
  lemma DueIsGone(s: State, now: nat, inp: nat -> Input, id: nat)
    requires Slots(s) && Fits(s, PerformTasks(now, inp)) && id in s.tasks.live
    requires DueOf(s.tasks.queue, id) <= now
    ensures id !in Perform(s, now, inp).tasks.live
  {
    var b := Collect(s.tasks, now);
    BatchFacts(s, now);
    CollectLeavesTheRest(s.tasks, now);
    BatchAddsNew(s.(tasks := b.rest), b.callbacks, inp, |b.callbacks|);
    LiveIdsArePositive(s.tasks, id);
    var t := QueuedMember(s.tasks.queue, id);
    DueOfMember(s.tasks.queue, t);
    DueIsNotLater(s.tasks.queue, now, t);
  }

  /** Performing tasks at or after the reset is due ends being alive. */
  lemma ResetEndsLife(s: State, now: nat, inp: nat -> Input)
    requires Slots(s) && Fits(s, PerformTasks(now, inp))
    requires s.alive ==> DueOf(s.tasks.queue, s.resetId) <= now
    ensures !Perform(s, now, inp).alive
  {
    PerformFades(s, now, inp, now);
    PerformKeepsSlots(s, now, inp);
    if Perform(s, now, inp).alive {
      SlotsQueued(s);
      DueIsGone(s, now, inp, s.resetId);
      SlotsQueued(Perform(s, now, inp));
    }
  }

  /** When no longer alive, performing tasks at or after the heartbeat is due ends the heartbeat. */
  lemma LastBeatEndsHeartbeat(s: State, now: nat, inp: nat -> Input)
    requires Slots(s) && Fits(s, PerformTasks(now, inp)) && !s.alive
    requires s.heartbeatId != 0 ==> DueOf(s.tasks.queue, s.heartbeatId) <= now
    ensures var p := Perform(s, now, inp);
      && !p.alive && p.heartbeatId == 0
      && IdsOf(p.tasks.live, Heartbeat) == {} && IdsOf(p.tasks.live, UnsetKeepAlive) == {}
  {
    PerformFades(s, now, inp, now);
    PerformKeepsSlots(s, now, inp);
    var p := Perform(s, now, inp);
    assert SlotOf(UnsetKeepAlive, IdsOf(p.tasks.live, UnsetKeepAlive), IdsIn(p));
    assert SlotOf(Heartbeat, IdsOf(p.tasks.live, Heartbeat), IdsIn(p));
    assert p.heartbeatId != 0 ==> p.heartbeatId in IdsOf(p.tasks.live, Heartbeat);
    if p.heartbeatId != 0 {
      assert SlotOf(Heartbeat, IdsOf(s.tasks.live, Heartbeat), IdsIn(s));
      assert s.heartbeatId in IdsOf(s.tasks.live, Heartbeat);
      DueIsGone(s, now, inp, s.heartbeatId);
    }
  }
}

/**
 Registration at VRM is single-flight, and bridge states are written debounced
 (initiate_broker_registration and write_all_bridge_connection_states_debounced in
 src/state.cpp). Both hold as long as the bus accepts the calls; what happens otherwise is
 stated too.
 */
module Bridges {
  import opened Durations
  import opened Tasks
  import opened Timers
  import opened TimerBatches
  import opened TimerSlots
  import opened TimerFrames
  import opened KeepAlive

  predicate Registering(s: State) {
    IdsOf(s.tasks.live, Register) != {} || s.registerReplies != {}
  }

  /** The pending id is nonzero exactly while a registration task or reply is outstanding. */
  predicate PendingExact(s: State) {
    s.registerId != 0 <==> Registering(s)
  }

  /** Unless a write is pending, what was last written is the present state. */
  predicate WrittenOrPending(s: State) {
    s.writeId == 0 ==> s.lastWritten == s.bridges
  }

  /** From s to f the pending id stays exact if the calls were accepted, and a stuck id stays stuck. */
  predicate PendingStep(s: State, f: State, accepted: bool) {
    && (PendingExact(s) && accepted ==> PendingExact(f))
    && (s.registerId != 0 && !Registering(s) ==> f.registerId == s.registerId && !Registering(f))
  }

  ghost predicate AllAccepted(inp: nat -> Input) {
    forall i: nat :: inp(i).accepted
  }

  /** The bus accepts every call the event makes. */
  ghost predicate Accepting(e: Event) {
    e.PerformTasks? ==> AllAccepted(e.inp)
  }

  // ---------- single flight ----------

  lemma RegisterIds(s: State, inp: Input)
    requires Slots(s) && CanFire(s, inp.now) && s.tasks.nextId + 1 < TWO_TO_32
    ensures var f, cb := Fire(s, inp), s.tasks.live[s.tasks.queue[0].id];
      IdsOf(f.tasks.live, Register) == if cb.Register? then {} else IdsOf(s.tasks.live, Register)
  {
    FireShape(s, inp);
    var t, p := s.tasks.queue[0].id, Pop(s.tasks);
    ErasedIds(s.tasks.live, t, Register);
    PopSlots(s);
    assert s.tasks.live[t] != Register ==> t !in IdsOf(s.tasks.live, Register);
    AddedOtherIds(p, Heartbeat, HEARTBEAT_MS, inp.now);
    AddedOtherIds(p, PerSecond, TICK_MS, inp.now);
  }

  lemma AddedOtherIds(q: Queue<Callback>, f: Callback, delayMs: nat, now: nat)
    requires Valid(q) && f != Register
    ensures IdsOf(AddTask(q, f, delayMs, now).live, Register) == IdsOf(q.live, Register)
  {}

  lemma CallbackRegister(s: State, cb: Callback, inp: Input)
    ensures RunCallback(s, cb, inp).registerId == s.registerId
    ensures RunCallback(s, cb, inp).registerReplies
         == if cb.Register? && inp.accepted then s.registerReplies + {s.nextSerial} else s.registerReplies
  {}

  lemma FirePending(s: State, inp: Input)
    requires Slots(s) && CanFire(s, inp.now) && s.tasks.nextId + 1 < TWO_TO_32
    ensures PendingExact(s) && inp.accepted ==> PendingExact(Fire(s, inp))
    ensures s.registerId != 0 && !Registering(s) ==> Fire(s, inp).registerId == s.registerId && !Registering(Fire(s, inp))
    ensures s.tasks.live[s.tasks.queue[0].id] == Register && !inp.accepted ==>
      Fire(s, inp).registerId != 0 && !Registering(Fire(s, inp))
  {
    RegisterIds(s, inp);
    PopSlots(s);
    var cb := s.tasks.live[s.tasks.queue[0].id];
    CallbackRegister(s.(tasks := Pop(s.tasks)), cb, inp);
    assert cb.Register? ==> s.tasks.queue[0].id in IdsOf(s.tasks.live, Register);
  }

  lemma MaybeFirePending(s: State, inp: Input)
    requires Slots(s) && s.tasks.nextId + 1 < TWO_TO_32
    ensures PendingStep(s, MaybeFire(s, inp), inp.accepted)
  {
    if CanFire(s, inp.now) {
      FirePending(s, inp);
    }
  }

  /** After k firings: slots and ids, and the pending id as it may be. */
  ghost predicate PendingSoFar(s: State, inp: nat -> Input, k: nat, f: State) {
    Slots(f) && f.tasks.nextId <= s.tasks.nextId + k && PendingStep(s, f, AllAccepted(inp))
  }

  lemma OneMorePending(s: State, inp: nat -> Input, k: nat, f: State)
    requires k > 0 && s.tasks.nextId + k < TWO_TO_32 && PendingSoFar(s, inp, k - 1, f)
    ensures PendingSoFar(s, inp, k, MaybeFire(f, inp(k - 1)))
  {
    MaybeFireKeepsSlots(f, inp(k - 1));
    MaybeFirePending(f, inp(k - 1));
    assert AllAccepted(inp) ==> inp(k - 1).accepted;
    PendingIsTransitive(s, f, MaybeFire(f, inp(k - 1)), AllAccepted(inp), inp(k - 1).accepted);
  }

  lemma PendingIsReflexive(s: State, accepted: bool)
    ensures PendingStep(s, s, accepted)
  {}

  lemma PendingIsTransitive(s: State, f: State, g: State, all: bool, accepted: bool)
    requires PendingStep(s, f, all) && PendingStep(f, g, accepted) && (all ==> accepted)
    ensures PendingStep(s, g, all)
  {}

  lemma {:induction false} FireNPending(s: State, inp: nat -> Input, n: nat)
    requires s.tasks.nextId + n < TWO_TO_32 && PendingSoFar(s, inp, 0, s)
    ensures PendingSoFar(s, inp, n, FireN(s, inp, n))
    decreases n
  {
    if n > 0 {
      FireNPending(s, inp, n - 1);
      OneMorePending(s, inp, n, FireN(s, inp, n - 1));
    }
  }

  lemma PerformPending(s: State, now: nat, inp: nat -> Input)
    requires Slots(s) && Fits(s, PerformTasks(now, inp))
    ensures PendingStep(s, Perform(s, now, inp), AllAccepted(inp))
  {
    PerformIsFiring(s, now, inp);
    DroppedIsValid(s, now);
    DroppedKeepsSlots(s, now);
    PendingIsReflexive(Dropped(s, now), AllAccepted(inp));
    FireNPending(Dropped(s, now), inp, |Collect(s.tasks, now).ran|);
  }

  lemma InitiatePending(s: State, delayMs: nat, now: nat)
    requires Slots(s)
    ensures PendingExact(s) ==> PendingExact(InitiateRegistration(s, delayMs, now))
    ensures s.registerId != 0 ==> InitiateRegistration(s, delayMs, now) == s
  {
    NextIdIsNew(s.tasks);
    var a := InitiateRegistration(s, delayMs, now);
    assert a.registerId != s.registerId ==> a.registerId in IdsOf(a.tasks.live, Register);
  }

  /** Steps that touch neither registrations nor replies. */
  predicate SameRegistration(s: State, a: State) {
    && a.registerId == s.registerId && a.registerReplies == s.registerReplies
    && IdsOf(a.tasks.live, Register) == IdsOf(s.tasks.live, Register)
  }

  lemma DebounceRegistration(s: State, now: nat)
    requires Slots(s)
    ensures SameRegistration(s, Debounce(s, now))
  {
    EraseSlot(s.tasks, IdsIn(s), WriteBridges, s.writeId);
    var t := if s.writeId != 0 then EraseTask(s.tasks, s.writeId) else s.tasks;
    ErasedIds(s.tasks.live, s.writeId, Register);
    assert SlotOf(WriteBridges, IdsOf(s.tasks.live, WriteBridges), IdsIn(s));
    assert s.writeId != 0 ==> s.writeId in IdsOf(s.tasks.live, WriteBridges);
    AddedOtherIds(t, WriteBridges, WRITE_MS, now);
    DebounceShape(s, now);
  }

  lemma LoginRegistration(s: State, password: string, right: bool, delayMs: nat, now: nat)
    requires Slots(s)
    ensures SameRegistration(s, Login(s, password, right, delayMs, now))
  {
    AddedOtherIds(s.tasks, DelayedDeny, delayMs, now);
    LoginShape(s, password, right, delayMs, now);
  }

  /** Erasing the remembered reset leaves the registration tasks alone. */
  lemma ErasedReset(s: State)
    requires Slots(s)
    ensures IdsOf(EraseTask(s.tasks, s.resetId).live, Register) == IdsOf(s.tasks.live, Register)
  {
    ErasedIds(s.tasks.live, s.resetId, Register);
    assert SlotOf(UnsetKeepAlive, IdsOf(s.tasks.live, UnsetKeepAlive), IdsIn(s));
    assert s.resetId != 0 ==> s.resetId in IdsOf(s.tasks.live, UnsetKeepAlive);
    if 0 in IdsOf(s.tasks.live, Register) {
      LiveIdsArePositive(s.tasks, 0);
    }
  }

  lemma KeepAliveRegistration(s: State, suppress: bool, completes: bool, now: nat)
    requires Slots(s) && s.tasks.nextId + 2 < TWO_TO_32
    ensures SameRegistration(s, HandleKeepAlive(s, suppress, completes, now))
  {
    KeepAliveEffect(s, suppress, completes, now);
    ErasedReset(s);
    EraseKeepsValid(s.tasks, s.resetId);
    var t := EraseTask(s.tasks, s.resetId);
    AddedOtherIds(t, UnsetKeepAlive, RESET_MS, now);
    AddKeepsValid(t, UnsetKeepAlive, RESET_MS, now);
    AddedOtherIds(AddTask(t, UnsetKeepAlive, RESET_MS, now), Heartbeat, HEARTBEAT_MS, now);
  }

  lemma NotedPending(s: State, bridge: string, connected: bool, delayMs: nat, now: nat)
    requires Slots(s) && s.tasks.nextId + 1 < TWO_TO_32
    ensures PendingStep(s, Noted(s, bridge, connected, delayMs, now), true) && Slots(Noted(s, bridge, connected, delayMs, now))
  {
    var s0 := s.(bridgesConnected := s.bridgesConnected[bridge := false]);
    InitiatePending(s0, delayMs, now);
    InitiateKeepsSlots(s0, delayMs, now);
  }

  lemma ConnectedPending(s: State, bridge: string, connected: bool, delayMs: nat, now: nat)
    requires Slots(s) && s.tasks.nextId + 2 < TWO_TO_32
    ensures var a := BridgeConnected(s, bridge, connected, delayMs, now);
      PendingStep(s, a, true)
  {
    var s1 := Noted(s, bridge, connected, delayMs, now);
    NotedPending(s, bridge, connected, delayMs, now);
    DebounceRegistration(s1.(bridges := s1.bridges[bridge := StateOf(s1.bridges, bridge).(connected := connected)]), now);
  }

  /** Every event keeps the pending id exact when calls are accepted, and nothing frees a stuck one. */
  lemma NextPending(s: State, e: Event)
    requires Slots(s) && Fits(s, e)
    ensures PendingStep(s, Next(s, e), Accepting(e))
  {
    match e
    case KeepAlive(suppress, completes, now) => KeepAliveRegistration(s, suppress, completes, now);
    case PerformTasks(now, inp) => PerformPending(s, now, inp);
    case TryLogin(password, right, delayMs, now) => LoginRegistration(s, password, right, delayMs, now);
    case Connected(bridge, connected, delayMs, now) => ConnectedPending(s, bridge, connected, delayMs, now);
    case Status(bridge, msg, now) =>
      DebounceRegistration(s.(bridges := s.bridges[bridge := StateOf(s.bridges, bridge).(msg := msg)]), now);
    case PortalMode(mode, now) => DebounceRegistration(s.(mode := mode), now);
    case Registered(serial, now) =>
      RegisteredKeepsSlots(s, serial);
      assert SlotOf(Register, IdsOf(s.tasks.live, Register), IdsIn(s));
  }

  lemma StartIsExact(online: bool, now: nat)
    ensures PendingExact(Start(online, now))
  {
    var s := Initial(online);
    assert IdsOf(s.tasks.live, Register) == {};
    var s1 := InitiateRegistration(s, 0, now);
    if online {
      assert 1 in IdsOf(s1.tasks.live, Register);
      assert 1 in IdsOf(Start(online, now).tasks.live, Register);
    } else {
      assert IdsOf(Start(online, now).tasks.live, Register) == {};
    }
  }

  /** After a refused registration call the id stays taken in every run, and nothing registers again. */
  lemma {:induction false} RefusedRegistrationIsStuck(s: State, es: seq<Event>)
    requires Slots(s) && s.registerId != 0 && !Registering(s) && FitsRun(s, es)
    ensures var a := Run(s, es); Slots(a) && a.registerId == s.registerId && !Registering(a)
    ensures forall delayMs, now :: InitiateRegistration(Run(s, es), delayMs, now) == Run(s, es)
    decreases |es|
  {
    if es != [] {
      RefusedRegistrationIsStuck(s, es[..|es| - 1]);
      NextKeepsSlots(Run(s, es[..|es| - 1]), es[|es| - 1]);
      NextPending(Run(s, es[..|es| - 1]), es[|es| - 1]);
    }
  }

  // ---------- exactly when the pending id stays exact ----------

  /** A registration call made during the event is refused by the bus. */
  ghost predicate RefusesRegistration(s: State, e: Event) {
    e.PerformTasks? && RefusedIn(Collect(s.tasks, e.now).callbacks, e.inp, |Collect(s.tasks, e.now).callbacks|)
  }

  ghost predicate RefusedIn(callbacks: seq<Callback>, inp: nat -> Input, n: nat)
    requires n <= |callbacks|
  {
    exists i :: 0 <= i < n && callbacks[i].Register? && !inp(i).accepted
  }

  /** The pending id is taken though nothing is outstanding. */
  predicate Stuck(s: State) {
    s.registerId != 0 && !Registering(s)
  }

  predicate ExactUnless(s: State, refused: bool) {
    if refused then Stuck(s) else PendingExact(s)
  }

  /** The task fired next is the next of the batch, with its own callback. */
  lemma FiredIsNext(s: State, now: nat, inp: nat -> Input, n: nat)
    requires Valid(s.tasks) && InputsOk(now, inp)
    requires n < |Collect(s.tasks, now).ran| && s.tasks.nextId + |Collect(s.tasks, now).ran| < TWO_TO_32
    ensures var f, b := FireN(Dropped(s, now), inp, n), Collect(s.tasks, now);
      && n < |b.callbacks| && CanFire(f, inp(n).now) && f.tasks.live[f.tasks.queue[0].id] == b.callbacks[n]
  {
    var b := Collect(s.tasks, now);
    BatchFacts(s, now);
    BatchIsFiring(s, now, inp, n);
    var r := RunBatch(s.(tasks := b.rest), b.callbacks, inp, n);
    PopPending(r.tasks, b.ran[n..], s.tasks.live);
    assert FireN(Dropped(s, now), inp, n) == WithPending(r, b.ran[n..], s.tasks.live);
    assert b.ran[n..][0] == b.ran[n];
  }

  /** Firing keeps the id exact unless it is a registration that is refused; then it is stuck, for good. */
  lemma FireExactIff(s: State, inp: Input)
    requires Slots(s) && CanFire(s, inp.now) && s.tasks.nextId + 1 < TWO_TO_32
    ensures var refused := s.tasks.live[s.tasks.queue[0].id].Register? && !inp.accepted;
      && (PendingExact(s) && !refused ==> PendingExact(Fire(s, inp)))
      && (Stuck(s) || refused ==> Stuck(Fire(s, inp)))
  {
    FirePending(s, inp);
    RegisterIds(s, inp);
    CallbackRegister(s.(tasks := Pop(s.tasks)), s.tasks.live[s.tasks.queue[0].id], inp);
  }

  lemma {:induction false} FireNExactIff(s: State, now: nat, inp: nat -> Input, n: nat)
    requires Slots(s) && PendingExact(s) && InputsOk(now, inp)
    requires n <= |Collect(s.tasks, now).ran| && s.tasks.nextId + |Collect(s.tasks, now).ran| < TWO_TO_32
    ensures var f, callbacks := FireN(Dropped(s, now), inp, n), Collect(s.tasks, now).callbacks;
      n <= |callbacks| && ExactUnless(f, RefusedIn(callbacks, inp, n))
    decreases n
  {
    CallbacksAreCopied(s, now);
    if n == 0 {
      DroppedIsExact(s, now);
    } else {
      FireNExactIff(s, now, inp, n - 1);
      OneMoreExactIff(s, now, inp, n - 1);
    }
  }

  lemma DroppedIsExact(s: State, now: nat)
    requires Valid(s.tasks) && PendingExact(s)
    ensures PendingExact(Dropped(s, now))
  {
    DroppedIsValid(s, now);
  }

  lemma OneMoreExactIff(s: State, now: nat, inp: nat -> Input, n: nat)
    requires Slots(s) && InputsOk(now, inp)
    requires n < |Collect(s.tasks, now).ran| && s.tasks.nextId + |Collect(s.tasks, now).ran| < TWO_TO_32
    requires n < |Collect(s.tasks, now).callbacks|
    requires ExactUnless(FireN(Dropped(s, now), inp, n), RefusedIn(Collect(s.tasks, now).callbacks, inp, n))
    ensures ExactUnless(FireN(Dropped(s, now), inp, n + 1), RefusedIn(Collect(s.tasks, now).callbacks, inp, n + 1))
  {
    DroppedIsValid(s, now);
    DroppedKeepsSlots(s, now);
    FireNKeepsSlots(Dropped(s, now), inp, n);
    FiredIsNext(s, now, inp, n);
    FireExactIff(FireN(Dropped(s, now), inp, n), inp(n));
    RefusedGrows(Collect(s.tasks, now).callbacks, inp, n);
  }

  lemma RefusedGrows(callbacks: seq<Callback>, inp: nat -> Input, n: nat)
    requires n < |callbacks|
    ensures RefusedIn(callbacks, inp, n + 1) <==> RefusedIn(callbacks, inp, n) || (callbacks[n].Register? && !inp(n).accepted)
  {}

  lemma PerformExactIff(s: State, now: nat, inp: nat -> Input)
    requires Slots(s) && PendingExact(s) && Fits(s, PerformTasks(now, inp))
    ensures ExactUnless(Perform(s, now, inp), RefusesRegistration(s, PerformTasks(now, inp)))
  {
    PerformIsFiring(s, now, inp);
    CallbacksAreCopied(s, now);
    FireNExactIff(s, now, inp, |Collect(s.tasks, now).ran|);
  }

  lemma NextExactIff(s: State, e: Event)
    requires Slots(s) && PendingExact(s) && Fits(s, e)
    ensures ExactUnless(Next(s, e), RefusesRegistration(s, e))
  {
    if e.PerformTasks? {
      PerformExactIff(s, e.now, e.inp);
    } else {
      NextPending(s, e);
    }
  }

  ghost predicate NoRefusal(s: State, es: seq<Event>) {
    es != [] ==> NoRefusal(s, es[..|es| - 1]) && !RefusesRegistration(Run(s, es[..|es| - 1]), es[|es| - 1])
  }

  /** In every run the pending id is exact if no registration call was refused, and stuck otherwise. */
  lemma {:induction false} ExactIffNeverRefused(online: bool, now: nat, es: seq<Event>)
    requires FitsRun(Start(online, now), es)
    ensures var s := Run(Start(online, now), es); Slots(s) && ExactUnless(s, !NoRefusal(Start(online, now), es))
    decreases |es|
  {
    StartIsExact(online, now);
    EveryRunKeepsAliveExact(online, now, es);
    if es != [] {
      var init := es[..|es| - 1];
      ExactIffNeverRefused(online, now, init);
      if NoRefusal(Start(online, now), init) {
        NextExactIff(Run(Start(online, now), init), es[|es| - 1]);
      } else {
        NextPending(Run(Start(online, now), init), es[|es| - 1]);
      }
    }
  }

  /**
   Main result: in every run there is never both a registration task and a reply outstanding,
   and at most one of either; and the pending id is nonzero exactly while one is, if and only
   if no registration call was refused.
   */
  lemma RegistrationIsSingleFlight(online: bool, now: nat, es: seq<Event>)
    requires FitsRun(Start(online, now), es)
    ensures var s := Run(Start(online, now), es);
      && (PendingExact(s) <==> NoRefusal(Start(online, now), es))
      && (IdsOf(s.tasks.live, Register) == {} || s.registerReplies == {})
      && AtMostOne(s.registerReplies) && IdsOf(s.tasks.live, Register) <= {s.registerId}
  {
    ExactIffNeverRefused(online, now, es);
    var s := Run(Start(online, now), es);
    assert SlotOf(Register, IdsOf(s.tasks.live, Register), IdsIn(s));
  }

  // ---------- debounced writes ----------

  /** A request leaves the states written or a write pending, 2 s from now. */
  lemma DebounceSettles(s: State, now: nat)
    requires Slots(s) && s.tasks.nextId + 1 < TWO_TO_32
    ensures var a := Debounce(s, now);
      && WrittenOrPending(a)
      && (a.writeId != 0 <==> s.lastWritten != s.bridges)
      && (a.writeId != 0 ==> DueOf(a.tasks.queue, a.writeId) == now + 2_000_000_000)
  {
    DebounceKeepsSlots(s, now);
    DebounceShape(s, now);
    var a := Debounce(s, now);
    var w := Task(now + WRITE_MS * MILLISECOND, s.tasks.nextId);
    InsertMembers(s.tasks.queue, w);
    if a.writeId != 0 {
      DueOfMember(a.tasks.queue, w);
    }
  }

  /** The states differ from those last written. */
  predicate Open(s: State) {
    s.lastWritten != s.bridges
  }

  predicate WriteIn(callbacks: seq<Callback>, n: nat)
    requires n <= |callbacks|
  {
    exists i :: 0 <= i < n && callbacks[i].WriteBridges?
  }

  ghost predicate WrittenIn(callbacks: seq<Callback>, inp: nat -> Input, n: nat)
    requires n <= |callbacks|
  {
    exists i :: 0 <= i < n && callbacks[i].WriteBridges? && inp(i).accepted
  }

  /** A write made during the event is refused by the bus. */
  ghost predicate RefusesWrite(s: State, e: Event) {
    e.PerformTasks? &&
      var callbacks := Collect(s.tasks, e.now).callbacks;
      exists i :: 0 <= i < |callbacks| && callbacks[i].WriteBridges? && !e.inp(i).accepted
  }

  lemma CallbackWrites(s: State, cb: Callback, inp: Input)
    ensures var a := RunCallback(s, cb, inp);
      && a.bridges == s.bridges
      && a.lastWritten == (if cb.WriteBridges? && inp.accepted then s.bridges else s.lastWritten)
      && a.writeId == if cb.WriteBridges? then 0 else s.writeId
  {}

  /** What a batch does to the states: an accepted write makes them current, and any write leaves none pending. */
  lemma {:induction false} BatchWrites(s: State, callbacks: seq<Callback>, inp: nat -> Input, n: nat)
    requires n <= |callbacks|
    ensures var a := RunBatch(s, callbacks, inp, n);
      && a.bridges == s.bridges
      && (Open(a) <==> Open(s) && !WrittenIn(callbacks, inp, n))
      && a.writeId == if WriteIn(callbacks, n) then 0 else s.writeId
    decreases n
  {
    if n > 0 {
      BatchWrites(s, callbacks, inp, n - 1);
      CallbackWrites(RunBatch(s, callbacks, inp, n - 1), callbacks[n - 1], inp(n - 1));
      WritesGrow(callbacks, inp, n);
    }
  }

  lemma WritesGrow(callbacks: seq<Callback>, inp: nat -> Input, n: nat)
    requires 0 < n <= |callbacks|
    ensures WriteIn(callbacks, n) <==> WriteIn(callbacks, n - 1) || callbacks[n - 1].WriteBridges?
    ensures WrittenIn(callbacks, inp, n) <==> WrittenIn(callbacks, inp, n - 1) || (callbacks[n - 1].WriteBridges? && inp(n - 1).accepted)
  {}

  /** The one live write task is the remembered one, so a batch has at most one write, and none when none is pending. */
  lemma OneWriteInBatch(s: State, now: nat, i: nat, j: nat)
    requires Slots(s)
    requires var c := Collect(s.tasks, now).callbacks; i < |c| && j < |c| && c[i].WriteBridges? && c[j].WriteBridges?
    ensures i == j && s.writeId != 0
  {
    var b := Collect(s.tasks, now);
    BatchFacts(s, now);
    RanIds(s, now);
    assert SlotOf(WriteBridges, IdsOf(s.tasks.live, WriteBridges), IdsIn(s));
    assert b.ran[i].id in IdsOf(s.tasks.live, WriteBridges);
    assert b.ran[j].id in IdsOf(s.tasks.live, WriteBridges);
  }

  /** A write refused is the only write of its batch. */
  lemma RefusedIsNotWritten(s: State, e: Event)
    requires Slots(s) && e.PerformTasks?
    ensures var c := Collect(s.tasks, e.now).callbacks;
      && (RefusesWrite(s, e) ==> WriteIn(c, |c|) && !WrittenIn(c, e.inp, |c|) && s.writeId != 0)
      && (WriteIn(c, |c|) && !WrittenIn(c, e.inp, |c|) ==> RefusesWrite(s, e))
      && (WriteIn(c, |c|) ==> s.writeId != 0)
  {
    var c := Collect(s.tasks, e.now).callbacks;
    forall i: nat, j: nat | i < |c| && j < |c| && c[i].WriteBridges? && c[j].WriteBridges? ensures i == j && s.writeId != 0 {
      OneWriteInBatch(s, e.now, i, j);
    }
  }

  /** The events that ask for a write. */
  predicate Requests(e: Event) {
    || (e.Connected? && (e.bridge == BRIDGE_DBUS || e.bridge == BRIDGE_RPC))
    || (e.Status? && (e.bridge == BRIDGE_DBUS || e.bridge == BRIDGE_RPC))
    || e.PortalMode?
  }

  lemma DebounceWrites(s: State, now: nat)
    requires Valid(s.tasks)
    ensures WrittenOrPending(Debounce(s, now))
  {}

  /** A request leaves the states written or a write pending. */
  lemma RequestWrites(s: State, e: Event)
    requires Slots(s) && Fits(s, e) && Requests(e)
    ensures WrittenOrPending(Next(s, e))
  {
    match e
    case Connected(bridge, connected, delayMs, now) =>
      var s0 := s.(bridgesConnected := s.bridgesConnected[bridge := false]);
      InitiateKeepsSlots(s0, delayMs, now);
      var s1 := Noted(s, bridge, connected, delayMs, now);
      DebounceWrites(s1.(bridges := s1.bridges[bridge := StateOf(s1.bridges, bridge).(connected := connected)]), now);
    case Status(bridge, msg, now) =>
      DebounceWrites(s.(bridges := s.bridges[bridge := StateOf(s.bridges, bridge).(msg := msg)]), now);
    case PortalMode(mode, now) => DebounceWrites(s.(mode := mode), now);
    case _ =>
  }

  /** Neither written nor about to be. */
  predicate Unwritten(s: State) {
    s.writeId == 0 && Open(s)
  }

  /** Any event that asks for no write leaves the states unwritten exactly if they were, or if it has a needed write refused. */
  lemma NextUnwrittenIff(s: State, e: Event)
    requires Slots(s) && !Requests(e)
    ensures Unwritten(Next(s, e)) <==> Unwritten(s) || (Open(s) && RefusesWrite(s, e))
  {
    match e
    case PerformTasks(now, inp) =>
      var b := Collect(s.tasks, now);
      BatchWrites(s.(tasks := b.rest), b.callbacks, inp, |b.callbacks|);
      RefusedIsNotWritten(s, e);
    case KeepAlive(suppress, completes, now) => KeepAliveEffect(s, suppress, completes, now);
    case TryLogin(password, right, delayMs, now) => LoginFrame(s, password, right, delayMs, now);
    case _ =>
  }

  /** Event k is the last that asks for a write. */
  predicate LastRequest(es: seq<Event>, k: nat) {
    k < |es| && Requests(es[k]) && forall j | k < j < |es| :: !Requests(es[j])
  }

  /** A needed write was refused between event k and event n. */
  ghost predicate RefusedSince(s: State, es: seq<Event>, k: nat, n: nat)
    requires n <= |es|
  {
    exists j :: k < j < n && RefusedAt(s, es, j)
  }

  ghost predicate RefusedAt(s: State, es: seq<Event>, j: nat)
    requires j < |es|
  {
    Open(Run(s, es[..j])) && RefusesWrite(Run(s, es[..j]), es[j])
  }

  /**
   Main result: in every run with a request, no write is pending and the states are not the last
   written ones if and only if a write of states that differed was refused since the last request.
   */
  lemma {:induction false} UnwrittenIffRefused(s: State, es: seq<Event>, k: nat)
    requires Slots(s) && FitsRun(s, es) && LastRequest(es, k)
    ensures Slots(Run(s, es)) && (Unwritten(Run(s, es)) <==> RefusedSince(s, es, k, |es|))
    decreases |es|
  {
    var init, e := es[..|es| - 1], es[|es| - 1];
    RunKeepsSlots(s, init);
    NextKeepsSlots(Run(s, init), e);
    if k == |init| {
      RequestWrites(Run(s, init), e);
    } else {
      assert init[k] == es[k] && forall j | k < j < |init| :: init[j] == es[j];
      UnwrittenIffRefused(s, init, k);
      NextUnwrittenIff(Run(s, init), e);
      SincePrefix(s, es, k);
    }
  }

  lemma SincePrefix(s: State, es: seq<Event>, k: nat)
    requires es != [] && k < |es| - 1
    ensures RefusedSince(s, es, k, |es|) <==> RefusedSince(s, es[..|es| - 1], k, |es| - 1) || RefusedAt(s, es, |es| - 1)
  {
    var init := es[..|es| - 1];
    forall j | k < j < |init| ensures RefusedAt(s, es, j) <==> RefusedAt(s, init, j) {
      assert init[..j] == es[..j];
    }
  }

  /** After the first request, whenever no write is pending the last-written states are current, as long as no needed write was refused. */
  lemma {:induction false} WritesCatchUp(s: State, es: seq<Event>, k: nat)
    requires Slots(s) && FitsRun(s, es) && k < |es| && Requests(es[k]) && !RefusedSince(s, es, k, |es|)
    ensures WrittenOrPending(Run(s, es))
    decreases |es|
  {
    var last := LastAsked(es, k);
    UnwrittenIffRefused(s, es, last);
  }

  lemma {:induction false} LastAsked(es: seq<Event>, k: nat) returns (last: nat)
    requires k < |es| && Requests(es[k])
    ensures k <= last && LastRequest(es, last)
    decreases |es| - k
  {
    last := k;
    if !LastRequest(es, k) {
      var j :| k < j < |es| && Requests(es[j]);
      last := LastAsked(es, j);
    }
  }

  lemma {:induction false} RunKeepsSlots(s: State, es: seq<Event>)
    requires Slots(s) && FitsRun(s, es)
    ensures Slots(Run(s, es))
    decreases |es|
  {
    if es != [] {
      RunKeepsSlots(s, es[..|es| - 1]);
      NextKeepsSlots(Run(s, es[..|es| - 1]), es[|es| - 1]);
    }
  }

  /** A changed portal mode alone is not written, even where it changes what would be reported. */
  lemma ModeAloneIsNotWritten(s: State, now: nat)
    requires s.writeId == 0 && s.lastWritten == s.bridges && s.mode == MODE_FULL
    requires BRIDGE_RPC in s.bridges && s.bridges[BRIDGE_RPC] == BridgeState(true, "")
    ensures var a := Next(s, PortalMode(MODE_READONLY, now));
      && a == s.(mode := MODE_READONLY) && a.writeId == 0
      && Report(BRIDGE_RPC, StateOf(a.bridges, BRIDGE_RPC), a.mode, MODE_FULL)
         != Report(BRIDGE_RPC, StateOf(s.bridges, BRIDGE_RPC), s.mode, MODE_FULL)
  {}
}

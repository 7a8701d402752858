/**
 What is written to D-Bus about the two bridges, and when a lost connection registers again
 (src/state.cpp, src/flashmq-dbus-plugin.cpp): over whole runs, what is written is what was
 last told about each bridge, as far as the portal mode lets it be shown.
 */
module BridgeReports {
  import opened Durations
  import opened Wrappers
  import opened Text
  import opened Tasks
  import opened Timers
  import opened TimerBatches
  import opened TimerSlots
  import opened KeepAlive
  import opened Bridges

  // ---------- what was told ----------

  /** Whether the bridge was last told to be connected; none is at plugin start. */
  function ToldConnected(es: seq<Event>, bridge: string): bool {
    if es == [] then false
    else
      var e := es[|es| - 1];
      if e.Connected? && e.bridge == bridge then e.connected else ToldConnected(es[..|es| - 1], bridge)
  }

  /** The message last told about the bridge; "pending" at plugin start. */
  function ToldMessage(es: seq<Event>, bridge: string): string {
    if es == [] then "pending"
    else
      var e := es[|es| - 1];
      if e.Status? && e.bridge == bridge then e.msg else ToldMessage(es[..|es| - 1], bridge)
  }

  function ToldMode(es: seq<Event>): nat {
    if es == [] then 0
    else
      var e := es[|es| - 1];
      if e.PortalMode? then e.mode else ToldMode(es[..|es| - 1])
  }

  /** The states of the two bridges are as told, and so is the portal mode. */
  predicate AsTold(s: State, dbus: BridgeState, rpc: BridgeState, mode: nat) {
    s.bridges == map["GXdbus" := dbus, "GXrpc" := rpc] && s.mode == mode
  }

  function ToldOf(es: seq<Event>, bridge: string): BridgeState {
    BridgeState(ToldConnected(es, bridge), ToldMessage(es, bridge))
  }

  lemma CallbackKeepsTold(s: State, cb: Callback, inp: Input)
    ensures var a := RunCallback(s, cb, inp); a.bridges == s.bridges && a.mode == s.mode
  {}

  lemma {:induction false} BatchKeepsTold(s: State, callbacks: seq<Callback>, inp: nat -> Input, n: nat)
    requires n <= |callbacks|
    ensures var a := RunBatch(s, callbacks, inp, n); a.bridges == s.bridges && a.mode == s.mode
    decreases n
  {
    if n > 0 {
      BatchKeepsTold(s, callbacks, inp, n - 1);
      CallbackKeepsTold(RunBatch(s, callbacks, inp, n - 1), callbacks[n - 1], inp(n - 1));
    }
  }

  /** What one event tells. */
  function After(b: BridgeState, bridge: string, e: Event): BridgeState {
    if e.Connected? && e.bridge == bridge then b.(connected := e.connected)
    else if e.Status? && e.bridge == bridge then b.(msg := e.msg)
    else b
  }

  predicate SameTold(s: State, a: State) {
    a.bridges == s.bridges && a.mode == s.mode
  }

  lemma DebounceTellsNothing(s: State, now: nat)
    ensures SameTold(s, Debounce(s, now))
  {}

  lemma InitiateTellsNothing(s: State, delayMs: nat, now: nat)
    ensures SameTold(s, InitiateRegistration(s, delayMs, now))
  {}

  lemma KeepAliveTellsNothing(s: State, suppress: bool, completes: bool, now: nat)
    ensures SameTold(s, HandleKeepAlive(s, suppress, completes, now))
  {}

  lemma NotedTellsNothing(s: State, bridge: string, connected: bool, delayMs: nat, now: nat)
    ensures SameTold(s, Noted(s, bridge, connected, delayMs, now))
  {
    InitiateTellsNothing(s.(bridgesConnected := s.bridgesConnected[bridge := false]), delayMs, now);
  }

  lemma ToldOneBridge(bridges: map<string, BridgeState>, dbus: BridgeState, rpc: BridgeState, bridge: string, b: BridgeState)
    requires bridges == map["GXdbus" := dbus, "GXrpc" := rpc] && (bridge == "GXdbus" || bridge == "GXrpc")
    ensures bridges[bridge := b] == map["GXdbus" := if bridge == "GXdbus" then b else dbus, "GXrpc" := if bridge == "GXrpc" then b else rpc]
  {}

  lemma ConnectedTells(s: State, dbus: BridgeState, rpc: BridgeState, mode: nat, e: Event)
    requires AsTold(s, dbus, rpc, mode) && e.Connected? && (e.bridge == "GXdbus" || e.bridge == "GXrpc")
    ensures AsTold(Next(s, e), After(dbus, "GXdbus", e), After(rpc, "GXrpc", e), mode)
  {
    NotedTellsNothing(s, e.bridge, e.connected, e.delayMs, e.now);
    var s1 := Noted(s, e.bridge, e.connected, e.delayMs, e.now);
    var b := StateOf(s1.bridges, e.bridge).(connected := e.connected);
    ToldOneBridge(s1.bridges, dbus, rpc, e.bridge, b);
    DebounceTellsNothing(s1.(bridges := s1.bridges[e.bridge := b]), e.now);
  }

  lemma StatusTells(s: State, dbus: BridgeState, rpc: BridgeState, mode: nat, e: Event)
    requires AsTold(s, dbus, rpc, mode) && e.Status? && (e.bridge == "GXdbus" || e.bridge == "GXrpc")
    ensures AsTold(Next(s, e), After(dbus, "GXdbus", e), After(rpc, "GXrpc", e), mode)
  {
    DebounceTellsNothing(s.(bridges := s.bridges[e.bridge := StateOf(s.bridges, e.bridge).(msg := e.msg)]), e.now);
  }

  lemma NextTells(s: State, dbus: BridgeState, rpc: BridgeState, mode: nat, e: Event)
    requires AsTold(s, dbus, rpc, mode)
    ensures AsTold(Next(s, e), After(dbus, "GXdbus", e), After(rpc, "GXrpc", e), if e.PortalMode? then e.mode else mode)
  {
    match e
    case PerformTasks(now, inp) =>
      var b := Collect(s.tasks, now);
      BatchKeepsTold(s.(tasks := b.rest), b.callbacks, inp, |b.callbacks|);
    case KeepAlive(suppress, completes, now) => KeepAliveTellsNothing(s, suppress, completes, now);
    case Connected(bridge, connected, delayMs, now) =>
      if bridge == "GXdbus" || bridge == "GXrpc" {
        ConnectedTells(s, dbus, rpc, mode, e);
      }
    case Status(bridge, msg, now) =>
      if bridge == "GXdbus" || bridge == "GXrpc" {
        StatusTells(s, dbus, rpc, mode, e);
      }
    case PortalMode(m, now) => DebounceTellsNothing(s.(mode := m), now);
    case _ =>
  }

  /** In every run the states and the mode are as last told. */
  lemma {:induction false} EveryRunIsAsTold(online: bool, began: nat, es: seq<Event>)
    ensures AsTold(Run(Start(online, began), es), ToldOf(es, "GXdbus"), ToldOf(es, "GXrpc"), ToldMode(es))
    decreases |es|
  {
    if es != [] {
      var init, e := es[..|es| - 1], es[|es| - 1];
      EveryRunIsAsTold(online, began, init);
      NextTells(Run(Start(online, began), init), ToldOf(init, "GXdbus"), ToldOf(init, "GXrpc"), ToldMode(init), e);
    }
  }

  // ---------- what is written ----------

  /** A bridge is deactivated when it has disappeared from the configuration or the portal mode is too low for it. */
  ghost predicate Deactivated(b: BridgeState, mode: nat, needed: nat) {
    mode < needed || exists before, after :: b.msg == before + "disappeared from config" + after
  }

  /** What is written about a bridge. */
  ghost predicate Says(w: Written, bridge: string, b: BridgeState, mode: nat, needed: nat) {
    if Deactivated(b, mode, needed) then w == Written(bridge, None, "deactivated")
    else w == Written(bridge, Some(b.connected), b.msg)
  }

  lemma ReportSays(bridge: string, b: BridgeState, mode: nat, needed: nat)
    ensures Says(Report(bridge, b, mode, needed), bridge, b, mode, needed)
  {
    var part := "disappeared from config";
    if Contains(b.msg, part) {
      var before, after := ContainedHasPlace(b.msg, part);
    } else {
      forall before, after ensures b.msg != before + part + after {
        if b.msg == before + part + after {
          PlacedIsContained(before, part, after);
        }
      }
    }
  }

  /** From s to a, one report was written for each bridge, GXrpc being shown only with the full portal, GXdbus also with a read-only one. */
  ghost predicate WroteBoth(s: State, a: State, dbus: BridgeState, rpc: BridgeState, mode: nat) {
    && |a.written| == |s.written| + 2 && a.written[..|s.written|] == s.written
    && Says(a.written[|s.written|], "GXdbus", dbus, mode, 2)
    && Says(a.written[|s.written| + 1], "GXrpc", rpc, mode, 3)
  }

  lemma WriteSays(s: State, inp: Input, dbus: BridgeState, rpc: BridgeState, mode: nat)
    requires AsTold(s, dbus, rpc, mode)
    ensures var a := RunCallback(s, WriteBridges, inp);
      if inp.accepted then WroteBoth(s, a, dbus, rpc, mode) else a.written == s.written
  {
    ReportSays("GXdbus", dbus, mode, 2);
    ReportSays("GXrpc", rpc, mode, 3);
    var a := RunCallback(s, WriteBridges, inp);
    assert inp.accepted ==> a.written[..|s.written|] == s.written;
  }

  lemma {:induction false} BatchWritesBefore(s: State, callbacks: seq<Callback>, inp: nat -> Input, n: nat)
    requires n <= |callbacks| && !WrittenIn(callbacks, inp, n)
    ensures RunBatch(s, callbacks, inp, n).written == s.written
    decreases n
  {
    if n > 0 {
      WritesGrow(callbacks, inp, n);
      BatchWritesBefore(s, callbacks, inp, n - 1);
      OtherWritesNothing(RunBatch(s, callbacks, inp, n - 1), callbacks[n - 1], inp(n - 1));
    }
  }

  /** With one accepted write in it, a batch writes both reports. */
  lemma {:induction false} BatchSays(s: State, callbacks: seq<Callback>, inp: nat -> Input, n: nat, i: nat, dbus: BridgeState, rpc: BridgeState, mode: nat)
    requires i < n <= |callbacks| && callbacks[i].WriteBridges? && inp(i).accepted && AsTold(s, dbus, rpc, mode)
    requires forall j | 0 <= j < n && callbacks[j].WriteBridges? :: j == i
    ensures WroteBoth(s, RunBatch(s, callbacks, inp, n), dbus, rpc, mode)
    decreases n
  {
    var b := RunBatch(s, callbacks, inp, n - 1);
    if i < n - 1 {
      BatchSays(s, callbacks, inp, n - 1, i, dbus, rpc, mode);
      OtherWritesNothing(b, callbacks[n - 1], inp(n - 1));
    } else {
      BatchWritesBefore(s, callbacks, inp, n - 1);
      BatchKeepsTold(s, callbacks, inp, n - 1);
      WriteSays(b, inp(n - 1), dbus, rpc, mode);
    }
  }

  lemma OtherWritesNothing(s: State, cb: Callback, inp: Input)
    requires !(cb.WriteBridges? && inp.accepted)
    ensures RunCallback(s, cb, inp).written == s.written
  {}

  /**
   Main result: in every run from plugin start, performing tasks when a write is due and accepted
   writes for each bridge what was last told about it, or that it is deactivated.
   */
  lemma WritesWhatWasTold(online: bool, began: nat, es: seq<Event>, now: nat, inp: nat -> Input, i: nat)
    requires FitsRun(Start(online, began), es)
    requires var c := Collect(Run(Start(online, began), es).tasks, now).callbacks; i < |c| && c[i].WriteBridges? && inp(i).accepted
    ensures var s := Run(Start(online, began), es);
      WroteBoth(s, Next(s, PerformTasks(now, inp)), ToldOf(es, "GXdbus"), ToldOf(es, "GXrpc"), ToldMode(es))
  {
    var s := Run(Start(online, began), es);
    EveryRunIsAsTold(online, began, es);
    EveryRunKeepsAliveExact(online, began, es);
    var b := Collect(s.tasks, now);
    forall j | 0 <= j < |b.callbacks| && b.callbacks[j].WriteBridges? ensures j == i {
      OneWriteInBatch(s, now, i, j);
    }
    BatchSays(s.(tasks := b.rest), b.callbacks, inp, |b.callbacks|, i, ToldOf(es, "GXdbus"), ToldOf(es, "GXrpc"), ToldMode(es));
  }

  // ---------- a lost connection ----------

  predicate NoPending(s: State, a: State) {
    a.bridgesConnected == s.bridgesConnected && a.registerId == s.registerId
  }

  /** A registration is queued for this time, under the pending id. */
  predicate RegistersAt(a: State, at: nat) {
    && a.registerId != 0 && a.registerId in a.tasks.live && a.tasks.live[a.registerId] == Register
    && DueOf(a.tasks.queue, a.registerId) == at
  }

  /** At plugin start a registration is due at once, if there is one to be done. */
  lemma StartRegisters(online: bool, now: nat)
    ensures var a := Start(online, now); if online then RegistersAt(a, now) else a.registerId == 0
  {
    var s, t := Initial(online), Task(now, 1);
    if online {
      var a := Start(online, now);
      StartHasSlots(online, now);
      InsertMembers([], t);
      InsertMembers(Insert([], t), Task(now + TICK_MS * MILLISECOND, 2));
      DueOfMember(a.tasks.queue, t);
    }
  }

  /**
   Main result: a bridge that was connected and is told not to be registers again after the delay,
   unless a registration is pending or there is none to be done; any other notification only
   remembers that a bridge is connected.
   */
  lemma LostConnectionRegisters(s: State, bridge: string, connected: bool, delayMs: nat, now: nat)
    requires Slots(s) && s.tasks.nextId + 2 < TWO_TO_32 && (bridge == "GXdbus" || bridge == "GXrpc")
    ensures var a := Next(s, Connected(bridge, connected, delayMs, now));
      if connected then a.bridgesConnected == s.bridgesConnected[bridge := true] && a.registerId == s.registerId
      else if bridge in s.bridgesConnected && s.bridgesConnected[bridge] && s.registerId == 0 then
        && a.bridgesConnected == s.bridgesConnected[bridge := false]
        && if s.online then RegistersAt(a, now + delayMs * 1_000_000) else a.registerId == 0
      else NoPending(s, a)
  {
    var s1 := Noted(s, bridge, connected, delayMs, now);
    NotedShape(s, bridge, connected, delayMs, now);
    NotedIsValid(s, bridge, connected, delayMs, now);
    DebounceKeepsRegistering(s1.(bridges := s1.bridges[bridge := StateOf(s1.bridges, bridge).(connected := connected)]), now, now + delayMs * 1_000_000);
  }

  lemma InitiateRegisters(s: State, delayMs: nat, now: nat)
    requires Valid(s.tasks) && s.tasks.nextId + 1 < TWO_TO_32 && s.online && s.registerId == 0
    ensures var a := InitiateRegistration(s, delayMs, now);
      Valid(a.tasks) && RegistersAt(a, now + delayMs * 1_000_000) && a.registerId == s.tasks.nextId && a.tasks.nextId == s.tasks.nextId + 1
  {
    var t, q := Task(now + delayMs * 1_000_000, s.tasks.nextId), AddTask(s.tasks, Register, delayMs, now);
    AddKeepsValid(s.tasks, Register, delayMs, now);
    InsertMembers(s.tasks.queue, t);
    DueOfMember(q.queue, t);
  }

  lemma NotedShape(s: State, bridge: string, connected: bool, delayMs: nat, now: nat)
    requires Slots(s) && s.tasks.nextId + 1 < TWO_TO_32
    ensures var a := Noted(s, bridge, connected, delayMs, now);
      if connected then a.bridgesConnected == s.bridgesConnected[bridge := true] && a.registerId == s.registerId
      else if bridge in s.bridgesConnected && s.bridgesConnected[bridge] && s.registerId == 0 then
        && a.bridgesConnected == s.bridgesConnected[bridge := false]
        && if s.online then RegistersAt(a, now + delayMs * 1_000_000) && a.registerId == s.tasks.nextId else a.registerId == 0
      else NoPending(s, a)
  {
    if s.online && s.registerId == 0 {
      InitiateRegisters(s.(bridgesConnected := s.bridgesConnected[bridge := false]), delayMs, now);
    }
  }

  lemma NotedIsValid(s: State, bridge: string, connected: bool, delayMs: nat, now: nat)
    requires Slots(s) && s.tasks.nextId + 1 < TWO_TO_32
    ensures var a := Noted(s, bridge, connected, delayMs, now);
      Valid(a.tasks) && a.tasks.nextId <= s.tasks.nextId + 1 && (a.writeId != 0 ==> a.writeId < s.tasks.nextId)
  {
    if s.online && s.registerId == 0 {
      InitiateRegisters(s.(bridgesConnected := s.bridgesConnected[bridge := false]), delayMs, now);
    }
    assert SlotOf(WriteBridges, IdsOf(s.tasks.live, WriteBridges), IdsIn(s));
    if s.writeId != 0 {
      assert s.writeId in IdsOf(s.tasks.live, WriteBridges);
      LiveIdsArePositive(s.tasks, s.writeId);
    }
  }

  lemma DebounceKeepsPending(s: State, now: nat)
    ensures NoPending(s, Debounce(s, now))
  {}

  /** The registration that is queued stays, with its time. */
  lemma DebounceKeepsRegistering(s: State, now: nat, at: nat)
    requires Valid(s.tasks) && s.tasks.nextId + 1 < TWO_TO_32
    ensures NoPending(s, Debounce(s, now))
    ensures RegistersAt(s, at) && s.registerId != s.writeId ==> RegistersAt(Debounce(s, now), at)
  {
    DebounceKeepsPending(s, now);
    if RegistersAt(s, at) && s.registerId != s.writeId {
      DebounceKeepsTask(s, now, s.registerId);
    }
  }

  lemma DebounceKeepsTask(s: State, now: nat, id: nat)
    requires Valid(s.tasks) && s.tasks.nextId + 1 < TWO_TO_32 && id in s.tasks.live && id != 0 && id != s.writeId
    ensures var a := Debounce(s, now).tasks;
      id in a.live && a.live[id] == s.tasks.live[id] && DueOf(a.queue, id) == DueOf(s.tasks.queue, id)
  {
    LiveIdsArePositive(s.tasks, id);
    DebounceShape(s, now);
    EraseKeepsValid(s.tasks, s.writeId);
    AddKeepsTask(if s.writeId != 0 then EraseTask(s.tasks, s.writeId) else s.tasks, now, id);
  }

  lemma AddKeepsTask(q: Queue<Callback>, now: nat, id: nat)
    requires Valid(q) && q.nextId + 1 < TWO_TO_32 && id in q.live
    ensures var a := AddTask(q, WriteBridges, WRITE_MS, now);
      id in a.live && a.live[id] == q.live[id] && DueOf(a.queue, id) == DueOf(q.queue, id)
  {
    LiveIdsArePositive(q, id);
    AddKeepsValid(q, WriteBridges, WRITE_MS, now);
    InsertMembers(q.queue, Task(now + WRITE_MS * MILLISECOND, q.nextId));
    DueStays(q.queue, AddTask(q, WriteBridges, WRITE_MS, now).queue, id);
  }
}

/**
 The machines of State that run on delayed tasks: keep-alive and heartbeat, the one-second
 tick with its token counters, registration at VRM, and the debounced writing of bridge
 states (src/state.cpp, src/flashmq-dbus-plugin.cpp). The task queue is that of Tasks.

 Inputs from outside are arguments: clock readings, whether the bus accepts a call, whether a
 password is right, and whether publishing everything gets through. The readings of the clock
 that one callback makes are taken to be the same.
 */
module Timers {
  import opened Durations
  import opened Wrappers
  import opened Text
  import opened Tasks

  datatype Callback = UnsetKeepAlive | Heartbeat | PerSecond | Register | WriteBridges | DelayedDeny

  datatype BridgeState = BridgeState(connected: bool, msg: string)

  /** What is written to D-Bus for one bridge; None is the null value. */
  datatype Written = Written(bridge: string, connected: Option<bool>, msg: string)

  datatype State = State(
    tasks: Queue<Callback>,
    alive: bool,
    resetId: nat,
    heartbeatId: nat,
    periodId: nat,
    online: bool,
    registerId: nat,
    registerReplies: set<nat>,
    nextSerial: nat,
    mode: nat,
    bridgesConnected: map<string, bool>,
    bridges: map<string, BridgeState>,
    lastWritten: map<string, BridgeState>,
    writeId: nat,
    written: seq<Written>,
    keepAliveTokens: int,
    shortTokens: int,
    longTokens: int,
    longResetAt: nat,
    history: set<string>,
    heartbeats: nat,
    republishes: nat,
    evaluated: nat,
    ticks: nat)

  const RESET_MS: nat := 60000
  const HEARTBEAT_MS: nat := 3000
  const TICK_MS: nat := 1000
  const WRITE_MS: nat := 2000
  const KEEPALIVE_TOKENS := 3
  const SHORT_TOKENS := 20
  const LONG_TOKENS := 150
  const DAY: nat := 86400 * SECOND

  const BRIDGE_DBUS := "GXdbus"
  const BRIDGE_RPC := "GXrpc"
  const DEACTIVATED := "deactivated"

  /** Portal modes in their order: unknown, off, read-only, full. */
  const MODE_READONLY: nat := 2
  const MODE_FULL: nat := 3

  function Initial(online: bool): State {
    State(Empty(), false, 0, 0, 0, online, 0, {}, 1, 0, map[],
          map[BRIDGE_DBUS := BridgeState(false, "pending"), BRIDGE_RPC := BridgeState(false, "pending")],
          map[], 0, [], KEEPALIVE_TOKENS, SHORT_TOKENS, LONG_TOKENS, 0, {}, 0, 0, 0, 0)
  }

  /** What one callback, or one event, finds outside: the clock, and whether calls are accepted. */
  datatype Input = Input(now: nat, accepted: bool)

  // ---------- keep-alive ----------

  /** Publishes while alive and schedules itself again; otherwise stops. */
  function RunHeartbeat(s: State, now: nat): State {
    if !s.alive then s.(heartbeatId := 0)
    else s.(heartbeats := s.heartbeats + 1, heartbeatId := s.tasks.nextId, tasks := AddTask(s.tasks, Heartbeat, HEARTBEAT_MS, now))
  }

  function MarkAlive(s: State, now: nat): State {
    var t := EraseTask(s.tasks, s.resetId);
    s.(alive := true, resetId := t.nextId, tasks := AddTask(t, UnsetKeepAlive, RESET_MS, now))
  }

  /** `completes` is false when publishing everything throws; then nothing further happens. */
  function HandleKeepAlive(s: State, suppress: bool, completes: bool, now: nat): State {
    var publish := !suppress && s.keepAliveTokens > 0;
    var s1 := if suppress then s else s.(keepAliveTokens := s.keepAliveTokens - 1);
    var s2 := if publish then s1.(republishes := s1.republishes + 1) else s1;
    if publish && !completes then s2
    else
      var s3 := MarkAlive(s2, now);
      if s3.heartbeatId == 0 then RunHeartbeat(s3, now) else s3
  }

  // ---------- the one-second tick and the login limits ----------

  function StartTick(s: State, now: nat): State {
    if s.periodId != 0 then s
    else s.(periodId := s.tasks.nextId, tasks := AddTask(s.tasks, PerSecond, TICK_MS, now))
  }

  function RunTick(s: State, now: nat): State {
    var s1 := StartTick(s.(periodId := 0), now);
    var s2 := s1.(ticks := s1.ticks + 1, keepAliveTokens := KEEPALIVE_TOKENS,
                  shortTokens := RefilledShort(s1.shortTokens));
    ResetDaily(s2, now)
  }

  function RefilledShort(n: int): int {
    if n + 1 < SHORT_TOKENS then n + 1 else SHORT_TOKENS
  }

  function ResetDaily(s: State, now: nat): State {
    if s.longResetAt + DAY < now then s.(longTokens := LONG_TOKENS, longResetAt := now, history := {}) else s
  }

  function Decrement(n: int): int {
    if n > 0 then n - 1 else n
  }

  function Deny(s: State, delayMs: nat, now: nat): State {
    s.(tasks := AddTask(s.tasks, DelayedDeny, delayMs, now))
  }

  /** A LAN login with the security profile password, from the rate limit on. */
  function Login(s: State, password: string, right: bool, delayMs: nat, now: nat): State {
    if HasTokens(s) && right then s else Deny(Attempted(s, password), delayMs, now)
  }

  predicate HasTokens(s: State) {
    s.shortTokens > 0 && s.longTokens > 0
  }

  /** Without tokens nothing is evaluated; a password already seen costs nothing. */
  function Attempted(s: State, password: string): State {
    if HasTokens(s) && password !in s.history then Counted(s, password) else s
  }

  /** An unseen wrong password costs a token of each kind and is remembered. */
  function Counted(s: State, password: string): State {
    s.(evaluated := s.evaluated + 1,
       shortTokens := Decrement(s.shortTokens), longTokens := Decrement(s.longTokens),
       history := if |s.history| < LONG_TOKENS then s.history + {password} else s.history)
  }

  // ---------- registration ----------

  function InitiateRegistration(s: State, delayMs: nat, now: nat): State {
    if !s.online || s.registerId > 0 then s
    else s.(registerId := s.tasks.nextId, tasks := AddTask(s.tasks, Register, delayMs, now))
  }

  /** A refused call throws: the pending id stays as it was. */
  function RunRegister(s: State, accepted: bool): State {
    if accepted then s.(registerReplies := s.registerReplies + {s.nextSerial}, nextSerial := s.nextSerial + 1) else s
  }

  function RegisterReply(s: State, serial: nat): State {
    if serial in s.registerReplies then s.(registerReplies := s.registerReplies - {serial}, registerId := 0) else s
  }

  // ---------- bridge states ----------

  function Debounce(s: State, now: nat): State {
    var s1 := if s.writeId != 0 then s.(tasks := EraseTask(s.tasks, s.writeId), writeId := 0) else s;
    if s1.lastWritten == s1.bridges then s1
    else s1.(writeId := s1.tasks.nextId, tasks := AddTask(s1.tasks, WriteBridges, WRITE_MS, now))
  }

  function Report(bridge: string, b: BridgeState, mode: nat, needed: nat): Written {
    if Contains(b.msg, "disappeared from config") || mode < needed then Written(bridge, None, DEACTIVATED)
    else Written(bridge, Some(b.connected), b.msg)
  }

  function StateOf(bridges: map<string, BridgeState>, bridge: string): BridgeState {
    if bridge in bridges then bridges[bridge] else BridgeState(false, "")
  }

  /** A refused call throws before the states are remembered as written. */
  function RunWriteBridges(s: State, accepted: bool): State {
    var s1 := s.(writeId := 0);
    if !accepted then s1
    else s1.(lastWritten := s1.bridges,
             written := s1.written + [Report(BRIDGE_DBUS, StateOf(s1.bridges, BRIDGE_DBUS), s1.mode, MODE_READONLY),
                                      Report(BRIDGE_RPC, StateOf(s1.bridges, BRIDGE_RPC), s1.mode, MODE_FULL)])
  }

  function WasConnected(s: State, bridge: string): bool {
    bridge in s.bridgesConnected && s.bridgesConnected[bridge]
  }

  /** Losing a connection registers again, unless a registration is under way. */
  function Noted(s: State, bridge: string, connected: bool, delayMs: nat, now: nat): State {
    if connected then s.(bridgesConnected := s.bridgesConnected[bridge := true])
    else if WasConnected(s, bridge) && s.registerId == 0 then
      InitiateRegistration(s.(bridgesConnected := s.bridgesConnected[bridge := false]), delayMs, now)
    else s
  }

  /** The "connected" notification of a bridge. */
  function BridgeConnected(s: State, bridge: string, connected: bool, delayMs: nat, now: nat): State {
    var s1 := Noted(s, bridge, connected, delayMs, now);
    Debounce(s1.(bridges := s1.bridges[bridge := StateOf(s1.bridges, bridge).(connected := connected)]), now)
  }

  /** The "connection_status" notification of a bridge. */
  function BridgeStatus(s: State, bridge: string, msg: string, now: nat): State {
    Debounce(s.(bridges := s.bridges[bridge := StateOf(s.bridges, bridge).(msg := msg)]), now)
  }

  // ---------- performing tasks ----------

  function RunCallback(s: State, cb: Callback, inp: Input): State {
    match cb
    case UnsetKeepAlive => s.(alive := false, resetId := 0)
    case Heartbeat => RunHeartbeat(s, inp.now)
    case PerSecond => RunTick(s, inp.now)
    case Register => RunRegister(s, inp.accepted)
    case WriteBridges => RunWriteBridges(s, inp.accepted)
    case DelayedDeny => s
  }

  /** The first n callbacks of a batch. */
  function RunBatch(s: State, callbacks: seq<Callback>, inp: nat -> Input, n: nat): State
    requires n <= |callbacks|
    decreases n
  {
    if n == 0 then s else RunCallback(RunBatch(s, callbacks, inp, n - 1), callbacks[n - 1], inp(n - 1))
  }

  function Perform(s: State, now: nat, inp: nat -> Input): State {
    var b := Collect(s.tasks, now);
    RunBatch(s.(tasks := b.rest), b.callbacks, inp, |b.callbacks|)
  }

  datatype Event =
    | KeepAlive(suppress: bool, completes: bool, now: nat)
    | PerformTasks(now: nat, inp: nat -> Input)
    | TryLogin(password: string, right: bool, delayMs: nat, now: nat)
    | Connected(bridge: string, connected: bool, delayMs: nat, now: nat)
    | Status(bridge: string, msg: string, now: nat)
    | PortalMode(mode: nat, now: nat)
    | Registered(serial: nat, now: nat)

  /** The bridge notifications act only on the two bridges. */
  function Next(s: State, e: Event): State {
    match e
    case KeepAlive(suppress, completes, now) => HandleKeepAlive(s, suppress, completes, now)
    case PerformTasks(now, inp) => Perform(s, now, inp)
    case TryLogin(password, right, delayMs, now) => Login(s, password, right, delayMs, now)
    case Connected(bridge, connected, delayMs, now) =>
      if bridge == BRIDGE_DBUS || bridge == BRIDGE_RPC then BridgeConnected(s, bridge, connected, delayMs, now) else s
    case Status(bridge, msg, now) =>
      if bridge == BRIDGE_DBUS || bridge == BRIDGE_RPC then BridgeStatus(s, bridge, msg, now) else s
    case PortalMode(mode, now) => Debounce(s.(mode := mode), now)
    case Registered(serial, _) => RegisterReply(s, serial)
  }

  /** Plugin start: a registration without delay, then the tick. */
  function Start(online: bool, now: nat): State {
    StartTick(InitiateRegistration(Initial(online), 0, now), now)
  }

  function Run(s: State, es: seq<Event>): State {
    if es == [] then s else Next(Run(s, es[..|es| - 1]), es[|es| - 1])
  }
}

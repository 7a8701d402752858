/**
 The timer machines of State as an object that updates its fields in place, over the task
 queue object. Every method is tied to the function of Timers it implements, so what is proved
 of runs of those functions holds of calls on this object.
 */
module TimerState {
  import opened Tasks
  import opened Timers

  class Machines {
    const tasks: QueuedTasks<Callback>
    const online: bool
    var alive: bool
    var resetId: nat
    var heartbeatId: nat
    var periodId: nat
    var registerId: nat
    var registerReplies: set<nat>
    var nextSerial: nat
    var mode: nat
    var bridgesConnected: map<string, bool>
    var bridges: map<string, BridgeState>
    var lastWritten: map<string, BridgeState>
    var writeId: nat
    var written: seq<Written>
    var keepAliveTokens: int
    var shortTokens: int
    var longTokens: int
    var longResetAt: nat
    var history: set<string>
    var heartbeats: nat
    var republishes: nat
    var evaluated: nat
    var ticks: nat

    function View(): Timers.State
      reads this, tasks
    {
      State(tasks.View(), alive, resetId, heartbeatId, periodId, online, registerId, registerReplies, nextSerial, mode,
            bridgesConnected, bridges, lastWritten, writeId, written, keepAliveTokens, shortTokens, longTokens,
            longResetAt, history, heartbeats, republishes, evaluated, ticks)
    }

    constructor (online: bool, now: nat)
      ensures View() == Start(online, now) && fresh(tasks)
    {
      var q := new QueuedTasks<Callback>();
      this.tasks, this.online := q, online;
      alive, resetId, heartbeatId, periodId, registerId, registerReplies, nextSerial := false, 0, 0, 0, 0, {}, 1;
      mode, bridgesConnected, lastWritten, writeId, written := 0, map[], map[], 0, [];
      bridges := map[BRIDGE_DBUS := BridgeState(false, "pending"), BRIDGE_RPC := BridgeState(false, "pending")];
      keepAliveTokens, shortTokens, longTokens := KEEPALIVE_TOKENS, SHORT_TOKENS, LONG_TOKENS;
      longResetAt, history, heartbeats, republishes, evaluated, ticks := 0, {}, 0, 0, 0, 0;
      new;
      InitiateRegistration(0, now);
      StartTick(now);
    }

    // ---------- keep-alive ----------

    method UnsetKeepAlive()
      modifies this
      ensures View() == old(View()).(alive := false, resetId := 0)
    {
      alive := false;
      resetId := 0;
    }

    method Heartbeat(now: nat)
      modifies this, tasks
      ensures View() == RunHeartbeat(old(View()), now)
    {
      if !alive {
        heartbeatId := 0;
        return;
      }
      heartbeats := heartbeats + 1;
      heartbeatId := tasks.Add(Callback.Heartbeat, HEARTBEAT_MS, now);
    }

    method MarkAlive(now: nat)
      modifies this, tasks
      ensures View() == Timers.MarkAlive(old(View()), now)
    {
      alive := true;
      tasks.Erase(resetId);
      resetId := tasks.Add(Callback.UnsetKeepAlive, RESET_MS, now);
    }

    /** Returns whether it got through; publishing everything may throw. */
    method HandleKeepAlive(suppress: bool, completes: bool, now: nat) returns (through: bool)
      modifies this, tasks
      ensures View() == Timers.HandleKeepAlive(old(View()), suppress, completes, now)
      ensures through <==> completes || suppress || old(keepAliveTokens) <= 0
    {
      if !suppress {
        keepAliveTokens := keepAliveTokens - 1;
        if keepAliveTokens + 1 > 0 {
          republishes := republishes + 1;
          if !completes {
            return false;
          }
        }
      }
      MarkAlive(now);
      if heartbeatId == 0 {
        Heartbeat(now);
      }
      through := true;
    }

    // ---------- the one-second tick and the login limits ----------

    method StartTick(now: nat)
      modifies this, tasks
      ensures View() == Timers.StartTick(old(View()), now)
    {
      if periodId != 0 {
        return;
      }
      periodId := tasks.Add(PerSecond, TICK_MS, now);
    }

    method PerSecondAction(now: nat)
      modifies this, tasks
      ensures View() == RunTick(old(View()), now)
    {
      periodId := 0;
      StartTick(now);
      RefillTokens();
      ResetLongTerm(now);
    }

    method RefillTokens()
      modifies this
      ensures View() == old(View()).(ticks := old(ticks) + 1, keepAliveTokens := KEEPALIVE_TOKENS, shortTokens := RefilledShort(old(shortTokens)))
    {
      ticks := ticks + 1;
      keepAliveTokens := KEEPALIVE_TOKENS;
      shortTokens := RefilledShort(shortTokens);
    }

    method ResetLongTerm(now: nat)
      modifies this
      ensures View() == ResetDaily(old(View()), now)
    {
      if longResetAt + DAY < now {
        longTokens := LONG_TOKENS;
        longResetAt := now;
        history := {};
      }
    }

    method CountAttempt(password: string)
      modifies this
      ensures View() == Counted(old(View()), password)
    {
      evaluated := evaluated + 1;
      shortTokens := Decrement(shortTokens);
      longTokens := Decrement(longTokens);
      if |history| < LONG_TOKENS {
        history := history + {password};
      }
    }

    /** Whether the login is let in; otherwise the denial is scheduled. */
    method LoginCheck(password: string, right: bool, delayMs: nat, now: nat) returns (letIn: bool)
      modifies this, tasks
      ensures View() == Login(old(View()), password, right, delayMs, now)
      ensures letIn <==> right && old(shortTokens) > 0 && old(longTokens) > 0
    {
      if shortTokens > 0 && longTokens > 0 {
        if right {
          return true;
        }
        if password !in history {
          CountAttempt(password);
        }
      }
      var id := tasks.Add(DelayedDeny, delayMs, now);
      letIn := false;
    }

    // ---------- registration ----------

    method InitiateRegistration(delayMs: nat, now: nat)
      modifies this, tasks
      ensures View() == Timers.InitiateRegistration(old(View()), delayMs, now)
    {
      if !online || registerId > 0 {
        return;
      }
      registerId := tasks.Add(Register, delayMs, now);
    }

    method SendRegistration(accepted: bool)
      modifies this
      ensures View() == RunRegister(old(View()), accepted)
    {
      if !accepted {
        return;
      }
      registerReplies := registerReplies + {nextSerial};
      nextSerial := nextSerial + 1;
    }

    method HandleRegisterReply(serial: nat)
      modifies this
      ensures View() == RegisterReply(old(View()), serial)
    {
      if serial in registerReplies {
        registerReplies := registerReplies - {serial};
        registerId := 0;
      }
    }

    // ---------- bridge states ----------

    method WriteAllBridgeStatesDebounced(now: nat)
      modifies this, tasks
      ensures View() == Debounce(old(View()), now)
    {
      if writeId != 0 {
        tasks.Erase(writeId);
        writeId := 0;
      }
      if lastWritten == bridges {
        return;
      }
      writeId := tasks.Add(WriteBridges, WRITE_MS, now);
    }

    method WriteAllBridgeStates(accepted: bool)
      modifies this
      ensures View() == RunWriteBridges(old(View()), accepted)
    {
      writeId := 0;
      if !accepted {
        return;
      }
      written := written + [Report(BRIDGE_DBUS, StateOf(bridges, BRIDGE_DBUS), mode, MODE_READONLY),
                            Report(BRIDGE_RPC, StateOf(bridges, BRIDGE_RPC), mode, MODE_FULL)];
      lastWritten := bridges;
    }

    method NoteConnected(bridge: string, connected: bool, delayMs: nat, now: nat)
      modifies this, tasks
      ensures View() == Noted(old(View()), bridge, connected, delayMs, now)
    {
      if connected {
        bridgesConnected := bridgesConnected[bridge := true];
      } else if bridge in bridgesConnected && bridgesConnected[bridge] && registerId == 0 {
        bridgesConnected := bridgesConnected[bridge := false];
        InitiateRegistration(delayMs, now);
      }
    }

    method HandleConnected(bridge: string, connected: bool, delayMs: nat, now: nat)
      modifies this, tasks
      ensures View() == Next(old(View()), Connected(bridge, connected, delayMs, now))
    {
      if bridge != BRIDGE_DBUS && bridge != BRIDGE_RPC {
        return;
      }
      NoteConnected(bridge, connected, delayMs, now);
      bridges := bridges[bridge := StateOf(bridges, bridge).(connected := connected)];
      WriteAllBridgeStatesDebounced(now);
    }

    method HandleStatus(bridge: string, msg: string, now: nat)
      modifies this, tasks
      ensures View() == Next(old(View()), Status(bridge, msg, now))
    {
      if bridge == BRIDGE_DBUS || bridge == BRIDGE_RPC {
        bridges := bridges[bridge := StateOf(bridges, bridge).(msg := msg)];
        WriteAllBridgeStatesDebounced(now);
      }
    }

    method SetPortalMode(newMode: nat, now: nat)
      modifies this, tasks
      ensures View() == Next(old(View()), PortalMode(newMode, now))
    {
      mode := newMode;
      WriteAllBridgeStatesDebounced(now);
    }

    // ---------- performing tasks ----------

    method Call(cb: Callback, inp: Input)
      modifies this, tasks
      ensures View() == RunCallback(old(View()), cb, inp)
    {
      match cb
      case UnsetKeepAlive => UnsetKeepAlive();
      case Heartbeat => Heartbeat(inp.now);
      case PerSecond => PerSecondAction(inp.now);
      case Register => SendRegistration(inp.accepted);
      case WriteBridges => WriteAllBridgeStates(inp.accepted);
      case DelayedDeny =>
    }

    /** Runs the due tasks; the callbacks put new tasks into the queue they were taken from. */
    method PerformAll(now: nat, inp: nat -> Input)
      modifies this, tasks
      ensures View() == Perform(old(View()), now, inp)
    {
      ghost var before := old(View());
      var ran, callbacks := tasks.TakeDue(now);
      ghost var taken := before.(tasks := tasks.View());
      assert taken == before.(tasks := Collect(before.tasks, now).rest);
      for i := 0 to |callbacks|
        invariant View() == RunBatch(taken, callbacks, inp, i)
      {
        Call(callbacks[i], inp(i));
      }
    }
  }
}

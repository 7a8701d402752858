/**
 What each of the timer machines leaves alone.
 */
module TimerFrames {
  import opened Tasks
  import opened Timers

  predicate SameLogins(s: State, a: State) {
    a.longTokens == s.longTokens && a.shortTokens == s.shortTokens && a.history == s.history && a.evaluated == s.evaluated
  }

  predicate SameTick(s: State, a: State) {
    a.periodId == s.periodId && a.ticks == s.ticks
  }

  predicate SameRepublishing(s: State, a: State) {
    a.keepAliveTokens == s.keepAliveTokens && a.republishes == s.republishes
  }

  predicate SameRegistering(s: State, a: State) {
    a.registerId == s.registerId && a.registerReplies == s.registerReplies
  }

  predicate SameBridges(s: State, a: State) {
    a.writeId == s.writeId && a.lastWritten == s.lastWritten && a.bridges == s.bridges
  }

  predicate SameLimits(s: State, a: State) {
    SameLogins(s, a) && SameTick(s, a) && SameRepublishing(s, a)
  }

  // ---------- keep-alive ----------

  lemma MarkAliveShape(s: State, now: nat)
    ensures var a := MarkAlive(s, now);
      && SameLimits(s, a) && SameRegistering(s, a) && SameBridges(s, a)
      && a.tasks == AddTask(EraseTask(s.tasks, s.resetId), UnsetKeepAlive, RESET_MS, now)
  {}

  lemma RunHeartbeatShape(s: State, now: nat)
    ensures var a := RunHeartbeat(s, now);
      && SameLimits(s, a) && SameRegistering(s, a) && SameBridges(s, a)
      && a.tasks == (if s.alive then AddTask(s.tasks, Heartbeat, HEARTBEAT_MS, now) else s.tasks)
  {}

  lemma KeepAliveEffect(s: State, suppress: bool, completes: bool, now: nat)
    ensures var a, t := HandleKeepAlive(s, suppress, completes, now), AddTask(EraseTask(s.tasks, s.resetId), UnsetKeepAlive, RESET_MS, now);
      && SameLogins(s, a) && SameTick(s, a) && SameRegistering(s, a) && SameBridges(s, a)
      && a.keepAliveTokens == (if suppress then s.keepAliveTokens else s.keepAliveTokens - 1)
      && a.republishes == (if !suppress && s.keepAliveTokens > 0 then s.republishes + 1 else s.republishes)
      && (a.tasks == s.tasks || a.tasks == t || a.tasks == AddTask(t, Heartbeat, HEARTBEAT_MS, now))
  {
    var publish := !suppress && s.keepAliveTokens > 0;
    var s1 := if suppress then s else s.(keepAliveTokens := s.keepAliveTokens - 1);
    var s2 := if publish then s1.(republishes := s1.republishes + 1) else s1;
    MarkAliveShape(s2, now);
    RunHeartbeatShape(MarkAlive(s2, now), now);
  }

  // ---------- logins, registration, bridges ----------

  lemma LoginFrame(s: State, password: string, right: bool, delayMs: nat, now: nat)
    ensures var a := Login(s, password, right, delayMs, now);
      SameTick(s, a) && SameRepublishing(s, a) && SameRegistering(s, a) && SameBridges(s, a)
  {}

  lemma InitiateFrame(s: State, delayMs: nat, now: nat)
    ensures var a := InitiateRegistration(s, delayMs, now);
      SameLimits(s, a) && SameBridges(s, a) && a.registerReplies == s.registerReplies
  {}

  lemma DebounceFrame(s: State, now: nat)
    ensures SameLimits(s, Debounce(s, now))
  {}

  lemma ConnectedFrame(s: State, bridge: string, connected: bool, delayMs: nat, now: nat)
    ensures SameLimits(s, BridgeConnected(s, bridge, connected, delayMs, now))
  {
    var s0 := s.(bridgesConnected := s.bridgesConnected[bridge := false]);
    InitiateFrame(s0, delayMs, now);
    var s1 := Noted(s, bridge, connected, delayMs, now);
    DebounceFrame(s1.(bridges := s1.bridges[bridge := StateOf(s1.bridges, bridge).(connected := connected)]), now);
  }

  /** Registrations and bridges do not touch the limits. */
  lemma OthersKeepLimits(s: State, e: Event)
    requires !e.KeepAlive? && !e.PerformTasks? && !e.TryLogin?
    ensures SameLimits(s, Next(s, e))
  {
    match e
    case Connected(bridge, connected, delayMs, now) => ConnectedFrame(s, bridge, connected, delayMs, now);
    case Status(bridge, msg, now) =>
      DebounceFrame(s.(bridges := s.bridges[bridge := StateOf(s.bridges, bridge).(msg := msg)]), now);
    case PortalMode(mode, now) => DebounceFrame(s.(mode := mode), now);
    case Registered(serial, now) =>
  }
}

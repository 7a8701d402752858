/**
 The token counters: login attempts with an unseen wrong password, and full republishes on
 keep-alive (src/flashmq-dbus-plugin.cpp, src/state.cpp).
 */
module RateLimit {
  import opened Durations
  import opened Tasks
  import opened Timers
  import opened TimerBatches
  import opened TimerSlots
  import opened TimerFrames
  import opened KeepAlive

  /** What is conserved: every long-term token spent is a password in the history. */
  predicate TokensOk(s: State) {
    && s.longTokens + |s.history| == LONG_TOKENS && 0 <= s.longTokens
    && 0 <= s.shortTokens <= SHORT_TOKENS
    && s.keepAliveTokens <= KEEPALIVE_TOKENS
  }

  function Positive(n: int): nat {
    if n > 0 then n else 0
  }

  /** From s to a: new evaluations and republishes are paid for by tokens, which only ticks hand out. */
  predicate Paid(s: State, a: State) {
    && s.ticks <= a.ticks
    && a.evaluated + a.shortTokens <= s.evaluated + s.shortTokens + (a.ticks - s.ticks)
    && a.republishes + Positive(a.keepAliveTokens) <= s.republishes + Positive(s.keepAliveTokens) + KEEPALIVE_TOKENS * (a.ticks - s.ticks)
  }

  lemma CallbackPays(s: State, cb: Callback, inp: Input)
    requires TokensOk(s)
    ensures TokensOk(RunCallback(s, cb, inp)) && Paid(s, RunCallback(s, cb, inp))
  {}

  lemma {:induction false} BatchPays(s: State, callbacks: seq<Callback>, inp: nat -> Input, n: nat)
    requires n <= |callbacks| && TokensOk(s)
    ensures TokensOk(RunBatch(s, callbacks, inp, n)) && Paid(s, RunBatch(s, callbacks, inp, n))
    decreases n
  {
    if n > 0 {
      BatchPays(s, callbacks, inp, n - 1);
      CallbackPays(RunBatch(s, callbacks, inp, n - 1), callbacks[n - 1], inp(n - 1));
    }
  }

  lemma KeepAlivePays(s: State, suppress: bool, completes: bool, now: nat)
    requires TokensOk(s)
    ensures TokensOk(HandleKeepAlive(s, suppress, completes, now)) && Paid(s, HandleKeepAlive(s, suppress, completes, now))
  {
    KeepAliveEffect(s, suppress, completes, now);
  }

  /** The size guard on the history never blocks: there is room whenever an attempt is evaluated. */
  lemma LoginPays(s: State, password: string, right: bool, delayMs: nat, now: nat)
    requires TokensOk(s)
    ensures var a := Login(s, password, right, delayMs, now);
      && TokensOk(a) && Paid(s, a)
      && (a.evaluated != s.evaluated ==> password !in s.history && a.history == s.history + {password} && !right)
      && (right || password in s.history ==> a.longTokens == s.longTokens && a.shortTokens == s.shortTokens)
  {}

  lemma NextPays(s: State, e: Event)
    requires TokensOk(s)
    ensures TokensOk(Next(s, e)) && Paid(s, Next(s, e))
  {
    match e
    case KeepAlive(suppress, completes, now) => KeepAlivePays(s, suppress, completes, now);
    case PerformTasks(now, inp) =>
      var b := Collect(s.tasks, now);
      BatchPays(s.(tasks := b.rest), b.callbacks, inp, |b.callbacks|);
    case TryLogin(password, right, delayMs, now) => LoginPays(s, password, right, delayMs, now);
    case _ => OthersKeepLimits(s, e);
  }

  /**
   Main result: in every run segment, tokens plus history stay at 150, and with k ticks in it at
   most 20 + k unseen wrong passwords are evaluated and at most 3 (k + 1) full republishes happen.
   */
  lemma {:induction false} SegmentIsLimited(s: State, es: seq<Event>)
    requires TokensOk(s)
    ensures var a := Run(s, es);
      && TokensOk(a) && Paid(s, a)
      && a.evaluated - s.evaluated <= 20 + (a.ticks - s.ticks)
      && a.republishes - s.republishes <= 3 * (a.ticks - s.ticks + 1)
    decreases |es|
  {
    if es != [] {
      SegmentIsLimited(s, es[..|es| - 1]);
      NextPays(Run(s, es[..|es| - 1]), es[|es| - 1]);
    }
  }

  /** In every run from plugin start long-term tokens and history add up to 150, and the others stay in range. */
  lemma EveryRunConservesTokens(online: bool, now: nat, es: seq<Event>)
    ensures var a := Run(Start(online, now), es);
      && a.longTokens + |a.history| == 150 && 0 <= a.longTokens && 0 <= a.shortTokens <= 20 && a.keepAliveTokens <= 3
  {
    SegmentIsLimited(Start(online, now), es);
  }

  // ---------- ticks and the clock ----------

  const TICK: nat := TICK_MS * MILLISECOND

  /** How many ticks can run by time `until`, with the next due at `due` and the clock at `now`. */
  function TicksLeft(due: nat, now: nat, until: nat): nat {
    var from := if due < now then now else due;
    if from > until then 0 else 1 + (until - from) / TICK
  }

  lemma TicksLeftShrinks(due: nat, now: nat, later: nat, until: nat)
    requires now <= later
    ensures TicksLeft(due, later, until) <= TicksLeft(due, now, until)
  {}

  lemma TicksLeftAfterTick(due: nat, now: nat, at: nat, until: nat)
    requires due <= at && now <= at <= until
    ensures 1 + TicksLeft(at + TICK, at, until) <= TicksLeft(due, now, until)
  {}

  function TickBudget(s: State, now: nat, until: nat): nat {
    TicksLeft(DueOf(s.tasks.queue, s.periodId), now, until)
  }

  predicate Ticking(s: State, last: nat, f: State, at: nat, until: nat) {
    f.ticks + TickBudget(f, at, until) <= s.ticks + TickBudget(s, last, until)
  }

  lemma PeriodQueued(s: State)
    requires Slots(s)
    ensures Queued(s.tasks.queue, s.periodId) && s.periodId in s.tasks.live && s.tasks.live[s.periodId] == PerSecond
    ensures IdsOf(s.tasks.live, PerSecond) == {s.periodId}
  {
    assert SlotOf(PerSecond, IdsOf(s.tasks.live, PerSecond), IdsIn(s));
    assert s.periodId in IdsOf(s.tasks.live, PerSecond);
  }

  /** Whatever leaves the tick's task alone leaves its budget alone. */
  lemma TickStays(s: State, a: State, now: nat, later: nat, until: nat)
    requires Slots(s) && Slots(a) && now <= later && a.periodId == s.periodId && a.ticks == s.ticks
    requires KeepsTasks(s.tasks.queue, a.tasks.queue, s.periodId)
    ensures Ticking(s, now, a, later, until)
  {
    PeriodQueued(s);
    DueStays(s.tasks.queue, a.tasks.queue, s.periodId);
    TicksLeftShrinks(DueOf(s.tasks.queue, s.periodId), now, later, until);
  }

  lemma CallbackTicks(s: State, cb: Callback, inp: Input)
    ensures RunCallback(s, cb, inp).ticks == s.ticks + (if cb.PerSecond? then 1 else 0)
    ensures !cb.PerSecond? ==> RunCallback(s, cb, inp).periodId == s.periodId
  {}

  lemma FireTicks(s: State, inp: Input, last: nat, until: nat)
    requires Slots(s) && CanFire(s, inp.now) && s.tasks.nextId + 1 < TWO_TO_32 && last <= inp.now <= until
    ensures Ticking(s, last, Fire(s, inp), inp.now, until)
  {
    var f, head := Fire(s, inp), s.tasks.queue[0];
    FireKeepsSlots(s, inp);
    CallbackTicks(s.(tasks := Pop(s.tasks)), s.tasks.live[head.id], inp);
    PeriodQueued(s);
    if s.tasks.live[head.id].PerSecond? {
      assert head.id in IdsOf(s.tasks.live, PerSecond);
      FireShape(s, inp);
      DueOfMember(s.tasks.queue, head);
      var tick := Task(inp.now + TICK, s.tasks.nextId);
      InsertMembers(s.tasks.queue[1..], tick);
      DueOfMember(f.tasks.queue, tick);
      TicksLeftAfterTick(head.when, last, inp.now, until);
    } else {
      FireOtherKeepsTasks(s, inp, s.periodId);
      TickStays(s, f, last, inp.now, until);
    }
  }

  lemma TickStep(s: State, last: nat, f: State, at: nat, inp: Input, until: nat)
    requires Ticking(s, last, f, at, until) && Slots(f) && f.tasks.nextId + 1 < TWO_TO_32 && at <= inp.now <= until
    ensures Ticking(s, last, MaybeFire(f, inp), inp.now, until)
  {
    if CanFire(f, inp.now) {
      FireTicks(f, inp, at, until);
    } else {
      TicksLeftShrinks(DueOf(f.tasks.queue, f.periodId), at, inp.now, until);
    }
  }

  lemma {:induction false} FireNTicks(s: State, now: nat, inp: nat -> Input, n: nat, last: nat, until: nat)
    requires Slots(s) && InputsOk(now, inp) && last <= now && s.tasks.nextId + n < TWO_TO_32
    requires LastReading(now, inp, n) <= until
    ensures Ticking(s, last, FireN(s, inp, n), LastReading(now, inp, n), until)
    decreases n
  {
    if n == 0 {
      TicksLeftShrinks(DueOf(s.tasks.queue, s.periodId), last, now, until);
    } else {
      ReadingsGrow(now, inp, n - 1);
      FireNTicks(s, now, inp, n - 1, last, until);
      OneMoreTicks(s, now, inp, n - 1, last, until);
    }
  }

  lemma OneMoreTicks(s: State, now: nat, inp: nat -> Input, n: nat, last: nat, until: nat)
    requires Slots(s) && InputsOk(now, inp) && s.tasks.nextId + n + 1 < TWO_TO_32 && inp(n).now <= until
    requires Ticking(s, last, FireN(s, inp, n), LastReading(now, inp, n), until)
    ensures Ticking(s, last, FireN(s, inp, n + 1), LastReading(now, inp, n + 1), until)
  {
    FireNKeepsSlots(s, inp, n);
    ReadingsGrow(now, inp, n);
    TickStep(s, last, FireN(s, inp, n), LastReading(now, inp, n), inp(n), until);
  }

  lemma PerformTicks(s: State, now: nat, inp: nat -> Input, last: nat, until: nat)
    requires Slots(s) && last <= now && Fits(s, PerformTasks(now, inp)) && LastOf(s, PerformTasks(now, inp)) <= until
    ensures Ticking(s, last, Perform(s, now, inp), LastOf(s, PerformTasks(now, inp)), until)
  {
    PerformIsFiring(s, now, inp);
    DroppedIsValid(s, now);
    DroppedKeepsSlots(s, now);
    DroppedLive(s, now);
    PeriodQueued(s);
    DueStays(Dropped(s, now).tasks.queue, s.tasks.queue, s.periodId);
    FireNTicks(Dropped(s, now), now, inp, |Collect(s.tasks, now).ran|, last, until);
  }

  lemma KeepAliveKeepsTick(s: State, suppress: bool, completes: bool, now: nat)
    ensures var a := HandleKeepAlive(s, suppress, completes, now);
      KeepsTasks(s.tasks.queue, a.tasks.queue, s.periodId) && a.periodId == s.periodId && a.ticks == s.ticks
  {
    KeepAliveEffect(s, suppress, completes, now);
    var t := Task(now + RESET_MS * MILLISECOND, s.tasks.nextId);
    InsertKeeps(s.tasks.queue, s.tasks.queue, t, s.periodId);
    InsertKeeps(s.tasks.queue, Insert(s.tasks.queue, t), Task(now + BEAT, (s.tasks.nextId + 1) % TWO_TO_32), s.periodId);
  }

  lemma OthersKeepTick(s: State, e: Event)
    requires !e.KeepAlive? && !e.PerformTasks?
    ensures SameTick(s, Next(s, e))
  {
    match e
    case TryLogin(password, right, delayMs, now) => LoginFrame(s, password, right, delayMs, now);
    case _ => OthersKeepLimits(s, e);
  }

  lemma NextTicks(s: State, e: Event, last: nat, until: nat)
    requires Slots(s) && Fits(s, e) && last <= e.now && LastOf(s, e) <= until
    ensures Ticking(s, last, Next(s, e), LastOf(s, e), until)
  {
    NextKeepsSlots(s, e);
    match e
    case PerformTasks(now, inp) => PerformTicks(s, now, inp, last, until);
    case KeepAlive(suppress, completes, now) =>
      KeepAliveKeepsTick(s, suppress, completes, now);
      TickStays(s, Next(s, e), last, now, until);
    case _ =>
      OtherEventsKeepTasks(s, e, s.periodId);
      OthersKeepTick(s, e);
      TickStays(s, Next(s, e), last, e.now, until);
  }

  /** No reading of the run is after `until`. */
  ghost predicate EndsBy(s: State, es: seq<Event>, until: nat) {
    es != [] ==> EndsBy(s, es[..|es| - 1], until) && LastOf(Run(s, es[..|es| - 1]), es[|es| - 1]) <= until
  }

  lemma {:induction false} TicksAreSpaced(s: State, es: seq<Event>, start: nat, until: nat)
    requires Slots(s) && SteadyRun(s, es, start) && EndsBy(s, es, until)
    ensures Slots(Run(s, es)) && Ticking(s, start, Run(s, es), LastOver(s, es, start), until)
    decreases |es|
  {
    if es != [] {
      var init, e := es[..|es| - 1], es[|es| - 1];
      TicksAreSpaced(s, init, start, until);
      NextKeepsSlots(Run(s, init), e);
      NextTicks(Run(s, init), e, LastOver(s, init, start), until);
    }
  }

  /**
   Main result, by the clock: in a stretch of w whole seconds at most 21 + w unseen wrong
   passwords are evaluated, and at most 3 (w + 2) full republishes happen.
   */
  lemma LimitedByTheClock(s: State, es: seq<Event>, start: nat, until: nat)
    requires Slots(s) && TokensOk(s) && SteadyRun(s, es, start) && EndsBy(s, es, until) && start <= until
    ensures var w, a := (until - start) / 1_000_000_000, Run(s, es);
      && a.evaluated - s.evaluated <= 21 + w
      && a.republishes - s.republishes <= 3 * (w + 2)
  {
    SegmentIsLimited(s, es);
    TicksAreSpaced(s, es, start, until);
    TicksLeftAtMost(DueOf(s.tasks.queue, s.periodId), start, until);
    TicksBounded(Run(s, es).ticks - s.ticks, (until - start) / TICK);
  }

  lemma TicksLeftAtMost(due: nat, start: nat, until: nat)
    requires start <= until
    ensures TicksLeft(due, start, until) <= 1 + (until - start) / TICK
  {}

  lemma TicksBounded(k: int, w: nat)
    requires k <= 1 + w
    ensures 3 * (k + 1) <= 3 * (w + 2)
  {}

  // ---------- exactly how many full republishes ----------

  /** The keep-alives that ask for a full republish. */
  function Asked(es: seq<Event>): nat {
    if es == [] then 0 else Asked(es[..|es| - 1]) + (if AsksRepublish(es[|es| - 1]) then 1 else 0)
  }

  predicate AsksRepublish(e: Event) {
    e.KeepAlive? && !e.suppress
  }

  /** How many of them are granted while no tick hands out tokens. */
  function Granted(asked: nat, tokens: int): nat {
    if asked < Positive(tokens) then asked else Positive(tokens)
  }

  /** From s to a nothing was republished, and the tokens are as they were, or refilled by a tick. */
  predicate OnlyRefilled(s: State, a: State) {
    && a.republishes == s.republishes && s.ticks <= a.ticks
    && a.keepAliveTokens == if a.ticks == s.ticks then s.keepAliveTokens else KEEPALIVE_TOKENS
  }

  lemma CallbackRefills(s: State, cb: Callback, inp: Input)
    ensures OnlyRefilled(s, RunCallback(s, cb, inp))
    ensures cb.PerSecond? ==> RunCallback(s, cb, inp).ticks > s.ticks
  {}

  lemma {:induction false} BatchRefills(s: State, callbacks: seq<Callback>, inp: nat -> Input, n: nat)
    requires n <= |callbacks|
    ensures OnlyRefilled(s, RunBatch(s, callbacks, inp, n))
    decreases n
  {
    if n > 0 {
      BatchRefills(s, callbacks, inp, n - 1);
      CallbackRefills(RunBatch(s, callbacks, inp, n - 1), callbacks[n - 1], inp(n - 1));
    }
  }

  /** What one event does to the republishes and their tokens. */
  lemma NextRepublishes(s: State, e: Event)
    ensures var a := Next(s, e);
      if AsksRepublish(e) then
        && a.ticks == s.ticks && a.keepAliveTokens == s.keepAliveTokens - 1
        && a.republishes == s.republishes + Granted(1, s.keepAliveTokens)
      else OnlyRefilled(s, a)
  {
    match e
    case KeepAlive(suppress, completes, now) => KeepAliveEffect(s, suppress, completes, now);
    case PerformTasks(now, inp) =>
      var b := Collect(s.tasks, now);
      BatchRefills(s.(tasks := b.rest), b.callbacks, inp, |b.callbacks|);
    case TryLogin(password, right, delayMs, now) => LoginFrame(s, password, right, delayMs, now);
    case _ => OthersKeepLimits(s, e);
  }

  lemma {:induction false} TicksGrow(s: State, es: seq<Event>)
    ensures s.ticks <= Run(s, es).ticks
    decreases |es|
  {
    if es != [] {
      TicksGrow(s, es[..|es| - 1]);
      NextRepublishes(Run(s, es[..|es| - 1]), es[|es| - 1]);
    }
  }

  /** Main result: without a tick, as many full republishes happen as were asked for and had tokens, exactly. */
  lemma {:induction false} BetweenTicks(s: State, es: seq<Event>)
    requires Run(s, es).ticks == s.ticks
    ensures var a := Run(s, es);
      && a.republishes == s.republishes + Granted(Asked(es), s.keepAliveTokens)
      && a.keepAliveTokens == s.keepAliveTokens - Asked(es)
    decreases |es|
  {
    if es != [] {
      var init := es[..|es| - 1];
      TicksGrow(s, init);
      NextRepublishes(Run(s, init), es[|es| - 1]);
      BetweenTicks(s, init);
    }
  }

  lemma {:induction false} RunConcat(s: State, es: seq<Event>, more: seq<Event>)
    ensures Run(s, es + more) == Run(Run(s, es), more)
    decreases |more|
  {
    if more == [] {
      assert es + more == es;
    } else {
      RunConcat(s, es, more[..|more| - 1]);
      assert (es + more)[..|es + more| - 1] == es + more[..|more| - 1];
    }
  }

  lemma RunOneBetween(s: State, before: seq<Event>, e: Event, after: seq<Event>)
    ensures Run(s, before + [e] + after) == Run(Next(Run(s, before), e), after)
  {
    RunConcat(s, before + [e], after);
    assert (before + [e])[..|before|] == before;
  }

  /** The event runs the tick. */
  predicate Ticks(s: State, e: Event) {
    Next(s, e).ticks > s.ticks
  }

  /** From s to a, exactly those asked for and granted are republished. */
  predicate RepublishedExactly(s: State, asked: nat, a: State) {
    && a.republishes == s.republishes + Granted(asked, s.keepAliveTokens)
    && a.keepAliveTokens == s.keepAliveTokens - asked
  }

  lemma TickBetween(s: State, asked: nat, b: State, c: State, more: nat, d: State)
    requires RepublishedExactly(s, asked, b) && OnlyRefilled(b, c) && c.ticks > b.ticks && RepublishedExactly(c, more, d)
    ensures d.republishes == s.republishes + Granted(asked, s.keepAliveTokens) + Granted(more, KEEPALIVE_TOKENS)
  {}

  lemma RunBetween(s: State, es: seq<Event>, a: State)
    requires a == Run(s, es) && a.ticks == s.ticks
    ensures RepublishedExactly(s, Asked(es), a)
  {
    BetweenTicks(s, es);
  }

  /** A run with one tick in it: from s to b without one, the tick to c, from c to d without one. */
  predicate OneTick(s: State, before: seq<Event>, tick: Event, after: seq<Event>, b: State, c: State, d: State) {
    && b == Run(s, before) && b.ticks == s.ticks
    && c == Next(b, tick) && c.ticks > b.ticks
    && d == Run(c, after) && d.ticks == c.ticks
  }

  lemma OneTickIs(s: State, before: seq<Event>, tick: Event, after: seq<Event>, b: State, c: State, d: State)
    requires OneTick(s, before, tick, after, b, c, d)
    ensures d == Run(s, before + [tick] + after)
  {
    RunOneBetween(s, before, tick, after);
  }

  /**
   Main result: around a tick there are exactly as many full republishes as were granted before
   it and after it; more than three if and only if these two together are.
   */
  lemma AroundATick(s: State, before: seq<Event>, tick: Event, after: seq<Event>, b: State, c: State, d: State)
    requires OneTick(s, before, tick, after, b, c, d)
    ensures var granted := Granted(Asked(before), s.keepAliveTokens) + Granted(Asked(after), 3);
      && d.republishes - s.republishes == granted
      && (d.republishes - s.republishes > 3 <==> granted > 3)
  {
    TickRefills(b, tick, c);
    RunBetween(s, before, b);
    RunBetween(c, after, d);
    TickBetween(s, Asked(before), b, c, Asked(after), d);
  }

  lemma TickRefills(b: State, tick: Event, c: State)
    requires c == Next(b, tick) && c.ticks > b.ticks
    ensures OnlyRefilled(b, c)
  {
    NextRepublishes(b, tick);
  }

  // ---------- six at once ----------

  /** A batch with the tick in it ticks. */
  lemma {:induction false} BatchTicks(s: State, callbacks: seq<Callback>, inp: nat -> Input, n: nat, i: nat)
    requires i < n <= |callbacks| && callbacks[i].PerSecond?
    ensures RunBatch(s, callbacks, inp, n).ticks > s.ticks
    decreases n
  {
    CallbackTicksOrNot(RunBatch(s, callbacks, inp, n - 1), callbacks[n - 1], inp(n - 1));
    if i < n - 1 {
      BatchTicks(s, callbacks, inp, n - 1, i);
    } else {
      BatchRefills(s, callbacks, inp, n - 1);
    }
  }

  lemma CallbackTicksOrNot(s: State, cb: Callback, inp: Input)
    ensures RunCallback(s, cb, inp).ticks == if cb.PerSecond? then s.ticks + 1 else s.ticks
  {}

  /** Performing tasks once the tick is due runs it. */
  lemma DueTickRuns(s: State, now: nat, inp: nat -> Input)
    requires Slots(s) && DueOf(s.tasks.queue, s.periodId) <= now
    ensures Ticks(s, PerformTasks(now, inp))
  {
    var b := Collect(s.tasks, now);
    PeriodQueued(s);
    var t := QueuedMember(s.tasks.queue, s.periodId);
    DueOfMember(s.tasks.queue, t);
    RunsExactlyTheDue(s.tasks, now);
    BatchFacts(s, now);
    var i :| 0 <= i < |b.ran| && b.ran[i] == t;
    BatchTicks(s.(tasks := b.rest), b.callbacks, inp, |b.callbacks|, i);
  }

  function Three(): seq<Event> {
    [KeepAlive(false, true, TICK)] + [KeepAlive(false, true, TICK)] + [KeepAlive(false, true, TICK)]
  }

  function AtOnce(): Event {
    PerformTasks(TICK, i => Input(TICK, true))
  }

  /** Three keep-alives just before the first tick is performed, and three just after, all at one reading of the clock. */
  function SixKeepAlives(): seq<Event> {
    Three() + [AtOnce()] + Three()
  }

  lemma KeepAliveKeepsDue(s: State, es: seq<Event>, e: Event)
    requires e == KeepAlive(false, true, TICK) && Slots(Run(s, es)) && Run(s, es).tasks.nextId + 2 < TWO_TO_32
    ensures var b, a := Run(s, es), Run(s, es + [e]);
      && a == Next(b, e) && Slots(a) && a.tasks.nextId <= b.tasks.nextId + 2
      && a.periodId == b.periodId && a.ticks == b.ticks
      && DueOf(a.tasks.queue, a.periodId) == DueOf(b.tasks.queue, b.periodId)
  {
    var b := Run(s, es);
    RunConcat(s, es, [e]);
    assert [e][..0] == [];
    KeepAliveKeepsSlots(b, false, true, TICK);
    KeepAliveKeepsTick(b, false, true, TICK);
    PeriodQueued(b);
    DueStays(b.tasks.queue, Next(b, e).tasks.queue, b.periodId);
  }

  /** The tick is due at this time, and there are ids to spare. */
  predicate TickDue(s: State, due: nat, ids: nat) {
    Slots(s) && s.ticks == 0 && DueOf(s.tasks.queue, s.periodId) == due && s.tasks.nextId + ids < TWO_TO_32
  }

  lemma KeepAliveLeavesTickDue(s: State, es: seq<Event>, due: nat, ids: nat)
    requires TickDue(Run(s, es), due, ids + 2)
    ensures TickDue(Run(s, es + [KeepAlive(false, true, TICK)]), due, ids)
  {
    KeepAliveKeepsDue(s, es, KeepAlive(false, true, TICK));
  }

  lemma ThreeKeepDue(s: State, due: nat)
    requires TickDue(s, due, 6)
    ensures TickDue(Run(s, Three()), due, 0)
  {
    var e := KeepAlive(false, true, TICK);
    KeepAliveLeavesTickDue(s, [], due, 4);
    assert [] + [e] == [e];
    KeepAliveLeavesTickDue(s, [e], due, 2);
    KeepAliveLeavesTickDue(s, [e] + [e], due, 0);
  }

  lemma FirstTickDue()
    ensures var s := Start(false, 0); DueOf(s.tasks.queue, s.periodId) == TICK && s.ticks == 0
  {
    var s := Start(false, 0);
    DueOfMember(s.tasks.queue, Task(TICK, 1));
  }

  lemma ThreeAsked()
    ensures Asked(Three()) == 3
  {
    var e := KeepAlive(false, true, TICK);
    AskedOne([], e);
    AskedOne([e], e);
    AskedOne([e] + [e], e);
    assert [] + [e] == [e];
  }

  lemma AskedOne(es: seq<Event>, e: Event)
    ensures Asked(es + [e]) == Asked(es) + (if AsksRepublish(e) then 1 else 0)
  {
    assert (es + [e])[..|es|] == es;
  }

  /** "At most three times per second" can be exceeded: in this run from plugin start, six at one reading of the clock. */
  lemma SixAroundATick()
    ensures Run(Start(false, 0), SixKeepAlives()).republishes == 6
  {
    var s := Start(false, 0);
    StartHasSlots(false, 0);
    FirstTickDue();
    ThreeKeepDue(s, TICK);
    DueTickRuns(Run(s, Three()), TICK, AtOnce().inp);
    SixInOneTick(s, Run(s, Three()), Next(Run(s, Three()), AtOnce()), Run(Next(Run(s, Three()), AtOnce()), Three()));
  }

  lemma SixInOneTick(s: State, b: State, c: State, d: State)
    requires b == Run(s, Three()) && b.ticks == s.ticks && c == Next(b, AtOnce()) && c.ticks > b.ticks && d == Run(c, Three())
    requires s.keepAliveTokens == KEEPALIVE_TOKENS
    ensures Run(s, SixKeepAlives()).republishes == s.republishes + 6
  {
    KeepAlivesDoNotTick(c, Three());
    ThreeAsked();
    OneTickIs(s, Three(), AtOnce(), Three(), b, c, d);
    AroundATick(s, Three(), AtOnce(), Three(), b, c, d);
  }

  lemma {:induction false} KeepAlivesDoNotTick(s: State, es: seq<Event>)
    requires forall i | 0 <= i < |es| :: AsksRepublish(es[i])
    ensures Run(s, es).ticks == s.ticks
    decreases |es|
  {
    if es != [] {
      KeepAlivesDoNotTick(s, es[..|es| - 1]);
      NextRepublishes(Run(s, es[..|es| - 1]), es[|es| - 1]);
    }
  }
}

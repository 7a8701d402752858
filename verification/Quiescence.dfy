/**
 After the last keep-alive the machine comes to rest: over whole runs, once tasks are performed
 60 s after it and again 3 s after that, no reset and no heartbeat is pending any more.
 */
module Quiescence {
  import opened Durations
  import opened Tasks
  import opened Timers
  import opened TimerBatches
  import opened TimerSlots
  import opened KeepAlive

  const RESET: nat := RESET_MS * MILLISECOND

  /** The reset is due by this time. */
  predicate ResetBy(s: State, until: nat) {
    s.alive ==> DueOf(s.tasks.queue, s.resetId) <= until
  }

  /** The next heartbeat is due by this time. */
  predicate BeatBy(s: State, until: nat) {
    s.heartbeatId != 0 ==> DueOf(s.tasks.queue, s.heartbeatId) <= until
  }

  lemma BeatQueued(s: State)
    requires Slots(s) && s.heartbeatId != 0
    ensures Queued(s.tasks.queue, s.heartbeatId) && s.heartbeatId in s.tasks.live && s.tasks.live[s.heartbeatId] == Heartbeat
  {
    assert SlotOf(Heartbeat, IdsOf(s.tasks.live, Heartbeat), IdsIn(s));
    assert s.heartbeatId in IdsOf(s.tasks.live, Heartbeat);
  }

  /** Where the two tasks stay, so do their times. */
  lemma TimesStay(s: State, a: State, resetBy: nat, beatBy: nat)
    requires Slots(s) && Slots(a) && ResetBy(s, resetBy) && BeatBy(s, beatBy)
    requires a.alive ==> s.alive && a.resetId == s.resetId && KeepsTasks(s.tasks.queue, a.tasks.queue, s.resetId)
    requires a.heartbeatId != 0 ==> a.heartbeatId == s.heartbeatId && KeepsTasks(s.tasks.queue, a.tasks.queue, s.heartbeatId)
    ensures ResetBy(a, resetBy) && BeatBy(a, beatBy)
  {
    if a.alive {
      SlotsQueued(s);
      DueStays(s.tasks.queue, a.tasks.queue, s.resetId);
    }
    if a.heartbeatId != 0 {
      BeatQueued(s);
      DueStays(s.tasks.queue, a.tasks.queue, s.heartbeatId);
    }
  }

  // ---------- one task fired ----------

  /** What firing any task but a living heartbeat does to the slots. */
  lemma FireSlots(s: State, inp: Input)
    requires Slots(s) && CanFire(s, inp.now)
    ensures var f, cb := Fire(s, inp), s.tasks.live[s.tasks.queue[0].id];
      && (cb.UnsetKeepAlive? ==> !f.alive && f.heartbeatId == s.heartbeatId)
      && (cb.Heartbeat? && !s.alive ==> !f.alive && f.heartbeatId == 0)
      && (!cb.UnsetKeepAlive? && !cb.Heartbeat? ==> f.alive == s.alive && f.resetId == s.resetId && f.heartbeatId == s.heartbeatId)
  {
    FireShape(s, inp);
  }

  lemma OtherIdFires(s: State, cb: Callback, id: nat)
    requires s.tasks.queue != [] && s.tasks.queue[0].id in s.tasks.live && s.tasks.live[s.tasks.queue[0].id] != cb
    requires id in s.tasks.live && s.tasks.live[id] == cb
    ensures s.tasks.queue[0].id != id
  {}

  /** A living heartbeat fires and is due again 3 s later; the reset stays. */
  lemma FireLivingBeat(s: State, inp: Input, resetBy: nat)
    requires Slots(s) && CanFire(s, inp.now) && s.tasks.nextId + 1 < TWO_TO_32 && ResetBy(s, resetBy)
    requires s.alive && s.tasks.live[s.tasks.queue[0].id] == Heartbeat
    ensures ResetBy(Fire(s, inp), resetBy) && BeatBy(Fire(s, inp), inp.now + BEAT)
  {
    var f, beat := Fire(s, inp), Task(inp.now + BEAT, s.tasks.nextId);
    FireKeepsSlots(s, inp);
    BeatShape(s, inp);
    SlotsQueued(s);
    HeadIsTheBeat(s);
    FireOtherKeepsTasks(s, inp, s.resetId);
    DueStays(s.tasks.queue, f.tasks.queue, s.resetId);
    InsertMembers(s.tasks.queue[1..], beat);
    DueOfMember(f.tasks.queue, beat);
  }

  lemma FireOtherTimes(s: State, inp: Input, resetBy: nat, beatBy: nat)
    requires Slots(s) && CanFire(s, inp.now) && s.tasks.nextId + 1 < TWO_TO_32 && ResetBy(s, resetBy) && BeatBy(s, beatBy)
    requires !(s.alive && s.tasks.live[s.tasks.queue[0].id] == Heartbeat)
    ensures ResetBy(Fire(s, inp), resetBy) && BeatBy(Fire(s, inp), beatBy)
  {
    var f := Fire(s, inp);
    FireKeepsSlots(s, inp);
    FireSlots(s, inp);
    if f.alive {
      SlotsQueued(s);
      OtherIdFires(s, UnsetKeepAlive, s.resetId);
      FireOtherKeepsTasks(s, inp, s.resetId);
    }
    if f.heartbeatId != 0 {
      BeatQueued(s);
      OtherIdFires(s, Heartbeat, s.heartbeatId);
      FireOtherKeepsTasks(s, inp, s.heartbeatId);
    }
    TimesStay(s, f, resetBy, beatBy);
  }

  function NewBeat(s: State, beatBy: nat, now: nat): nat {
    if s.alive then now + BEAT else beatBy
  }

  lemma BeatLater(s: State, beatBy: nat, later: nat)
    requires BeatBy(s, beatBy) && beatBy <= later
    ensures BeatBy(s, later)
  {}

  /** One task fired at now: the reset's time stands, and the beat's too unless the system lives. */
  lemma MaybeFireTimes(s: State, inp: Input, last: nat, resetBy: nat, beatBy: nat)
    requires Slots(s) && s.tasks.nextId + 1 < TWO_TO_32 && last <= inp.now
    requires ResetBy(s, resetBy) && BeatBy(s, beatBy) && (s.alive ==> beatBy <= last + BEAT)
    ensures var f := MaybeFire(s, inp);
      ResetBy(f, resetBy) && BeatBy(f, NewBeat(s, beatBy, inp.now)) && (f.alive ==> s.alive)
  {
    if CanFire(s, inp.now) {
      CallbackLife(s.(tasks := Pop(s.tasks)), s.tasks.live[s.tasks.queue[0].id], inp);
      if s.alive && s.tasks.live[s.tasks.queue[0].id] == Heartbeat {
        FireLivingBeat(s, inp, resetBy);
      } else {
        FireOtherTimes(s, inp, resetBy, beatBy);
        BeatLater(MaybeFire(s, inp), beatBy, NewBeat(s, beatBy, inp.now));
      }
    } else {
      BeatLater(s, beatBy, NewBeat(s, beatBy, inp.now));
    }
  }

  // ---------- a batch, alive or dead ----------

  /** The times after something that took readings up to `at`. */
  predicate Timely(s: State, a: State, resetBy: nat, beatBy: nat, at: nat) {
    && ResetBy(a, resetBy) && (a.alive ==> s.alive)
    && BeatBy(a, if s.alive then at + BEAT else beatBy)
  }

  /** After k firings: slots and ids, and the times. */
  ghost predicate TimesSoFar(s: State, now: nat, inp: nat -> Input, resetBy: nat, beatBy: nat, k: nat, f: State) {
    Slots(f) && f.tasks.nextId <= s.tasks.nextId + k && Timely(s, f, resetBy, beatBy, LastReading(now, inp, k))
  }

  lemma OneMoreTimes(s: State, now: nat, inp: nat -> Input, resetBy: nat, beatBy: nat, k: nat, f: State)
    requires k > 0 && InputsOk(now, inp) && s.tasks.nextId + k < TWO_TO_32 && TimesSoFar(s, now, inp, resetBy, beatBy, k - 1, f)
    ensures TimesSoFar(s, now, inp, resetBy, beatBy, k, MaybeFire(f, inp(k - 1)))
  {
    ReadingsGrow(now, inp, k - 1);
    MaybeFireKeepsSlots(f, inp(k - 1));
    TimelyStep(s, f, inp(k - 1), resetBy, beatBy, LastReading(now, inp, k - 1));
  }

  lemma NoTimesYet(s: State, now: nat, inp: nat -> Input, last: nat, resetBy: nat, beatBy: nat)
    requires Slots(s) && last <= now
    requires ResetBy(s, resetBy) && BeatBy(s, beatBy) && (s.alive ==> beatBy <= last + BEAT)
    ensures TimesSoFar(s, now, inp, resetBy, beatBy, 0, s)
  {
    BeatLater(s, beatBy, if s.alive then now + BEAT else beatBy);
  }

  lemma {:induction false} FireNTimes(s: State, now: nat, inp: nat -> Input, n: nat, resetBy: nat, beatBy: nat)
    requires InputsOk(now, inp) && s.tasks.nextId + n < TWO_TO_32 && TimesSoFar(s, now, inp, resetBy, beatBy, 0, s)
    ensures TimesSoFar(s, now, inp, resetBy, beatBy, n, FireN(s, inp, n))
    decreases n
  {
    if n > 0 {
      FireNTimes(s, now, inp, n - 1, resetBy, beatBy);
      OneMoreTimes(s, now, inp, resetBy, beatBy, n, FireN(s, inp, n - 1));
    }
  }

  lemma TimelyStep(s: State, f: State, inp: Input, resetBy: nat, beatBy: nat, at: nat)
    requires Slots(f) && f.tasks.nextId + 1 < TWO_TO_32 && at <= inp.now && Timely(s, f, resetBy, beatBy, at)
    ensures Timely(s, MaybeFire(f, inp), resetBy, beatBy, inp.now)
  {
    var until := if s.alive then at + BEAT else beatBy;
    MaybeFireTimes(f, inp, at, resetBy, until);
    BeatLater(MaybeFire(f, inp), NewBeat(f, until, inp.now), if s.alive then inp.now + BEAT else beatBy);
  }

  lemma PerformTimes(s: State, now: nat, inp: nat -> Input, last: nat, resetBy: nat, beatBy: nat)
    requires Slots(s) && last <= now && Fits(s, PerformTasks(now, inp))
    requires ResetBy(s, resetBy) && BeatBy(s, beatBy) && (s.alive ==> beatBy <= last + BEAT)
    ensures Timely(s, Perform(s, now, inp), resetBy, beatBy, LastOf(s, PerformTasks(now, inp)))
  {
    PerformIsFiring(s, now, inp);
    DroppedIsValid(s, now);
    DroppedKeepsSlots(s, now);
    DroppedTimes(s, now, resetBy, beatBy);
    NoTimesYet(Dropped(s, now), now, inp, last, resetBy, beatBy);
    FireNTimes(Dropped(s, now), now, inp, |Collect(s.tasks, now).ran|, resetBy, beatBy);
  }

  lemma DroppedTimes(s: State, now: nat, resetBy: nat, beatBy: nat)
    requires Slots(s) && ResetBy(s, resetBy) && BeatBy(s, beatBy)
    ensures ResetBy(Dropped(s, now), resetBy) && BeatBy(Dropped(s, now), beatBy)
  {
    DroppedIsValid(s, now);
    DroppedLive(s, now);
    var d := Dropped(s, now);
    if s.alive {
      SlotsQueued(s);
      DueStays(d.tasks.queue, s.tasks.queue, s.resetId);
    }
    if s.heartbeatId != 0 {
      BeatQueued(s);
      DueStays(d.tasks.queue, s.tasks.queue, s.heartbeatId);
    }
  }

  // ---------- events ----------

  /** Any event but a keep-alive. */
  lemma NextTimes(s: State, e: Event, last: nat, resetBy: nat, beatBy: nat)
    requires Slots(s) && Fits(s, e) && last <= e.now && !e.KeepAlive?
    requires ResetBy(s, resetBy) && BeatBy(s, beatBy) && (s.alive ==> beatBy <= last + BEAT)
    ensures Timely(s, Next(s, e), resetBy, beatBy, LastOf(s, e))
  {
    if e.PerformTasks? {
      PerformTimes(s, e.now, e.inp, last, resetBy, beatBy);
    } else {
      NextKeepsSlots(s, e);
      OtherEventsKeepTasks(s, e, s.resetId);
      OtherEventsKeepTasks(s, e, s.heartbeatId);
      TimesStay(s, Next(s, e), resetBy, beatBy);
      BeatLater(Next(s, e), beatBy, if s.alive then e.now + BEAT else beatBy);
    }
  }

  /** A keep-alive sets the reset 60 s off; the heartbeat stays, or starts 3 s off. */
  lemma KeepAliveTimes(s: State, suppress: bool, completes: bool, now: nat, last: nat)
    requires Slots(s) && s.tasks.nextId + 2 < TWO_TO_32 && BeatBy(s, last + BEAT) && last <= now
    requires completes || suppress || s.keepAliveTokens <= 0
    ensures var a := HandleKeepAlive(s, suppress, completes, now); ResetBy(a, now + RESET) && BeatBy(a, now + BEAT)
  {
    KeepAliveKeepsSlots(s, suppress, completes, now);
    KeepAliveShape(s, suppress, completes, now);
    AwakeTimes(s, HandleKeepAlive(s, suppress, completes, now), now, last);
  }

  lemma AwakeTimes(s: State, a: State, now: nat, last: nat)
    requires Slots(s) && Slots(a) && BeatBy(s, last + BEAT) && last <= now && s.tasks.nextId + 1 < TWO_TO_32
    requires a.resetId == s.tasks.nextId
    requires var reset, beat := Task(now + RESET, s.tasks.nextId), Task(now + BEAT, s.tasks.nextId + 1);
      if s.heartbeatId == 0 then a.heartbeatId == beat.id && a.tasks.queue == Insert(Insert(s.tasks.queue, reset), beat)
      else a.heartbeatId == s.heartbeatId && a.tasks.queue == Insert(s.tasks.queue, reset)
    ensures ResetBy(a, now + RESET) && BeatBy(a, now + BEAT)
  {
    var reset, beat := Task(now + RESET, s.tasks.nextId), Task(now + BEAT, s.tasks.nextId + 1);
    FreshDues(s.tasks.queue, a.tasks.queue, reset, beat);
    if s.heartbeatId != 0 {
      OldBeatOnTime(s, a, reset, last + BEAT);
      BeatLater(a, last + BEAT, now + BEAT);
    }
  }

  lemma OldBeatOnTime(s: State, a: State, reset: Task, beatBy: nat)
    requires Slots(s) && Slots(a) && BeatBy(s, beatBy) && s.heartbeatId != 0
    requires a.heartbeatId == s.heartbeatId && a.tasks.queue == Insert(s.tasks.queue, reset)
    ensures BeatBy(a, beatBy)
  {
    BeatQueued(s);
    OldBeatStays(s.tasks.queue, a.tasks.queue, reset, s.heartbeatId);
  }

  lemma OldBeatStays(q: seq<Task>, r: seq<Task>, reset: Task, id: nat)
    requires Distinct(q) && Distinct(r) && Queued(q, id) && r == Insert(q, reset)
    ensures DueOf(r, id) == DueOf(q, id)
  {
    InsertMembers(q, reset);
    DueStays(q, r, id);
  }

  /** One that publishes everything and does not get through changes neither. */
  lemma FailedKeepAlive(s: State, suppress: bool, completes: bool, now: nat)
    requires !(completes || suppress || s.keepAliveTokens <= 0)
    ensures var a := HandleKeepAlive(s, suppress, completes, now); a.tasks == s.tasks && a.heartbeatId == s.heartbeatId
  {}

  /** In every steady run the next heartbeat is due at most 3 s after the last reading. */
  lemma {:induction false} EveryRunBeatsSoon(online: bool, now: nat, es: seq<Event>, start: nat)
    requires SteadyRun(Start(online, now), es, start)
    ensures var s := Run(Start(online, now), es); Slots(s) && BeatBy(s, LastOver(Start(online, now), es, start) + 3_000_000_000)
    decreases |es|
  {
    if es == [] {
      StartHasSlots(online, now);
    } else {
      var init, e := es[..|es| - 1], es[|es| - 1];
      EveryRunBeatsSoon(online, now, init, start);
      NextBeatsSoon(Run(Start(online, now), init), e, LastOver(Start(online, now), init, start));
    }
  }

  lemma NextBeatsSoon(s: State, e: Event, last: nat)
    requires Slots(s) && Fits(s, e) && last <= e.now && BeatBy(s, last + BEAT)
    ensures Slots(Next(s, e)) && BeatBy(Next(s, e), LastOf(s, e) + BEAT)
  {
    NextKeepsSlots(s, e);
    if e.KeepAlive? {
      if e.completes || e.suppress || s.keepAliveTokens <= 0 {
        KeepAliveTimes(s, e.suppress, e.completes, e.now, last);
      } else {
        FailedKeepAlive(s, e.suppress, e.completes, e.now);
        BeatLater(Next(s, e), last + BEAT, e.now + BEAT);
      }
    } else {
      var until := if s.alive then DueOf(s.tasks.queue, s.resetId) else 0;
      NextTimes(s, e, last, until, last + BEAT);
      LastIsLater(s, e);
      BeatLater(Next(s, e), if s.alive then LastOf(s, e) + BEAT else last + BEAT, LastOf(s, e) + BEAT);
    }
  }

  lemma LastIsLater(s: State, e: Event)
    requires Fits(s, e)
    ensures e.now <= LastOf(s, e)
  {
    if e.PerformTasks? && |Collect(s.tasks, e.now).ran| > 0 {
      ReadingsGrow(e.now, e.inp, |Collect(s.tasks, e.now).ran| - 1);
    }
  }

  // ---------- coming to rest ----------

  /** While the system lives, in a run without keep-alives. */
  lemma {:induction false} LivingTimes(s: State, es: seq<Event>, start: nat, resetBy: nat)
    requires Slots(s) && SteadyRun(s, es, start) && NoKeepAlive(es) && ResetBy(s, resetBy) && BeatBy(s, start + BEAT)
    ensures var a, now := Run(s, es), LastOver(s, es, start);
      Slots(a) && ResetBy(a, resetBy) && BeatBy(a, now + BEAT)
    decreases |es|
  {
    if es != [] {
      var init, e := es[..|es| - 1], es[|es| - 1];
      NoneInPrefix(es);
      LivingTimes(s, init, start, resetBy);
      NextBeatsSoon(Run(s, init), e, LastOver(s, init, start));
      NextTimes(Run(s, init), e, LastOver(s, init, start), resetBy, LastOver(s, init, start) + BEAT);
    }
  }

  lemma NoneInPrefix(es: seq<Event>)
    requires es != [] && NoKeepAlive(es)
    ensures NoKeepAlive(es[..|es| - 1]) && !es[|es| - 1].KeepAlive?
  {
    var init := es[..|es| - 1];
    forall i | 0 <= i < |init| ensures !init[i].KeepAlive? {
      assert !es[i].KeepAlive?;
    }
  }

  /** Dead, and what is left of the heartbeat is due by a time that no event puts off. */
  predicate Dying(s: State, beatBy: nat) {
    Slots(s) && !s.alive && BeatBy(s, beatBy)
  }

  lemma DyingStays(s: State, e: Event, last: nat, beatBy: nat)
    requires Dying(s, beatBy) && Fits(s, e) && last <= e.now && !e.KeepAlive?
    ensures Dying(Next(s, e), beatBy)
  {
    NextKeepsSlots(s, e);
    NextTimes(s, e, last, 0, beatBy);
  }

  /** At rest: no reset and no heartbeat is pending. */
  predicate AtRest(s: State) {
    && Slots(s) && !s.alive && s.heartbeatId == 0
    && IdsOf(s.tasks.live, Heartbeat) == {} && IdsOf(s.tasks.live, UnsetKeepAlive) == {}
  }

  lemma RestStays(s: State, e: Event, last: nat)
    requires AtRest(s) && Fits(s, e) && last <= e.now && !e.KeepAlive?
    ensures AtRest(Next(s, e))
  {
    var a := Next(s, e);
    NextKeepsSlots(s, e);
    NextFades(s, e, last);
    assert SlotOf(UnsetKeepAlive, IdsOf(a.tasks.live, UnsetKeepAlive), IdsIn(a));
    assert SlotOf(Heartbeat, IdsOf(a.tasks.live, Heartbeat), IdsIn(a));
  }

  /** Performing tasks when the reset is due leaves the system dying. */
  lemma ResetLeavesDying(s: State, e: Event, last: nat, resetBy: nat)
    requires Slots(s) && Fits(s, e) && e.PerformTasks? && last <= e.now && resetBy <= e.now
    requires ResetBy(s, resetBy) && BeatBy(s, last + BEAT)
    ensures Dying(Next(s, e), LastOf(s, e) + BEAT)
  {
    NextBeatsSoon(s, e, last);
    ResetEndsLife(s, e.now, e.inp);
  }

  lemma LastBeatLeavesRest(s: State, e: Event, beatBy: nat)
    requires Dying(s, beatBy) && Fits(s, e) && e.PerformTasks? && beatBy <= e.now
    ensures AtRest(Next(s, e))
  {
    NextKeepsSlots(s, e);
    LastBeatEndsHeartbeat(s, e.now, e.inp);
  }

  /** From the first performing of tasks after the reset is due. */
  lemma {:induction false} DyingFrom(s: State, es: seq<Event>, i: nat, start: nat, resetBy: nat)
    requires Slots(s) && SteadyRun(s, es, start) && NoKeepAlive(es) && ResetBy(s, resetBy) && BeatBy(s, start + BEAT)
    requires i < |es| && es[i].PerformTasks? && resetBy <= es[i].now
    ensures Dying(Run(s, es), LastOver(s, es[..i + 1], start) + BEAT)
    decreases |es|
  {
    var init, e := es[..|es| - 1], es[|es| - 1];
    NoneInPrefix(es);
    if i == |init| {
      assert es[..i + 1] == es;
      LivingTimes(s, init, start, resetBy);
      ResetLeavesDying(Run(s, init), e, LastOver(s, init, start), resetBy);
    } else {
      assert init[i] == es[i] && init[..i + 1] == es[..i + 1];
      DyingFrom(s, init, i, start, resetBy);
      DyingStays(Run(s, init), e, LastOver(s, init, start), LastOver(s, es[..i + 1], start) + BEAT);
    }
  }

  lemma {:induction false} RestsFrom(s: State, es: seq<Event>, i: nat, j: nat, start: nat, resetBy: nat)
    requires Slots(s) && SteadyRun(s, es, start) && NoKeepAlive(es) && ResetBy(s, resetBy) && BeatBy(s, start + BEAT)
    requires i < j < |es| && es[i].PerformTasks? && resetBy <= es[i].now
    requires es[j].PerformTasks? && LastOver(s, es[..i + 1], start) + BEAT <= es[j].now
    ensures AtRest(Run(s, es))
    decreases |es|
  {
    var init, e := es[..|es| - 1], es[|es| - 1];
    NoneInPrefix(es);
    assert init[i] == es[i] && init[..i + 1] == es[..i + 1];
    if j == |init| {
      DyingFrom(s, init, i, start, resetBy);
      LastBeatLeavesRest(Run(s, init), e, LastOver(s, es[..i + 1], start) + BEAT);
    } else {
      assert init[j] == es[j];
      RestsFrom(s, init, i, j, start, resetBy);
      RestStays(Run(s, init), e, LastOver(s, init, start));
    }
  }

  /**
   Main result: a keep-alive gets through at t, in any state that a steady run from plugin start
   reaches, and none follows. Once tasks are performed at t + 60 s or later, and again 3 s or
   more after the last reading of that, the machine is at rest, and stays so in every further run.
   */
  lemma ComesToRest(online: bool, began: nat, before: seq<Event>, start: nat, suppress: bool, completes: bool, t: nat, es: seq<Event>, i: nat, j: nat)
    requires SteadyRun(Start(online, began), before, start)
    requires var s := Run(Start(online, began), before);
      && LastOver(Start(online, began), before, start) <= t && s.tasks.nextId + 2 < TWO_TO_32
      && (completes || suppress || s.keepAliveTokens <= 0)
      && SteadyRun(HandleKeepAlive(s, suppress, completes, t), es, t) && NoKeepAlive(es)
    requires i < j < |es| && es[i].PerformTasks? && t + 60_000_000_000 <= es[i].now
    requires var a := HandleKeepAlive(Run(Start(online, began), before), suppress, completes, t);
      es[j].PerformTasks? && LastOver(a, es[..i + 1], t) + 3_000_000_000 <= es[j].now
    ensures AtRest(Run(HandleKeepAlive(Run(Start(online, began), before), suppress, completes, t), es))
  {
    var s := Run(Start(online, began), before);
    EveryRunBeatsSoon(online, began, before, start);
    KeepAliveTimes(s, suppress, completes, t, LastOver(Start(online, began), before, start));
    KeepAliveKeepsSlots(s, suppress, completes, t);
    RestsFrom(HandleKeepAlive(s, suppress, completes, t), es, i, j, t, t + RESET);
  }
}

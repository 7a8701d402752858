/**
 What a keep-alive is for: the system stays alive for sixty seconds after it, and as long as it
 is alive the heartbeat is published whenever it is due.
 */
module Liveness {
  import opened Durations
  import opened Tasks
  import opened Timers
  import opened TimerBatches
  import opened TimerSlots
  import opened KeepAlive
  import opened Quiescence

  /** Alive, and the reset is not due before this time. */
  predicate LivesUntil(s: State, until: nat) {
    Slots(s) && s.alive && until <= DueOf(s.tasks.queue, s.resetId)
  }

  // ---------- a batch without the reset ----------

  /** How many of the first n callbacks are heartbeats. */
  function Beats(callbacks: seq<Callback>, n: nat): nat
    requires n <= |callbacks|
  {
    if n == 0 then 0 else Beats(callbacks, n - 1) + (if callbacks[n - 1].Heartbeat? then 1 else 0)
  }

  predicate NoReset(callbacks: seq<Callback>, n: nat)
    requires n <= |callbacks|
  {
    forall i | 0 <= i < n :: !callbacks[i].UnsetKeepAlive?
  }

  /** From s to a living a: the reset is as it was, nothing is unqueued, and so many heartbeats were published. */
  predicate LivedThrough(s: State, a: State, beats: nat) {
    && s.alive && a.alive && a.resetId == s.resetId && a.heartbeats == s.heartbeats + beats
    && forall t | t in s.tasks.queue :: t in a.tasks.queue
  }

  lemma CallbackLivesOn(s: State, a: State, beats: nat, cb: Callback, inp: Input)
    requires LivedThrough(s, a, beats) && !cb.UnsetKeepAlive?
    ensures LivedThrough(s, RunCallback(a, cb, inp), beats + if cb.Heartbeat? then 1 else 0)
  {
    InsertMembers(a.tasks.queue, Task(inp.now + HEARTBEAT_MS * MILLISECOND, a.tasks.nextId));
    InsertMembers(a.tasks.queue, Task(inp.now + TICK_MS * MILLISECOND, a.tasks.nextId));
  }

  lemma {:induction false} BatchLivesOn(s: State, callbacks: seq<Callback>, inp: nat -> Input, n: nat)
    requires s.alive && n <= |callbacks| && NoReset(callbacks, n)
    ensures LivedThrough(s, RunBatch(s, callbacks, inp, n), Beats(callbacks, n))
    decreases n
  {
    if n > 0 {
      BatchLivesOn(s, callbacks, inp, n - 1);
      CallbackLivesOn(s, RunBatch(s, callbacks, inp, n - 1), Beats(callbacks, n - 1), callbacks[n - 1], inp(n - 1));
    }
  }

  /** A callback of a batch is that of the one live task of its kind, and that task is due. */
  lemma RanIsDue(s: State, now: nat, i: nat, id: nat)
    requires Slots(s) && i < |Collect(s.tasks, now).callbacks|
    requires IdsOf(s.tasks.live, Collect(s.tasks, now).callbacks[i]) <= {id}
    ensures DueOf(s.tasks.queue, id) <= now && i < |Collect(s.tasks, now).ran| && Collect(s.tasks, now).ran[i].id == id
  {
    var b := Collect(s.tasks, now);
    BatchFacts(s, now);
    RunsExactlyTheDue(s.tasks, now);
    assert b.ran[i] in b.ran && b.ran[i].id in IdsOf(s.tasks.live, b.callbacks[i]);
    DueOfMember(s.tasks.queue, b.ran[i]);
  }

  lemma ResetNotRun(s: State, now: nat, until: nat)
    requires LivesUntil(s, until) && now < until
    ensures NoReset(Collect(s.tasks, now).callbacks, |Collect(s.tasks, now).callbacks|)
  {
    var c := Collect(s.tasks, now).callbacks;
    assert SlotOf(UnsetKeepAlive, IdsOf(s.tasks.live, UnsetKeepAlive), IdsIn(s));
    forall i | 0 <= i < |c| ensures !c[i].UnsetKeepAlive? {
      if c[i].UnsetKeepAlive? {
        RanIsDue(s, now, i, s.resetId);
      }
    }
  }

  lemma PerformLivesOn(s: State, now: nat, inp: nat -> Input, until: nat)
    requires LivesUntil(s, until) && now < until && Fits(s, PerformTasks(now, inp))
    ensures LivesUntil(Perform(s, now, inp), until)
    ensures Perform(s, now, inp).heartbeats == s.heartbeats + Beats(Collect(s.tasks, now).callbacks, |Collect(s.tasks, now).callbacks|)
  {
    var b, p := Collect(s.tasks, now), Perform(s, now, inp);
    ResetNotRun(s, now, until);
    BatchLivesOn(s.(tasks := b.rest), b.callbacks, inp, |b.callbacks|);
    PerformKeepsSlots(s, now, inp);
    SlotsQueued(s);
    var t := QueuedMember(s.tasks.queue, s.resetId);
    DueOfMember(s.tasks.queue, t);
    DueAndLater(s.tasks.queue, now);
    assert t in b.rest.queue;
    DueOfMember(p.tasks.queue, t);
  }

  // ---------- staying alive ----------

  lemma KeepAliveLivesOn(s: State, e: Event, until: nat)
    requires LivesUntil(s, until) && e.KeepAlive? && Fits(s, e) && until <= e.now + 60_000_000_000
    ensures LivesUntil(Next(s, e), until)
  {
    if e.completes || e.suppress || s.keepAliveTokens <= 0 {
      AwakeLives(s, e.suppress, e.completes, e.now);
    } else {
      KeepAliveKeepsSlots(s, e.suppress, e.completes, e.now);
    }
  }

  /** A keep-alive that gets through puts the reset sixty seconds off. */
  lemma AwakeLives(s: State, suppress: bool, completes: bool, now: nat)
    requires Slots(s) && s.tasks.nextId + 2 < TWO_TO_32 && (completes || suppress || s.keepAliveTokens <= 0)
    ensures LivesUntil(HandleKeepAlive(s, suppress, completes, now), now + 60_000_000_000)
  {
    var a := HandleKeepAlive(s, suppress, completes, now);
    KeepAliveKeepsSlots(s, suppress, completes, now);
    KeepAliveShape(s, suppress, completes, now);
    var reset := Task(now + 60_000_000_000, s.tasks.nextId);
    InsertMembers(s.tasks.queue, reset);
    InsertMembers(Insert(s.tasks.queue, reset), Task(now + HEARTBEAT_MS * MILLISECOND, (s.tasks.nextId + 1) % TWO_TO_32));
    DueOfMember(a.tasks.queue, reset);
  }

  lemma NextLivesOn(s: State, e: Event, until: nat)
    requires LivesUntil(s, until) && Fits(s, e)
    requires if e.PerformTasks? then e.now < until else until <= e.now + 60_000_000_000
    ensures LivesUntil(Next(s, e), until)
  {
    match e
    case PerformTasks(now, inp) => PerformLivesOn(s, now, inp, until);
    case KeepAlive(suppress, completes, now) => KeepAliveLivesOn(s, e, until);
    case _ =>
      NextKeepsSlots(s, e);
      SlotsQueued(s);
      OtherEventsKeepTasks(s, e, s.resetId);
      DueStays(s.tasks.queue, Next(s, e).tasks.queue, s.resetId);
  }

  /** Tasks are performed only before this time. */
  predicate PerformsBefore(es: seq<Event>, until: nat) {
    forall i | 0 <= i < |es| :: es[i].PerformTasks? ==> es[i].now < until
  }

  lemma {:induction false} ReadingsFrom(s: State, es: seq<Event>, start: nat)
    requires SteadyRun(s, es, start)
    ensures start <= LastOver(s, es, start)
    decreases |es|
  {
    if es != [] {
      ReadingsFrom(s, es[..|es| - 1], start);
      LastIsLater(Run(s, es[..|es| - 1]), es[|es| - 1]);
    }
  }

  lemma {:induction false} RunLivesOn(s: State, es: seq<Event>, start: nat)
    requires LivesUntil(s, start + 60_000_000_000) && SteadyRun(s, es, start) && PerformsBefore(es, start + 60_000_000_000)
    ensures LivesUntil(Run(s, es), start + 60_000_000_000)
    decreases |es|
  {
    if es != [] {
      var init, e := es[..|es| - 1], es[|es| - 1];
      assert PerformsBefore(init, start + 60_000_000_000) by {
        forall i | 0 <= i < |init| ensures init[i].PerformTasks? ==> init[i].now < start + 60_000_000_000 {
          assert init[i] == es[i];
        }
      }
      RunLivesOn(s, init, start);
      ReadingsFrom(s, init, start);
      assert e.PerformTasks? ==> es[|es| - 1].now < start + 60_000_000_000;
      NextLivesOn(Run(s, init), e, start + 60_000_000_000);
    }
  }

  /** Main result: after a keep-alive that gets through at t, the system is alive in every run whose tasks are performed before t + 60 s. */
  lemma LivesSixtySeconds(s: State, suppress: bool, completes: bool, t: nat, es: seq<Event>)
    requires Slots(s) && s.tasks.nextId + 2 < TWO_TO_32 && (completes || suppress || s.keepAliveTokens <= 0)
    requires SteadyRun(HandleKeepAlive(s, suppress, completes, t), es, t) && PerformsBefore(es, t + 60_000_000_000)
    ensures Run(HandleKeepAlive(s, suppress, completes, t), es).alive
  {
    AwakeLives(s, suppress, completes, t);
    RunLivesOn(HandleKeepAlive(s, suppress, completes, t), es, t);
  }

  // ---------- beating ----------

  lemma {:induction false} OneBeat(callbacks: seq<Callback>, n: nat, i: nat)
    requires n <= |callbacks| && forall j | 0 <= j < n :: callbacks[j].Heartbeat? <==> j == i
    ensures Beats(callbacks, n) == if i < n then 1 else 0
    decreases n
  {
    if n > 0 {
      OneBeat(callbacks, n - 1, i);
    }
  }

  lemma BeatsOnlyOnce(s: State, now: nat, i: nat, j: nat)
    requires Slots(s)
    requires var c := Collect(s.tasks, now).callbacks; i < |c| && j < |c| && c[i].Heartbeat? && c[j].Heartbeat?
    ensures i == j && DueOf(s.tasks.queue, s.heartbeatId) <= now
  {
    assert SlotOf(Heartbeat, IdsOf(s.tasks.live, Heartbeat), IdsIn(s));
    RanIsDue(s, now, i, s.heartbeatId);
    RanIsDue(s, now, j, s.heartbeatId);
    RanIds(s, now);
  }

  lemma DueBeatRuns(s: State, now: nat) returns (i: nat)
    requires Slots(s) && s.heartbeatId != 0 && DueOf(s.tasks.queue, s.heartbeatId) <= now
    ensures i < |Collect(s.tasks, now).callbacks| && Collect(s.tasks, now).callbacks[i].Heartbeat?
  {
    var b := Collect(s.tasks, now);
    BeatQueued(s);
    var t := QueuedMember(s.tasks.queue, s.heartbeatId);
    DueOfMember(s.tasks.queue, t);
    BatchFacts(s, now);
    RunsExactlyTheDue(s.tasks, now);
    i :| 0 <= i < |b.ran| && b.ran[i] == t;
  }

  /** Main result: while the system lives, performing tasks publishes exactly one heartbeat if it is due, and none if not. */
  lemma BeatsIffDue(s: State, now: nat, inp: nat -> Input, until: nat)
    requires LivesUntil(s, until) && now < until && Fits(s, PerformTasks(now, inp))
    ensures Perform(s, now, inp).heartbeats == s.heartbeats + if DueOf(s.tasks.queue, s.heartbeatId) <= now then 1 else 0
  {
    var c := Collect(s.tasks, now).callbacks;
    PerformLivesOn(s, now, inp, until);
    SlotsQueued(s);
    assert SlotOf(Heartbeat, IdsOf(s.tasks.live, Heartbeat), IdsIn(s));
    if DueOf(s.tasks.queue, s.heartbeatId) <= now {
      var i := DueBeatRuns(s, now);
      forall j | 0 <= j < |c| ensures c[j].Heartbeat? <==> j == i {
        if c[j].Heartbeat? {
          BeatsOnlyOnce(s, now, i, j);
        }
      }
      OneBeat(c, |c|, i);
    } else {
      forall j | 0 <= j < |c| ensures !c[j].Heartbeat? {
        if c[j].Heartbeat? {
          BeatsOnlyOnce(s, now, j, j);
        }
      }
      OneBeat(c, |c|, |c|);
    }
  }
}

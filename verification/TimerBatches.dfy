/**
 performAll copies the due callbacks before it runs any. For the callbacks of State, which
 only add tasks, that comes to the same as firing the due tasks one by one. So what firing one
 task keeps, performing them all keeps.
 */
module TimerBatches {
  import opened Durations
  import opened Tasks
  import opened Timers

  /** The ids of the live tasks with this callback. */
  function IdsOf(live: map<nat, Callback>, cb: Callback): set<nat> {
    set id | id in live && live[id] == cb
  }

  /** Takes the first task out of the queue. */
  function Pop(q: Queue<Callback>): Queue<Callback>
    requires q.queue != []
  {
    Queue(q.nextId, q.queue[1..], q.live - {q.queue[0].id}, Head(q.queue[1..]))
  }

  predicate CanFire(s: State, now: nat) {
    s.tasks.queue != [] && s.tasks.queue[0].when <= now && s.tasks.queue[0].id in s.tasks.live
  }

  /** Fires the first task: takes it out and runs its callback. */
  function Fire(s: State, inp: Input): State
    requires CanFire(s, inp.now)
  {
    RunCallback(s.(tasks := Pop(s.tasks)), s.tasks.live[s.tasks.queue[0].id], inp)
  }

  /** The inputs of a batch: readings that do not go back, none before the batch started. */
  ghost predicate InputsOk(now: nat, inp: nat -> Input) {
    && (forall i: nat :: now <= inp(i).now)
    && forall i: nat, j: nat | i <= j :: inp(i).now <= inp(j).now
  }

  /** The live map with the copied callbacks of these tasks put back. */
  function Restored(live: map<nat, Callback>, due: seq<Task>, copied: map<nat, Callback>): map<nat, Callback> {
    live + (map id | id in copied && Queued(due, id) :: copied[id])
  }

  /** The queue seen as if the tasks of the batch that are still to run had not been taken out. */
  function Pending(q: Queue<Callback>, due: seq<Task>, copied: map<nat, Callback>): Queue<Callback> {
    Queue(q.nextId, due + q.queue, Restored(q.live, due, copied), Head(due + q.queue))
  }

  // ---------- the live tasks of a queue ----------

  predicate AllLive(ts: seq<Task>, live: map<nat, Callback>) {
    forall i | 0 <= i < |ts| :: ts[i].id in live
  }

  predicate IdsAbsent(ts: seq<Task>, live: map<nat, Callback>) {
    forall i | 0 <= i < |ts| :: ts[i].id !in live
  }

  /** Inserting a later task does not reach into the pending part. */
  lemma {:induction false} InsertBehind(due: seq<Task>, q: seq<Task>, t: Task)
    requires forall i | 0 <= i < |due| :: due[i].when <= t.when
    ensures Insert(due + q, t) == due + Insert(q, t)
  {
    UpToBehind(due, q, t.when);
    var k := UpTo(q, t.when);
    assert (due + q)[..|due| + k] == due + q[..k];
    assert (due + q)[|due| + k..] == q[k..];
  }

  lemma {:induction false} UpToBehind(due: seq<Task>, q: seq<Task>, time: nat)
    requires forall i | 0 <= i < |due| :: due[i].when <= time
    ensures UpTo(due + q, time) == |due| + UpTo(q, time)
  {
    if due == [] {
      assert due + q == q;
    } else {
      assert (due + q)[1..] == due[1..] + q;
      UpToBehind(due[1..], q, time);
    }
  }

  lemma LiveCommutes(live: map<nat, Callback>, due: seq<Task>, copied: map<nat, Callback>, id: nat, f: Callback)
    requires forall i | 0 <= i < |due| :: due[i].id < id
    ensures Restored(live[id := f], due, copied) == Restored(live, due, copied)[id := f]
  {}

  /** An add from a callback is the same add seen with the pending tasks. */
  lemma AddCommutes(q: Queue<Callback>, due: seq<Task>, copied: map<nat, Callback>, f: Callback, delayMs: nat, now: nat)
    requires forall i | 0 <= i < |due| :: due[i].when <= now && due[i].id < q.nextId
    requires Timed(q)
    ensures Pending(AddTask(q, f, delayMs, now), due, copied) == AddTask(Pending(q, due, copied), f, delayMs, now)
  {
    var t := Task(now + delayMs * MILLISECOND, q.nextId);
    InsertBehind(due, q.queue, t);
    LiveCommutes(q.live, due, copied, q.nextId, f);
    HeadBehind(due, q.queue, t);
  }

  lemma HeadBehind(due: seq<Task>, q: seq<Task>, t: Task)
    requires forall i | 0 <= i < |due| :: due[i].when <= t.when
    requires Sorted(q)
    ensures Head(due + Insert(q, t)) == MinTime(Head(due + q), t.when)
  {}

  /** The state with the pending tasks of a batch seen as still queued. */
  function WithPending(s: State, due: seq<Task>, copied: map<nat, Callback>): State {
    s.(tasks := Pending(s.tasks, due, copied))
  }

  /** Every due task was added before now, and is due by then. */
  predicate DueBy(due: seq<Task>, now: nat, limit: nat) {
    forall i | 0 <= i < |due| :: due[i].when <= now && due[i].id < limit
  }

  lemma HeartbeatCommutes(s: State, due: seq<Task>, copied: map<nat, Callback>, now: nat)
    requires DueBy(due, now, s.tasks.nextId) && Timed(s.tasks)
    ensures WithPending(RunHeartbeat(s, now), due, copied) == RunHeartbeat(WithPending(s, due, copied), now)
  {
    AddCommutes(s.tasks, due, copied, Heartbeat, HEARTBEAT_MS, now);
  }

  lemma StartTickCommutes(s: State, due: seq<Task>, copied: map<nat, Callback>, now: nat)
    requires DueBy(due, now, s.tasks.nextId) && Timed(s.tasks)
    ensures WithPending(StartTick(s, now), due, copied) == StartTick(WithPending(s, due, copied), now)
  {
    AddCommutes(s.tasks, due, copied, PerSecond, TICK_MS, now);
  }

  lemma ResetCommutes(s: State, tasks: Queue<Callback>, now: nat)
    ensures ResetDaily(s, now).(tasks := tasks) == ResetDaily(s.(tasks := tasks), now)
    ensures ResetDaily(s, now).tasks == s.tasks
  {}

  lemma TickCommutes(s: State, due: seq<Task>, copied: map<nat, Callback>, now: nat)
    requires DueBy(due, now, s.tasks.nextId) && Timed(s.tasks)
    ensures WithPending(RunTick(s, now), due, copied) == RunTick(WithPending(s, due, copied), now)
  {
    StartTickCommutes(s.(periodId := 0), due, copied, now);
    var s1 := StartTick(s.(periodId := 0), now);
    var s2 := s1.(ticks := s1.ticks + 1, keepAliveTokens := KEEPALIVE_TOKENS, shortTokens := RefilledShort(s1.shortTokens));
    ResetCommutes(s2, Pending(s2.tasks, due, copied), now);
  }

  /** The part of a pending state that RunCallback can see commutes with the view. */
  lemma RunCallbackCommutes(s: State, due: seq<Task>, copied: map<nat, Callback>, cb: Callback, inp: Input)
    requires DueBy(due, inp.now, s.tasks.nextId) && Timed(s.tasks)
    ensures WithPending(RunCallback(s, cb, inp), due, copied) == RunCallback(WithPending(s, due, copied), cb, inp)
  {
    match cb
    case Heartbeat => HeartbeatCommutes(s, due, copied, inp.now);
    case PerSecond => TickCommutes(s, due, copied, inp.now);
    case _ =>
  }

  // ---------- a batch, one by one ----------

  /** The tasks with what is due but no longer live dropped; performAll skips those anyway. */
  function Dropped(s: State, now: nat): State {
    var b := Collect(s.tasks, now);
    s.(tasks := Pending(b.rest, b.ran, s.tasks.live))
  }

  /** Fires the first task if there is one to fire. */
  function MaybeFire(s: State, inp: Input): State {
    if CanFire(s, inp.now) then Fire(s, inp) else s
  }

  function FireN(s: State, inp: nat -> Input, n: nat): State {
    if n == 0 then s else MaybeFire(FireN(s, inp, n - 1), inp(n - 1))
  }

  lemma PopPending(q: Queue<Callback>, due: seq<Task>, copied: map<nat, Callback>)
    requires due != [] && Distinct(due) && AllLive(due, copied) && IdsAbsent(due, q.live)
    ensures Pop(Pending(q, due, copied)) == Pending(q, due[1..], copied)
    ensures Pending(q, due, copied).queue[0] == due[0]
    ensures due[0].id in Pending(q, due, copied).live && Pending(q, due, copied).live[due[0].id] == copied[due[0].id]
  {
    assert (due + q.queue)[1..] == due[1..] + q.queue;
    PopRestored(q.live, due, copied);
  }

  lemma PopRestored(live: map<nat, Callback>, due: seq<Task>, copied: map<nat, Callback>)
    requires due != [] && Distinct(due) && AllLive(due, copied) && IdsAbsent(due, live)
    ensures Restored(live, due, copied) - {due[0].id} == Restored(live, due[1..], copied)
    ensures due[0].id in Restored(live, due, copied) && Restored(live, due, copied)[due[0].id] == copied[due[0].id]
  {
    forall id ensures Queued(due, id) <==> id == due[0].id || Queued(due[1..], id) {
      QueuedCons(due, id);
    }
    assert !Queued(due[1..], due[0].id);
  }

  lemma QueuedCons(q: seq<Task>, id: nat)
    requires q != []
    ensures Queued(q, id) <==> id == q[0].id || Queued(q[1..], id)
  {}

  /** The situation in the middle of a batch. */
  predicate Middle(s: State, due: seq<Task>, copied: map<nat, Callback>, limit: nat) {
    && Timed(s.tasks) && limit <= s.tasks.nextId
    && Distinct(due) && AllLive(due, copied) && IdsAbsent(due, s.tasks.live)
    && forall i | 0 <= i < |due| :: due[i].id < limit
  }

  lemma RunCallbackKeepsMiddle(s: State, due: seq<Task>, copied: map<nat, Callback>, limit: nat, cb: Callback, inp: Input)
    requires Middle(s, due, copied, limit) && s.tasks.nextId + 1 < TWO_TO_32
    ensures Middle(RunCallback(s, cb, inp), due, copied, limit)
    ensures s.tasks.nextId <= RunCallback(s, cb, inp).tasks.nextId <= s.tasks.nextId + 1
  {
    AddKeepsTimed(s.tasks, Heartbeat, HEARTBEAT_MS, inp.now);
    AddKeepsTimed(s.tasks, PerSecond, TICK_MS, inp.now);
  }

  /** After n callbacks, seen with the rest of the batch still pending, n tasks have been fired. */
  ghost predicate FiredSoFar(s: State, now: nat, inp: nat -> Input, n: nat)
    requires n <= |Collect(s.tasks, now).ran| && n <= |Collect(s.tasks, now).callbacks|
  {
    var b := Collect(s.tasks, now);
    var r := RunBatch(s.(tasks := b.rest), b.callbacks, inp, n);
    && Middle(r, b.ran[n..], s.tasks.live, s.tasks.nextId)
    && r.tasks.nextId <= s.tasks.nextId + n
    && WithPending(r, b.ran[n..], s.tasks.live) == FireN(Dropped(s, now), inp, n)
  }

  /** Every task of a batch is due and has its own callback copied. */
  lemma BatchFacts(s: State, now: nat)
    requires Valid(s.tasks)
    ensures var b := Collect(s.tasks, now);
      && |b.callbacks| == |b.ran|
      && forall i | 0 <= i < |b.ran| ::
           b.ran[i].when <= now && b.ran[i].id in s.tasks.live && b.callbacks[i] == s.tasks.live[b.ran[i].id]
  {
    RunsExactlyTheDue(s.tasks, now);
    var b := Collect(s.tasks, now);
    forall i | 0 <= i < |b.ran| ensures b.ran[i].when <= now {
      assert b.ran[i] in b.ran;
    }
  }

  lemma CallbacksAreCopied(s: State, now: nat)
    requires Valid(s.tasks)
    ensures |Collect(s.tasks, now).callbacks| == |Collect(s.tasks, now).ran|
  {
    BatchFacts(s, now);
  }

  /** n callbacks have been run, and n tasks fired. */
  ghost predicate InStep(s: State, now: nat, inp: nat -> Input, n: nat) {
    n <= |Collect(s.tasks, now).ran| && n <= |Collect(s.tasks, now).callbacks| && FiredSoFar(s, now, inp, n)
  }

  lemma OneMoreInStep(s: State, now: nat, inp: nat -> Input, n: nat)
    requires Valid(s.tasks) && InputsOk(now, inp) && s.tasks.nextId + |Collect(s.tasks, now).ran| < TWO_TO_32
    requires n < |Collect(s.tasks, now).ran| && InStep(s, now, inp, n)
    ensures InStep(s, now, inp, n + 1)
  {
    CallbacksAreCopied(s, now);
    NextOfBatch(s, now, inp, n + 1);
  }

  lemma {:induction false} BatchIsFiring(s: State, now: nat, inp: nat -> Input, n: nat)
    requires Valid(s.tasks) && InputsOk(now, inp) && s.tasks.nextId + |Collect(s.tasks, now).ran| < TWO_TO_32
    requires n <= |Collect(s.tasks, now).ran|
    ensures InStep(s, now, inp, n)
    decreases n
  {
    if n == 0 {
      FirstOfBatch(s, now, inp);
    } else {
      BatchIsFiring(s, now, inp, n - 1);
      OneMoreInStep(s, now, inp, n - 1);
    }
  }

  lemma FirstOfBatch(s: State, now: nat, inp: nat -> Input)
    requires Valid(s.tasks)
    ensures FiredSoFar(s, now, inp, 0)
  {
    var b := Collect(s.tasks, now);
    assert b.ran[0..] == b.ran;
    RanIsPending(s, now);
  }

  lemma NextOfBatch(s: State, now: nat, inp: nat -> Input, n: nat)
    requires Valid(s.tasks) && InputsOk(now, inp) && |Collect(s.tasks, now).callbacks| == |Collect(s.tasks, now).ran|
    requires 0 < n <= |Collect(s.tasks, now).ran| && s.tasks.nextId + |Collect(s.tasks, now).ran| < TWO_TO_32
    requires FiredSoFar(s, now, inp, n - 1)
    ensures FiredSoFar(s, now, inp, n)
  {
    var b := Collect(s.tasks, now);
    BatchFacts(s, now);
    var due := b.ran[n - 1..];
    assert due[1..] == b.ran[n..] && due[0] == b.ran[n - 1];
    assert forall i | 0 <= i < |due| :: due[i] == b.ran[n - 1 + i];
    var r := RunBatch(s.(tasks := b.rest), b.callbacks, inp, n - 1);
    BatchStep(r, due, s.tasks.live, s.tasks.nextId, b.callbacks[n - 1], inp(n - 1), now);
    BatchStepKeeps(r, due, s.tasks.live, s.tasks.nextId, b.callbacks[n - 1], inp(n - 1));
  }

  lemma RanIsPending(s: State, now: nat)
    requires Valid(s.tasks)
    ensures var b := Collect(s.tasks, now);
      b.rest.nextId == s.tasks.nextId && Middle(s.(tasks := b.rest), b.ran, s.tasks.live, s.tasks.nextId)
  {
    var b := Collect(s.tasks, now);
    RunsExactlyTheDue(s.tasks, now);
    CollectLeavesTheRest(s.tasks, now);
    DueAndLater(s.tasks.queue, now);
    forall i | 0 <= i < |b.ran| ensures b.ran[i].id in s.tasks.live && b.ran[i].id !in b.rest.live && b.ran[i].id < s.tasks.nextId {
      assert b.ran[i] in b.ran;
      DueIsNotLater(s.tasks.queue, now, b.ran[i]);
    }
    forall i, j | 0 <= i < j < |b.ran| ensures b.ran[i].id != b.ran[j].id {
      assert Before(b.ran[i], b.ran[j]);
      assert b.ran[i] in s.tasks.queue && b.ran[j] in s.tasks.queue;
    }
  }

  lemma DueIsNotLater(q: seq<Task>, now: nat, t: Task)
    requires Sorted(q) && Distinct(q) && t in q && t.when <= now
    ensures !Queued(q[UpTo(q, now)..], t.id)
  {}

  lemma TailIsMiddle(r: State, due: seq<Task>, copied: map<nat, Callback>, limit: nat)
    requires due != [] && Middle(r, due, copied, limit)
    ensures Middle(r, due[1..], copied, limit)
  {}

  lemma BatchStepKeeps(r: State, due: seq<Task>, copied: map<nat, Callback>, limit: nat, cb: Callback, inp: Input)
    requires due != [] && Middle(r, due, copied, limit) && r.tasks.nextId + 1 < TWO_TO_32
    ensures Middle(RunCallback(r, cb, inp), due[1..], copied, limit)
    ensures RunCallback(r, cb, inp).tasks.nextId <= r.tasks.nextId + 1
  {
    TailIsMiddle(r, due, copied, limit);
    RunCallbackKeepsMiddle(r, due[1..], copied, limit, cb, inp);
  }

  /** Running the next callback of a batch is firing the first pending task. */
  lemma BatchStep(r: State, due: seq<Task>, copied: map<nat, Callback>, limit: nat, cb: Callback, inp: Input, now: nat)
    requires due != [] && Middle(r, due, copied, limit)
    requires cb == copied[due[0].id] && now <= inp.now && forall i | 0 <= i < |due| :: due[i].when <= now
    ensures var p := WithPending(r, due, copied);
      CanFire(p, inp.now) && WithPending(RunCallback(r, cb, inp), due[1..], copied) == Fire(p, inp)
  {
    PopPending(r.tasks, due, copied);
    assert DueBy(due[1..], inp.now, r.tasks.nextId);
    RunCallbackCommutes(r, due[1..], copied, cb, inp);
  }

  /** Main result: performing all due tasks is firing the live due ones, one by one. */
  lemma PerformIsFiring(s: State, now: nat, inp: nat -> Input)
    requires Valid(s.tasks) && InputsOk(now, inp) && s.tasks.nextId + |Collect(s.tasks, now).ran| < TWO_TO_32
    ensures Perform(s, now, inp) == FireN(Dropped(s, now), inp, |Collect(s.tasks, now).ran|)
  {
    var b := Collect(s.tasks, now);
    CallbacksAreCopied(s, now);
    BatchIsFiring(s, now, inp, |b.ran|);
    var r := Perform(s, now, inp);
    assert b.ran[|b.ran|..] == [];
    PendingNothing(r.tasks, s.tasks.live);
  }

  lemma PendingNothing(q: Queue<Callback>, copied: map<nat, Callback>)
    requires Timed(q)
    ensures Pending(q, [], copied) == q
  {}
}

/**
 The queue of delayed tasks (src/queuedtasks.cpp): a multiset ordered by due time, a map from
 id to callback from which tasks are erased lazily, and the cached time of the next task.
 Times are nanoseconds of the steady clock; None is the largest time point. Task ids are 32-bit
 and wrap.
 */
module Tasks {
  import opened Durations
  import opened Wrappers

  const TWO_TO_32: nat := 0x1_0000_0000
  const NO_TASK_WAIT: nat := 0xFFFF_FFFF

  datatype Task = Task(when: nat, id: nat)

  datatype Queue<T> = Queue(nextId: nat, queue: seq<Task>, live: map<nat, T>, next: Option<nat>)

  /** What a callback may do to the queue while it runs, each with the clock it reads. */
  datatype Op<T> = Add(callback: T, delayMs: nat, now: nat) | Erase(id: nat)

  /** The due tasks taken out by performAll, with the callbacks it copied, in the order they run. */
  datatype Batch<T> = Batch(rest: Queue<T>, ran: seq<Task>, callbacks: seq<T>)

  function Empty<T>(): Queue<T> {
    Queue(1, [], map[], None)
  }

  function MinTime(a: Option<nat>, b: nat): Option<nat> {
    Some(if a.Some? && a.value < b then a.value else b)
  }

  /** All operations of the first n callbacks of a batch. */
  function Reactions<T>(reactions: nat -> seq<Op<T>>, n: nat): seq<Op<T>> {
    if n == 0 then [] else Reactions(reactions, n - 1) + reactions(n - 1)
  }

  /** The number of leading tasks due at a time; in a sorted queue, all that are. */
  function UpTo(q: seq<Task>, time: nat): (k: nat)
    ensures k <= |q|
  {
    if q == [] || q[0].when > time then 0 else 1 + UpTo(q[1..], time)
  }

  /** A multiset inserts behind its equals. */
  function Insert(q: seq<Task>, t: Task): seq<Task> {
    var k := UpTo(q, t.when);
    q[..k] + [t] + q[k..]
  }

  function AddTask<T>(q: Queue<T>, f: T, delayMs: nat, now: nat): Queue<T> {
    var when := now + delayMs * MILLISECOND;
    Queue((q.nextId + 1) % TWO_TO_32, Insert(q.queue, Task(when, q.nextId)), q.live[q.nextId := f], MinTime(q.next, when))
  }

  function EraseTask<T>(q: Queue<T>, id: nat): Queue<T> {
    q.(live := q.live - {id})
  }

  function Do<T>(q: Queue<T>, op: Op<T>): Queue<T> {
    match op
    case Add(f, delayMs, now) => AddTask(q, f, delayMs, now)
    case Erase(id) => EraseTask(q, id)
  }

  function DoAll<T>(q: Queue<T>, ops: seq<Op<T>>): Queue<T> {
    if ops == [] then q else Do(DoAll(q, ops[..|ops| - 1]), ops[|ops| - 1])
  }

  /** Whether a task's callback is still there. */
  function Take<T>(b: Batch<T>, t: Task): Batch<T> {
    if t.id in b.rest.live then
      Batch(b.rest.(live := b.rest.live - {t.id}), b.ran + [t], b.callbacks + [b.rest.live[t.id]])
    else b
  }

  function TakeFirst<T>(q: Queue<T>, k: nat): Batch<T>
    requires k <= |q.queue|
  {
    if k == 0 then Batch(q, [], []) else Take(TakeFirst(q, k - 1), q.queue[k - 1])
  }

  function Head(q: seq<Task>): Option<nat> {
    if q == [] then None else Some(q[0].when)
  }

  /** The collecting half of performAll. */
  function Collect<T>(q: Queue<T>, now: nat): Batch<T> {
    var k := UpTo(q.queue, now);
    var b := TakeFirst(q, k);
    b.(rest := b.rest.(queue := q.queue[k..], next := Head(q.queue[k..])))
  }

  /** Milliseconds until the next task, cast to 32 bits. */
  function TimeTillNext<T>(q: Queue<T>, now: nat): nat {
    if q.live == map[] then NO_TASK_WAIT
    else if q.next == None || q.next.value <= now then 0
    else ((q.next.value - now) / MILLISECOND) % TWO_TO_32
  }

  // ---------- invariants ----------

  predicate Sorted(q: seq<Task>) {
    forall i, j | 0 <= i < j < |q| :: q[i].when <= q[j].when
  }

  /** Kept by every operation: sorted by due time, and `next` is the earliest queued time. */
  predicate Timed<T>(q: Queue<T>) {
    Sorted(q.queue) && q.next == Head(q.queue)
  }

  /** Due earlier, or due at the same time and added earlier. */
  predicate Before(a: Task, b: Task) {
    a.when < b.when || (a.when == b.when && a.id < b.id)
  }

  predicate RunsInOrder(r: seq<Task>) {
    forall i, j | 0 <= i < j < |r| :: Before(r[i], r[j])
  }

  predicate Distinct(q: seq<Task>) {
    forall i, j | 0 <= i < j < |q| :: q[i].id != q[j].id
  }

  predicate IdsBelow(q: seq<Task>, limit: nat) {
    forall i | 0 <= i < |q| :: 1 <= q[i].id < limit
  }

  predicate IdsOk(q: seq<Task>, limit: nat) {
    IdsBelow(q, limit) && Distinct(q) && RunsInOrder(q)
  }

  predicate Queued(q: seq<Task>, id: nat) {
    exists i :: 0 <= i < |q| && q[i].id == id
  }

  /** Besides: as long as ids have not wrapped, ids are distinct and grow with insertion. */
  predicate Valid<T>(q: Queue<T>) {
    && Timed(q) && 1 <= q.nextId < TWO_TO_32 && IdsOk(q.queue, q.nextId)
    && forall id | id in q.live :: Queued(q.queue, id)
  }

  /** `next` is the minimum over everything queued, also over lazily erased tasks. */
  lemma NextIsMinimum<T>(q: Queue<T>)
    requires Timed(q)
    ensures q.next == None <==> q.queue == []
    ensures q.next.Some? ==> (exists i :: 0 <= i < |q.queue| && q.queue[i].when == q.next.value)
    ensures q.next.Some? ==> forall i | 0 <= i < |q.queue| :: q.next.value <= q.queue[i].when
  {}

  lemma {:induction false} UpToSplits(q: seq<Task>, now: nat)
    requires Sorted(q)
    ensures var k := UpTo(q, now);
      (forall i | 0 <= i < k :: q[i].when <= now) && (forall i | k <= i < |q| :: q[i].when > now)
  {
    if q != [] && q[0].when <= now {
      UpToSplits(q[1..], now);
      assert forall i | 1 <= i < |q| :: q[i] == q[1..][i - 1];
    }
  }

  lemma InsertSorted(q: seq<Task>, t: Task)
    requires Sorted(q)
    ensures Sorted(Insert(q, t))
    ensures Head(Insert(q, t)) == if q == [] || t.when < q[0].when then Some(t.when) else Some(q[0].when)
  {
    UpToSplits(q, t.when);
  }

  lemma InsertMembers(q: seq<Task>, t: Task)
    ensures forall x :: x in Insert(q, t) <==> x in q || x == t
  {}

  lemma InsertIds(q: seq<Task>, t: Task)
    requires Sorted(q) && IdsOk(q, t.id) && 1 <= t.id
    ensures IdsOk(Insert(q, t), t.id + 1)
  {
    UpToSplits(q, t.when);
    InsertInMiddle(q[..UpTo(q, t.when)], t, q[UpTo(q, t.when)..]);
  }

  lemma InsertInMiddle(a: seq<Task>, t: Task, b: seq<Task>)
    requires IdsOk(a, t.id) && IdsOk(b, t.id) && 1 <= t.id
    requires forall i, j | 0 <= i < |a| && 0 <= j < |b| :: Before(a[i], b[j]) && a[i].id != b[j].id
    requires forall i | 0 <= i < |a| :: a[i].when <= t.when
    requires forall j | 0 <= j < |b| :: t.when < b[j].when
    ensures IdsOk(a + [t] + b, t.id + 1)
  {}

  lemma AddKeepsTimed<T>(q: Queue<T>, f: T, delayMs: nat, now: nat)
    requires Timed(q)
    ensures Timed(AddTask(q, f, delayMs, now))
  {
    InsertSorted(q.queue, Task(now + delayMs * MILLISECOND, q.nextId));
  }

  lemma AddKeepsLiveQueued<T>(q: Queue<T>, f: T, delayMs: nat, now: nat)
    requires forall id | id in q.live :: Queued(q.queue, id)
    ensures forall id | id in AddTask(q, f, delayMs, now).live :: Queued(AddTask(q, f, delayMs, now).queue, id)
  {
    var t, a := Task(now + delayMs * MILLISECOND, q.nextId), AddTask(q, f, delayMs, now);
    InsertMembers(q.queue, t);
    forall id | id in a.live ensures Queued(a.queue, id) {
      if id == q.nextId {
        assert t in a.queue;
      } else {
        var i :| 0 <= i < |q.queue| && q.queue[i].id == id;
        assert q.queue[i] in a.queue;
      }
    }
  }

  /** An add keeps the queue valid exactly when the id counter does not wrap. */
  lemma AddKeepsValid<T>(q: Queue<T>, f: T, delayMs: nat, now: nat)
    requires Valid(q)
    ensures Valid(AddTask(q, f, delayMs, now)) <==> q.nextId + 1 < TWO_TO_32
  {
    AddKeepsTimed(q, f, delayMs, now);
    InsertIds(q.queue, Task(now + delayMs * MILLISECOND, q.nextId));
    AddKeepsLiveQueued(q, f, delayMs, now);
  }

  // ---------- the wait ----------

  /** Every queued task was added, with a 32-bit delay, no later than now. */
  predicate WithinHorizon(q: seq<Task>, now: nat) {
    forall i | 0 <= i < |q| :: q[i].when <= now + NO_TASK_WAIT * MILLISECOND
  }

  lemma AddKeepsHorizon<T>(q: Queue<T>, f: T, delayMs: nat, now: nat, later: nat)
    requires Timed(q) && WithinHorizon(q.queue, now) && delayMs < TWO_TO_32 && now <= later
    ensures WithinHorizon(AddTask(q, f, delayMs, now).queue, later)
  {}

  /** The wait is never cut by the cast, and never outlasts the time left to a live task. */
  lemma WaitIsExactAndNotTooLong<T>(q: Queue<T>, now: nat, id: nat)
    requires Valid(q) && WithinHorizon(q.queue, now) && id in q.live
    ensures q.next.Some?
    ensures TimeTillNext(q, now) == (if q.next.value <= now then 0 else (q.next.value - now) / MILLISECOND)
    ensures exists i :: 0 <= i < |q.queue| && q.queue[i].id == id
              && TimeTillNext(q, now) * MILLISECOND <= (if q.queue[i].when <= now then 0 else q.queue[i].when - now)
  {}

  /** Without a live task the wait is the longest there is; with one it is the time left, modulo 2^32. */
  lemma WaitFits32Bits<T>(q: Queue<T>, now: nat)
    ensures TimeTillNext(q, now) < 0x1_0000_0000
    ensures q.live == map[] ==> TimeTillNext(q, now) == 0xFFFF_FFFF
    ensures q.live != map[] && q.next.Some? && q.next.value > now ==>
      (TimeTillNext(q, now) - (q.next.value - now) / 1_000_000) % 0x1_0000_0000 == 0
  {}

  /** Ids are handed out in order and wrap after 2^32 of them. */
  lemma IdsWrapAround<T>(q: Queue<T>, f: T, delayMs: nat, now: nat)
    requires q.nextId < 0x1_0000_0000
    ensures AddTask(q, f, delayMs, now).nextId == if q.nextId == 0xFFFF_FFFF then 0 else q.nextId + 1
  {}

  // ---------- performAll ----------

  /** Those of the tasks that are live, in order. */
  function LiveOf<T>(ts: seq<Task>, live: map<nat, T>): seq<Task> {
    if ts == [] then []
    else LiveOf(ts[..|ts| - 1], live) + (if ts[|ts| - 1].id in live then [ts[|ts| - 1]] else [])
  }

  /** Taking the first k tasks runs each live one once, with its own callback, and unregisters it. */
  lemma {:induction false} TakesLive<T>(q: Queue<T>, k: nat)
    requires k <= |q.queue| && Distinct(q.queue)
    ensures var b := TakeFirst(q, k);
      && b.ran == LiveOf(q.queue[..k], q.live) && |b.callbacks| == |b.ran|
      && b.rest == q.(live := b.rest.live)
      && (forall id :: id in b.rest.live <==> id in q.live && !Queued(q.queue[..k], id))
      && (forall id | id in b.rest.live :: b.rest.live[id] == q.live[id])
      && (forall i | 0 <= i < |b.ran| :: b.ran[i].id in q.live && b.callbacks[i] == q.live[b.ran[i].id])
  {
    if k > 0 {
      TakesLive(q, k - 1);
      var t := q.queue[k - 1];
      assert q.queue[..k][..k - 1] == q.queue[..k - 1];
      assert !Queued(q.queue[..k - 1], t.id);
      forall id ensures Queued(q.queue[..k], id) <==> Queued(q.queue[..k - 1], id) || id == t.id {
        QueuedAppend(q.queue[..k - 1], t, id);
        assert q.queue[..k] == q.queue[..k - 1] + [t];
      }
    }
  }

  lemma QueuedAppend(q: seq<Task>, t: Task, id: nat)
    ensures Queued(q + [t], id) <==> Queued(q, id) || id == t.id
  {
    if Queued(q, id) {
      var i :| 0 <= i < |q| && q[i].id == id;
      assert (q + [t])[i].id == id;
    }
    assert (q + [t])[|q|] == t;
  }

  lemma {:induction false} LiveOfHas<T>(ts: seq<Task>, live: map<nat, T>)
    ensures forall t :: t in LiveOf(ts, live) <==> t in ts && t.id in live
  {
    if ts != [] {
      LiveOfHas(ts[..|ts| - 1], live);
      assert ts == ts[..|ts| - 1] + [ts[|ts| - 1]];
    }
  }

  lemma {:induction false} LiveOfIsOrdered<T>(ts: seq<Task>, live: map<nat, T>)
    requires RunsInOrder(ts)
    ensures RunsInOrder(LiveOf(ts, live))
  {
    if ts != [] {
      var init, last := ts[..|ts| - 1], ts[|ts| - 1];
      LiveOfIsOrdered(init, live);
      LiveOfHas(init, live);
      var r := LiveOf(init, live);
      forall i | 0 <= i < |r| ensures Before(r[i], last) {
        assert r[i] in r;
        var j :| 0 <= j < |init| && init[j] == r[i];
        assert Before(ts[j], ts[|ts| - 1]);
      }
    }
  }

  lemma PartOfOrdered(q: seq<Task>, i: nat, j: nat, limit: nat)
    requires i <= j <= |q| && IdsOk(q, limit) && Sorted(q)
    ensures IdsOk(q[i..j], limit) && Sorted(q[i..j])
  {}

  lemma DueAndLater(q: seq<Task>, now: nat)
    requires Sorted(q)
    ensures forall t :: t in q[..UpTo(q, now)] <==> t in q && t.when <= now
    ensures forall t :: t in q[UpTo(q, now)..] <==> t in q && t.when > now
  {}

  lemma QueuedInOneHalf(q: seq<Task>, k: nat, id: nat)
    requires k <= |q| && Distinct(q) && Queued(q, id)
    ensures Queued(q[k..], id) <==> !Queued(q[..k], id)
  {}

  /** What is left registered after the collecting half: exactly the live tasks not yet due. */
  lemma CollectLeavesTheRest<T>(q: Queue<T>, now: nat)
    requires Valid(q)
    ensures var b := Collect(q, now);
      && Valid(b.rest) && b.rest.nextId == q.nextId && b.rest.queue == q.queue[UpTo(q.queue, now)..]
      && (forall id :: id in b.rest.live <==> id in q.live && Queued(b.rest.queue, id))
      && (forall id | id in b.rest.live :: b.rest.live[id] == q.live[id])
  {
    var k := UpTo(q.queue, now);
    TakesLive(q, k);
    PartOfOrdered(q.queue, k, |q.queue|, q.nextId);
    forall id | id in q.live ensures Queued(q.queue[k..], id) <==> !Queued(q.queue[..k], id) {
      QueuedInOneHalf(q.queue, k, id);
    }
  }

  /**
   Main result, first half: performAll runs exactly the tasks that were live on entry and due,
   each once and with its own callback, by due time and then by insertion.
   */
  lemma RunsExactlyTheDue<T>(q: Queue<T>, now: nat)
    requires Valid(q)
    ensures forall t :: t in Collect(q, now).ran <==> t in q.queue && t.when <= now && t.id in q.live
    ensures RunsInOrder(Collect(q, now).ran)
    ensures var b := Collect(q, now);
      |b.callbacks| == |b.ran| && forall i | 0 <= i < |b.ran| :: b.ran[i].id in q.live && b.callbacks[i] == q.live[b.ran[i].id]
  {
    var k := UpTo(q.queue, now);
    TakesLive(q, k);
    PartOfOrdered(q.queue, 0, k, q.nextId);
    assert q.queue[0..k] == q.queue[..k];
    LiveOfHas(q.queue[..k], q.live);
    LiveOfIsOrdered(q.queue[..k], q.live);
    DueAndLater(q.queue, now);
  }

  // ---------- operations from inside callbacks ----------

  function Adds<T>(ops: seq<Op<T>>): nat {
    if ops == [] then 0 else Adds(ops[..|ops| - 1]) + (if ops[|ops| - 1].Add? then 1 else 0)
  }

  predicate NewOrOld(a: seq<Task>, b: seq<Task>, limit: nat) {
    && (forall t | t in b :: t in a || t.id >= limit)
    && (forall t | t in a :: t in b)
  }

  lemma InsertIsNew(a: seq<Task>, b: seq<Task>, t: Task, limit: nat)
    requires NewOrOld(a, b, limit) && t.id >= limit
    ensures NewOrOld(a, Insert(b, t), limit)
  {}

  lemma DoKeeps<T>(first: seq<Task>, limit: nat, q: Queue<T>, op: Op<T>)
    requires Valid(q) && (op.Add? ==> q.nextId + 1 < TWO_TO_32) && NewOrOld(first, q.queue, limit) && limit <= q.nextId
    ensures Valid(Do(q, op)) && NewOrOld(first, Do(q, op).queue, limit)
    ensures Do(q, op).nextId == if op.Add? then q.nextId + 1 else q.nextId
  {
    if op.Add? {
      AddKeepsValid(q, op.callback, op.delayMs, op.now);
      InsertIsNew(first, q.queue, Task(op.now + op.delayMs * MILLISECOND, q.nextId), limit);
    }
  }

  /** Operations keep the queue valid, keep every queued task, and add only tasks with new ids. */
  lemma {:induction false} OperationsKeepTheRest<T>(q: Queue<T>, ops: seq<Op<T>>)
    requires Valid(q) && q.nextId + Adds(ops) < TWO_TO_32
    ensures Valid(DoAll(q, ops)) && DoAll(q, ops).nextId == q.nextId + Adds(ops)
    ensures NewOrOld(q.queue, DoAll(q, ops).queue, q.nextId)
  {
    if ops != [] {
      OperationsKeepTheRest(q, ops[..|ops| - 1]);
      DoKeeps(q.queue, q.nextId, DoAll(q, ops[..|ops| - 1]), ops[|ops| - 1]);
    }
  }

  /**
   Main result, second half: whatever the callbacks do to the queue, afterwards it is valid, it
   holds every entry that was not yet due, and every other entry is a task the callbacks added.
   */
  lemma LeavesLaterAndNew<T>(q: Queue<T>, now: nat, reactions: nat -> seq<Op<T>>)
    requires Valid(q)
    requires q.nextId + Adds(Reactions(reactions, |Collect(q, now).ran|)) < TWO_TO_32
    ensures var a := DoAll(Collect(q, now).rest, Reactions(reactions, |Collect(q, now).ran|));
      && Valid(a)
      && (forall t | t in q.queue && t.when > now :: t in a.queue)
      && (forall t | t in a.queue :: (t in q.queue && t.when > now) || t.id >= q.nextId)
  {
    CollectLeavesTheRest(q, now);
    DueAndLater(q.queue, now);
    OperationsKeepTheRest(Collect(q, now).rest, Reactions(reactions, |Collect(q, now).ran|));
  }

  lemma {:induction false} DoAllAppend<T>(q: Queue<T>, a: seq<Op<T>>, b: seq<Op<T>>)
    ensures DoAll(q, a + b) == DoAll(DoAll(q, a), b)
  {
    if b == [] {
      assert a + b == a;
    } else {
      DoAllAppend(q, a, b[..|b| - 1]);
      assert (a + b)[..|a + b| - 1] == a + b[..|b| - 1];
    }
  }

  lemma {:induction false} UpToIs(q: seq<Task>, now: nat, k: nat)
    requires k <= |q| && (forall i | 0 <= i < k :: q[i].when <= now) && (k < |q| ==> q[k].when > now)
    ensures UpTo(q, now) == k
  {
    if k > 0 {
      assert forall i | 0 <= i < k - 1 :: q[1..][i] == q[i + 1];
      UpToIs(q[1..], now, k - 1);
    }
  }

  // ---------- the object ----------

  class QueuedTasks<T> {
    var nextId: nat
    var queue: seq<Task>
    var live: map<nat, T>
    var next: Option<nat>

    function View(): Queue<T>
      reads this
    {
      Queue(nextId, queue, live, next)
    }

    constructor ()
      ensures View() == Empty() && Valid(View())
    {
      nextId, queue, live, next := 1, [], map[], None;
    }

    method Add(f: T, delayMs: nat, now: nat) returns (id: nat)
      modifies this
      ensures View() == AddTask(old(View()), f, delayMs, now) && id == old(nextId)
      ensures old(Timed(View())) ==> Timed(View())
      ensures old(Valid(View())) && old(nextId) + 1 < TWO_TO_32 ==> Valid(View())
    {
      ghost var timed, valid := Timed(View()), Valid(View());
      if timed {
        AddKeepsTimed(View(), f, delayMs, now);
      }
      if valid {
        AddKeepsValid(View(), f, delayMs, now);
      }
      var when := now + delayMs * MILLISECOND;
      id := nextId;
      nextId := (nextId + 1) % TWO_TO_32;
      live := live[id := f];
      queue := Insert(queue, Task(when, id));
      next := MinTime(next, when);
    }

    /** Erases only the callback; the queue entry stays until it is due. */
    method Erase(id: nat)
      modifies `live
      ensures View() == EraseTask(old(View()), id)
    {
      live := live - {id};
    }

    method GetTimeTillNext(now: nat) returns (ms: nat)
      ensures ms == TimeTillNext(View(), now)
      ensures Valid(View()) && WithinHorizon(queue, now) && live != map[] ==>
        next.Some? && ms * MILLISECOND <= (if next.value <= now then 0 else next.value - now)
    {
      if live == map[] {
        return NO_TASK_WAIT;
      }
      var left := if next == None || next.value <= now then 0 else (next.value - now) / MILLISECOND;
      ms := left % TWO_TO_32;
      ghost var exact := Valid(View()) && WithinHorizon(queue, now);
      if exact {
        ghost var id :| id in live;
        WaitIsExactAndNotTooLong(View(), now, id);
      }
    }

    /** `reactions(i)` is what the i-th callback does to the queue while it runs. */
    method PerformAll(now: nat, reactions: nat -> seq<Op<T>>) returns (ran: seq<Task>, callbacks: seq<T>)
      modifies this
      ensures var b := Collect(old(View()), now);
        ran == b.ran && callbacks == b.callbacks && View() == DoAll(b.rest, Reactions(reactions, |callbacks|))
    {
      ran, callbacks := TakeDue(now);
      ghost var rest := View();
      for i := 0 to |callbacks|
        invariant View() == DoAll(rest, Reactions(reactions, i))
      {
        DoAllAppend(rest, Reactions(reactions, i), reactions(i));
        RunOne(reactions(i));
      }
    }

    /** Copies the due callbacks and takes their tasks out, before any of them runs. */
    method TakeDue(now: nat) returns (ran: seq<Task>, callbacks: seq<T>)
      modifies this
      ensures Batch(View(), ran, callbacks) == Collect(old(View()), now)
    {
      next := None;
      ran, callbacks := [], [];
      ghost var k := 0;
      ghost var before := old(View());
      while queue != []
        invariant k <= |before.queue| && queue == before.queue[k..]
        invariant forall i | 0 <= i < k :: before.queue[i].when <= now
        invariant nextId == before.nextId && next == None
        invariant TakeFirst(before, k) == Batch(before.(live := live), ran, callbacks)
        decreases |queue|
      {
        var t := queue[0];
        if t.when > now {
          next := Some(t.when);
          break;
        }
        queue := queue[1..];
        k := k + 1;
        if t.id in live {
          ran := ran + [t];
          callbacks := callbacks + [live[t.id]];
          live := live - {t.id};
        }
      }
      UpToIs(before.queue, now, k);
    }

    method RunOne(ops: seq<Op<T>>)
      modifies this
      ensures View() == DoAll(old(View()), ops)
    {
      for i := 0 to |ops|
        invariant View() == DoAll(old(View()), ops[..i])
      {
        assert ops[..i + 1][..i] == ops[..i];
        match ops[i]
        case Add(f, delayMs, now) => var id := Add(f, delayMs, now);
        case Erase(id) => Erase(id);
      }
      assert ops[..|ops|] == ops;
    }
  }
}

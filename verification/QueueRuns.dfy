/**
 Whole runs of the task queue: adds, erases and performAll calls whose callbacks add and erase,
 from the empty queue on. What the queue says about the time to wait is right in all of them.
 */
module QueueRuns {
  import opened Durations
  import opened Tasks

  datatype Use<!T> = Operate(op: Op<T>) | Perform(now: nat, reactions: nat -> seq<Op<T>>)

  /** What the callbacks of one performAll do. */
  function Reacted<T>(q: Queue<T>, now: nat, reactions: nat -> seq<Op<T>>): seq<Op<T>> {
    Reactions(reactions, |Collect(q, now).ran|)
  }

  function After<T>(q: Queue<T>, u: Use<T>): Queue<T> {
    match u
    case Operate(op) => Do(q, op)
    case Perform(now, reactions) => DoAll(Collect(q, now).rest, Reacted(q, now, reactions))
  }

  function RunOf<T>(us: seq<Use<T>>): Queue<T> {
    if us == [] then Empty() else After(RunOf(us[..|us| - 1]), us[|us| - 1])
  }

  // ---------- steady readings, 32-bit delays, ids to spare ----------

  predicate OpOk<T>(op: Op<T>, last: nat) {
    op.Add? ==> op.delayMs < TWO_TO_32 && last <= op.now
  }

  function AfterOp<T>(op: Op<T>, last: nat): nat {
    if op.Add? then op.now else last
  }

  predicate OpsOk<T>(ops: seq<Op<T>>, last: nat) {
    ops != [] ==> OpsOk(ops[..|ops| - 1], last) && OpOk(ops[|ops| - 1], AfterOps(ops[..|ops| - 1], last))
  }

  /** The last reading of the clock. */
  function AfterOps<T>(ops: seq<Op<T>>, last: nat): nat {
    if ops == [] then last else AfterOp(ops[|ops| - 1], AfterOps(ops[..|ops| - 1], last))
  }

  predicate UseOk<T>(q: Queue<T>, u: Use<T>, last: nat) {
    match u
    case Operate(op) => OpOk(op, last) && q.nextId + 1 < TWO_TO_32
    case Perform(now, reactions) =>
      var ops := Reacted(q, now, reactions);
      last <= now && OpsOk(ops, now) && q.nextId + Adds(ops) < TWO_TO_32
  }

  function AfterUse<T>(q: Queue<T>, u: Use<T>, last: nat): nat {
    match u
    case Operate(op) => AfterOp(op, last)
    case Perform(now, reactions) => AfterOps(Reacted(q, now, reactions), now)
  }

  function LastOf<T>(us: seq<Use<T>>): nat {
    if us == [] then 0 else AfterUse(RunOf(us[..|us| - 1]), us[|us| - 1], LastOf(us[..|us| - 1]))
  }

  predicate RunOk<T>(us: seq<Use<T>>) {
    us != [] ==>
      var init := us[..|us| - 1];
      RunOk(init) && UseOk(RunOf(init), us[|us| - 1], LastOf(init))
  }

  // ---------- the horizon ----------

  lemma LaterHorizon(q: seq<Task>, now: nat, later: nat)
    requires WithinHorizon(q, now) && now <= later
    ensures WithinHorizon(q, later)
  {}

  lemma DoKeepsHorizon<T>(q: Queue<T>, op: Op<T>, last: nat)
    requires Timed(q) && WithinHorizon(q.queue, last) && OpOk(op, last)
    ensures Timed(Do(q, op)) && WithinHorizon(Do(q, op).queue, AfterOp(op, last))
  {
    if op.Add? {
      AddKeepsTimed(q, op.callback, op.delayMs, op.now);
      LaterHorizon(q.queue, last, op.now);
      AddKeepsHorizon(q, op.callback, op.delayMs, op.now, op.now);
    }
  }

  lemma {:induction false} DoAllKeepsHorizon<T>(q: Queue<T>, ops: seq<Op<T>>, last: nat)
    requires Timed(q) && WithinHorizon(q.queue, last) && OpsOk(ops, last)
    ensures Timed(DoAll(q, ops)) && WithinHorizon(DoAll(q, ops).queue, AfterOps(ops, last))
  {
    if ops != [] {
      DoAllKeepsHorizon(q, ops[..|ops| - 1], last);
      DoKeepsHorizon(DoAll(q, ops[..|ops| - 1]), ops[|ops| - 1], AfterOps(ops[..|ops| - 1], last));
    }
  }

  lemma UseKeeps<T>(q: Queue<T>, u: Use<T>, last: nat)
    requires Valid(q) && WithinHorizon(q.queue, last) && UseOk(q, u, last)
    ensures Valid(After(q, u)) && WithinHorizon(After(q, u).queue, AfterUse(q, u, last))
  {
    match u
    case Operate(op) =>
      DoKeeps(q.queue, q.nextId, q, op);
      DoKeepsHorizon(q, op, last);
    case Perform(now, reactions) =>
      CollectLeavesTheRest(q, now);
      LaterHorizon(q.queue, last, now);
      var b := Collect(q, now).rest;
      OperationsKeepTheRest(b, Reacted(q, now, reactions));
      DoAllKeepsHorizon(b, Reacted(q, now, reactions), now);
  }

  lemma {:induction false} RunsKeepHorizon<T>(us: seq<Use<T>>)
    requires RunOk(us)
    ensures Valid(RunOf(us)) && WithinHorizon(RunOf(us).queue, LastOf(us))
    decreases |us|
  {
    if us != [] {
      var init := us[..|us| - 1];
      RunsKeepHorizon(init);
      UseKeeps(RunOf(init), us[|us| - 1], LastOf(init));
    }
  }

  /**
   Main result: after every run from the empty queue, at every later time, the wait is not cut
   by the cast to 32 bits and does not outlast the time left to any live task.
   */
  lemma WaitIsRightInEveryRun<T>(us: seq<Use<T>>, now: nat, id: nat)
    requires RunOk(us) && LastOf(us) <= now && id in RunOf(us).live
    ensures var q := RunOf(us);
      && q.next.Some?
      && TimeTillNext(q, now) == (if q.next.value <= now then 0 else (q.next.value - now) / MILLISECOND)
      && exists i :: 0 <= i < |q.queue| && q.queue[i].id == id
           && TimeTillNext(q, now) * MILLISECOND <= (if q.queue[i].when <= now then 0 else q.queue[i].when - now)
  {
    RunsKeepHorizon(us);
    LaterHorizon(RunOf(us).queue, LastOf(us), now);
    WaitIsExactAndNotTooLong(RunOf(us), now, id);
  }
}

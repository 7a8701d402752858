/**
 Exactly what a login costs, how many wrong passwords are evaluated between two ticks, and when
 even the right one is refused (src/flashmq-dbus-plugin.cpp). And what the tick gives back
 (src/state.cpp).
 */
module Logins {
  import opened Wrappers
  import opened Tasks
  import opened Timers
  import opened TimerFrames
  import opened RateLimit

  // ---------- one login ----------

  /** The cost of one attempt: a token of each kind, and a place in the history. */
  predicate CostsOne(s: State, a: State, password: string) {
    && a.shortTokens == s.shortTokens - 1 && a.longTokens == s.longTokens - 1
    && a.evaluated == s.evaluated + 1 && a.history == s.history + {password}
  }

  /** A login is let in exactly with tokens left and the right password; else a denial is scheduled, and nothing else happens but the cost. */
  predicate LetInOrDenied(s: State, a: State, right: bool, delayMs: nat, now: nat) {
    if right && s.shortTokens > 0 && s.longTokens > 0 then a == s
    else
      && a.tasks == AddTask(s.tasks, DelayedDeny, delayMs, now)
      && a.(tasks := s.tasks, shortTokens := s.shortTokens, longTokens := s.longTokens, evaluated := s.evaluated, history := s.history) == s
  }

  /** Main result for one login: with tokens left, a wrong password not seen before costs one token of each kind; in every other case a login costs none. */
  lemma LoginCostsExactly(s: State, password: string, right: bool, delayMs: nat, now: nat)
    requires TokensOk(s)
    ensures var a := Login(s, password, right, delayMs, now);
      && LetInOrDenied(s, a, right, delayMs, now)
      && if s.shortTokens > 0 && s.longTokens > 0 && !right && password !in s.history then CostsOne(s, a, password)
         else SameLogins(s, a)
  {}

  // ---------- between two ticks ----------

  /** The wrong passwords tried. */
  function Wrong(es: seq<Event>): set<string> {
    if es == [] then {} else Wrong(es[..|es| - 1]) + WrongIn(es[|es| - 1])
  }

  function WrongIn(e: Event): set<string> {
    if e.TryLogin? && !e.right then {e.password} else {}
  }

  /** Evaluations are counted against the tokens of either kind. */
  function Tokens(s: State): int {
    Least(s.shortTokens, s.longTokens)
  }

  /** From s to a, with these wrong passwords tried: as many as are unseen are evaluated while tokens last. */
  predicate Evaluated(s: State, wrong: set<string>, a: State) {
    var n := Least(|wrong - s.history|, Tokens(s));
    && TokensOk(a)
    && a.evaluated == s.evaluated + n && a.shortTokens == s.shortTokens - n && a.longTokens == s.longTokens - n
    && s.history <= a.history <= s.history + wrong
    && (|wrong - s.history| <= Tokens(s) ==> a.history == s.history + wrong)
  }

  /** Only a tick gives anything back. */
  predicate SameUnlessTick(s: State, a: State) {
    s.ticks <= a.ticks && (a.ticks == s.ticks ==> SameLogins(s, a))
  }

  lemma CallbackSame(s: State, cb: Callback, inp: Input)
    ensures SameUnlessTick(s, RunCallback(s, cb, inp))
  {}

  lemma {:induction false} BatchSame(s: State, callbacks: seq<Callback>, inp: nat -> Input, n: nat)
    requires n <= |callbacks|
    ensures SameUnlessTick(s, RunBatch(s, callbacks, inp, n))
    decreases n
  {
    if n > 0 {
      BatchSame(s, callbacks, inp, n - 1);
      CallbackSame(RunBatch(s, callbacks, inp, n - 1), callbacks[n - 1], inp(n - 1));
    }
  }

  lemma OthersSame(s: State, e: Event)
    requires !e.TryLogin?
    ensures SameUnlessTick(s, Next(s, e))
  {
    match e
    case KeepAlive(suppress, completes, now) => KeepAliveEffect(s, suppress, completes, now);
    case PerformTasks(now, inp) =>
      var b := Collect(s.tasks, now);
      BatchSame(s.(tasks := b.rest), b.callbacks, inp, |b.callbacks|);
    case _ => OthersKeepLimits(s, e);
  }

  lemma SeenCostsNothing(s: State, wrong: set<string>, a: State, b: State)
    requires Evaluated(s, wrong, a) && SameLogins(a, b) && TokensOk(b)
    ensures Evaluated(s, wrong, b)
  {}

  /** One more wrong password. */
  lemma OneMoreWrong(s: State, wrong: set<string>, a: State, password: string, b: State)
    requires TokensOk(s) && Evaluated(s, wrong, a) && TokensOk(b)
    requires if a.shortTokens > 0 && a.longTokens > 0 && password !in a.history then CostsOne(a, b, password) else SameLogins(a, b)
    ensures Evaluated(s, wrong + {password}, b)
  {
    var unseen := wrong - s.history;
    if password in s.history || password in wrong {
      assert wrong + {password} - s.history == unseen;
      assert s.history + (wrong + {password}) == s.history + wrong;
    } else {
      assert wrong + {password} - s.history == unseen + {password};
      assert s.history + (wrong + {password}) == s.history + wrong + {password};
    }
  }

  lemma NextEvaluates(s: State, wrong: set<string>, a: State, e: Event)
    requires TokensOk(s) && Evaluated(s, wrong, a) && Next(a, e).ticks == a.ticks
    ensures Evaluated(s, wrong + WrongIn(e), Next(a, e))
  {
    NextPays(a, e);
    if e.TryLogin? {
      LoginCostsExactly(a, e.password, e.right, e.delayMs, e.now);
    } else {
      OthersSame(a, e);
    }
    if e.TryLogin? && !e.right {
      OneMoreWrong(s, wrong, a, e.password, Next(a, e));
    } else {
      SeenCostsNothing(s, wrong, a, Next(a, e));
      assert wrong + {} == wrong;
    }
  }

  /**
   Main result: over a run segment without a tick, as many evaluations happen as distinct wrong
   passwords not seen before were tried, while tokens last; each costs one token of each kind.
   */
  lemma {:induction false} SegmentCountsGuesses(s: State, es: seq<Event>)
    requires TokensOk(s) && Run(s, es).ticks == s.ticks
    ensures Evaluated(s, Wrong(es), Run(s, es))
    decreases |es|
  {
    if es == [] {
      assert {} - s.history == {};
    } else {
      var init, e := es[..|es| - 1], es[|es| - 1];
      TicksGrow(s, init);
      OneTicksGrow(Run(s, init), e);
      SegmentCountsGuesses(s, init);
      NextEvaluates(s, Wrong(init), Run(s, init), e);
    }
  }

  lemma OneTicksGrow(a: State, e: Event)
    ensures a.ticks <= Next(a, e).ticks
  {
    NextRepublishes(a, e);
  }

  /** Main result: after such a segment the right password is let in if and only if fewer unseen wrong ones were tried than there were tokens. */
  lemma RightIsLetInIff(s: State, es: seq<Event>, password: string, delayMs: nat, now: nat)
    requires TokensOk(s) && Run(s, es).ticks == s.ticks
    ensures var a := Run(s, es);
      LetsIn(a, password, true, delayMs, now) <==> |Wrong(es) - s.history| < Tokens(s)
  {
    SegmentCountsGuesses(s, es);
    LetsInIff(Run(s, es), password, true, delayMs, now);
  }

  /** No denial is scheduled. */
  predicate LetsIn(s: State, password: string, right: bool, delayMs: nat, now: nat) {
    Login(s, password, right, delayMs, now).tasks == s.tasks
  }

  lemma LetsInIff(s: State, password: string, right: bool, delayMs: nat, now: nat)
    ensures LetsIn(s, password, right, delayMs, now) <==> right && s.shortTokens > 0 && s.longTokens > 0
  {
    assert |AddTask(s.tasks, DelayedDeny, delayMs, now).queue| == |s.tasks.queue| + 1;
  }

  /** From plugin start until the first tick, the right password is let in exactly while fewer than 20 different wrong ones were tried. */
  lemma TwentyGuessesLockOut(online: bool, began: nat, es: seq<Event>, password: string, delayMs: nat, now: nat)
    requires Run(Start(online, began), es).ticks == 0
    ensures LetsIn(Run(Start(online, began), es), password, true, delayMs, now) <==> |Wrong(es)| < 20
  {
    var s := Start(online, began);
    assert Wrong(es) - s.history == Wrong(es);
    RightIsLetInIff(s, es, password, delayMs, now);
  }

  // ---------- what the tick gives back ----------

  /** One tick: the next one second later, all three republish tokens, one short-term token up to 20, and once a day all long-term tokens and an empty history. */
  lemma TickGivesBack(s: State, now: nat)
    ensures var a := RunTick(s, now);
      && a.ticks == s.ticks + 1 && a.keepAliveTokens == 3
      && a.tasks == AddTask(s.tasks, PerSecond, 1000, now) && a.periodId == s.tasks.nextId
      && a.shortTokens == Least(20, s.shortTokens + 1)
      && (if now > s.longResetAt + 86_400_000_000_000 then a.longTokens == 150 && a.history == {} && a.longResetAt == now
          else a.longTokens == s.longTokens && a.history == s.history && a.longResetAt == s.longResetAt)
      && a.evaluated == s.evaluated && a.republishes == s.republishes
  {}

  /** Every tick from s to a gave back one short-term token, up to 20. */
  predicate Refilled(s: State, a: State) {
    s.ticks <= a.ticks && a.shortTokens == Least(20, s.shortTokens + (a.ticks - s.ticks))
  }

  lemma CallbackRefillsShort(s: State, a: State, cb: Callback, inp: Input)
    requires Refilled(s, a)
    ensures Refilled(s, RunCallback(a, cb, inp))
  {}

  lemma {:induction false} BatchRefillsShort(s: State, a: State, callbacks: seq<Callback>, inp: nat -> Input, n: nat)
    requires n <= |callbacks| && Refilled(s, a)
    ensures Refilled(s, RunBatch(a, callbacks, inp, n))
    decreases n
  {
    if n > 0 {
      BatchRefillsShort(s, a, callbacks, inp, n - 1);
      CallbackRefillsShort(s, RunBatch(a, callbacks, inp, n - 1), callbacks[n - 1], inp(n - 1));
    }
  }

  lemma NextRefills(s: State, a: State, e: Event)
    requires TokensOk(a) && Refilled(s, a) && WrongIn(e) == {}
    ensures Refilled(s, Next(a, e))
  {
    match e
    case KeepAlive(suppress, completes, now) => KeepAliveEffect(a, suppress, completes, now);
    case PerformTasks(now, inp) =>
      var b := Collect(a.tasks, now);
      BatchRefillsShort(s, a.(tasks := b.rest), b.callbacks, inp, |b.callbacks|);
    case TryLogin(password, right, delayMs, now) =>
      LoginCostsExactly(a, password, right, delayMs, now);
      LoginFrame(a, password, right, delayMs, now);
    case _ => OthersKeepLimits(a, e);
  }

  /** Main result: over a run segment without a wrong password, k ticks give back k short-term tokens, up to 20. */
  lemma {:induction false} QuietSegmentRefills(s: State, es: seq<Event>)
    requires TokensOk(s) && Wrong(es) == {}
    ensures TokensOk(Run(s, es)) && Refilled(s, Run(s, es))
    decreases |es|
  {
    if es != [] {
      QuietSegmentRefills(s, es[..|es| - 1]);
      NextRefills(s, Run(s, es[..|es| - 1]), es[|es| - 1]);
      NextPays(Run(s, es[..|es| - 1]), es[|es| - 1]);
    }
  }
}

/**
 The mirror of one service agrees with the service's own values.

 A service speaks in one first-in first-out stream: signals with partial updates, and replies
 that report values it has at that point of the stream. `truth` is what the service's values
 are at the point of the stream that has been received. Before the reply to GetItems its
 signals are queued; some expire; the rest are replayed on top of the reply, older than it.

 At any one time the entries that have not expired are the newest ones, and replaying the
 newest part of what a service said changes none of its values. So the mirror agrees, unless
 an entry expires in the middle of the replaying pass.
 */
module Mirror {
  import opened Durations
  import opened Text
  import opened Variants
  import opened Items
  import opened Registry
  import opened DelayedChanges

  type Values = map<string, ValueMinMax>

  function Get(truth: Values, path: string): ValueMinMax {
    if path in truth then truth[path] else UNDEFINED
  }

  /** The values after the first n of these updates. */
  function Told(truth: Values, ups: seq<Update>, n: nat): Values
    requires n <= |ups|
    decreases n
  {
    if n == 0 then truth
    else
      var t, p := Told(truth, ups, n - 1), PrefixSlash(ups[n - 1].path);
      t[p := Merge(Get(t, p), ups[n - 1].value)]
  }

  function ValuesOf(its: map<string, Item>): Values {
    map p | p in its :: its[p].value
  }

  /** What u says is what t says. */
  predicate Agrees(u: ValueMinMax, t: ValueMinMax) {
    && (Defined(u.value) ==> u.value == t.value)
    && (Defined(u.min) ==> u.min == t.min)
    && (Defined(u.max) ==> u.max == t.max)
  }

  // ---------- what the queue says ----------

  /** What an entry says about one path of one service, unless it has expired. */
  function SaysAt(e: Queued, s: string, p: string, now: nat): ValueMinMax {
    if e.service == s && e.path == p && !Expired(e, now) then e.value else UNDEFINED
  }

  /** What those of the first n entries say that are unexpired at one time, later ones over earlier ones. */
  function SaidTo(q: seq<Queued>, n: nat, s: string, p: string, now: nat): ValueMinMax
    requires n <= |q|
    decreases n
  {
    if n == 0 then UNDEFINED else Merge(SaidTo(q, n - 1, s, p, now), SaysAt(q[n - 1], s, p, now))
  }

  function Said(q: seq<Queued>, s: string, p: string, now: nat): ValueMinMax {
    SaidTo(q, |q|, s, p, now)
  }

  /** The same for the first n entries of a pass, which judges each with a reading of its own. */
  function Replay(q: seq<Queued>, clk: Clock, off: nat, n: nat, s: string, p: string): ValueMinMax
    requires n <= |q|
    decreases n
  {
    if n == 0 then UNDEFINED
    else Merge(Replay(q, clk, off, n - 1, s, p), SaysAt(q[n - 1], s, p, clk(off + n - 1)))
  }

  /** From `last` on, at any one time, what the queue says of the service is the truth. */
  ghost predicate Echoes(truth: Values, q: seq<Queued>, s: string, last: nat) {
    forall p: string, now: nat | last <= now :: Agrees(Said(q, s, p, now), Get(truth, p))
  }

  /** The mirror of the service: its stored values, or queued changes that will not mislead. */
  ghost predicate Mirrors(r: Reg, s: string, truth: Values, last: nat) {
    if s in r.items then ValuesOf(r.items[s]) == truth else Echoes(truth, r.queue, s, last)
  }

  /** All entries were queued by this time. */
  predicate Until(q: seq<Queued>, last: nat) {
    forall i | 0 <= i < |q| :: q[i].createdAt <= last
  }

  predicate NoneOf(q: seq<Queued>, s: string) {
    forall i | 0 <= i < |q| :: q[i].service != s
  }

  lemma {:induction false} SaidByPrefix(q: seq<Queued>, e: Queued, n: nat, s: string, p: string, now: nat)
    requires n <= |q|
    ensures SaidTo(q + [e], n, s, p, now) == SaidTo(q, n, s, p, now)
    decreases n
  {
    if n > 0 {
      SaidByPrefix(q, e, n - 1, s, p, now);
      assert (q + [e])[n - 1] == q[n - 1];
    }
  }

  lemma SaidAppend(q: seq<Queued>, e: Queued, s: string, p: string, now: nat)
    ensures Said(q + [e], s, p, now) == Merge(Said(q, s, p, now), SaysAt(e, s, p, now))
  {
    SaidByPrefix(q, e, |q|, s, p, now);
    assert (q + [e])[|q|] == e;
  }

  lemma {:induction false} NothingSaidTo(q: seq<Queued>, n: nat, s: string, p: string, now: nat)
    requires n <= |q| && (NoneOf(q, s) || forall i | 0 <= i < |q| :: Expired(q[i], now))
    ensures SaidTo(q, n, s, p, now) == UNDEFINED
    decreases n
  {
    if n > 0 {
      NothingSaidTo(q, n - 1, s, p, now);
    }
  }

  lemma NothingSaid(q: seq<Queued>, s: string, p: string, now: nat)
    requires NoneOf(q, s) || forall i | 0 <= i < |q| :: Expired(q[i], now)
    ensures Said(q, s, p, now) == UNDEFINED
  {
    NothingSaidTo(q, |q|, s, p, now);
  }

  lemma {:induction false} NothingReplayed(q: seq<Queued>, clk: Clock, off: nat, n: nat, s: string, p: string)
    requires n <= |q| && NoneOf(q, s)
    ensures Replay(q, clk, off, n, s, p) == UNDEFINED
    decreases n
  {
    if n > 0 {
      NothingReplayed(q, clk, off, n - 1, s, p);
    }
  }

  lemma NothingEchoes(truth: Values, q: seq<Queued>, s: string, last: nat)
    requires NoneOf(q, s)
    ensures Echoes(truth, q, s, last)
  {
    forall p: string, now: nat | last <= now ensures Agrees(Said(q, s, p, now), Get(truth, p)) {
      NothingSaid(q, s, p, now);
    }
  }

  // ---------- speaking ----------

  /** When an entry has expired, so have all queued before it. */
  lemma OlderExpire(q: seq<Queued>, e: Queued, now: nat)
    requires Until(q, e.createdAt) && Expired(e, now)
    ensures forall i | 0 <= i < |q| :: Expired(q[i], now)
  {
    forall i | 0 <= i < |q| ensures Expired(q[i], now) {
      WholeSecondsGrow(now - e.createdAt, now - q[i].createdAt);
    }
  }

  lemma WholeSecondsGrow(x: nat, y: nat)
    requires x <= y
    ensures x / SECOND <= y / SECOND
  {}

  /** One more thing the service says, queued behind the rest. */
  lemma TellOne(truth: Values, q: seq<Queued>, e: Queued, s: string, last: nat)
    requires Echoes(truth, q, s, last) && Until(q, e.createdAt) && e.service == s
    ensures Echoes(truth[e.path := Merge(Get(truth, e.path), e.value)], q + [e], s, last)
  {
    var after := truth[e.path := Merge(Get(truth, e.path), e.value)];
    forall p: string, now: nat | last <= now ensures Agrees(Said(q + [e], s, p, now), Get(after, p)) {
      SaidAppend(q, e, s, p, now);
      if Expired(e, now) {
        OlderExpire(q, e, now);
        NothingSaid(q, s, p, now);
      } else {
        assert Agrees(Said(q, s, p, now), Get(truth, p));
      }
    }
  }

  lemma StampedGrows(service: string, ups: seq<Update>, clk: Clock, off: nat, n: nat)
    requires 0 < n <= |ups|
    ensures Stamped(service, ups, clk, off, n)
         == Stamped(service, ups, clk, off, n - 1) + [Queued(service, PrefixSlash(ups[n - 1].path), ups[n - 1].value, clk(off + n - 1))]
  {}

  /** Readings never go back. */
  ghost predicate Monotone(clk: Clock) {
    forall i: nat, j: nat | i <= j :: clk(i) <= clk(j)
  }

  lemma {:induction false} StampedUntil(q: seq<Queued>, service: string, ups: seq<Update>, clk: Clock, off: nat, n: nat)
    requires n <= |ups| && Monotone(clk) && Until(q, clk(0))
    ensures Until(q + Stamped(service, ups, clk, off, n), clk(off + n))
    decreases n
  {
    if n > 0 {
      StampedUntil(q, service, ups, clk, off, n - 1);
      StampedGrows(service, ups, clk, off, n);
      assert clk(off + n - 1) <= clk(off + n);
      var b, all := q + Stamped(service, ups, clk, off, n - 1), q + Stamped(service, ups, clk, off, n);
      forall i | 0 <= i < |all| ensures all[i].createdAt <= clk(off + n) {
        assert i < |all| - 1 ==> all[i] == b[i];
      }
    } else {
      assert clk(0) <= clk(off);
    }
  }

  /** Queueing what the service has just said keeps the queue in agreement with its new values. */
  lemma {:induction false} SpeakingEchoes(truth: Values, q: seq<Queued>, ups: seq<Update>, s: string, clk: Clock, off: nat, n: nat, last: nat)
    requires n <= |ups| && Monotone(clk) && Until(q, clk(0)) && Echoes(truth, q, s, last)
    ensures Echoes(Told(truth, ups, n), q + Stamped(s, ups, clk, off, n), s, last)
    decreases n
  {
    if n == 0 {
      assert q + [] == q;
    } else {
      SpeakingEchoes(truth, q, ups, s, clk, off, n - 1, last);
      SpeakOne(Told(truth, ups, n - 1), q, ups, s, clk, off, n, last);
    }
  }

  lemma SpeakOne(truth: Values, q: seq<Queued>, ups: seq<Update>, s: string, clk: Clock, off: nat, n: nat, last: nat)
    requires 0 < n <= |ups| && Monotone(clk) && Until(q, clk(0)) && Echoes(truth, q + Stamped(s, ups, clk, off, n - 1), s, last)
    ensures var p := PrefixSlash(ups[n - 1].path);
      Echoes(truth[p := Merge(Get(truth, p), ups[n - 1].value)], q + Stamped(s, ups, clk, off, n), s, last)
  {
    var before := Stamped(s, ups, clk, off, n - 1);
    var e := Queued(s, PrefixSlash(ups[n - 1].path), ups[n - 1].value, clk(off + n - 1));
    StampedUntil(q, s, ups, clk, off, n - 1);
    TellOne(truth, q + before, e, s, last);
    StampedGrows(s, ups, clk, off, n);
    assert q + before + [e] == q + (before + [e]);
  }

  /** What other services say does not matter. */
  lemma {:induction false} OthersSayNothing(q: seq<Queued>, ups: seq<Update>, other: string, clk: Clock, off: nat, n: nat, s: string, p: string, now: nat)
    requires n <= |ups| && other != s
    ensures Said(q + Stamped(other, ups, clk, off, n), s, p, now) == Said(q, s, p, now)
    decreases n
  {
    if n == 0 {
      assert q + [] == q;
    } else {
      OthersSayNothing(q, ups, other, clk, off, n - 1, s, p, now);
      var before := Stamped(other, ups, clk, off, n - 1);
      var e := Queued(other, PrefixSlash(ups[n - 1].path), ups[n - 1].value, clk(off + n - 1));
      SaidAppend(q + before, e, s, p, now);
      assert q + before + [e] == q + (before + [e]);
    }
  }

  // ---------- one pass ----------

  /** No entry of the service expires while the pass reads the clock again and again. */
  predicate NoneCrosses(q: seq<Queued>, clk: Clock, off: nat, s: string) {
    forall i | 0 <= i < |q| && q[i].service == s :: Expired(q[i], clk(off + i)) == Expired(q[i], clk(off))
  }

  lemma {:induction false} ReplayAtOnce(q: seq<Queued>, clk: Clock, off: nat, n: nat, s: string, p: string)
    requires n <= |q| && NoneCrosses(q, clk, off, s)
    ensures Replay(q, clk, off, n, s, p) == SaidTo(q, n, s, p, clk(off))
    decreases n
  {
    if n > 0 {
      ReplayAtOnce(q, clk, off, n - 1, s, p);
      assert q[n - 1].service == s ==> Expired(q[n - 1], clk(off + (n - 1))) == Expired(q[n - 1], clk(off));
    }
  }

  /** What a pass applies to a known service is what its unexpired entries say. */
  lemma {:induction false} AppliedIsReplay(items: Store, q: seq<Queued>, clk: Clock, off: nat, n: nat, s: string, p: string)
    requires n <= |q| && s in items && Chosen(items, q, clk, off, n, Missing) == []
    ensures FoldFor(Chosen(items, q, clk, off, n, Apply), s, p) == Replay(q, clk, off, n, s, p)
    decreases n
  {
    if n > 0 {
      NoneMissingBefore(items, q, clk, off, n);
      AppliedIsReplay(items, q, clk, off, n - 1, s, p);
      AppliedGrows(items, q, clk, off, n, s, p);
    }
  }

  lemma NoneMissingBefore(items: Store, q: seq<Queued>, clk: Clock, off: nat, n: nat)
    requires 0 < n <= |q| && Chosen(items, q, clk, off, n, Missing) == []
    ensures Chosen(items, q, clk, off, n - 1, Missing) == [] && VerdictOf(items, q[n - 1], clk(off + n - 1)) != Missing
  {}

  lemma AppliedGrows(items: Store, q: seq<Queued>, clk: Clock, off: nat, n: nat, s: string, p: string)
    requires 0 < n <= |q| && s in items && VerdictOf(items, q[n - 1], clk(off + n - 1)) != Missing
    requires FoldFor(Chosen(items, q, clk, off, n - 1, Apply), s, p) == Replay(q, clk, off, n - 1, s, p)
    ensures FoldFor(Chosen(items, q, clk, off, n, Apply), s, p) == Replay(q, clk, off, n, s, p)
  {
    FoldForAppend(Chosen(items, q, clk, off, n - 1, Apply), q[n - 1], s, p);
    assert Chosen(items, q, clk, off, n - 1, Apply) + [] == Chosen(items, q, clk, off, n - 1, Apply);
  }

  /** Replaying settles on the truth. */
  ghost predicate ReplaysTruth(q: seq<Queued>, clk: Clock, off: nat, s: string, truth: Values) {
    forall p | p in truth :: Agrees(Replay(q, clk, off, |q|, s, p), truth[p])
  }

  /**
   Main result for one pass: a known service's values are kept if and only if what its
   unexpired entries say agrees with them.
   */
  lemma PassAgreesIff(r: Reg, clk: Clock, off: nat, s: string, truth: Values)
    requires ProcessDelayed(r, clk, off).outcome == Ok && s in r.items && ValuesOf(r.items[s]) == truth
    ensures var a := ProcessDelayed(r, clk, off).reg;
      s in a.items && (ValuesOf(a.items[s]) == truth <==> ReplaysTruth(r.queue, clk, off, s, truth))
  {
    var n, a := |r.queue|, ProcessDelayed(r, clk, off).reg;
    PassAccounts(r.items, r.alive, r.queue, clk, off, n);
    var applied := Chosen(r.items, r.queue, clk, off, n, Apply);
    forall p | p in truth ensures a.items[s][p].value == truth[p] <==> Agrees(Replay(r.queue, clk, off, n, s, p), truth[p]) {
      AppliedIsReplay(r.items, r.queue, clk, off, n, s, p);
      assert SameValue(r.items, a.items, applied, s, p);
      assert r.items[s][p].value == ValuesOf(r.items[s])[p];
    }
    SameValuesIff(a.items[s], truth);
  }

  lemma SameValuesIff(its: map<string, Item>, truth: Values)
    requires its.Keys == truth.Keys
    ensures ValuesOf(its) == truth <==> forall p | p in truth :: its[p].value == truth[p]
  {
    if ValuesOf(its) == truth {
      forall p | p in truth ensures its[p].value == truth[p] {
        assert ValuesOf(its)[p] == truth[p];
      }
    }
  }

  /** When no entry crosses the age limit during the pass, an echoing queue replays the truth. */
  lemma UncrossedReplaysTruth(q: seq<Queued>, clk: Clock, off: nat, s: string, truth: Values, last: nat)
    requires Echoes(truth, q, s, last) && last <= clk(off) && NoneCrosses(q, clk, off, s)
    ensures ReplaysTruth(q, clk, off, s, truth)
  {
    forall p | p in truth ensures Agrees(Replay(q, clk, off, |q|, s, p), truth[p]) {
      ReplayAtOnce(q, clk, off, |q|, s, p);
      assert Agrees(Said(q, s, p, clk(off)), Get(truth, p));
    }
  }

  lemma QuietReplaysTruth(q: seq<Queued>, clk: Clock, off: nat, s: string, truth: Values)
    requires NoneOf(q, s)
    ensures ReplaysTruth(q, clk, off, s, truth)
  {
    forall p | p in truth ensures Agrees(Replay(q, clk, off, |q|, s, p), truth[p]) {
      NothingReplayed(q, clk, off, |q|, s, p);
    }
  }

  lemma ExpiryStays(e: Queued, now: nat, later: nat)
    requires now <= later && Expired(e, now)
    ensures Expired(e, later)
  {
    WholeSecondsGrow(now - e.createdAt, later - e.createdAt);
  }

  /** What an unknown service said before a pass and has not expired after it is still queued. */
  lemma {:induction false} KeptSays(items: Store, q: seq<Queued>, clk: Clock, off: nat, n: nat, s: string, p: string, now: nat)
    requires n <= |q| && s !in items && Monotone(clk) && clk(off + n) <= now
    ensures Said(Chosen(items, q, clk, off, n, Retain), s, p, now) == SaidTo(q, n, s, p, now)
    decreases n
  {
    if n > 0 {
      assert clk(off + n - 1) <= clk(off + n);
      KeptSays(items, q, clk, off, n - 1, s, p, now);
      KeptSaysOne(items, q, clk, off, n, s, p, now);
    }
  }

  lemma KeptSaysOne(items: Store, q: seq<Queued>, clk: Clock, off: nat, n: nat, s: string, p: string, now: nat)
    requires 0 < n <= |q| && s !in items && clk(off + n - 1) <= now
    requires Said(Chosen(items, q, clk, off, n - 1, Retain), s, p, now) == SaidTo(q, n - 1, s, p, now)
    ensures Said(Chosen(items, q, clk, off, n, Retain), s, p, now) == SaidTo(q, n, s, p, now)
  {
    var e, c := q[n - 1], Chosen(items, q, clk, off, n - 1, Retain);
    assert c + [] == c;
    SaidAppend(c, e, s, p, now);
    if Expired(e, clk(off + n - 1)) {
      ExpiryStays(e, clk(off + n - 1), now);
    }
  }

  /** A pass that does not throw keeps the queue of a still unknown service in agreement. */
  lemma PassKeepsUnknown(r: Reg, clk: Clock, off: nat, s: string, truth: Values, last: nat)
    requires ProcessDelayed(r, clk, off).outcome == Ok && s !in r.items
    requires Echoes(truth, r.queue, s, last) && Monotone(clk) && last <= clk(off)
    ensures var a := ProcessDelayed(r, clk, off).reg; s !in a.items && Echoes(truth, a.queue, s, clk(off + |r.queue|))
  {
    var n := |r.queue|;
    PassAccounts(r.items, r.alive, r.queue, clk, off, n);
    ProcessSettles(r, clk, off);
    forall p: string, now: nat | clk(off + n) <= now
      ensures Agrees(Said(ProcessDelayed(r, clk, off).reg.queue, s, p, now), Get(truth, p))
    {
      assert clk(off) <= clk(off + n);
      KeptSays(r.items, r.queue, clk, off, n, s, p, now);
      assert Agrees(Said(r.queue, s, p, now), Get(truth, p));
    }
  }

  lemma {:induction false} KeptUntil(items: Store, alive: bool, q: seq<Queued>, clk: Clock, off: nat, n: nat, last: nat)
    requires n <= |q| && Until(q, last)
    ensures Until(PassTo(items, alive, q, clk, off, n).kept, last)
    decreases n
  {
    if n > 0 {
      KeptUntil(items, alive, q, clk, off, n - 1, last);
    }
  }

  lemma LaterEchoes(truth: Values, q: seq<Queued>, s: string, last: nat, later: nat)
    requires Echoes(truth, q, s, last) && last <= later
    ensures Echoes(truth, q, s, later)
  {}
}

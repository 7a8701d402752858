/**
 One pass over the delayed changes accounts for every queued entry, and the queue never keeps
 an entry of a service that is known (attempt_to_process_delayed_changes in src/state.cpp).
 */
module DelayedChanges {
  import opened Text
  import opened ShortNames
  import opened Items
  import opened Registry
  import opened RegistryInvariant

  /** Those of the first n entries that get this verdict, in order. */
  function Chosen(items: Store, q: seq<Queued>, clk: Clock, off: nat, n: nat, v: Verdict): seq<Queued>
    requires n <= |q|
    decreases n
  {
    if n == 0 then []
    else Chosen(items, q, clk, off, n - 1, v)
         + (if VerdictOf(items, q[n - 1], clk(off + n - 1)) == v then [q[n - 1]] else [])
  }

  /** What the entries say about one path of one service, later ones over earlier ones. */
  function FoldFor(es: seq<Queued>, service: string, path: string): ValueMinMax {
    if es == [] then UNDEFINED
    else
      var e := es[|es| - 1];
      Merge(FoldFor(es[..|es| - 1], service, path),
            if e.service == service && e.path == path then e.value else UNDEFINED)
  }

  predicate SameValue(a: Store, b: Store, es: seq<Queued>, service: string, path: string)
    requires SameShape(a, b) && service in a && path in a[service]
  {
    b[service][path].value == Merge(a[service][path].value, FoldFor(es, service, path))
  }

  /** b holds a's values overlaid with the entries. */
  predicate Overlaid(a: Store, b: Store, es: seq<Queued>) {
    && SameShape(a, b)
    && forall s, p | s in a && p in a[s] :: SameValue(a, b, es, s, p)
  }

  // ---------- conservation ----------

  lemma VerdictByShape(a: Store, b: Store, e: Queued, now: nat)
    requires SameShape(a, b)
    ensures VerdictOf(a, e, now) == VerdictOf(b, e, now)
  {}

  lemma FoldForAppend(es: seq<Queued>, e: Queued, service: string, path: string)
    ensures FoldFor(es + [e], service, path)
         == if e.service == service && e.path == path then Merge(FoldFor(es, service, path), e.value) else FoldFor(es, service, path)
  {}

  lemma ApplyStepOverlays(items: Store, p: Pass, alive: bool, e: Queued, now: nat, applied: seq<Queued>)
    requires Overlaid(items, p.items, applied) && VerdictOf(p.items, e, now) == Apply
    ensures Overlaid(items, PassStep(p, alive, e, now).items, applied + [e])
    ensures PassStep(p, alive, e, now).kept == p.kept
  {
    var i := SetValue(p.items[e.service][e.path], e.value);
    PutOverlays(items, p.items, e, i, applied);
    PutOverlays(items, p.items, e, Publish(i, false).item, applied);
  }

  lemma PutOverlays(items: Store, now: Store, e: Queued, i: Item, applied: seq<Queued>)
    requires Overlaid(items, now, applied) && e.service in now && e.path in now[e.service]
    requires i.value == Merge(now[e.service][e.path].value, e.value)
    ensures Overlaid(items, Put(now, e.service, e.path, i), applied + [e])
  {
    forall s, path | s in items && path in items[s] ensures SameValue(items, Put(now, e.service, e.path, i), applied + [e], s, path) {
      FoldForAppend(applied, e, s, path);
      assert SameValue(items, now, applied, s, path);
    }
  }

  lemma PassStepAccounts(items: Store, p: Pass, alive: bool, e: Queued, now: nat, applied: seq<Queued>)
    requires p.outcome == Ok && Overlaid(items, p.items, applied) && PassStep(p, alive, e, now).outcome == Ok
    ensures var a, v := PassStep(p, alive, e, now), VerdictOf(items, e, now);
      && v != Missing
      && a.kept == p.kept + (if v == Retain then [e] else [])
      && Overlaid(items, a.items, applied + (if v == Apply then [e] else []))
  {
    VerdictByShape(items, p.items, e, now);
    if VerdictOf(items, e, now) == Apply {
      ApplyStepOverlays(items, p, alive, e, now, applied);
    } else {
      assert applied + [] == applied;
    }
  }

  /** A pass that does not throw keeps the retained entries and overlays the applied ones, each in order. */
  lemma {:induction false} PassAccounts(items: Store, alive: bool, q: seq<Queued>, clk: Clock, off: nat, n: nat)
    requires n <= |q| && PassTo(items, alive, q, clk, off, n).outcome == Ok
    ensures PassTo(items, alive, q, clk, off, n).kept == Chosen(items, q, clk, off, n, Retain)
    ensures Overlaid(items, PassTo(items, alive, q, clk, off, n).items, Chosen(items, q, clk, off, n, Apply))
    ensures Chosen(items, q, clk, off, n, Missing) == []
    decreases n
  {
    if n == 0 {
      assert forall s, path | s in items && path in items[s] :: SameValue(items, items, [], s, path);
    } else {
      PassAccounts(items, alive, q, clk, off, n - 1);
      PassStepAccounts(items, PassTo(items, alive, q, clk, off, n - 1), alive, q[n - 1], clk(off + n - 1),
                       Chosen(items, q, clk, off, n - 1, Apply));
    }
  }

  /** How often e was chosen, over all four verdicts. */
  function TimesChosen(items: Store, q: seq<Queued>, clk: Clock, off: nat, n: nat): multiset<Queued>
    requires n <= |q|
  {
    multiset(Chosen(items, q, clk, off, n, Expire)) + multiset(Chosen(items, q, clk, off, n, Retain))
    + (multiset(Chosen(items, q, clk, off, n, Apply)) + multiset(Chosen(items, q, clk, off, n, Missing)))
  }

  /** Each of the first n entries was chosen exactly once. */
  predicate Partitioned(items: Store, q: seq<Queued>, clk: Clock, off: nat, n: nat)
    requires n <= |q|
  {
    multiset(q[..n]) == TimesChosen(items, q, clk, off, n)
  }

  lemma OneMorePartitioned(items: Store, q: seq<Queued>, clk: Clock, off: nat, n: nat)
    requires 0 < n <= |q| && Partitioned(items, q, clk, off, n - 1)
    ensures Partitioned(items, q, clk, off, n)
  {
    PrefixGrows(q, n);
    TimesChosenGrows(items, q, clk, off, n);
  }

  lemma {:induction false} ChosenPartition(items: Store, q: seq<Queued>, clk: Clock, off: nat, n: nat)
    requires n <= |q|
    ensures Partitioned(items, q, clk, off, n)
    decreases n
  {
    if n > 0 {
      ChosenPartition(items, q, clk, off, n - 1);
      OneMorePartitioned(items, q, clk, off, n);
    }
  }

  lemma PrefixGrows(q: seq<Queued>, n: nat)
    requires 0 < n <= |q|
    ensures multiset(q[..n]) == multiset(q[..n - 1]) + multiset{q[n - 1]}
  {
    assert q[..n] == q[..n - 1] + [q[n - 1]];
  }

  lemma TimesChosenGrows(items: Store, q: seq<Queued>, clk: Clock, off: nat, n: nat)
    requires 0 < n <= |q|
    ensures TimesChosen(items, q, clk, off, n) == TimesChosen(items, q, clk, off, n - 1) + multiset{q[n - 1]}
  {
    var e := multiset{q[n - 1]};
    ChosenGrows(items, q, clk, off, n, Expire);
    ChosenGrows(items, q, clk, off, n, Retain);
    ChosenGrows(items, q, clk, off, n, Apply);
    ChosenGrows(items, q, clk, off, n, Missing);
    OneOfFourGrows(multiset(Chosen(items, q, clk, off, n - 1, Expire)), multiset(Chosen(items, q, clk, off, n - 1, Retain)),
                   multiset(Chosen(items, q, clk, off, n - 1, Apply)), multiset(Chosen(items, q, clk, off, n - 1, Missing)), e);
  }

  lemma ChosenGrows(items: Store, q: seq<Queued>, clk: Clock, off: nat, n: nat, v: Verdict)
    requires 0 < n <= |q|
    ensures multiset(Chosen(items, q, clk, off, n, v))
         == if VerdictOf(items, q[n - 1], clk(off + n - 1)) == v
            then multiset(Chosen(items, q, clk, off, n - 1, v)) + multiset{q[n - 1]}
            else multiset(Chosen(items, q, clk, off, n - 1, v))
  {}

  lemma OneOfFourGrows(a: multiset<Queued>, b: multiset<Queued>, c: multiset<Queued>, d: multiset<Queued>, e: multiset<Queued>)
    ensures (a + e) + b + (c + d) == a + b + (c + d) + e
    ensures a + (b + e) + (c + d) == a + b + (c + d) + e
    ensures a + b + ((c + e) + d) == a + b + (c + d) + e
    ensures a + b + (c + (d + e)) == a + b + (c + d) + e
  {}

  lemma {:induction false} ChosenHas(items: Store, q: seq<Queued>, clk: Clock, off: nat, n: nat, i: nat)
    requires i < n <= |q|
    ensures q[i] in Chosen(items, q, clk, off, n, VerdictOf(items, q[i], clk(off + i)))
    decreases n
  {
    if i < n - 1 {
      ChosenHas(items, q, clk, off, n - 1, i);
    }
  }

  /** An entry expires 31 s after it was queued. */
  lemma ExpiresAfter31Seconds(e: Queued, now: nat)
    ensures Expired(e, now) <==> now >= e.createdAt + 31_000_000_000
  {}

  /** Every listed entry was older than 30 whole seconds when the pass looked at it. */
  predicate AllOld(es: seq<Queued>, q: seq<Queued>, clk: Clock, off: nat) {
    forall e | e in es :: exists i | 0 <= i < |q| :: q[i] == e && Age(e, clk(off + i)) > AGE_LIMIT
  }

  lemma {:induction false} ChosenExpireOld(items: Store, q: seq<Queued>, clk: Clock, off: nat, n: nat)
    requires n <= |q|
    ensures AllOld(Chosen(items, q, clk, off, n, Expire), q, clk, off)
    decreases n
  {
    if n > 0 {
      ChosenExpireOld(items, q, clk, off, n - 1);
    }
  }

  /** No entry of at most 30 whole seconds is lost. */
  predicate YoungSurvive(q: seq<Queued>, clk: Clock, off: nat, kept: seq<Queued>, applied: seq<Queued>) {
    forall i | 0 <= i < |q| && Age(q[i], clk(off + i)) <= AGE_LIMIT :: q[i] in kept || q[i] in applied
  }

  lemma YoungAreChosen(items: Store, q: seq<Queued>, clk: Clock, off: nat)
    requires Chosen(items, q, clk, off, |q|, Missing) == []
    ensures YoungSurvive(q, clk, off, Chosen(items, q, clk, off, |q|, Retain), Chosen(items, q, clk, off, |q|, Apply))
  {
    forall i | 0 <= i < |q| && Age(q[i], clk(off + i)) <= AGE_LIMIT
      ensures q[i] in Chosen(items, q, clk, off, |q|, Retain) || q[i] in Chosen(items, q, clk, off, |q|, Apply)
    {
      ChosenHas(items, q, clk, off, |q|, i);
    }
  }

  /**
   Main result: a pass that does not throw splits the queue into dropped, retained and applied
   entries; only entries older than 30 whole seconds are dropped; the retained ones stay as
   they are and in order; and the store is overlaid with the applied ones in order.
   */
  lemma PassConserves(r: Reg, clk: Clock, off: nat)
    requires ProcessDelayed(r, clk, off).outcome == Ok
    ensures var a := ProcessDelayed(r, clk, off).reg;
      var dropped := Chosen(r.items, r.queue, clk, off, |r.queue|, Expire);
      var applied := Chosen(r.items, r.queue, clk, off, |r.queue|, Apply);
      && multiset(r.queue) == multiset(dropped) + multiset(a.queue) + multiset(applied)
      && a.queue == Chosen(r.items, r.queue, clk, off, |r.queue|, Retain)
      && AllOld(dropped, r.queue, clk, off)
      && YoungSurvive(r.queue, clk, off, a.queue, applied)
      && Overlaid(r.items, a.items, applied)
      && Settled(a)
  {
    var n := |r.queue|;
    PassAccounts(r.items, r.alive, r.queue, clk, off, n);
    ChosenPartition(r.items, r.queue, clk, off, n);
    assert r.queue[..n] == r.queue;
    assert multiset(Chosen(r.items, r.queue, clk, off, n, Missing)) == multiset{};
    ChosenExpireOld(r.items, r.queue, clk, off, n);
    YoungAreChosen(r.items, r.queue, clk, off);
    ProcessSettles(r, clk, off);
  }

  // ---------- when a pass throws ----------

  predicate SomeMissing(items: Store, q: seq<Queued>, clk: Clock, off: nat, n: nat)
    requires n <= |q|
  {
    exists i :: 0 <= i < n && VerdictOf(items, q[i], clk(off + i)) == Missing
  }

  /** The pass adds and removes no path, and when it throws. */
  predicate ThrowsIff(items: Store, alive: bool, p: Pass, missing: bool) {
    && SameShape(items, p.items)
    && (!alive ==> (p.outcome != Ok <==> missing))
    && (p.outcome == Threw(QueuedPathMissing) ==> missing)
    && (missing ==> p.outcome != Ok)
    && (p.outcome == Ok || p.outcome == Threw(QueuedPathMissing) || p.outcome == Threw(BadDictKey))
  }

  /**
   While nothing is published, a pass throws exactly when some unexpired entry belongs to a
   known service that lacks its path. Publishing adds only the rendering of an odd dictionary.
   */
  lemma {:induction false} PassThrowsExactly(items: Store, alive: bool, q: seq<Queued>, clk: Clock, off: nat, n: nat)
    requires n <= |q|
    ensures ThrowsIff(items, alive, PassTo(items, alive, q, clk, off, n), SomeMissing(items, q, clk, off, n))
    decreases n
  {
    if n > 0 {
      PassThrowsExactly(items, alive, q, clk, off, n - 1);
      PassOneThrows(items, PassTo(items, alive, q, clk, off, n - 1), alive, q[n - 1], clk(off + n - 1), SomeMissing(items, q, clk, off, n - 1));
      assert SomeMissing(items, q, clk, off, n) <==>
        SomeMissing(items, q, clk, off, n - 1) || VerdictOf(items, q[n - 1], clk(off + n - 1)) == Missing;
    }
  }

  lemma PassOneThrows(items: Store, p: Pass, alive: bool, e: Queued, now: nat, missing: bool)
    requires ThrowsIff(items, alive, p, missing)
    ensures ThrowsIff(items, alive, PassOne(p, alive, e, now), missing || VerdictOf(items, e, now) == Missing)
  {
    VerdictByShape(items, p.items, e, now);
  }

  /** Entry m throws, and what comes after it is lost: the queue is what had been kept before. */
  lemma {:induction false} ThrowingPassLosesTheRest(items: Store, alive: bool, q: seq<Queued>, clk: Clock, off: nat, n: nat) returns (m: nat)
    requires n <= |q| && PassTo(items, alive, q, clk, off, n).outcome != Ok
    ensures m < n
    ensures PassTo(items, alive, q, clk, off, m).outcome == Ok && PassTo(items, alive, q, clk, off, m + 1).outcome != Ok
    ensures PassTo(items, alive, q, clk, off, n).kept == Chosen(items, q, clk, off, m, Retain)
    decreases n
  {
    var p := PassTo(items, alive, q, clk, off, n - 1);
    if p.outcome != Ok {
      m := ThrowingPassLosesTheRest(items, alive, q, clk, off, n - 1);
    } else {
      m := n - 1;
      PassAccounts(items, alive, q, clk, off, m);
    }
  }

  // ---------- no queued entry of a known service ----------

  predicate NoneKnown(q: seq<Queued>, items: Store) {
    forall i | 0 <= i < |q| :: q[i].service !in items
  }

  predicate Settled(r: Reg) {
    NoneKnown(r.queue, r.items)
  }

  lemma {:induction false} KeptAreUnknown(items: Store, alive: bool, q: seq<Queued>, clk: Clock, off: nat, n: nat)
    requires n <= |q|
    ensures var p := PassTo(items, alive, q, clk, off, n); NoneKnown(p.kept, items) && p.items.Keys == items.Keys
    decreases n
  {
    if n > 0 {
      KeptAreUnknown(items, alive, q, clk, off, n - 1);
    }
  }

  /** Thrown or not, a pass leaves only entries of unknown services. */
  lemma ProcessSettles(r: Reg, clk: Clock, off: nat)
    ensures Settled(ProcessDelayed(r, clk, off).reg)
    ensures ProcessDelayed(r, clk, off).reg.items.Keys == r.items.Keys
  {
    KeptAreUnknown(r.items, r.alive, r.queue, clk, off, |r.queue|);
  }

  /** With a settled queue a pass only expires: it cannot throw and changes no item. */
  lemma {:induction false} SettledPassOnlyExpires(items: Store, alive: bool, q: seq<Queued>, clk: Clock, off: nat, n: nat)
    requires n <= |q| && NoneKnown(q, items)
    ensures var p := PassTo(items, alive, q, clk, off, n);
      p.outcome == Ok && p.items == items && p.out == [] && p.kept == Chosen(items, q, clk, off, n, Retain)
    decreases n
  {
    if n > 0 {
      SettledPassOnlyExpires(items, alive, q, clk, off, n - 1);
    }
  }

  lemma {:induction false} MapToKnows(r: Reg, service: string, instance: string, ups: seq<Update>, force: bool, n: nat)
    requires n <= |ups|
    ensures var m := MapTo(r, service, instance, ups, force, n);
      m.items.Keys == r.items.Keys || m.items.Keys == r.items.Keys + {service}
    decreases n
  {
    if n > 0 {
      MapToKnows(r, service, instance, ups, force, n - 1);
      MapOneKnows(MapTo(r, service, instance, ups, force, n - 1), r, service, instance, ups[n - 1], force);
    }
  }

  lemma MapOneKnows(m: Mapping, r: Reg, service: string, instance: string, u: Update, force: bool)
    ensures var a := MapOne(m, r, service, instance, u, force);
      a.items.Keys == m.items.Keys || a.items.Keys == m.items.Keys + {service}
  {}

  lemma {:induction false} StampedService(service: string, ups: seq<Update>, clk: Clock, off: nat, n: nat)
    requires n <= |ups|
    ensures var es := Stamped(service, ups, clk, off, n);
      |es| == n && forall i | 0 <= i < n :: es[i] == Queued(service, PrefixSlash(ups[i].path), ups[i].value, clk(off + i))
    decreases n
  {
    if n > 0 {
      StampedService(service, ups, clk, off, n - 1);
    }
  }

  lemma AddMappingSettles(r: Reg, service: string, ups: seq<Update>, known: bool, force: bool, clk: Clock, off: nat)
    requires Inv(r) && Settled(r)
    requires AddMapping(r, service, ups, known, force, clk, off).outcome != Threw(BadDictKey) || known
    ensures Settled(AddMapping(r, service, ups, known, force, clk, off).reg)
  {
    if known && service !in r.items {
      StampedService(service, ups, clk, off, |ups|);
    } else {
      assert known ==> service in r.instances;
      var instance := if service in r.instances then r.instances[service] else InstanceOf(ups, r.textOf);
      StoreInstanceKeeps(r, service, instance);
      if NameOf(service, instance).Some? {
        var r1 := r.(instances := r.instances[service := instance]);
        var r2 := r1.(index := r1.index[NameOf(service, instance).value.total := service]);
        MapServiceSettles(r2, service, instance, ups, force, clk, off);
      }
    }
  }

  lemma MapServiceSettles(r: Reg, service: string, instance: string, ups: seq<Update>, force: bool, clk: Clock, off: nat)
    requires Inv(r) && Settled(r)
    requires service in r.instances && r.instances[service] == instance && NameOf(service, instance).Some?
    requires MapService(r, service, instance, ups, force, clk, off).outcome != Threw(BadDictKey) || service in r.items
    ensures Settled(MapService(r, service, instance, ups, force, clk, off).reg)
  {
    MapToKnows(r, service, instance, ups, force, |ups|);
    MapToKeeps(r, service, instance, ups, force, |ups|);
    MapToThrowsOnlyDict(r, service, instance, ups, force, |ups|);
    var m := MapTo(r, service, instance, ups, force, |ups|);
    ProcessSettles(r.(items := m.items, out := r.out + m.out), clk, off);
  }

  lemma {:induction false} MapToThrowsOnlyDict(r: Reg, service: string, instance: string, ups: seq<Update>, force: bool, n: nat)
    requires n <= |ups| && StoreOk(r.items, r.instances, r.vrmId)
    requires service in r.instances && r.instances[service] == instance && NameOf(service, instance).Some?
    ensures var o := MapTo(r, service, instance, ups, force, n).outcome; o == Ok || o == Threw(BadDictKey)
    decreases n
  {
    if n > 0 {
      MapToThrowsOnlyDict(r, service, instance, ups, force, n - 1);
      MapToKeeps(r, service, instance, ups, force, n - 1);
      MapOneThrowsOnlyDict(MapTo(r, service, instance, ups, force, n - 1), r, service, instance, ups[n - 1], force);
    }
  }

  lemma MapOneThrowsOnlyDict(m: Mapping, r: Reg, service: string, instance: string, u: Update, force: bool)
    requires StoreOk(m.items, r.instances, r.vrmId) && (m.outcome == Ok || m.outcome == Threw(BadDictKey))
    requires service in r.instances && r.instances[service] == instance && NameOf(service, instance).Some?
    ensures var o := MapOne(m, r, service, instance, u, force).outcome; o == Ok || o == Threw(BadDictKey)
  {
    MappedItemOk(m, r, service, instance, u);
  }

  /** After every signal, thrown or not, no queued entry belongs to a known service. */
  lemma SignalSettles(r: Reg, sig: SignalBody, clk: Clock)
    requires Inv(r)
    ensures Settled(OnSignal(r, sig, clk).reg)
    ensures Settled(r) ==> ProcessDelayed(r, clk, 0).outcome == Ok
  {
    ProcessKeeps(r, clk, 0);
    ProcessSettles(r, clk, 0);
    if Settled(r) {
      SettledPassOnlyExpires(r.items, r.alive, r.queue, clk, 0, |r.queue|);
    }
    DispatchSettles(ProcessDelayed(r, clk, 0).reg, sig, clk, |r.queue|);
  }

  lemma DispatchSettles(r: Reg, sig: SignalBody, clk: Clock, off: nat)
    requires Inv(r) && Settled(r)
    ensures Settled(Dispatch(r, sig, clk, off).reg)
  {
    match sig
    case Changed(sender, ups) => AddMappingSettles(r, NamedOwner(r, sender), ups, true, false, clk, off);
    case _ =>
  }

  lemma {:induction false} ScanAllKeepsQueue(r: Reg, names: seq<string>, calls: nat)
    ensures var a := ScanAll(r, names, calls).reg; a.queue == r.queue && a.items == r.items
    decreases |names|
  {
    if names != [] {
      var s := Call(r, GetNameOwner(names[0]), calls > 0);
      if !StartsWith(names[0], "com.victronenergy") {
        ScanAllKeepsQueue(r, names[1..], calls);
      } else if s.outcome == Ok {
        ScanAllKeepsQueue(s.reg, names[1..], calls - 1);
      }
    }
  }

  lemma {:induction false} PublishStoredKeepsQueue(r: Reg, order: seq<(string, string)>, n: nat)
    requires n <= |order|
    ensures var a := PublishStored(r, order, n).reg; a.queue == r.queue && a.items.Keys == r.items.Keys
    decreases n
  {
    if n > 0 {
      PublishStoredKeepsQueue(r, order, n - 1);
    }
  }

  lemma ReplySettles(r: Reg, h: Handler, body: ReplyBody, calls: nat, clk: Clock)
    requires Inv(r) && Settled(r) && OnReply(r, h, body, calls, clk).outcome != Threw(BadDictKey)
    ensures Settled(OnReply(r, h, body, calls, clk).reg)
  {
    match (h, body)
    case (ListNames, Names(names)) => ScanAllKeepsQueue(r, names, calls);
    case (GetItems(service), ItemsBody(ups)) => AddMappingSettles(r, service, ups, false, false, clk, 0);
    case (GetValue(service, prefix, force), Tree(vals)) =>
      AddMappingSettles(r, service, TreeUpdates(prefix, vals), false, force, clk, 0);
    case _ =>
  }

  /** Any event keeps the queue settled, unless it throws on a dictionary that has no JSON form. */
  lemma NextSettles(r: Reg, e: Event)
    requires Inv(r) && Settled(r) && Next(r, e).outcome != Threw(BadDictKey)
    ensures Settled(Next(r, e).reg)
  {
    match e
    case Signal(sig, clk) => SignalSettles(r, sig, clk);
    case Reply(serial, body, calls, clk) =>
      if serial in r.handlers {
        var r1 := r.(handlers := r.handlers - {serial});
        assert Inv(r1);
        ReplySettles(r1, r.handlers[serial], body, calls, clk);
      }
    case PublishAll(order) => PublishStoredKeepsQueue(r, order, |order|);
    case _ =>
  }

  /** The queue is what was kept, and behind it what a service said, in order, each entry with the time at which it was said. */
  predicate QueuedBehind(q: seq<Queued>, kept: seq<Queued>, service: string, ups: seq<Update>, clk: Clock, off: nat) {
    && |q| == |kept| + |ups| && q[..|kept|] == kept
    && forall i | 0 <= i < |ups| :: q[|kept| + i] == Queued(service, PrefixSlash(ups[i].path), ups[i].value, clk(off + i))
  }

  lemma StampedBehind(kept: seq<Queued>, service: string, ups: seq<Update>, clk: Clock, off: nat)
    ensures QueuedBehind(kept + Stamped(service, ups, clk, off, |ups|), kept, service, ups, clk, off)
  {
    StampedService(service, ups, clk, off, |ups|);
  }

  /** What a still unknown service says is queued behind what has not expired, and nothing else changes. */
  lemma UnknownChangesAreQueued(r: Reg, sender: string, ups: seq<Update>, clk: Clock)
    requires Settled(r) && StartsWith(NamedOwner(r, sender), VICTRON_PREFIX) && NamedOwner(r, sender) !in r.items
    ensures var a := OnSignal(r, Changed(sender, ups), clk);
      && a == Step(r.(queue := a.reg.queue), Ok)
      && QueuedBehind(a.reg.queue, Chosen(r.items, r.queue, clk, 0, |r.queue|, Retain), NamedOwner(r, sender), ups, clk, |r.queue|)
  {
    SettledPassOnlyExpires(r.items, r.alive, r.queue, clk, 0, |r.queue|);
    StampedBehind(Chosen(r.items, r.queue, clk, 0, |r.queue|, Retain), NamedOwner(r, sender), ups, clk, |r.queue|);
    assert r.out + [] == r.out;
  }

  /** From a settled queue exactly the unexpired entries are kept. */
  lemma SettledKeepsUnexpired(items: Store, e: Queued, now: nat)
    requires e.service !in items
    ensures VerdictOf(items, e, now) == if now >= e.createdAt + 31_000_000_000 then Expire else Retain
  {
    ExpiresAfter31Seconds(e, now);
  }
}

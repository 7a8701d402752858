/**
 Mirror agreement over whole runs: events of the service itself, of other services, refusals,
 reads, republishing and time all interleave. What is assumed is about the messages and the
 clock, not about what the plugin makes of them.
 */
module MirrorRuns {
  import opened Wrappers
  import opened Text
  import opened ShortNames
  import opened Variants
  import opened Items
  import opened Registry
  import opened RegistryInvariant
  import opened DelayedChanges
  import opened Renderings
  import opened Owners
  import opened Mirror

  function ValuesAt(items: Store, service: string): Values {
    if service in items then ValuesOf(items[service]) else map[]
  }

  // ---------- what is assumed of a run ----------

  /** Readings of the clock never go back, nor before the last one of an earlier event. */
  ghost predicate ClockOk(e: Event, last: nat) {
    match e
    case Signal(_, clk) => Monotone(clk) && last <= clk(0)
    case Reply(_, _, _, clk) => Monotone(clk) && last <= clk(0)
    case _ => true
  }

  /** How many updates the event carries. */
  function Carried(e: Event): nat {
    if e.Signal? && e.sig.Changed? then |e.sig.ups| else 0
  }

  /** A reading no earlier than any the event makes: two passes over the queue, and one stamp for each update. */
  function LastReading(r: Reg, e: Event, last: nat): nat {
    match e
    case Signal(_, clk) => clk(2 * |r.queue| + Carried(e))
    case Reply(_, _, _, clk) => clk(2 * |r.queue| + Carried(e))
    case _ => last
  }

  /** The service and the entries of a reply that maps a service. */
  function MappingReply(r: Reg, e: Event): Option<(string, seq<Update>)> {
    if e.Reply? && e.serial in r.handlers then
      match (r.handlers[e.serial], e.body)
      case (GetItems(s), ItemsBody(ups)) => Some((s, ups))
      case (GetValue(s, prefix, _), Tree(vals)) => Some((s, TreeUpdates(prefix, vals)))
      case _ => None
    else None
  }

  /** A reply of the service reports values it has: all of them when it is not yet known. */
  predicate Reports(r: Reg, service: string, truth: Values, ups: seq<Update>) {
    Told(if service in r.items then truth else map[], ups, |ups|) == truth
  }

  predicate ReportsFresh(truth: Values, path: string, v: Variant) {
    Merge(Get(truth, path), ValueMinMax(v, Unknown, Unknown)) == Get(truth, path)
  }

  /** Replies of the service come in one stream with its signals. */
  predicate Faithful(r: Reg, e: Event, service: string, truth: Values) {
    && (MappingReply(r, e).Some? && MappingReply(r, e).value.0 == service ==> Reports(r, service, truth, MappingReply(r, e).value.1))
    && (ReadReply(r, e) && r.handlers[e.serial].service == service ==> ReportsFresh(truth, r.handlers[e.serial].path, e.body.v))
  }

  predicate ReadReply(r: Reg, e: Event) {
    e.Reply? && e.serial in r.handlers && r.handlers[e.serial].ReadItem? && e.body.Value?
  }

  /** The entry is of this service, has not expired, and is for a path that is not among the updates. */
  predicate LeftOut(e: Queued, now: nat, service: string, ups: seq<Update>) {
    e.service == service && !Expired(e, now) && !Tells(ups, |ups|, e.path)
  }

  predicate Tells(ups: seq<Update>, n: nat, p: string)
    requires n <= |ups|
  {
    exists i :: 0 <= i < n && PrefixSlash(ups[i].path) == p
  }

  predicate NoneLeftOut(q: seq<Queued>, clk: Clock, off: nat, service: string, ups: seq<Update>) {
    forall i | 0 <= i < |q| :: !LeftOut(q[i], clk(off + i), service, ups)
  }

  /** A reply that makes a service known tells every path for which a change is queued. */
  predicate TellsQueued(r: Reg, e: Event) {
    MappingReply(r, e).Some? ==>
      var (s, ups) := MappingReply(r, e).value;
      s in r.items || ups == [] || MakeShort(s) == None || NoneLeftOut(r.queue, e.clk, 0, s, ups)
  }

  /** The service's values after the event: its own signals change them. */
  function TruthAfter(e: Event, owner: string, truth: Values): Values {
    if e.Signal? && e.sig.Changed? && e.sig.sender == owner then Told(truth, e.sig.ups, |e.sig.ups|) else truth
  }

  ghost predicate GoodStep(r: Reg, e: Event, s: string, owner: string, truth: Values, last: nat) {
    && ClockOk(e, last) && SentOnBus(e) && KeepsNames(r, e, owner, s)
    && Faithful(r, e, s, truth) && EventRenders(e) && TellsQueued(r, e)
  }

  /** The event is the reply that makes the service known. */
  predicate FirstMapping(r: Reg, e: Event, s: string) {
    s !in r.items && MappingReply(r, e).Some? && MappingReply(r, e).value.0 == s && MappingReply(r, e).value.1 != []
  }

  /** In the pass that replays the service's changes, what has not expired says the truth. */
  ghost predicate ReplayAgrees(r: Reg, e: Event, s: string, truth: Values) {
    FirstMapping(r, e, s) ==> ReplaysTruth(r.queue, e.clk, 0, s, truth)
  }

  /** In that pass none of the service's changes crosses the age limit. */
  predicate Uncrossed(r: Reg, e: Event, s: string) {
    FirstMapping(r, e, s) ==> NoneCrosses(r.queue, e.clk, 0, s)
  }

  /** What holds besides the mirror: the registry invariant, a settled queue stamped in the past, values with a JSON form. */
  predicate Ready(r: Reg, last: nat) {
    Inv(r) && Settled(r) && Until(r.queue, last) && RegRenders(r)
  }

  // ---------- mapping ----------

  lemma MapStepValues(m: Mapping, r: Reg, service: string, instance: string, u: Update, force: bool, other: string)
    requires StoreOk(m.items, r.instances, r.vrmId)
    requires service in r.instances && r.instances[service] == instance && NameOf(service, instance).Some?
    ensures var a, p := MapStep(m, r, service, instance, u, force), PrefixSlash(u.path);
      && service in a.items
      && ValuesAt(a.items, service) == ValuesAt(m.items, service)[p := Merge(Get(ValuesAt(m.items, service), p), u.value)]
      && (other != service ==> (other in a.items <==> other in m.items) && ValuesAt(a.items, other) == ValuesAt(m.items, other))
  {
    var p := PrefixSlash(u.path);
    MappedItemOk(m, r, service, instance, u);
    var stored := StoredOrEmpty(m.items, service, p);
    assert stored.value == Get(ValuesAt(m.items, service), p);
    var i := Assign(stored, SetMappingDetails(NewItem(u.path, u.value), r.vrmId, service, instance).value).value;
    PutValues(m.items, service, p, i);
    PutValues(m.items, service, p, Publish(i, false).item);
  }

  lemma PutValues(items: Store, service: string, p: string, i: Item)
    ensures ValuesAt(Put(items, service, p, i), service) == ValuesAt(items, service)[p := i.value]
  {}

  /** After n updates the service holds what it was told; another service holds what it held. */
  predicate MappedValues(before: Store, after: Store, service: string, ups: seq<Update>, n: nat, other: string)
    requires n <= |ups|
  {
    && ValuesAt(after, service) == Told(ValuesAt(before, service), ups, n)
    && (service in after <==> service in before || n > 0)
    && (other != service ==> (other in after <==> other in before) && ValuesAt(after, other) == ValuesAt(before, other))
  }

  /** What holds of a mapping after n updates, unless it has thrown. */
  predicate MappingValues(r: Reg, service: string, ups: seq<Update>, n: nat, other: string, m: Mapping) {
    n <= |ups| && MappingOk(m, r.instances, r.vrmId) && (m.outcome == Ok ==> MappedValues(r.items, m.items, service, ups, n, other))
  }

  lemma MapOneValues(m: Mapping, r: Reg, service: string, instance: string, ups: seq<Update>, force: bool, n: nat, other: string)
    requires n < |ups| && MappingValues(r, service, ups, n, other, m)
    requires service in r.instances && r.instances[service] == instance && NameOf(service, instance).Some?
    ensures MappingValues(r, service, ups, n + 1, other, MapOne(m, r, service, instance, ups[n], force))
  {
    MapStepKeeps(m, r, service, instance, ups[n], force);
    MapStepValues(m, r, service, instance, ups[n], force, other);
  }

  lemma MapToValues(r: Reg, service: string, instance: string, ups: seq<Update>, force: bool, n: nat, other: string)
    requires n <= |ups| && StoreOk(r.items, r.instances, r.vrmId)
    requires service in r.instances && r.instances[service] == instance && NameOf(service, instance).Some?
    requires MapTo(r, service, instance, ups, force, n).outcome == Ok
    ensures MappedValues(r.items, MapTo(r, service, instance, ups, force, n).items, service, ups, n, other)
  {
    MapToHolds(r, service, instance, ups, force, n, other);
  }

  lemma NothingMapped(r: Reg, service: string, ups: seq<Update>, other: string)
    requires StoreOk(r.items, r.instances, r.vrmId)
    ensures MappingValues(r, service, ups, 0, other, Mapping(r.items, [], Ok))
  {}

  lemma MapToHolds(r: Reg, service: string, instance: string, ups: seq<Update>, force: bool, n: nat, other: string)
    requires n <= |ups| && StoreOk(r.items, r.instances, r.vrmId)
    requires service in r.instances && r.instances[service] == instance && NameOf(service, instance).Some?
    ensures MappingValues(r, service, ups, n, other, MapTo(r, service, instance, ups, force, n))
  {
    NothingMapped(r, service, ups, other);
    forall k: nat, m: Mapping ensures MapOneKeeps(r, service, instance, ups, force, HoldsValues(r, service, ups, other), k, m) {
      OneKeepsValues(r, service, instance, ups, force, other, k, m);
    }
    MapInduction(r, service, instance, ups, force, n, HoldsValues(r, service, ups, other));
  }

  function HoldsValues(r: Reg, service: string, ups: seq<Update>, other: string): (nat, Mapping) -> bool {
    (k: nat, m: Mapping) => MappingValues(r, service, ups, k, other, m)
  }

  lemma OneKeepsValues(r: Reg, service: string, instance: string, ups: seq<Update>, force: bool, other: string, k: nat, m: Mapping)
    requires service in r.instances && r.instances[service] == instance && NameOf(service, instance).Some?
    ensures MapOneKeeps(r, service, instance, ups, force, HoldsValues(r, service, ups, other), k, m)
  {
    if k < |ups| && MappingValues(r, service, ups, k, other, m) {
      MapOneValues(m, r, service, instance, ups, force, k, other);
    }
  }

  /** The registry after the entries are mapped and before the delayed changes are worked off. */
  function Mapped(r: Reg, service: string, instance: string, ups: seq<Update>, force: bool): Reg {
    var m := MapTo(r, service, instance, ups, force, |ups|);
    r.(items := m.items, out := r.out + m.out)
  }

  lemma {:induction false} ToldKnows(truth: Values, ups: seq<Update>, n: nat, p: string)
    requires n <= |ups|
    ensures p in Told(truth, ups, n) <==> p in truth || Tells(ups, n, p)
    decreases n
  {
    if n > 0 {
      ToldKnows(truth, ups, n - 1, p);
      assert Tells(ups, n, p) <==> Tells(ups, n - 1, p) || PrefixSlash(ups[n - 1].path) == p;
    }
  }

  /** In a settled queue, exactly the left-out entries of a newly mapped service are missing. */
  lemma MissingIffLeftOut(r: Reg, service: string, instance: string, ups: seq<Update>, force: bool, e: Queued, now: nat)
    requires Inv(r) && e.service !in r.items && (ups != [] || e.service != service)
    requires service in r.instances && r.instances[service] == instance && NameOf(service, instance).Some?
    requires MapTo(r, service, instance, ups, force, |ups|).outcome == Ok
    ensures VerdictOf(Mapped(r, service, instance, ups, force).items, e, now) == Missing <==> LeftOut(e, now, service, ups)
  {
    MapToValues(r, service, instance, ups, force, |ups|, e.service);
    if e.service == service {
      var after := Mapped(r, service, instance, ups, force).items;
      ToldKnows(map[], ups, |ups|, e.path);
      assert e.path in after[service] <==> e.path in ValuesAt(after, service);
    }
  }

  /** The updates leave out no queued path, or leave the service unknown. */
  predicate Covered(r: Reg, service: string, ups: seq<Update>, clk: Clock, off: nat) {
    service in r.items || ups == [] || NoneLeftOut(r.queue, clk, off, service, ups)
  }

  /** Mapping a service whose values have a JSON form throws exactly when it leaves out a queued path. */
  lemma MapServiceThrowsIff(r: Reg, service: string, instance: string, ups: seq<Update>, force: bool, clk: Clock, off: nat)
    requires Inv(r) && Settled(r) && RegRenders(r) && UpdatesRender(ups)
    requires service in r.instances && r.instances[service] == instance && NameOf(service, instance).Some?
    ensures MapTo(r, service, instance, ups, force, |ups|).outcome == Ok
    ensures MapService(r, service, instance, ups, force, clk, off) == ProcessDelayed(Mapped(r, service, instance, ups, force), clk, off)
    ensures MapService(r, service, instance, ups, force, clk, off).outcome
         == if Covered(r, service, ups, clk, off) then Ok else Threw(QueuedPathMissing)
  {
    MapToRenders(r, service, instance, ups, force, |ups|);
    MapServiceRenders(r, service, instance, ups, force, clk, off);
    var a := Mapped(r, service, instance, ups, force);
    PassThrowsExactly(a.items, a.alive, a.queue, clk, off, |a.queue|);
    MissingIffUncovered(r, service, instance, ups, force, clk, off);
  }

  lemma MissingIffUncovered(r: Reg, service: string, instance: string, ups: seq<Update>, force: bool, clk: Clock, off: nat)
    requires Inv(r) && Settled(r) && MapTo(r, service, instance, ups, force, |ups|).outcome == Ok
    requires service in r.instances && r.instances[service] == instance && NameOf(service, instance).Some?
    ensures SomeMissing(Mapped(r, service, instance, ups, force).items, r.queue, clk, off, |r.queue|) <==> !Covered(r, service, ups, clk, off)
  {
    var a := Mapped(r, service, instance, ups, force);
    if ups == [] {
      assert a.items == r.items;
    } else {
      forall i | 0 <= i < |r.queue|
        ensures VerdictOf(a.items, r.queue[i], clk(off + i)) == Missing <==> LeftOut(r.queue[i], clk(off + i), service, ups)
      {
        MissingIffLeftOut(r, service, instance, ups, force, r.queue[i], clk(off + i));
      }
    }
  }

  /** What a mapping makes of a service's own values, given that they are `after` then. */
  predicate RightAfter(r: Reg, service: string, ups: seq<Update>, s: string, truth: Values, after: Values) {
    if service != s then after == truth
    else if s in r.items then after == Told(truth, ups, |ups|)
    else after == truth && Told(map[], ups, |ups|) == truth
  }

  lemma MapServiceMirrors(r: Reg, service: string, instance: string, ups: seq<Update>, force: bool, clk: Clock, off: nat, s: string, truth: Values, after: Values, last: nat)
    requires Inv(r) && Settled(r) && RegRenders(r) && UpdatesRender(ups) && Covered(r, service, ups, clk, off)
    requires Mirrors(r, s, truth, last) && Monotone(clk) && last <= clk(off) && RightAfter(r, service, ups, s, truth, after)
    requires service in r.instances && r.instances[service] == instance && NameOf(service, instance).Some?
    requires service == s && s !in r.items && ups != [] ==> ReplaysTruth(r.queue, clk, off, s, truth)
    ensures Mirrors(MapService(r, service, instance, ups, force, clk, off).reg, s, after, clk(off + |r.queue|))
  {
    var a := Mapped(r, service, instance, ups, force);
    MapServiceThrowsIff(r, service, instance, ups, force, clk, off);
    MapToValues(r, service, instance, ups, force, |ups|, s);
    if s in a.items {
      if s in r.items {
        QuietReplaysTruth(a.queue, clk, off, s, after);
      }
      PassAgreesIff(a, clk, off, s, after);
    } else {
      PassKeepsUnknown(a, clk, off, s, after, last);
    }
  }

  /** The mapping that makes a service known mirrors its values if and only if the replay agrees with them. */
  lemma FirstMapServiceIff(r: Reg, s: string, instance: string, ups: seq<Update>, force: bool, clk: Clock, truth: Values)
    requires Inv(r) && Settled(r) && RegRenders(r) && UpdatesRender(ups) && Covered(r, s, ups, clk, 0)
    requires s !in r.items && ups != [] && Told(map[], ups, |ups|) == truth
    requires s in r.instances && r.instances[s] == instance && NameOf(s, instance).Some?
    ensures var a := MapService(r, s, instance, ups, force, clk, 0).reg;
      s in a.items && (ValuesOf(a.items[s]) == truth <==> ReplaysTruth(r.queue, clk, 0, s, truth))
  {
    MapServiceThrowsIff(r, s, instance, ups, force, clk, 0);
    MapToValues(r, s, instance, ups, force, |ups|, s);
    PassAgreesIff(Mapped(r, s, instance, ups, force), clk, 0, s, truth);
  }

  /** The registry with the instance stored and the short name indexed, before anything is mapped. */
  function Indexed(r: Reg, service: string, instance: string): Reg
    requires NameOf(service, instance).Some?
  {
    r.(instances := r.instances[service := instance], index := r.index[NameOf(service, instance).value.total := service])
  }

  function InstanceFor(r: Reg, service: string, ups: seq<Update>): string {
    if service in r.instances then r.instances[service] else InstanceOf(ups, r.textOf)
  }

  /** What mapping a service comes to, unless it is queued or has no short name. */
  lemma AddMappingIs(r: Reg, service: string, ups: seq<Update>, known: bool, force: bool, clk: Clock, off: nat)
    requires Inv(r) && (known ==> service in r.items) && MakeShort(service).Some?
    ensures var i := InstanceFor(r, service, ups);
      && NameOf(service, i).Some?
      && Inv(Indexed(r, service, i))
      && AddMapping(r, service, ups, known, force, clk, off) == MapService(Indexed(r, service, i), service, i, ups, force, clk, off)
  {
    StoreInstanceKeeps(r, service, InstanceFor(r, service, ups));
  }

  lemma PrefixedHasName(service: string)
    ensures StartsWith(service, VICTRON_PREFIX) ==> MakeShort(service).Some?
  {}

  lemma QueueingMirrors(r: Reg, service: string, ups: seq<Update>, clk: Clock, off: nat, s: string, truth: Values, last: nat)
    requires Mirrors(r, s, truth, last) && service !in r.items && Monotone(clk) && Until(r.queue, clk(0))
    ensures var a := r.(queue := r.queue + Stamped(service, ups, clk, off, |ups|));
      Mirrors(a, s, if service == s then Told(truth, ups, |ups|) else truth, last)
  {
    if service == s {
      SpeakingEchoes(truth, r.queue, ups, s, clk, off, |ups|, last);
    } else if s !in r.items {
      var after := r.queue + Stamped(service, ups, clk, off, |ups|);
      forall p: string, now: nat | last <= now ensures Agrees(Said(after, s, p, now), Get(truth, p)) {
        OthersSayNothing(r.queue, ups, service, clk, off, |ups|, s, p, now);
        assert Agrees(Said(r.queue, s, p, now), Get(truth, p));
      }
    }
  }

  /** A reply maps the service it asks about. */
  lemma ReplyMappingMirrors(r: Reg, service: string, ups: seq<Update>, force: bool, clk: Clock, s: string, truth: Values, last: nat)
    requires Ready(r, last) && Mirrors(r, s, truth, last) && Monotone(clk) && last <= clk(0) && UpdatesRender(ups)
    requires StartsWith(s, VICTRON_PREFIX) && (service == s ==> Reports(r, s, truth, ups))
    requires MakeShort(service).Some? ==> Covered(r, service, ups, clk, 0)
    requires service == s && s !in r.items && ups != [] ==> ReplaysTruth(r.queue, clk, 0, s, truth)
    ensures Mirrors(AddMapping(r, service, ups, false, force, clk, 0).reg, s, truth, clk(|r.queue|))
  {
    if MakeShort(service).Some? {
      var i := InstanceFor(r, service, ups);
      AddMappingIs(r, service, ups, false, force, clk, 0);
      MapServiceMirrors(Indexed(r, service, i), service, i, ups, force, clk, 0, s, truth, truth, last);
    } else {
      PrefixedHasName(s);
      assert last <= clk(0) <= clk(|r.queue|);
    }
  }

  /** A signal about a known service changes its stored values as the signal says. */
  lemma KnownSignalMirrors(r: Reg, service: string, ups: seq<Update>, clk: Clock, off: nat, s: string, truth: Values)
    requires Ready(r, clk(0)) && Mirrors(r, s, truth, clk(off)) && Monotone(clk) && UpdatesRender(ups) && service in r.items
    requires MakeShort(service).Some?
    ensures Mirrors(AddMapping(r, service, ups, true, false, clk, off).reg, s,
                    if service == s then Told(truth, ups, |ups|) else truth, clk(off + |r.queue|))
  {
    var i := InstanceFor(r, service, ups);
    AddMappingIs(r, service, ups, true, false, clk, off);
    MapServiceMirrors(Indexed(r, service, i), service, i, ups, false, clk, off, s, truth,
                      if service == s then Told(truth, ups, |ups|) else truth, clk(off));
  }

  /** A signal about an unknown service is queued. */
  lemma UnknownSignalMirrors(r: Reg, service: string, ups: seq<Update>, clk: Clock, off: nat, s: string, truth: Values)
    requires Ready(r, clk(0)) && Mirrors(r, s, truth, clk(off)) && Monotone(clk) && service !in r.items
    ensures Mirrors(AddMapping(r, service, ups, true, false, clk, off).reg, s,
                    if service == s then Told(truth, ups, |ups|) else truth, clk(off + |r.queue|))
  {
    assert clk(0) <= clk(off) <= clk(off + |r.queue|);
    QueueingMirrors(r, service, ups, clk, off, s, truth, clk(off));
  }

  // ---------- readiness ----------

  lemma ProcessKeepsUntil(r: Reg, clk: Clock, off: nat, last: nat)
    requires Until(r.queue, last)
    ensures Until(ProcessDelayed(r, clk, off).reg.queue, last)
  {
    KeptUntil(r.items, r.alive, r.queue, clk, off, |r.queue|, last);
  }

  lemma AddMappingUntil(r: Reg, service: string, ups: seq<Update>, known: bool, force: bool, clk: Clock, off: nat)
    requires Until(r.queue, clk(0)) && Monotone(clk)
    ensures Until(AddMapping(r, service, ups, known, force, clk, off).reg.queue, clk(off + if known then |ups| else 0))
  {
    var end := off + if known then |ups| else 0;
    assert clk(0) <= clk(end);
    if known && service !in r.items {
      StampedUntil(r.queue, service, ups, clk, off, |ups|);
    } else if NameOf(service, InstanceFor(r, service, ups)).Some? && !(known && service !in r.instances) {
      MapServiceUntil(Indexed(r, service, InstanceFor(r, service, ups)), service, InstanceFor(r, service, ups), ups, force, clk, off, clk(end));
    }
  }

  lemma MapServiceUntil(r: Reg, service: string, instance: string, ups: seq<Update>, force: bool, clk: Clock, off: nat, last: nat)
    requires Until(r.queue, last)
    ensures Until(MapService(r, service, instance, ups, force, clk, off).reg.queue, last)
  {
    ProcessKeepsUntil(Mapped(r, service, instance, ups, force), clk, off, last);
  }

  lemma SignalUntil(r: Reg, sig: SignalBody, clk: Clock, last: nat)
    requires Until(r.queue, last) && Monotone(clk) && last <= clk(0)
    ensures Until(OnSignal(r, sig, clk).reg.queue, LastReading(r, Signal(sig, clk), last))
  {
    ProcessKeepsUntil(r, clk, 0, last);
    DispatchUntil(ProcessDelayed(r, clk, 0).reg, sig, clk, |r.queue|);
    assert clk(0) <= clk(|r.queue| + Carried(Signal(sig, clk))) <= clk(2 * |r.queue| + Carried(Signal(sig, clk)));
  }

  lemma DispatchUntil(r: Reg, sig: SignalBody, clk: Clock, off: nat)
    requires Until(r.queue, clk(0)) && Monotone(clk)
    ensures Until(Dispatch(r, sig, clk, off).reg.queue, clk(off + Carried(Signal(sig, clk))))
  {
    assert clk(0) <= clk(off + Carried(Signal(sig, clk)));
    if sig.Changed? {
      AddMappingUntil(r, NamedOwner(r, sig.sender), sig.ups, true, false, clk, off);
    }
  }

  lemma ReplyUntil(r: Reg, h: Handler, body: ReplyBody, calls: nat, clk: Clock, last: nat)
    requires Until(r.queue, last) && Monotone(clk) && last <= clk(0)
    ensures Until(OnReply(r, h, body, calls, clk).reg.queue, clk(0))
  {
    match (h, body)
    case (ListNames, Names(names)) => ScanAllKeepsQueue(r, names, calls);
    case (GetItems(t), ItemsBody(ups)) => AddMappingUntil(r, t, ups, false, false, clk, 0);
    case (GetValue(t, prefix, force), Tree(vals)) => AddMappingUntil(r, t, TreeUpdates(prefix, vals), false, force, clk, 0);
    case _ =>
  }

  lemma NextUntil(r: Reg, e: Event, last: nat)
    requires Until(r.queue, last) && ClockOk(e, last)
    ensures Until(Next(r, e).reg.queue, LastReading(r, e, last)) && last <= LastReading(r, e, last)
  {
    match e
    case Signal(sig, clk) =>
      assert clk(0) <= clk(2 * |r.queue| + Carried(e));
      SignalUntil(r, sig, clk, last);
    case Reply(serial, body, calls, clk) =>
      assert clk(0) <= clk(2 * |r.queue| + Carried(e));
      if serial in r.handlers {
        ReplyUntil(r.(handlers := r.handlers - {serial}), r.handlers[serial], body, calls, clk, last);
      }
    case PublishAll(order) => PublishStoredKeepsQueue(r, order, |order|);
    case _ =>
  }

  /** While values have a JSON form and clocks are steady, every event leaves the registry ready. */
  lemma NextKeepsReady(r: Reg, e: Event, last: nat)
    requires Ready(r, last) && ClockOk(e, last) && EventRenders(e)
    ensures Ready(Next(r, e).reg, LastReading(r, e, last))
  {
    NextKeeps(r, e);
    NextRenders(r, e);
    NextSettles(r, e);
    NextUntil(r, e, last);
  }

  // ---------- the other steps ----------

  lemma SameMirror(r: Reg, a: Reg, s: string, truth: Values, last: nat, later: nat)
    requires Mirrors(r, s, truth, last) && a.queue == r.queue && last <= later
    requires (s in a.items <==> s in r.items) && ValuesAt(a.items, s) == ValuesAt(r.items, s)
    ensures Mirrors(a, s, truth, later)
  {}

  lemma {:induction false} PublishStoredValues(r: Reg, order: seq<(string, string)>, n: nat, s: string)
    requires n <= |order|
    ensures var a := PublishStored(r, order, n).reg;
      (s in a.items <==> s in r.items) && ValuesAt(a.items, s) == ValuesAt(r.items, s) && a.queue == r.queue
    decreases n
  {
    if n > 0 {
      PublishStoredValues(r, order, n - 1, s);
      var b := PublishStored(r, order, n - 1);
      var (service, path) := order[n - 1];
      if b.outcome == Ok && service in b.reg.items && path in b.reg.items[service] {
        var i := Publish(b.reg.items[service][path], false).item;
        PutValues(b.reg.items, service, path, i);
        assert i.value == b.reg.items[service][path].value;
      }
    }
  }

  lemma FreshValueMirrors(r: Reg, service: string, path: string, v: Variant, s: string, truth: Values, last: nat)
    requires Mirrors(r, s, truth, last) && (service == s ==> ReportsFresh(truth, path, v))
    ensures Mirrors(OnFreshValue(r, service, path, v).reg, s, truth, last)
  {}

  lemma ReadRequestKeeps(r: Reg, topic: string, call: bool)
    ensures var a := OnReadRequest(r, topic, call).reg; a.items == r.items && a.queue == r.queue
  {
    ReadRequestChanges(r, topic, call);
  }

  /** The registry once the reply's handler is taken out. */
  function Taken(r: Reg, e: Event): Reg
    requires e.Reply?
  {
    r.(handlers := r.handlers - {e.serial})
  }

  function Forces(r: Reg, e: Event): bool
    requires e.Reply? && e.serial in r.handlers
  {
    r.handlers[e.serial].GetValue? && r.handlers[e.serial].force
  }

  lemma MappingReplyIs(r: Reg, e: Event)
    requires MappingReply(r, e).Some?
    ensures var (t, ups) := MappingReply(r, e).value;
      && Next(r, e) == AddMapping(Taken(r, e), t, ups, false, Forces(r, e), e.clk, 0)
      && (EventRenders(e) ==> UpdatesRender(ups))
  {}

  lemma QuietReplyKeeps(r: Reg, h: Handler, body: ReplyBody, calls: nat, clk: Clock)
    requires !(h.GetItems? && body.ItemsBody?) && !(h.GetValue? && body.Tree?) && !(h.ReadItem? && body.Value?)
    ensures var a := OnReply(r, h, body, calls, clk).reg; a.items == r.items && a.queue == r.queue
  {
    if h.ListNames? && body.Names? {
      ScanAllKeepsQueue(r, body.names, calls);
    }
  }

  lemma OtherReplyMirrors(r: Reg, e: Event, s: string, truth: Values, last: nat)
    requires Mirrors(r, s, truth, last) && e.Reply? && e.serial in r.handlers
    requires MappingReply(r, e) == None && Faithful(r, e, s, truth)
    ensures Mirrors(Next(r, e).reg, s, truth, last)
  {
    var h := r.handlers[e.serial];
    SameMirror(r, Taken(r, e), s, truth, last, last);
    if ReadReply(r, e) {
      FreshValueMirrors(Taken(r, e), h.service, h.path, e.body.v, s, truth, last);
    } else {
      QuietReplyKeeps(Taken(r, e), h, e.body, e.calls, e.clk);
      SameMirror(Taken(r, e), Next(r, e).reg, s, truth, last, last);
    }
  }

  lemma ReplyMirrors(r: Reg, e: Event, s: string, truth: Values, last: nat)
    requires Ready(r, last) && Mirrors(r, s, truth, last) && StartsWith(s, VICTRON_PREFIX)
    requires e.Reply? && e.serial in r.handlers && ClockOk(e, last)
    requires Faithful(r, e, s, truth) && EventRenders(e) && TellsQueued(r, e) && ReplayAgrees(r, e, s, truth)
    ensures Mirrors(Next(r, e).reg, s, truth, e.clk(|r.queue|))
  {
    assert e.clk(0) <= e.clk(|r.queue|);
    if MappingReply(r, e).Some? {
      var (t, ups) := MappingReply(r, e).value;
      MappingReplyIs(r, e);
      assert Ready(Taken(r, e), last);
      ReplyMappingMirrors(Taken(r, e), t, ups, Forces(r, e), e.clk, s, truth, last);
    } else {
      OtherReplyMirrors(r, e, s, truth, last);
      LaterMirrors(Next(r, e).reg, s, truth, last, e.clk(|r.queue|));
    }
  }

  lemma RemovalMirrors(r: Reg, service: string, order: seq<string>, leftover: Option<string>, s: string, truth: Values, last: nat)
    requires Mirrors(r, s, truth, last) && service != s
    ensures Mirrors(RemoveService(r, service, order, leftover), s, truth, last)
  {}

  /** A pass over a settled queue changes no values, and only drops what has expired. */
  lemma SettledPassMirrors(r: Reg, clk: Clock, s: string, truth: Values, last: nat)
    requires Ready(r, last) && Mirrors(r, s, truth, last) && Monotone(clk) && last <= clk(0)
    ensures var a := ProcessDelayed(r, clk, 0);
      && a.outcome == Ok && a.reg.items == r.items && a.reg.idToName == r.idToName && |a.reg.queue| <= |r.queue|
      && Ready(a.reg, clk(0)) && Mirrors(a.reg, s, truth, clk(|r.queue|))
  {
    SettledPassOnlyExpires(r.items, r.alive, r.queue, clk, 0, |r.queue|);
    ChosenIsShorter(r.items, r.queue, clk, 0, |r.queue|, Retain);
    ProcessKeeps(r, clk, 0);
    ProcessSettles(r, clk, 0);
    ProcessRenders(r, clk, 0);
    ProcessKeepsUntil(r, clk, 0, clk(0));
    if s !in r.items {
      PassKeepsUnknown(r, clk, 0, s, truth, last);
    }
  }

  lemma {:induction false} ChosenIsShorter(items: Store, q: seq<Queued>, clk: Clock, off: nat, n: nat, v: Verdict)
    requires n <= |q|
    ensures |Chosen(items, q, clk, off, n, v)| <= n
    decreases n
  {
    if n > 0 {
      ChosenIsShorter(items, q, clk, off, n - 1, v);
    }
  }

  lemma ChangedMirrors(r: Reg, sender: string, ups: seq<Update>, clk: Clock, off: nat, s: string, owner: string, truth: Values)
    requires Ready(r, clk(0)) && Mirrors(r, s, truth, clk(off)) && Monotone(clk) && StartsWith(s, VICTRON_PREFIX)
    requires UpdatesRender(ups) && !StartsWith(sender, "com.victronenergy") && Owns(r, owner, s)
    ensures Mirrors(Dispatch(r, Changed(sender, ups), clk, off).reg, s,
                    if sender == owner then Told(truth, ups, |ups|) else truth, clk(off + |r.queue|))
  {
    var service := NamedOwner(r, sender);
    CreditedIffSpoken(r, sender, owner, s);
    PrefixedHasName(service);
    if !StartsWith(service, VICTRON_PREFIX) {
      assert clk(off) <= clk(off + |r.queue|);
      LaterMirrors(r, s, truth, clk(off), clk(off + |r.queue|));
    } else if service in r.items {
      KnownSignalMirrors(r, service, ups, clk, off, s, truth);
    } else {
      UnknownSignalMirrors(r, service, ups, clk, off, s, truth);
    }
  }

  /** The dispatch of a signal, from where readings have come to clk(off) on. */
  lemma DispatchMirrors(r: Reg, sig: SignalBody, clk: Clock, off: nat, s: string, owner: string, truth: Values)
    requires Ready(r, clk(0)) && Mirrors(r, s, truth, clk(off)) && Monotone(clk) && StartsWith(s, VICTRON_PREFIX)
    requires EventRenders(Signal(sig, clk)) && SentOnBus(Signal(sig, clk)) && !Removes(Signal(sig, clk), s)
    requires sig.Changed? ==> Owns(r, owner, s)
    ensures Mirrors(Dispatch(r, sig, clk, off).reg, s, TruthAfter(Signal(sig, clk), owner, truth), clk(off + |r.queue|))
  {
    assert clk(0) <= clk(off) <= clk(off + |r.queue|);
    match sig
    case Changed(sender, ups) =>
      ChangedMirrors(r, sender, ups, clk, off, s, owner, truth);
    case NameOwnerChanged(name, oldOwner, newOwner, accepted, order, leftover) =>
      OwnerChangeMirrors(r, sig, clk, off, s, truth, clk(off));
      LaterMirrors(Dispatch(r, sig, clk, off).reg, s, truth, clk(off), clk(off + |r.queue|));
    case _ => LaterMirrors(r, s, truth, clk(off), clk(off + |r.queue|));
  }

  lemma OwnerChangeMirrors(r: Reg, sig: SignalBody, clk: Clock, off: nat, s: string, truth: Values, last: nat)
    requires Mirrors(r, s, truth, last) && sig.NameOwnerChanged? && !Removes(Signal(sig, clk), s)
    ensures Mirrors(Dispatch(r, sig, clk, off).reg, s, truth, last)
  {
    if OwnerSignal(Signal(sig, clk)) && sig.newOwner == "" && sig.oldOwner != "" {
      RemovalMirrors(r.(idToName := r.idToName - {sig.oldOwner}), sig.name, sig.order, sig.leftover, s, truth, last);
    } else {
      SameMirror(r, Dispatch(r, sig, clk, off).reg, s, truth, last, last);
    }
  }

  lemma SignalMirrors(r: Reg, sig: SignalBody, clk: Clock, s: string, owner: string, truth: Values, last: nat)
    requires Ready(r, last) && Mirrors(r, s, truth, last) && StartsWith(s, VICTRON_PREFIX)
    requires GoodStep(r, Signal(sig, clk), s, owner, truth, last) && (sig.Changed? ==> Owns(r, owner, s))
    ensures Mirrors(OnSignal(r, sig, clk).reg, s, TruthAfter(Signal(sig, clk), owner, truth), LastReading(r, Signal(sig, clk), last))
  {
    SettledPassMirrors(r, clk, s, truth, last);
    var b := ProcessDelayed(r, clk, 0).reg;
    DispatchMirrors(b, sig, clk, |r.queue|, s, owner, truth);
    assert clk(|r.queue| + |b.queue|) <= clk(2 * |r.queue| + Carried(Signal(sig, clk)));
    LaterMirrors(OnSignal(r, sig, clk).reg, s, TruthAfter(Signal(sig, clk), owner, truth), clk(|r.queue| + |b.queue|),
                 LastReading(r, Signal(sig, clk), last));
  }

  lemma LaterMirrors(r: Reg, s: string, truth: Values, last: nat, later: nat)
    requires Mirrors(r, s, truth, last) && last <= later
    ensures Mirrors(r, s, truth, later)
  {
    if s !in r.items {
      LaterEchoes(truth, r.queue, s, last, later);
    }
  }

  /** The registry knows whose the connection is, or learns it from this event. */
  ghost predicate Attributed(r: Reg, e: Event, owner: string, s: string) {
    Owns(r, owner, s) || (Unowned(r, s) && Appears(r, e, owner, s))
  }

  /** Every good event keeps the mirror in agreement with the service's values. */
  lemma NextMirrors(r: Reg, e: Event, s: string, owner: string, truth: Values, last: nat)
    requires Ready(r, last) && Mirrors(r, s, truth, last) && StartsWith(s, VICTRON_PREFIX) && Attributed(r, e, owner, s)
    requires GoodStep(r, e, s, owner, truth, last) && ReplayAgrees(r, e, s, truth)
    ensures var a, now := Next(r, e).reg, LastReading(r, e, last);
      Ready(a, now) && Owns(a, owner, s) && Mirrors(a, s, TruthAfter(e, owner, truth), now)
  {
    NextKeepsReady(r, e, last);
    NextOwns(r, e, owner, s);
    match e
    case Signal(sig, clk) => SignalMirrors(r, sig, clk, s, owner, truth, last);
    case Reply(serial, body, calls, clk) =>
      assert clk(0) <= clk(|r.queue|) <= clk(2 * |r.queue| + Carried(e));
      if serial in r.handlers {
        ReplyMirrors(r, e, s, truth, last);
        LaterMirrors(Next(r, e).reg, s, truth, clk(|r.queue|), LastReading(r, e, last));
      } else {
        LaterMirrors(r, s, truth, last, LastReading(r, e, last));
      }
    case PublishAll(order) =>
      PublishStoredValues(r, order, |order|, s);
      SameMirror(r, Next(r, e).reg, s, truth, last, last);
    case ReadRequest(topic, call) =>
      ReadRequestKeeps(r, topic, call);
      SameMirror(r, Next(r, e).reg, s, truth, last, last);
    case AliveChanged(alive) => SameMirror(r, Next(r, e).reg, s, truth, last, last);
    case Scan(call) => SameMirror(r, Next(r, e).reg, s, truth, last, last);
  }

  // ---------- runs ----------

  function TruthOver(es: seq<Event>, owner: string, truth: Values): Values {
    if es == [] then truth
    else TruthAfter(es[|es| - 1], owner, TruthOver(es[..|es| - 1], owner, truth))
  }

  function LastOver(r: Reg, es: seq<Event>, last: nat): nat {
    if es == [] then last
    else LastReading(Run(r, es[..|es| - 1]), es[|es| - 1], LastOver(r, es[..|es| - 1], last))
  }

  ghost predicate GoodRun(r: Reg, es: seq<Event>, s: string, owner: string, truth: Values, last: nat) {
    es != [] ==>
      var init := es[..|es| - 1];
      && GoodRun(r, init, s, owner, truth, last)
      && GoodStep(Run(r, init), es[|es| - 1], s, owner, TruthOver(init, owner, truth), LastOver(r, init, last))
  }

  /** No reply that makes the service known has one of its changes cross the age limit. */
  ghost predicate UncrossedRun(r: Reg, es: seq<Event>, s: string) {
    es != [] ==> UncrossedRun(r, es[..|es| - 1], s) && Uncrossed(Run(r, es[..|es| - 1]), es[|es| - 1], s)
  }

  /** The service is new to the registry: not known, nothing queued, and no connection named as its own. */
  ghost predicate NewTo(r: Reg, s: string) {
    s !in r.items && NoneOf(r.queue, s) && Unowned(r, s) && StartsWith(s, VICTRON_PREFIX)
  }

  /** A run that begins with the service's appearance under the connection. */
  ghost predicate Life(r: Reg, es: seq<Event>, s: string, owner: string, truth: Values, last: nat) {
    && Ready(r, last) && NewTo(r, s)
    && es != [] && Appears(r, es[0], owner, s) && GoodRun(r, es, s, owner, truth, last)
  }

  lemma UncrossedAgrees(r: Reg, e: Event, s: string, truth: Values, last: nat)
    requires Mirrors(r, s, truth, last) && Uncrossed(r, e, s) && ClockOk(e, last)
    ensures ReplayAgrees(r, e, s, truth)
  {
    if FirstMapping(r, e, s) {
      UncrossedReplaysTruth(r.queue, e.clk, 0, s, truth, last);
    }
  }

  /**
   Main result: a service appears under a connection, with any values. After every good run in
   which none of its changes crosses the age limit while it is being replayed, the connection is
   known as the service's own, and if the service is known, its stored values are exactly those
   it reported and sent under that connection.
   */
  lemma {:induction false} MirrorAgrees(r: Reg, es: seq<Event>, s: string, owner: string, truth: Values, last: nat)
    requires Life(r, es, s, owner, truth, last) && UncrossedRun(r, es, s)
    ensures var a, now := Run(r, es), LastOver(r, es, last);
      && Ready(a, now) && Owns(a, owner, s) && Mirrors(a, s, TruthOver(es, owner, truth), now)
      && (s in a.items ==> ValuesOf(a.items[s]) == TruthOver(es, owner, truth))
    decreases |es|
  {
    var init, e := es[..|es| - 1], es[|es| - 1];
    var b, now, t := Run(r, init), LastOver(r, init, last), TruthOver(init, owner, truth);
    if init == [] {
      NothingEchoes(truth, r.queue, s, last);
    } else {
      assert init[0] == es[0];
      MirrorAgrees(r, init, s, owner, truth, last);
    }
    UncrossedAgrees(b, e, s, t, now);
    NextMirrors(b, e, s, owner, t, now);
  }
}

/**
 The calls the registry makes and the replies it waits for (src/state.cpp, src/dbus_functions.cpp):
 finding the services there are, getting to know one that appears, and reading an item. A call
 is remembered under its serial until the reply to that serial comes, whatever happens between.
 */
module Calls {
  import opened Wrappers
  import opened Text
  import opened ShortNames
  import opened Variants
  import opened Items
  import opened Registry
  import opened RegistryInvariant
  import opened TopicRoundTrip
  import opened DelayedChanges
  import opened Owners
  import opened Instances
  import opened Announcements

  /** Serials are handed out in order. */
  predicate SerialsOk(r: Reg) {
    forall k | k in r.handlers :: k < r.nextSerial
  }

  /** The call was made, and its reply has not come. */
  predicate Awaits(r: Reg, serial: nat, h: Handler) {
    serial in r.handlers && r.handlers[serial] == h
  }

  predicate SameSystem(r: Reg, a: Reg) {
    a.alive == r.alive && a.vrmId == r.vrmId
  }

  /** Every reply that was awaited still is, and new calls have new serials. */
  predicate OnlyNewCalls(r: Reg, a: Reg) {
    && r.nextSerial <= a.nextSerial && SameSystem(r, a)
    && (forall k | k in r.handlers :: k in a.handlers && a.handlers[k] == r.handlers[k])
    && (forall k | k in a.handlers && k !in r.handlers :: r.nextSerial <= k < a.nextSerial)
  }

  predicate SameCalls(r: Reg, a: Reg) {
    a.handlers == r.handlers && a.nextSerial == r.nextSerial && SameSystem(r, a)
  }

  lemma CallIsAwaited(r: Reg, h: Handler, accepted: bool)
    requires SerialsOk(r)
    ensures var c := Call(r, h, accepted);
      && OnlyNewCalls(r, c.reg) && SerialsOk(c.reg)
      && (accepted ==> c.outcome == Ok && Awaits(c.reg, r.nextSerial, h) && c.reg.nextSerial == r.nextSerial + 1)
      && (!accepted ==> c.outcome == Threw(CallRefused) && SameCalls(r, c.reg))
  {}

  // ---------- what makes no call ----------

  lemma MapServiceCalls(r: Reg, service: string, instance: string, ups: seq<Update>, force: bool, clk: Clock, off: nat)
    ensures SameCalls(r, MapService(r, service, instance, ups, force, clk, off).reg)
  {}

  lemma AddMappingCalls(r: Reg, service: string, ups: seq<Update>, known: bool, force: bool, clk: Clock, off: nat)
    ensures SameCalls(r, AddMapping(r, service, ups, known, force, clk, off).reg)
  {
    var instance := if service in r.instances then r.instances[service] else InstanceOf(ups, r.textOf);
    if !(known && (service !in r.items || service !in r.instances)) && NameOf(service, instance).Some? {
      var r1 := r.(instances := r.instances[service := instance]);
      MapServiceCalls(r1.(index := r1.index[NameOf(service, instance).value.total := service]), service, instance, ups, force, clk, off);
    }
  }

  lemma {:induction false} PublishStoredCalls(r: Reg, order: seq<(string, string)>, n: nat)
    requires n <= |order|
    ensures SameCalls(r, PublishStored(r, order, n).reg)
    decreases n
  {
    if n > 0 {
      PublishStoredCalls(r, order, n - 1);
    }
  }

  // ---------- finding the services there are ----------

  /** The Victron names in the list, in order. */
  function VictronNames(names: seq<string>): seq<string> {
    if names == [] then []
    else (if StartsWith(names[0], "com.victronenergy") then [names[0]] else []) + VictronNames(names[1..])
  }

  /** From r to a, exactly the owners of the first n of these names were asked for. */
  predicate AskedOwners(r: Reg, a: Reg, names: seq<string>, n: nat)
    requires n <= |names|
  {
    && a.nextSerial == r.nextSerial + n && SameSystem(r, a)
    && (forall k | k in r.handlers :: k in a.handlers && a.handlers[k] == r.handlers[k])
    && (forall k | k in a.handlers && k !in r.handlers :: r.nextSerial <= k < a.nextSerial)
    && (forall j | 0 <= j < n :: Awaits(a, r.nextSerial + j, GetNameOwner(names[j])))
  }

  lemma OneMoreAsked(r: Reg, name: string, a: Reg, names: seq<string>, n: nat)
    requires SerialsOk(r) && n <= |names| && AskedOwners(Call(r, GetNameOwner(name), true).reg, a, names, n)
    ensures AskedOwners(r, a, [name] + names, n + 1)
  {
    var b := Call(r, GetNameOwner(name), true).reg;
    forall j | 0 <= j < n + 1 ensures Awaits(a, r.nextSerial + j, GetNameOwner(([name] + names)[j])) {
      if j > 0 {
        assert Awaits(a, b.nextSerial + (j - 1), GetNameOwner(names[j - 1]));
      } else {
        assert r.nextSerial in b.handlers;
      }
    }
  }

  /** As many of these owners were asked for as calls were accepted; the first that is not ends it. */
  predicate AskedUntilRefused(r: Reg, s: Step, vs: seq<string>, calls: nat) {
    && AskedOwners(r, s.reg, vs, Least(calls, |vs|)) && SerialsOk(s.reg)
    && s.outcome == if calls < |vs| then Threw(CallRefused) else Ok
  }

  lemma AskOneThenMore(r: Reg, name: string, s: Step, vs: seq<string>, calls: nat)
    requires SerialsOk(r) && calls > 0 && AskedUntilRefused(Call(r, GetNameOwner(name), true).reg, s, vs, calls - 1)
    ensures AskedUntilRefused(r, s, [name] + vs, calls)
  {
    OneMoreAsked(r, name, s.reg, vs, Least(calls - 1, |vs|));
  }

  /** The list of names makes the registry ask for the owner of every Victron service, in order, until the bus refuses a call. */
  lemma {:induction false} ScanAsksAll(r: Reg, names: seq<string>, calls: nat)
    requires SerialsOk(r)
    ensures AskedUntilRefused(r, ScanAll(r, names, calls), VictronNames(names), calls)
    decreases |names|
  {
    if names != [] {
      if !StartsWith(names[0], "com.victronenergy") {
        ScanAsksAll(r, names[1..], calls);
        assert VictronNames(names) == VictronNames(names[1..]);
      } else if calls > 0 {
        ScanAsksAll(Call(r, GetNameOwner(names[0]), true).reg, names[1..], calls - 1);
        AskOneThenMore(r, names[0], ScanAll(r, names, calls), VictronNames(names[1..]), calls);
      }
    }
  }

  // ---------- a reply is awaited until it comes ----------

  lemma SignalCalls(r: Reg, sig: SignalBody, clk: Clock)
    requires SerialsOk(r)
    ensures OnlyNewCalls(r, OnSignal(r, sig, clk).reg) && SerialsOk(OnSignal(r, sig, clk).reg)
  {
    var b := ProcessDelayed(r, clk, 0).reg;
    assert SameCalls(r, b);
    match sig
    case Changed(sender, ups) => AddMappingCalls(b, NamedOwner(b, sender), ups, true, false, clk, |r.queue|);
    case _ =>
  }

  /** Replies that map nothing and list nothing make at most one call. */
  lemma OtherReplyCalls(r: Reg, h: Handler, body: ReplyBody, calls: nat, clk: Clock)
    requires SerialsOk(r) && !body.Names? && !body.ItemsBody? && !body.Tree?
    ensures OnlyNewCalls(r, OnReply(r, h, body, calls, clk).reg) && SerialsOk(OnReply(r, h, body, calls, clk).reg)
  {}

  lemma ReplyCalls(r: Reg, h: Handler, body: ReplyBody, calls: nat, clk: Clock)
    requires SerialsOk(r)
    ensures OnlyNewCalls(r, OnReply(r, h, body, calls, clk).reg) && SerialsOk(OnReply(r, h, body, calls, clk).reg)
  {
    match (h, body)
    case (ListNames, Names(names)) => ScanAsksAll(r, names, calls);
    case (GetItems(t), ItemsBody(ups)) => AddMappingCalls(r, t, ups, false, false, clk, 0);
    case (GetValue(t, prefix, force), Tree(vals)) => AddMappingCalls(r, t, TreeUpdates(prefix, vals), false, force, clk, 0);
    case _ =>
      if !body.Names? && !body.ItemsBody? && !body.Tree? {
        OtherReplyCalls(r, h, body, calls, clk);
      }
  }

  /** The registry without the handler of a reply that has come. */
  function Answered(r: Reg, serial: nat): Reg {
    r.(handlers := r.handlers - {serial})
  }

  /** From r to a, what an event does to the calls and to the system. */
  predicate CallsAfter(r: Reg, e: Event, a: Reg) {
    && SerialsOk(a) && a.vrmId == r.vrmId && a.alive == (if e.AliveChanged? then e.alive else r.alive)
    && forall k | k in r.handlers && !(e.Reply? && e.serial == k) :: Awaits(a, k, r.handlers[k])
  }

  lemma ReplyEventCalls(r: Reg, e: Event)
    requires SerialsOk(r) && e.Reply? && e.serial in r.handlers
    ensures CallsAfter(r, e, Next(r, e).reg)
  {
    var b := Answered(r, e.serial);
    ReplyCalls(b, r.handlers[e.serial], e.body, e.calls, e.clk);
    assert forall k | k in r.handlers && k != e.serial :: k in b.handlers;
  }

  lemma ReadRequestCalls(r: Reg, topic: string, call: bool)
    requires SerialsOk(r)
    ensures OnlyNewCalls(r, OnReadRequest(r, topic, call).reg) && SerialsOk(OnReadRequest(r, topic, call).reg)
  {
    match ReadCall(r, topic)
    case Success(h) => CallIsAwaited(r, h, call);
    case _ =>
  }

  lemma NextCalls(r: Reg, e: Event)
    requires SerialsOk(r)
    ensures CallsAfter(r, e, Next(r, e).reg)
  {
    match e
    case Signal(sig, clk) => SignalCalls(r, sig, clk);
    case Reply(k, body, calls, clk) =>
      if k in r.handlers {
        ReplyEventCalls(r, e);
      }
    case ReadRequest(topic, call) => ReadRequestCalls(r, topic, call);
    case PublishAll(order) => PublishStoredCalls(r, order, |order|);
    case _ =>
  }

  predicate Unanswered(es: seq<Event>, serial: nat) {
    forall i | 0 <= i < |es| :: !(es[i].Reply? && es[i].serial == serial)
  }

  /** Whatever happens, a reply that has not come is still awaited. */
  lemma {:induction false} StillAwaited(r: Reg, es: seq<Event>, serial: nat, h: Handler)
    requires Inv(r) && SerialsOk(r) && Awaits(r, serial, h) && Unanswered(es, serial)
    ensures var a := Run(r, es); Inv(a) && SerialsOk(a) && Awaits(a, serial, h)
    decreases |es|
  {
    if es != [] {
      var init := es[..|es| - 1];
      StillAwaited(r, init, serial, h);
      NextKeeps(Run(r, init), es[|es| - 1]);
      NextCalls(Run(r, init), es[|es| - 1]);
    }
  }

  /** Whether the system was last said to be alive; it is not at plugin start. */
  function SaidAlive(es: seq<Event>): bool {
    if es == [] then false
    else if es[|es| - 1].AliveChanged? then es[|es| - 1].alive
    else SaidAlive(es[..|es| - 1])
  }

  /** In every run serials are handed out in order, the portal id stays, and the system is alive exactly if it was last said to be. */
  lemma {:induction false} EveryRunHasSerials(vrmId: string, textOf: Variant -> string, es: seq<Event>)
    ensures var a := Run(Initial(vrmId, textOf), es); SerialsOk(a) && a.vrmId == vrmId && a.alive == SaidAlive(es)
    decreases |es|
  {
    if es != [] {
      EveryRunHasSerials(vrmId, textOf, es[..|es| - 1]);
      NextCalls(Run(Initial(vrmId, textOf), es[..|es| - 1]), es[|es| - 1]);
    }
  }

  // ---------- getting to know a service ----------

  /** At plugin start the bus is asked for its names. */
  lemma ScanAsks(r: Reg, accepted: bool)
    requires SerialsOk(r)
    ensures var a := Next(r, Scan(accepted));
      if accepted then a.outcome == Ok && Awaits(a.reg, r.nextSerial, ListNames) else a == Step(r, Threw(CallRefused))
  {}

  /** When a service appears, its owner is asked for. */
  lemma AppearanceAsks(r: Reg, e: Event, owner: string, s: string)
    requires SerialsOk(r) && Settled(r) && Acquires(e, owner, s)
    ensures if e.sig.accepted then Awaits(Next(r, e).reg, r.nextSerial, GetNameOwner(s)) && Next(r, e).outcome == Ok
            else Next(r, e).outcome == Threw(CallRefused) && SameCalls(r, Next(r, e).reg)
  {
    SettledPassOnlyExpires(r.items, r.alive, r.queue, e.clk, 0, |r.queue|);
  }

  /** Once the owner is known, its items are asked for. */
  lemma OwnerReplyAsks(r: Reg, serial: nat, s: string, owner: string, calls: nat, clk: Clock)
    requires SerialsOk(r) && Awaits(r, serial, GetNameOwner(s))
    ensures var a := Next(r, Reply(serial, Owner(owner), calls, clk));
      if calls > 0 then a.outcome == Ok && Awaits(a.reg, r.nextSerial, GetItems(s)) && !(serial in a.reg.handlers)
      else a.outcome == Threw(CallRefused) && SameCalls(Answered(r, serial), a.reg)
  {}

  /** A service that does not know GetItems is asked for its whole tree of values; any other error is the end of it. */
  lemma UnknownMethodAsks(r: Reg, serial: nat, s: string, name: string, calls: nat, clk: Clock)
    requires SerialsOk(r) && Awaits(r, serial, GetItems(s))
    ensures var a := Next(r, Reply(serial, ErrorReply(name), calls, clk));
      if name != "org.freedesktop.DBus.Error.UnknownMethod" then a == Step(Answered(r, serial), Ok)
      else if calls > 0 then a.outcome == Ok && Awaits(a.reg, r.nextSerial, GetValue(s, "/", false))
      else a == Step(Answered(r, serial), Threw(CallRefused))
  {}

  predicate Stored(items: Store, s: string, p: string) {
    s in items && p in items[s]
  }

  /** Unless the mapping threw, the first n entries are stored. */
  predicate StoresFirst(m: Mapping, s: string, ups: seq<Update>, n: nat)
    requires n <= |ups|
  {
    m.outcome == Ok ==> forall i | 0 <= i < n :: Stored(m.items, s, PrefixSlash(ups[i].path))
  }

  lemma OneMoreStored(m: Mapping, r: Reg, s: string, instance: string, ups: seq<Update>, force: bool, n: nat)
    requires 0 < n <= |ups| && StoresFirst(m, s, ups, n - 1)
    ensures StoresFirst(MapOne(m, r, s, instance, ups[n - 1], force), s, ups, n)
  {}

  lemma {:induction false} MapsAll(r: Reg, s: string, instance: string, ups: seq<Update>, force: bool, n: nat)
    requires n <= |ups|
    ensures StoresFirst(MapTo(r, s, instance, ups, force, n), s, ups, n)
    decreases n
  {
    if n > 0 {
      MapsAll(r, s, instance, ups, force, n - 1);
      OneMoreStored(MapTo(r, s, instance, ups, force, n - 1), r, s, instance, ups, force, n);
    }
  }

  lemma MapServiceStores(r: Reg, s: string, instance: string, ups: seq<Update>, force: bool, clk: Clock, off: nat, i: nat)
    requires Inv(r) && s in r.instances && r.instances[s] == instance && NameOf(s, instance).Some?
    requires MapService(r, s, instance, ups, force, clk, off).outcome == Ok && i < |ups|
    ensures Stored(MapService(r, s, instance, ups, force, clk, off).reg.items, s, PrefixSlash(ups[i].path))
  {
    MapToKeeps(r, s, instance, ups, force, |ups|);
    MapsAll(r, s, instance, ups, force, |ups|);
    var m := MapTo(r, s, instance, ups, force, |ups|);
    PassKeeps(m.items, r.alive, r.queue, clk, off, |r.queue|, r.instances, r.vrmId);
  }

  lemma AddMappingStores(r: Reg, s: string, ups: seq<Update>, force: bool, clk: Clock, off: nat, i: nat)
    requires Inv(r) && AddMapping(r, s, ups, false, force, clk, off).outcome == Ok && i < |ups|
    ensures Stored(AddMapping(r, s, ups, false, force, clk, off).reg.items, s, PrefixSlash(ups[i].path))
  {
    var instance := if s in r.instances then r.instances[s] else InstanceOf(ups, r.textOf);
    StoreInstanceKeeps(r, s, instance);
    var r1 := r.(instances := r.instances[s := instance]);
    MapServiceStores(r1.(index := r1.index[NameOf(s, instance).value.total := s]), s, instance, ups, force, clk, off, i);
  }

  /** A reply with items that does not throw stores every one of them. */
  lemma ReplyStores(r: Reg, e: Event, s: string, ups: seq<Update>, i: nat)
    requires Inv(r) && Brings(r, e, s, ups) && Next(r, e).outcome == Ok && i < |ups|
    ensures Stored(Next(r, e).reg.items, s, PrefixSlash(ups[i].path))
  {
    var force := match r.handlers[e.serial] case GetValue(_, _, f) => f case _ => false;
    AddMappingStores(Answered(r, e.serial), s, ups, force, e.clk, 0, i);
  }

  /** The registry after an event and a run that leaves the call made in it unanswered. */
  function Later(r: Reg, e: Event, es: seq<Event>): Reg {
    Run(Next(r, e).reg, es)
  }

  /**
   Main result: a service that appears gets known. Its owner is asked for; whatever happens
   until that reply comes, its items are asked for then; and whatever happens until those come,
   each of them is stored then, unless the reply throws.
   */
  lemma AppearedServiceIsMapped(r: Reg, e: Event, es: seq<Event>, owned: Event, more: seq<Event>, reply: Event, owner: string, s: string, ups: seq<Update>, i: nat)
    requires Inv(r) && SerialsOk(r) && Settled(r) && Acquires(e, owner, s) && e.sig.accepted && i < |ups|
    requires Unanswered(es, r.nextSerial)
    requires owned.Reply? && owned.serial == r.nextSerial && owned.body.Owner? && owned.calls > 0
    requires var b := Later(r, e, es);
      && Unanswered(more, b.nextSerial)
      && reply.Reply? && reply.serial == b.nextSerial && reply.body == ItemsBody(ups)
      && Next(Later(b, owned, more), reply).outcome == Ok
    ensures Stored(Next(Later(Later(r, e, es), owned, more), reply).reg.items, s, PrefixSlash(ups[i].path))
  {
    var b := Later(r, e, es);
    NextKeeps(r, e);
    NextCalls(r, e);
    AppearanceAsks(r, e, owner, s);
    StillAwaited(Next(r, e).reg, es, r.nextSerial, GetNameOwner(s));
    NextKeeps(b, owned);
    NextCalls(b, owned);
    OwnerReplyAsks(b, r.nextSerial, s, owned.body.owner, owned.calls, owned.clk);
    StillAwaited(Next(b, owned).reg, more, b.nextSerial, GetItems(s));
    ReplyStores(Later(b, owned, more), reply, s, ups, i);
  }

  // ---------- other replies and signals ----------

  /** The reply is of the kind that the call asks for. */
  predicate Fitting(h: Handler, body: ReplyBody) {
    match h
    case ListNames => body.Names?
    case GetNameOwner(_) => body.Owner?
    case GetItems(_) => body.ItemsBody?
    case GetValue(_, _, _) => body.Tree?
    case ReadItem(_, _) => body.Value?
  }

  /** A reply of another kind throws and changes nothing; an error is the end of the call, except that a list of names is expected. */
  lemma OtherRepliesEnd(r: Reg, serial: nat, h: Handler, body: ReplyBody, calls: nat, clk: Clock)
    requires Awaits(r, serial, h) && !Fitting(h, body) && !h.GetItems?
    ensures Next(r, Reply(serial, body, calls, clk))
         == Step(Answered(r, serial), if body.ErrorReply? && !h.ListNames? then Ok else Threw(BadMessage))
  {}

  /** A reply that nobody awaits is ignored. */
  lemma UnknownSerialIsIgnored(r: Reg, serial: nat, body: ReplyBody, calls: nat, clk: Clock)
    requires serial !in r.handlers
    ensures Next(r, Reply(serial, body, calls, clk)) == Step(r, Ok)
  {}

  /** A signal that is not from a Victron service, or says nothing of items or owners, only lets delayed changes expire; one that cannot be read throws. */
  lemma ForeignSignalIsIgnored(r: Reg, sig: SignalBody, clk: Clock)
    requires Settled(r) && !sig.NameOwnerChanged?
    requires sig.Changed? ==> !StartsWith(NamedOwner(r, sig.sender), "com.victronenergy.")
    ensures OnSignal(r, sig, clk)
         == Step(r.(queue := Chosen(r.items, r.queue, clk, 0, |r.queue|, Retain)), if sig.Unreadable? then Threw(BadMessage) else Ok)
  {
    SettledPassOnlyExpires(r.items, r.alive, r.queue, clk, 0, |r.queue|);
    assert r.out + [] == r.out;
  }

  /** The disappearance of a service removes it and its items, and sends an empty payload for each that had been sent and is not retained. */
  lemma DisappearanceSends(r: Reg, e: Event, s: string)
    requires Inv(r) && Settled(r) && Removes(e, s)
    ensures var a := Next(r, e);
      && a.outcome == Ok && a.reg.items == r.items - {s} && a.reg.instances == r.instances - {s}
      && |r.out| <= |a.reg.out| && a.reg.out[..|r.out|] == r.out
      && (s !in r.items ==> a.reg.out == r.out)
      && (s in r.items ==> Clears(a.reg.out[|r.out|..], r.items[s], Cleared(s, r.items[s], e.sig.order)))
  {
    SettledPassOnlyExpires(r.items, r.alive, r.queue, e.clk, 0, |r.queue|);
    assert r.out + [] == r.out;
    var b := ProcessDelayed(r, e.clk, 0).reg;
    RemovalSends(b.(idToName := b.idToName - {e.sig.oldOwner}), s, e.sig.order, e.sig.leftover);
  }

  /** What a reply sends while the system is asleep: only a read of a path that was not known forces publishing. */
  lemma AsleepReplyEventSends(r: Reg, e: Event, s: string, ups: seq<Update>)
    requires Inv(r) && !r.alive && Brings(r, e, s, ups) && Next(r, e).outcome == Ok
    ensures var a, h := Next(r, e).reg, r.handlers[e.serial];
      && |r.out| <= |a.out| && a.out[..|r.out|] == r.out
      && ShowsAll(a.out[|r.out|..], r.vrmId, HeardOf(false, h.GetValue? && h.force, s, ups, |ups|))
  {
    var h := r.handlers[e.serial];
    AsleepReplySends(Answered(r, e.serial), s, ups, h.GetValue? && h.force, e.clk, 0);
  }

  // ---------- the tree of values ----------

  /**
   An entry of a GetValue reply has the path that the same item has in a GetItems reply, wherever
   the reply cuts it, and its value without a minimum and a maximum.
   */
  lemma TreeUpdateIs(prefix: string, vals: seq<(string, Variant)>, i: nat, key: string)
    requires i < |vals| && NoDoubleSlash(key) && StartsWith(key, "/")
    requires key == prefix + "/" + vals[i].0 || (key == prefix + vals[i].0 && SlashAtSeam(prefix, vals[i].0))
    ensures var ups := TreeUpdates(prefix, vals);
      && |ups| == |vals| && PrefixSlash(ups[i].path) == key
      && ups[i].value.value == vals[i].1 && ups[i].value.min == Unknown && ups[i].value.max == Unknown
  {
    RejoinedPathIsTheKey(key, prefix, vals[i].0);
  }

  // ---------- reading ----------

  /** The topic of a read request for a path of a service with this short name. */
  function ReadTopic(action: string, vrmId: string, name: ShortName, path: string): string {
    action + "/" + (vrmId + "/" + (name.serviceType + "/" + (name.instance + path)))
  }

  predicate WellNamed(action: string, vrmId: string, name: ShortName, path: string) {
    && '/' !in action && '/' !in vrmId && '/' !in name.serviceType && '/' !in name.instance
    && StartsWith(path, "/")
  }

  lemma ReadTopicParts(action: string, vrmId: string, name: ShortName, path: string, max: nat)
    requires WellNamed(action, vrmId, name, path) && max >= 4
    ensures Split(ReadTopic(action, vrmId, name, path), '/', max, true)
         == [action, vrmId, name.serviceType, name.instance] + Split(path[1..], '/', max - 4, true)
  {
    var rest := path[1..];
    assert name.instance + path == name.instance + ['/'] + rest;
    CutTwice(name.serviceType, name.instance, rest, max - 2);
    CutTwice(action, vrmId, name.serviceType + "/" + (name.instance + path), max);
    var last := Split(rest, '/', max - 4, true);
    assert [action, vrmId] + ([name.serviceType, name.instance] + last) == [action, vrmId, name.serviceType, name.instance] + last;
  }

  lemma CutTwice(a: string, b: string, rest: string, max: nat)
    requires '/' !in a && '/' !in b && max >= 2
    ensures Split(a + "/" + (b + "/" + rest), '/', max, true) == [a, b] + Split(rest, '/', max - 2, true)
  {
    CutAtFirst(a, b + "/" + rest, '/', max);
    CutAtFirst(b, rest, '/', max - 1);
  }

  lemma LastPart(s: string)
    ensures Split(s, '/', 0, true) == [s]
  {}

  /** The item or the error that the index has for a place. */
  function ByIndex(r: Reg, name: ShortName, path: string): Result<Item, FindError> {
    if name.total !in r.index then Failure(NoService)
    else if r.index[name.total] !in r.items then Failure(NoItems)
    else if path !in r.items[r.index[name.total]] then Failure(NoItem(r.index[name.total], path))
    else Success(r.items[r.index[name.total]][path])
  }

  lemma FoundByIndex(r: Reg, action: string, name: ShortName, path: string)
    requires WellNamed(action, r.vrmId, name, path) && NameOf(name.serviceType, name.instance) == Some(name)
    ensures FindByTopic(r, ReadTopic(action, r.vrmId, name, path)) == ByIndex(r, name, path)
  {
    ReadTopicParts(action, r.vrmId, name, path, 4);
    LastPart(path[1..]);
    assert Split(ReadTopic(action, r.vrmId, name, path), '/', 4, true) == [action, r.vrmId, name.serviceType, name.instance, path[1..]];
    assert "/" + path[1..] == path;
  }

  lemma ThirdSubtopic(action: string, vrmId: string, name: ShortName, path: string)
    requires WellNamed(action, vrmId, name, path)
    ensures var t := ReadTopic(action, vrmId, name, path);
      |Split(t, '/', |t|, true)| >= 3 && Split(t, '/', |t|, true)[2] == name.serviceType
  {
    var t := ReadTopic(action, vrmId, name, path);
    assert |t| >= 4;
    ReadTopicParts(action, vrmId, name, path, |t|);
  }

  /** What a read request for a place makes of it, by the index. */
  lemma ReadAsks(r: Reg, action: string, name: ShortName, path: string)
    requires WellNamed(action, r.vrmId, name, path) && NameOf(name.serviceType, name.instance) == Some(name)
    ensures var c := ReadCall(r, ReadTopic(action, r.vrmId, name, path));
      if name.serviceType == "GuiCustomizations" then c == Failure(Ok)
      else if name.total !in r.index || r.index[name.total] !in r.items then c == Failure(Threw(NotFound))
      else var s := r.index[name.total];
        if path in r.items[s] then c == Success(ReadItem(r.items[s][path].serviceName, r.items[s][path].path))
        else c == Success(GetValue(s, path, true))
  {
    FoundByIndex(r, action, name, path);
    ThirdSubtopic(action, r.vrmId, name, path);
  }

  /** A request for the topic of a stored service asks that service, for the item or for the path it does not have yet. */
  lemma ReadAsksTheService(r: Reg, action: string, s: string, path: string)
    requires Inv(r) && SerialsOk(r) && s in r.items && Listed(r, s)
    requires WellNamed(action, r.vrmId, NameOf(s, r.instances[s]).value, path)
    requires NameOf(s, r.instances[s]).value.serviceType != "GuiCustomizations"
    ensures var a := Next(r, ReadRequest(ReadTopic(action, r.vrmId, NameOf(s, r.instances[s]).value, path), true));
      && a.outcome == Ok && SerialsOk(a.reg) && a.reg.items == r.items && a.reg.out == r.out
      && Awaits(a.reg, r.nextSerial, if path in r.items[s] then ReadItem(s, path) else GetValue(s, path, true))
  {
    var name := NameOf(s, r.instances[s]).value;
    TypeIsShort(s);
    ReadAsks(r, action, name, path);
    if path in r.items[s] {
      assert ServiceOk(r.items[s], r.vrmId, s, r.instances[s]);
      assert ItemOk(r.items[s][path], r.vrmId, s, r.instances[s], path);
    }
  }

  /** The step f answers a read: it throws exactly when the item is gone or has no JSON form, and else stores and sends what was read. */
  ghost predicate AnswersRead(b: Reg, serial: nat, s: string, path: string, v: Variant, f: Step) {
    if !Stored(b.items, s, path) then f == Step(Answered(b, serial), Threw(ItemGone))
    else && StoredAt(Answered(b, serial), f.reg, s, path, v)
         && SentOnce(b.out, f.reg.out, f.outcome, b.vrmId, s, path, f.reg.items[s][path])
  }

  lemma ReplyAnswersRead(b: Reg, serial: nat, s: string, path: string, v: Variant, calls: nat, clk: Clock)
    requires Inv(b) && Awaits(b, serial, ReadItem(s, path))
    ensures AnswersRead(b, serial, s, path, v, Next(b, Reply(serial, Value(v), calls, clk)))
  {
    FreshValueIsStoredAndSent(Answered(b, serial), s, path, v);
  }

  function ReadOf(r: Reg, action: string, s: string, path: string): Event
    requires s in r.instances && NameOf(s, r.instances[s]).Some?
  {
    ReadRequest(ReadTopic(action, r.vrmId, NameOf(s, r.instances[s]).value, path), true)
  }

  /**
   Main result: a read of a stored item stores and sends the value that is read. Whatever happens
   between the request and the reply, the reply throws exactly when the item is gone or has no
   JSON form; else its value is the one read, no other item changes, and one message shows it.
   */
  lemma ReadStoresAndSends(r: Reg, action: string, s: string, path: string, es: seq<Event>, v: Variant, calls: nat, clk: Clock)
    requires Inv(r) && SerialsOk(r) && s in r.items && path in r.items[s] && Listed(r, s)
    requires WellNamed(action, r.vrmId, NameOf(s, r.instances[s]).value, path)
    requires NameOf(s, r.instances[s]).value.serviceType != "GuiCustomizations"
    requires Unanswered(es, r.nextSerial)
    ensures var b := Later(r, ReadOf(r, action, s, path), es);
      AnswersRead(b, r.nextSerial, s, path, v, Next(b, Reply(r.nextSerial, Value(v), calls, clk)))
  {
    var request := ReadOf(r, action, s, path);
    ReadAsksTheService(r, action, s, path);
    NextKeeps(r, request);
    StillAwaited(Next(r, request).reg, es, r.nextSerial, ReadItem(s, path));
    ReplyAnswersRead(Later(r, request, es), r.nextSerial, s, path, v, calls, clk);
  }
}

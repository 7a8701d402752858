/**
 What every reachable registry satisfies, whatever the signals, replies, refusals, clock
 readings and iteration orders were: the maps agree with each other, every stored item carries
 the identity of the place it is stored in, every cached rendering is current, and every
 message sent was the current rendering of the item that sent it.
 */
module RegistryInvariant {
  import opened Wrappers
  import opened Text
  import opened ShortNames
  import opened Variants
  import opened Items
  import opened Registry

  predicate ItemOk(i: Item, vrmId: string, service: string, instance: string, path: string) {
    Identified(i, vrmId, service, instance, path) && Coherent(i)
  }

  predicate ServiceOk(its: map<string, Item>, vrmId: string, service: string, instance: string) {
    forall p | p in its :: ItemOk(its[p], vrmId, service, instance, p)
  }

  /** Every service with items has an instance, and its items are identified by it. */
  predicate StoreOk(items: Store, instances: map<string, string>, vrmId: string) {
    forall s | s in items :: s in instances && ServiceOk(items[s], vrmId, s, instances[s])
  }

  /** The index key of a service is its own short name with its stored instance. */
  predicate OwnName(k: string, service: string, instances: map<string, string>) {
    && service in instances
    && NameOf(service, instances[service]).Some?
    && NameOf(service, instances[service]).value.total == k
  }

  predicate IndexOk(index: map<string, string>, instances: map<string, string>) {
    forall k | k in index :: OwnName(k, index[k], instances)
  }

  predicate OutOk(out: seq<Publication>) {
    forall p | p in out :: Genuine(p)
  }

  predicate Inv(r: Reg) {
    && StoreOk(r.items, r.instances, r.vrmId)
    && IndexOk(r.index, r.instances)
    && OutOk(r.out)
  }

  /** The exceptions the code calls programming errors. */
  predicate Impossible(o: Outcome) {
    o == Threw(ProgrammingError) || o == Threw(ReadOnly)
  }

  predicate SameShape(a: Store, b: Store) {
    a.Keys == b.Keys && forall s | s in a :: a[s].Keys == b[s].Keys
  }

  // ---------- steps ----------

  lemma PutKeeps(items: Store, instances: map<string, string>, vrmId: string, service: string, path: string, i: Item)
    requires StoreOk(items, instances, vrmId)
    requires service in instances && ItemOk(i, vrmId, service, instances[service], path)
    ensures StoreOk(Put(items, service, path, i), instances, vrmId)
    ensures service in items && path in items[service] ==> SameShape(items, Put(items, service, path, i))
  {}

  lemma UpdateKeepsItem(i: Item, v: ValueMinMax, vrmId: string, service: string, instance: string, path: string)
    requires ItemOk(i, vrmId, service, instance, path)
    ensures ItemOk(SetValue(i, v), vrmId, service, instance, path)
    ensures ItemOk(Publish(SetValue(i, v), false).item, vrmId, service, instance, path)
    ensures ItemOk(Publish(i, false).item, vrmId, service, instance, path)
    ensures OutOk(Publish(SetValue(i, v), false).out) && OutOk(Publish(i, false).out)
  {
    PublishSendsRendering(SetValue(i, v), false);
    PublishSendsRendering(i, false);
  }

  lemma PassStepKeeps(p: Pass, alive: bool, e: Queued, now: nat, instances: map<string, string>, vrmId: string)
    requires StoreOk(p.items, instances, vrmId) && OutOk(p.out) && !Impossible(p.outcome)
    ensures var a := PassStep(p, alive, e, now);
      && StoreOk(a.items, instances, vrmId) && OutOk(a.out) && !Impossible(a.outcome) && SameShape(p.items, a.items)
  {
    if VerdictOf(p.items, e, now) == Apply {
      var i := p.items[e.service][e.path];
      assert ServiceOk(p.items[e.service], vrmId, e.service, instances[e.service]);
      UpdateKeepsItem(i, e.value, vrmId, e.service, instances[e.service], e.path);
      PutKeeps(p.items, instances, vrmId, e.service, e.path, SetValue(i, e.value));
      PutKeeps(p.items, instances, vrmId, e.service, e.path, Publish(SetValue(i, e.value), false).item);
    }
  }

  lemma {:induction false} PassKeeps(items: Store, alive: bool, q: seq<Queued>, clk: Clock, off: nat, n: nat, instances: map<string, string>, vrmId: string)
    requires n <= |q| && StoreOk(items, instances, vrmId)
    ensures var a := PassTo(items, alive, q, clk, off, n);
      && StoreOk(a.items, instances, vrmId) && OutOk(a.out) && !Impossible(a.outcome) && SameShape(items, a.items)
    decreases n
  {
    if n > 0 {
      PassKeeps(items, alive, q, clk, off, n - 1, instances, vrmId);
      var p := PassTo(items, alive, q, clk, off, n - 1);
      if p.outcome == Ok {
        PassStepKeeps(p, alive, q[n - 1], clk(off + n - 1), instances, vrmId);
      }
    }
  }

  lemma ProcessKeeps(r: Reg, clk: Clock, off: nat)
    requires Inv(r)
    ensures Inv(ProcessDelayed(r, clk, off).reg) && !Impossible(ProcessDelayed(r, clk, off).outcome)
  {
    PassKeeps(r.items, r.alive, r.queue, clk, off, |r.queue|, r.instances, r.vrmId);
  }

  predicate MappingOk(m: Mapping, instances: map<string, string>, vrmId: string) {
    StoreOk(m.items, instances, vrmId) && OutOk(m.out) && !Impossible(m.outcome)
  }

  /** Mapping one entry succeeds and gives an item identified by its place, with the values merged. */
  lemma MappedItemOk(m: Mapping, r: Reg, service: string, instance: string, u: Update)
    requires StoreOk(m.items, r.instances, r.vrmId)
    requires service in r.instances && r.instances[service] == instance && NameOf(service, instance).Some?
    ensures var mapped := SetMappingDetails(NewItem(u.path, u.value), r.vrmId, service, instance);
      && mapped.Success? && mapped.value.path == PrefixSlash(u.path)
      && var stored := StoredOrEmpty(m.items, service, PrefixSlash(u.path));
      && var i := Assign(stored, mapped.value);
      && i.Success? && ItemOk(i.value, r.vrmId, service, instance, PrefixSlash(u.path))
      && i.value.value == Merge(stored.value, u.value)
  {}

  lemma MapStepKeeps(m: Mapping, r: Reg, service: string, instance: string, u: Update, force: bool)
    requires MappingOk(m, r.instances, r.vrmId)
    requires service in r.instances && r.instances[service] == instance && NameOf(service, instance).Some?
    ensures MappingOk(MapOne(m, r, service, instance, u, force), r.instances, r.vrmId)
  {
    var path := PrefixSlash(u.path);
    MappedItemOk(m, r, service, instance, u);
    var mapped := SetMappingDetails(NewItem(u.path, u.value), r.vrmId, service, instance).value;
    var i := Assign(StoredOrEmpty(m.items, service, path), mapped).value;
    PublishSendsRendering(i, false);
    PutKeeps(m.items, r.instances, r.vrmId, service, path, i);
    PutKeeps(m.items, r.instances, r.vrmId, service, path, Publish(i, false).item);
  }

  /** One more update keeps the property. */
  ghost predicate MapOneKeeps(r: Reg, service: string, instance: string, ups: seq<Update>, force: bool, P: (nat, Mapping) -> bool, k: nat, m: Mapping) {
    k < |ups| && P(k, m) ==> P(k + 1, MapOne(m, r, service, instance, ups[k], force))
  }

  /** What holds before the first update and is kept by each holds after n. */
  lemma {:induction false} MapInduction(r: Reg, service: string, instance: string, ups: seq<Update>, force: bool, n: nat, P: (nat, Mapping) -> bool)
    requires n <= |ups| && P(0, Mapping(r.items, [], Ok))
    requires forall k: nat, m: Mapping :: MapOneKeeps(r, service, instance, ups, force, P, k, m)
    ensures P(n, MapTo(r, service, instance, ups, force, n))
    decreases n
  {
    if n > 0 {
      MapInduction(r, service, instance, ups, force, n - 1, P);
      assert MapOneKeeps(r, service, instance, ups, force, P, n - 1, MapTo(r, service, instance, ups, force, n - 1));
    }
  }

  lemma MapToKeeps(r: Reg, service: string, instance: string, ups: seq<Update>, force: bool, n: nat)
    requires n <= |ups| && StoreOk(r.items, r.instances, r.vrmId)
    requires service in r.instances && r.instances[service] == instance && NameOf(service, instance).Some?
    ensures MappingOk(MapTo(r, service, instance, ups, force, n), r.instances, r.vrmId)
  {
    var P := (k: nat, m: Mapping) => MappingOk(m, r.instances, r.vrmId);
    forall k: nat, m: Mapping ensures MapOneKeeps(r, service, instance, ups, force, P, k, m) {
      if k < |ups| && P(k, m) {
        MapStepKeeps(m, r, service, instance, ups[k], force);
      }
    }
    MapInduction(r, service, instance, ups, force, n, P);
  }

  /** Storing an instance only where there is none leaves what the maps say about all others. */
  lemma StoreInstanceKeeps(r: Reg, service: string, instance: string)
    requires Inv(r) && (service in r.instances ==> r.instances[service] == instance)
    ensures Inv(r.(instances := r.instances[service := instance]))
    ensures NameOf(service, instance).Some? ==>
      Inv(r.(instances := r.instances[service := instance], index := r.index[NameOf(service, instance).value.total := service]))
  {}

  lemma MapServiceKeeps(r: Reg, service: string, instance: string, ups: seq<Update>, force: bool, clk: Clock, off: nat)
    requires Inv(r) && service in r.instances && r.instances[service] == instance && NameOf(service, instance).Some?
    ensures var s := MapService(r, service, instance, ups, force, clk, off); Inv(s.reg) && !Impossible(s.outcome)
  {
    MapToKeeps(r, service, instance, ups, force, |ups|);
    var m := MapTo(r, service, instance, ups, force, |ups|);
    var r1 := r.(items := m.items, out := r.out + m.out);
    assert Inv(r1);
    ProcessKeeps(r1, clk, off);
  }

  lemma AddMappingKeeps(r: Reg, service: string, ups: seq<Update>, known: bool, force: bool, clk: Clock, off: nat)
    requires Inv(r)
    ensures var s := AddMapping(r, service, ups, known, force, clk, off); Inv(s.reg) && !Impossible(s.outcome)
  {
    if !(known && service !in r.items) {
      assert known ==> service in r.instances;
      var instance := if service in r.instances then r.instances[service] else InstanceOf(ups, r.textOf);
      StoreInstanceKeeps(r, service, instance);
      if NameOf(service, instance).Some? {
        var r1 := r.(instances := r.instances[service := instance]);
        var r2 := r1.(index := r1.index[NameOf(service, instance).value.total := service]);
        assert Inv(r2);
        MapServiceKeeps(r2, service, instance, ups, force, clk, off);
      }
    }
  }

  lemma {:induction false} NullPublicationsGenuine(its: map<string, Item>, order: seq<string>, vrmId: string, service: string, instance: string)
    requires ServiceOk(its, vrmId, service, instance)
    ensures OutOk(NullPublications(its, order))
  {
    if order != [] {
      NullPublicationsGenuine(its, order[..|order| - 1], vrmId, service, instance);
      var p := order[|order| - 1];
      if p in its {
        PublishSendsRendering(its[p], true);
      }
    }
  }

  /** Every item of a removed service gets an empty payload, unless it is blocked or kept retained. */
  lemma {:induction false} RemovalUnpublishes(its: map<string, Item>, order: seq<string>, p: string)
    requires p in its && p in order && its[p].topic != "" && !Blocked(its[p]) && !Retained(its[p])
    ensures Publication(its[p].topic, false, None, its[p]) in NullPublications(its, order)
  {
    var last := order[|order| - 1];
    assert order == order[..|order| - 1] + [last];
    if p != last {
      RemovalUnpublishes(its, order[..|order| - 1], p);
    }
  }

  lemma RemoveKeeps(r: Reg, service: string, order: seq<string>, leftover: Option<string>)
    requires Inv(r)
    ensures Inv(RemoveService(r, service, order, leftover))
  {
    var a := RemoveService(r, service, order, leftover);
    forall s | s in a.items ensures s in a.instances && ServiceOk(a.items[s], a.vrmId, s, a.instances[s]) {
      assert s in r.items;
    }
    forall k | k in a.index ensures OwnName(k, a.index[k], a.instances) {
      assert OwnName(k, r.index[k], r.instances);
    }
    if service in r.items {
      NullPublicationsGenuine(r.items[service], order, r.vrmId, service, r.instances[service]);
    }
  }

  /** Removal leaves no trace of the service in the three maps, and nothing else changes in them. */
  lemma RemovalLeavesNoTrace(r: Reg, service: string, order: seq<string>, leftover: Option<string>)
    requires Inv(r)
    ensures var a := RemoveService(r, service, order, leftover);
      && service !in a.items && service !in a.instances && service !in a.index.Values
      && (forall s | s != service :: (s in a.items <==> s in r.items) && (s in r.items ==> a.items[s] == r.items[s]))
      && (forall s | s != service :: (s in a.instances <==> s in r.instances) && (s in r.instances ==> a.instances[s] == r.instances[s]))
      && (forall k :: k in a.index <==> k in r.index && r.index[k] != service)
      && (forall k | k in a.index :: a.index[k] == r.index[k])
    ensures forall k, l | k in r.index && l in r.index && r.index[k] == service && r.index[l] == service :: k == l
  {}

  // ---------- runs ----------

  lemma DispatchKeeps(r: Reg, sig: SignalBody, clk: Clock, off: nat)
    requires Inv(r)
    ensures var s := Dispatch(r, sig, clk, off); Inv(s.reg) && !Impossible(s.outcome)
  {
    match sig
    case NameOwnerChanged(name, oldOwner, newOwner, accepted, order, leftover) =>
      var r1 := r.(idToName := r.idToName - {oldOwner});
      RemoveKeeps(r1, name, order, leftover);
    case Changed(sender, ups) =>
      AddMappingKeeps(r, NamedOwner(r, sender), ups, true, false, clk, off);
    case _ =>
  }

  lemma {:induction false} ScanAllKeeps(r: Reg, names: seq<string>, calls: nat)
    requires Inv(r)
    ensures var s := ScanAll(r, names, calls); Inv(s.reg) && !Impossible(s.outcome)
    decreases |names|
  {
    if names != [] {
      var s := Call(r, GetNameOwner(names[0]), calls > 0);
      if !StartsWith(names[0], "com.victronenergy") {
        ScanAllKeeps(r, names[1..], calls);
      } else if s.outcome == Ok {
        ScanAllKeeps(s.reg, names[1..], calls - 1);
      }
    }
  }

  lemma FreshValueKeeps(r: Reg, service: string, path: string, v: Variant)
    requires Inv(r)
    ensures var s := OnFreshValue(r, service, path, v); Inv(s.reg) && !Impossible(s.outcome)
  {
    if service in r.items && path in r.items[service] {
      var i, u := r.items[service][path], ValueMinMax(v, Unknown, Unknown);
      assert ServiceOk(r.items[service], r.vrmId, service, r.instances[service]);
      UpdateKeepsItem(i, u, r.vrmId, service, r.instances[service], path);
      PutKeeps(r.items, r.instances, r.vrmId, service, path, Publish(SetValue(i, u), false).item);
    }
  }

  lemma OnReplyKeeps(r: Reg, h: Handler, body: ReplyBody, calls: nat, clk: Clock)
    requires Inv(r)
    ensures var s := OnReply(r, h, body, calls, clk); Inv(s.reg) && !Impossible(s.outcome)
  {
    match (h, body)
    case (ListNames, Names(names)) => ScanAllKeeps(r, names, calls);
    case (GetItems(service), ItemsBody(ups)) => AddMappingKeeps(r, service, ups, false, false, clk, 0);
    case (GetValue(service, prefix, force), Tree(vals)) =>
      AddMappingKeeps(r, service, TreeUpdates(prefix, vals), false, force, clk, 0);
    case (ReadItem(service, path), Value(v)) => FreshValueKeeps(r, service, path, v);
    case _ =>
  }

  lemma {:induction false} PublishStoredKeeps(r: Reg, order: seq<(string, string)>, n: nat)
    requires Inv(r) && n <= |order|
    ensures var s := PublishStored(r, order, n); Inv(s.reg) && !Impossible(s.outcome)
    decreases n
  {
    if n > 0 {
      PublishStoredKeeps(r, order, n - 1);
      var s := PublishStored(r, order, n - 1);
      var (service, path) := order[n - 1];
      if s.outcome == Ok && service in s.reg.items && path in s.reg.items[service] {
        var i := s.reg.items[service][path];
        assert ServiceOk(s.reg.items[service], s.reg.vrmId, service, s.reg.instances[service]);
        UpdateKeepsItem(i, UNDEFINED, s.reg.vrmId, service, s.reg.instances[service], path);
        PutKeeps(s.reg.items, s.reg.instances, s.reg.vrmId, service, path, Publish(i, false).item);
      }
    }
  }

  lemma OnSignalKeeps(r: Reg, sig: SignalBody, clk: Clock)
    requires Inv(r)
    ensures Inv(OnSignal(r, sig, clk).reg) && !Impossible(OnSignal(r, sig, clk).outcome)
  {
    ProcessKeeps(r, clk, 0);
    DispatchKeeps(ProcessDelayed(r, clk, 0).reg, sig, clk, |r.queue|);
  }

  lemma ReadRequestChanges(r: Reg, topic: string, call: bool)
    ensures var a := OnReadRequest(r, topic, call);
      && a.reg == r.(handlers := a.reg.handlers, nextSerial := a.reg.nextSerial)
      && (a.outcome == Ok || a.outcome == Threw(NotFound) || a.outcome == Threw(CallRefused))
  {}

  lemma NextKeeps(r: Reg, e: Event)
    requires Inv(r)
    ensures Inv(Next(r, e).reg) && !Impossible(Next(r, e).outcome)
  {
    match e
    case Signal(sig, clk) => OnSignalKeeps(r, sig, clk);
    case ReadRequest(topic, call) => ReadRequestChanges(r, topic, call);
    case Reply(serial, body, calls, clk) =>
      if serial in r.handlers {
        var r1 := r.(handlers := r.handlers - {serial});
        assert Inv(r1);
        OnReplyKeeps(r1, r.handlers[serial], body, calls, clk);
      }
    case PublishAll(order) => PublishStoredKeeps(r, order, |order|);
    case _ =>
  }

  lemma {:induction false} RunKeeps(r: Reg, es: seq<Event>)
    requires Inv(r)
    ensures Inv(Run(r, es))
    decreases |es|
  {
    if es != [] {
      RunKeeps(r, es[..|es| - 1]);
      NextKeeps(Run(r, es[..|es| - 1]), es[|es| - 1]);
    }
  }

  /**
   Main result: in every run from the empty registry the invariant holds after every event, and
   neither the "programming error" about unknown instances nor the read-only string exception
   is ever thrown.
   */
  lemma EveryRunIsSafe(vrmId: string, textOf: Variant -> string, es: seq<Event>, e: Event)
    ensures Inv(Run(Initial(vrmId, textOf), es))
    ensures !Impossible(Next(Run(Initial(vrmId, textOf), es), e).outcome)
  {
    RunKeeps(Initial(vrmId, textOf), es);
    NextKeeps(Run(Initial(vrmId, textOf), es), e);
  }
}

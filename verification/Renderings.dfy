/**
 Values with a JSON form. Only dictionaries with a key that is no string have none; while no
 such value is stored, queued or reported, nothing that publishes can throw.
 */
module Renderings {
  import opened Text
  import opened ShortNames
  import opened Variants
  import opened Items
  import opened Documents
  import opened Registry
  import opened RegistryInvariant
  import opened DelayedChanges

  lemma RenderingExistsIff(i: Item)
    ensures Rendering(i).Some? <==> ValueRenders(i.value)
  {
    RenderingHolds(i);
  }

  predicate StoreRenders(items: Store) {
    forall s, p | s in items && p in items[s] :: ValueRenders(items[s][p].value)
  }

  predicate QueueRenders(q: seq<Queued>) {
    forall i | 0 <= i < |q| :: ValueRenders(q[i].value)
  }

  predicate UpdatesRender(ups: seq<Update>) {
    forall i | 0 <= i < |ups| :: ValueRenders(ups[i].value)
  }

  /** Everything stored and queued has a JSON form. */
  predicate RegRenders(r: Reg) {
    StoreRenders(r.items) && QueueRenders(r.queue)
  }

  /** Everything a message carries has a JSON form. */
  predicate EventRenders(e: Event) {
    match e
    case Signal(sig, _) => sig.Changed? ==> UpdatesRender(sig.ups)
    case Reply(_, body, _, _) =>
      && (body.ItemsBody? ==> UpdatesRender(body.ups))
      && (body.Tree? ==> forall i | 0 <= i < |body.vals| :: Renderable(body.vals[i].1))
      && (body.Value? ==> Renderable(body.v))
    case _ => true
  }

  lemma PublishRenders(i: Item, nullPayload: bool)
    requires ValueRenders(i.value)
    ensures !Publish(i, nullPayload).threw && Publish(i, nullPayload).item.value == i.value
  {
    RenderingExistsIff(i);
  }

  lemma PutRenders(items: Store, s: string, p: string, i: Item)
    requires StoreRenders(items) && ValueRenders(i.value)
    ensures StoreRenders(Put(items, s, p, i))
  {}

  // ---------- steps ----------

  lemma PassStepRenders(p: Pass, alive: bool, e: Queued, now: nat)
    requires StoreRenders(p.items) && QueueRenders(p.kept) && ValueRenders(e.value) && p.outcome == Ok
    ensures var a := PassStep(p, alive, e, now);
      StoreRenders(a.items) && QueueRenders(a.kept) && a.outcome != Threw(BadDictKey)
  {
    if VerdictOf(p.items, e, now) == Apply {
      var i := SetValue(p.items[e.service][e.path], e.value);
      PublishRenders(i, false);
      PutRenders(p.items, e.service, e.path, i);
      PutRenders(p.items, e.service, e.path, Publish(i, false).item);
    }
  }

  lemma {:induction false} PassRenders(items: Store, alive: bool, q: seq<Queued>, clk: Clock, off: nat, n: nat)
    requires n <= |q| && StoreRenders(items) && QueueRenders(q)
    ensures var p := PassTo(items, alive, q, clk, off, n);
      StoreRenders(p.items) && QueueRenders(p.kept) && p.outcome != Threw(BadDictKey)
    decreases n
  {
    if n > 0 {
      PassRenders(items, alive, q, clk, off, n - 1);
      var p := PassTo(items, alive, q, clk, off, n - 1);
      if p.outcome == Ok {
        PassStepRenders(p, alive, q[n - 1], clk(off + n - 1));
      }
    }
  }

  lemma ProcessRenders(r: Reg, clk: Clock, off: nat)
    requires RegRenders(r)
    ensures RegRenders(ProcessDelayed(r, clk, off).reg) && ProcessDelayed(r, clk, off).outcome != Threw(BadDictKey)
  {
    PassRenders(r.items, r.alive, r.queue, clk, off, |r.queue|);
  }

  lemma MapStepRenders(m: Mapping, r: Reg, service: string, instance: string, u: Update, force: bool)
    requires StoreOk(m.items, r.instances, r.vrmId) && StoreRenders(m.items) && ValueRenders(u.value)
    requires service in r.instances && r.instances[service] == instance && NameOf(service, instance).Some?
    ensures var a := MapStep(m, r, service, instance, u, force);
      StoreRenders(a.items) && (m.outcome == Ok ==> a.outcome == Ok)
  {
    var path := PrefixSlash(u.path);
    MappedItemOk(m, r, service, instance, u);
    var i := Assign(StoredOrEmpty(m.items, service, path), SetMappingDetails(NewItem(u.path, u.value), r.vrmId, service, instance).value).value;
    PublishRenders(i, false);
    PutRenders(m.items, service, path, i);
    PutRenders(m.items, service, path, Publish(i, false).item);
  }

  predicate MappingRenders(m: Mapping) {
    StoreRenders(m.items) && m.outcome == Ok
  }

  lemma MapOneRenders(m: Mapping, r: Reg, service: string, instance: string, u: Update, force: bool)
    requires MappingRenders(m) && StoreOk(m.items, r.instances, r.vrmId) && ValueRenders(u.value)
    requires service in r.instances && r.instances[service] == instance && NameOf(service, instance).Some?
    ensures MappingRenders(MapOne(m, r, service, instance, u, force))
  {
    MapStepRenders(m, r, service, instance, u, force);
  }

  lemma MapToRenders(r: Reg, service: string, instance: string, ups: seq<Update>, force: bool, n: nat)
    requires n <= |ups| && StoreOk(r.items, r.instances, r.vrmId) && StoreRenders(r.items) && UpdatesRender(ups)
    requires service in r.instances && r.instances[service] == instance && NameOf(service, instance).Some?
    ensures MappingRenders(MapTo(r, service, instance, ups, force, n))
  {
    var P := (k: nat, m: Mapping) => MappingOk(m, r.instances, r.vrmId) && MappingRenders(m);
    forall k: nat, m: Mapping ensures MapOneKeeps(r, service, instance, ups, force, P, k, m) {
      if k < |ups| && P(k, m) {
        MapStepKeeps(m, r, service, instance, ups[k], force);
        MapOneRenders(m, r, service, instance, ups[k], force);
      }
    }
    MapInduction(r, service, instance, ups, force, n, P);
  }

  lemma MapServiceRenders(r: Reg, service: string, instance: string, ups: seq<Update>, force: bool, clk: Clock, off: nat)
    requires Inv(r) && RegRenders(r) && UpdatesRender(ups)
    requires service in r.instances && r.instances[service] == instance && NameOf(service, instance).Some?
    ensures var s := MapService(r, service, instance, ups, force, clk, off);
      RegRenders(s.reg) && s.outcome != Threw(BadDictKey)
  {
    MapToRenders(r, service, instance, ups, force, |ups|);
    var m := MapTo(r, service, instance, ups, force, |ups|);
    ProcessRenders(r.(items := m.items, out := r.out + m.out), clk, off);
  }

  lemma StampedRenders(service: string, ups: seq<Update>, clk: Clock, off: nat)
    requires UpdatesRender(ups)
    ensures QueueRenders(Stamped(service, ups, clk, off, |ups|))
  {
    StampedService(service, ups, clk, off, |ups|);
  }

  lemma AddMappingRenders(r: Reg, service: string, ups: seq<Update>, known: bool, force: bool, clk: Clock, off: nat)
    requires Inv(r) && RegRenders(r) && UpdatesRender(ups)
    ensures var s := AddMapping(r, service, ups, known, force, clk, off);
      RegRenders(s.reg) && s.outcome != Threw(BadDictKey)
  {
    if known && service !in r.items {
      StampedRenders(service, ups, clk, off);
    } else {
      assert known ==> service in r.instances;
      var instance := if service in r.instances then r.instances[service] else InstanceOf(ups, r.textOf);
      StoreInstanceKeeps(r, service, instance);
      if NameOf(service, instance).Some? {
        var r1 := r.(instances := r.instances[service := instance]);
        MapServiceRenders(r1.(index := r1.index[NameOf(service, instance).value.total := service]),
                          service, instance, ups, force, clk, off);
      }
    }
  }

  lemma {:induction false} ScanAllRenders(r: Reg, names: seq<string>, calls: nat)
    requires RegRenders(r)
    ensures RegRenders(ScanAll(r, names, calls).reg) && ScanAll(r, names, calls).outcome != Threw(BadDictKey)
    decreases |names|
  {
    if names != [] {
      if !StartsWith(names[0], "com.victronenergy") {
        ScanAllRenders(r, names[1..], calls);
      } else if calls > 0 {
        ScanAllRenders(Call(r, GetNameOwner(names[0]), true).reg, names[1..], calls - 1);
      }
    }
  }

  lemma {:induction false} PublishStoredRenders(r: Reg, order: seq<(string, string)>, n: nat)
    requires n <= |order| && RegRenders(r)
    ensures RegRenders(PublishStored(r, order, n).reg) && PublishStored(r, order, n).outcome == Ok
    decreases n
  {
    if n > 0 {
      PublishStoredRenders(r, order, n - 1);
      var b := PublishStored(r, order, n - 1).reg;
      var (s, p) := order[n - 1];
      if s in b.items && p in b.items[s] {
        PublishRenders(b.items[s][p], false);
        PutRenders(b.items, s, p, Publish(b.items[s][p], false).item);
      }
    }
  }

  lemma FreshValueRenders(r: Reg, service: string, path: string, v: Variant)
    requires RegRenders(r) && Renderable(v)
    ensures RegRenders(OnFreshValue(r, service, path, v).reg) && OnFreshValue(r, service, path, v).outcome != Threw(BadDictKey)
  {
    if service in r.items && path in r.items[service] {
      var i := SetValue(r.items[service][path], ValueMinMax(v, Unknown, Unknown));
      PublishRenders(i, false);
      PutRenders(r.items, service, path, Publish(i, false).item);
    }
  }

  lemma SignalRenders(r: Reg, sig: SignalBody, clk: Clock)
    requires Inv(r) && RegRenders(r) && EventRenders(Signal(sig, clk))
    ensures RegRenders(OnSignal(r, sig, clk).reg) && OnSignal(r, sig, clk).outcome != Threw(BadDictKey)
  {
    ProcessKeeps(r, clk, 0);
    ProcessRenders(r, clk, 0);
    var s := ProcessDelayed(r, clk, 0).reg;
    match sig
    case Changed(sender, ups) => AddMappingRenders(s, NamedOwner(s, sender), ups, true, false, clk, |r.queue|);
    case _ =>
  }

  lemma ReplyRenders(r: Reg, h: Handler, body: ReplyBody, calls: nat, clk: Clock)
    requires Inv(r) && RegRenders(r) && EventRenders(Reply(0, body, calls, clk))
    ensures RegRenders(OnReply(r, h, body, calls, clk).reg) && OnReply(r, h, body, calls, clk).outcome != Threw(BadDictKey)
  {
    match (h, body)
    case (ListNames, Names(names)) => ScanAllRenders(r, names, calls);
    case (GetItems(t), ItemsBody(ups)) => AddMappingRenders(r, t, ups, false, false, clk, 0);
    case (GetValue(t, prefix, force), Tree(vals)) => AddMappingRenders(r, t, TreeUpdates(prefix, vals), false, force, clk, 0);
    case (ReadItem(t, path), Value(v)) => FreshValueRenders(r, t, path, v);
    case _ =>
  }

  /** While everything said has a JSON form, so has everything stored and queued, and no rendering throws. */
  lemma NextRenders(r: Reg, e: Event)
    requires Inv(r) && RegRenders(r) && EventRenders(e)
    ensures RegRenders(Next(r, e).reg) && Next(r, e).outcome != Threw(BadDictKey)
  {
    match e
    case Signal(sig, clk) => SignalRenders(r, sig, clk);
    case Reply(serial, body, calls, clk) =>
      if serial in r.handlers {
        ReplyRenders(r.(handlers := r.handlers - {serial}), r.handlers[serial], body, calls, clk);
      }
    case PublishAll(order) => PublishStoredRenders(r, order, |order|);
    case _ =>
  }
}

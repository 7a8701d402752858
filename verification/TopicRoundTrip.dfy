/**
 The topic an item is published on, with N, R or W in front, resolves to that item
 (find_item_by_mqtt_path against set_mapping_details).
 */
module TopicRoundTrip {
  import opened Wrappers
  import opened Text
  import opened ShortNames
  import opened Variants
  import opened Items
  import opened Registry
  import opened RegistryInvariant

  /** The request topic for an item: its publish topic with another action in front. */
  function RequestTopic(i: Item, action: string): string
    requires i.topic != ""
  {
    action + i.topic[1..]
  }

  /** The parts of a topic that must not hold a slash for it to be read back. */
  predicate SlashFree(i: Item) {
    '/' !in i.vrmId && '/' !in i.shortName.serviceType && '/' !in i.shortName.instance
  }

  predicate IndexedAs(r: Reg, i: Item, service: string) {
    i.shortName.total in r.index && r.index[i.shortName.total] == service
  }

  lemma TopicParts(i: Item, action: string, path: string)
    requires path != "" && path[0] == '/' && '/' !in action && SlashFree(i)
    requires i.shortName.total == i.shortName.serviceType + "/" + i.shortName.instance
    requires i.topic == TopicOf(i.vrmId, i.shortName, path)
    ensures Split(RequestTopic(i, action), '/', 4, true)
         == [action, i.vrmId, i.shortName.serviceType, i.shortName.instance, path[1..]]
  {
    var t, n, rest := i.shortName.serviceType, i.shortName.instance, path[1..];
    var parts := [action, i.vrmId, t, n, rest];
    JoinFive(action, i.vrmId, t, n, rest);
    assert RequestTopic(i, action) == action + "/" + i.vrmId + "/" + t + "/" + n + "/" + rest;
    SplitOfJoin(parts, '/', 4);
  }

  lemma JoinFive(a: string, b: string, c: string, d: string, e: string)
    ensures Join([a, b, c, d, e], '/') == a + "/" + b + "/" + c + "/" + d + "/" + e
  {
    assert [a, b, c, d, e][1..] == [b, c, d, e];
    assert [b, c, d, e][1..] == [c, d, e];
    assert [c, d, e][1..] == [d, e];
    assert [d, e][1..] == [e];
    assert Join([d, e], '/') == d + "/" + e;
    assert c + "/" + (d + "/" + e) == c + "/" + d + "/" + e;
    assert Join([c, d, e], '/') == c + "/" + d + "/" + e;
    assert Join([b, c, d, e], '/') == b + "/" + c + "/" + d + "/" + e;
  }

  /** Resolution finds the stored item exactly when the index maps its short name to its service. */
  lemma ResolvesIffIndexed(r: Reg, service: string, path: string, action: string)
    requires Inv(r) && service in r.items && path in r.items[service]
    requires '/' !in action && SlashFree(r.items[service][path])
    ensures var i := r.items[service][path];
      i.topic != "" && (FindByTopic(r, RequestTopic(i, action)) == Success(i) <==> IndexedAs(r, i, service))
  {
    var i := r.items[service][path];
    assert ServiceOk(r.items[service], r.vrmId, service, r.instances[service]);
    assert ItemOk(i, r.vrmId, service, r.instances[service], path);
    TopicParts(i, action, path);
    TypeIsShort(service);
    assert NameOf(i.shortName.serviceType, i.shortName.instance) == Some(i.shortName);
    assert "/" + path[1..] == path;
    if i.shortName.total in r.index && r.index[i.shortName.total] != service {
      var other := r.index[i.shortName.total];
      if other in r.items && path in r.items[other] {
        assert ServiceOk(r.items[other], r.vrmId, other, r.instances[other]);
        assert r.items[other][path].serviceName == other;
      }
    }
  }

  /** What is found under a topic is stored, under the portal id, the index key and the path that the topic names. */
  lemma FoundIsNamed(r: Reg, topic: string, i: Item)
    requires Inv(r) && FindByTopic(r, topic) == Success(i)
    ensures var parts := Split(topic, '/', 4, true);
      && |parts| == 5 && parts[1] == r.vrmId && i.path == "/" + parts[4]
      && i.serviceName in r.items && i.path in r.items[i.serviceName] && r.items[i.serviceName][i.path] == i
      && NameOf(parts[2], parts[3]).Some? && NameOf(parts[2], parts[3]).value.total == i.shortName.total
      && IndexedAs(r, i, i.serviceName)
  {
    var parts := Split(topic, '/', 4, true);
    SplitShape(topic, '/', 4);
    var total := NameOf(parts[2], parts[3]).value.total;
    var service := r.index[total];
    assert ServiceOk(r.items[service], r.vrmId, service, r.instances[service]);
    assert ItemOk(i, r.vrmId, service, r.instances[service], "/" + parts[4]);
    assert OwnName(total, service, r.instances);
  }

  // ---------- runs in which live services have distinct short names ----------

  predicate DistinctNames(instances: map<string, string>) {
    forall s, t | s in instances && t in instances && SameName(s, t, instances) :: s == t
  }

  predicate SameName(s: string, t: string, instances: map<string, string>)
    requires s in instances && t in instances
  {
    && NameOf(s, instances[s]).Some? && NameOf(t, instances[t]).Some?
    && NameOf(s, instances[s]).value.total == NameOf(t, instances[t]).value.total
  }

  /** The index finds the service by its own name. */
  predicate Listed(r: Reg, s: string) {
    && s in r.instances && NameOf(s, r.instances[s]).Some?
    && NameOf(s, r.instances[s]).value.total in r.index
    && r.index[NameOf(s, r.instances[s]).value.total] == s
  }

  predicate AllListed(r: Reg) {
    forall s | s in r.items :: Listed(r, s)
  }

  lemma ProcessKeepsListed(r: Reg, clk: Clock, off: nat)
    requires Inv(r) && AllListed(r)
    ensures AllListed(ProcessDelayed(r, clk, off).reg)
    ensures ProcessDelayed(r, clk, off).reg.instances == r.instances
  {
    PassKeeps(r.items, r.alive, r.queue, clk, off, |r.queue|, r.instances, r.vrmId);
    forall s | s in ProcessDelayed(r, clk, off).reg.items ensures Listed(ProcessDelayed(r, clk, off).reg, s) {
      assert Listed(r, s);
    }
  }

  lemma {:induction false} MapToAddsOneService(r: Reg, service: string, instance: string, ups: seq<Update>, force: bool, n: nat)
    requires n <= |ups|
    ensures MapTo(r, service, instance, ups, force, n).items.Keys <= r.items.Keys + {service}
    decreases n
  {
    if n > 0 {
      MapToAddsOneService(r, service, instance, ups, force, n - 1);
    }
  }

  lemma AddMappingKeepsListed(r: Reg, service: string, ups: seq<Update>, known: bool, force: bool, clk: Clock, off: nat)
    requires Inv(r) && AllListed(r)
    requires DistinctNames(AddMapping(r, service, ups, known, force, clk, off).reg.instances)
    ensures AllListed(AddMapping(r, service, ups, known, force, clk, off).reg)
  {
    var after := AddMapping(r, service, ups, known, force, clk, off);
    if known && service !in r.items {
      forall s | s in after.reg.items ensures Listed(after.reg, s) {
        assert Listed(r, s);
      }
    } else {
      assert known ==> service in r.instances;
      var instance := if service in r.instances then r.instances[service] else InstanceOf(ups, r.textOf);
      var r1 := r.(instances := r.instances[service := instance]);
      StoreInstanceKeeps(r, service, instance);
      if NameOf(service, instance) == None {
        forall s | s in after.reg.items ensures Listed(after.reg, s) {
          assert Listed(r, s);
        }
      } else {
        MapServiceKeepsListed(r, r1.(index := r1.index[NameOf(service, instance).value.total := service]), service, instance, ups, force, clk, off);
      }
    }
  }

  lemma MapServiceKeepsListed(r: Reg, r2: Reg, service: string, instance: string, ups: seq<Update>, force: bool, clk: Clock, off: nat)
    requires Inv(r) && AllListed(r) && Inv(r2)
    requires NameOf(service, instance).Some? && (service in r.instances ==> r.instances[service] == instance)
    requires r2 == r.(instances := r.instances[service := instance], index := r.index[NameOf(service, instance).value.total := service])
    requires DistinctNames(MapService(r2, service, instance, ups, force, clk, off).reg.instances)
    ensures AllListed(MapService(r2, service, instance, ups, force, clk, off).reg)
  {
    var m := MapTo(r2, service, instance, ups, force, |ups|);
    var r3 := r2.(items := m.items, out := r2.out + m.out);
    MapToKeeps(r2, service, instance, ups, force, |ups|);
    MapToAddsOneService(r2, service, instance, ups, force, |ups|);
    assert r3.instances == MapService(r2, service, instance, ups, force, clk, off).reg.instances;
    forall s | s in r3.items ensures Listed(r3, s) {
      if s != service {
        assert Listed(r, s);
        assert !SameName(s, service, r3.instances);
      }
    }
    assert Inv(r3);
    ProcessKeepsListed(r3, clk, off);
  }

  lemma RemoveKeepsListed(r: Reg, service: string, order: seq<string>, leftover: Option<string>)
    requires AllListed(r)
    ensures AllListed(RemoveService(r, service, order, leftover))
  {}

  /** Steps that touch neither the index nor the instances and know no new service. */
  lemma SameMapsKeepListed(r: Reg, a: Reg)
    requires AllListed(r) && a.index == r.index && a.instances == r.instances && a.items.Keys <= r.items.Keys
    ensures AllListed(a)
  {}

  lemma {:induction false} ScanAllKeepsMaps(r: Reg, names: seq<string>, calls: nat)
    ensures var a := ScanAll(r, names, calls).reg; a.index == r.index && a.instances == r.instances && a.items == r.items
    decreases |names|
  {
    if names != [] {
      var s := Call(r, GetNameOwner(names[0]), calls > 0);
      if !StartsWith(names[0], "com.victronenergy") {
        ScanAllKeepsMaps(r, names[1..], calls);
      } else if s.outcome == Ok {
        ScanAllKeepsMaps(s.reg, names[1..], calls - 1);
      }
    }
  }

  lemma {:induction false} PublishStoredKeepsMaps(r: Reg, order: seq<(string, string)>, n: nat)
    requires n <= |order|
    ensures var a := PublishStored(r, order, n).reg; a.index == r.index && a.instances == r.instances && a.items.Keys == r.items.Keys
    decreases n
  {
    if n > 0 {
      PublishStoredKeepsMaps(r, order, n - 1);
    }
  }

  /** Replies that map nothing touch neither the index nor the instances. */
  lemma OtherRepliesKeepMaps(r: Reg, h: Handler, body: ReplyBody, calls: nat, clk: Clock)
    requires !(h.GetItems? && body.ItemsBody?) && !(h.GetValue? && body.Tree?)
    ensures var a := OnReply(r, h, body, calls, clk).reg;
      a.index == r.index && a.instances == r.instances && a.items.Keys == r.items.Keys
  {
    if h.ListNames? && body.Names? {
      ScanAllKeepsMaps(r, body.names, calls);
    }
  }

  lemma OnReplyKeepsListed(r: Reg, h: Handler, body: ReplyBody, calls: nat, clk: Clock)
    requires Inv(r) && AllListed(r) && DistinctNames(OnReply(r, h, body, calls, clk).reg.instances)
    ensures AllListed(OnReply(r, h, body, calls, clk).reg)
  {
    if h.GetItems? && body.ItemsBody? {
      AddMappingKeepsListed(r, h.service, body.ups, false, false, clk, 0);
    } else if h.GetValue? && body.Tree? {
      AddMappingKeepsListed(r, h.service, TreeUpdates(h.prefix, body.vals), false, h.force, clk, 0);
    } else {
      OtherRepliesKeepMaps(r, h, body, calls, clk);
      SameMapsKeepListed(r, OnReply(r, h, body, calls, clk).reg);
    }
  }

  lemma SignalKeepsListed(r: Reg, sig: SignalBody, clk: Clock)
    requires Inv(r) && AllListed(r) && DistinctNames(OnSignal(r, sig, clk).reg.instances)
    ensures AllListed(OnSignal(r, sig, clk).reg)
  {
    ProcessKeeps(r, clk, 0);
    ProcessKeepsListed(r, clk, 0);
    var s := ProcessDelayed(r, clk, 0);
    if s.outcome == Ok {
      var a := OnSignal(r, sig, clk).reg;
      match sig
      case Changed(sender, ups) =>
        var service := NamedOwner(s.reg, sender);
        if StartsWith(service, VICTRON_PREFIX) {
          AddMappingKeepsListed(s.reg, service, ups, true, false, clk, |r.queue|);
        }
      case NameOwnerChanged(name, oldOwner, newOwner, accepted, order, leftover) =>
        RemoveKeepsListed(s.reg.(idToName := s.reg.idToName - {oldOwner}), name, order, leftover);
        if newOwner != "" || oldOwner == "" || !StartsWith(name, VICTRON_PREFIX) {
          SameMapsKeepListed(s.reg, a);
        }
      case _ =>
    }
  }

  lemma ReadRequestKeepsMaps(r: Reg, topic: string, call: bool)
    ensures var a := OnReadRequest(r, topic, call).reg; a.index == r.index && a.instances == r.instances && a.items == r.items
  {
    ReadRequestChanges(r, topic, call);
  }

  lemma NextKeepsListed(r: Reg, e: Event)
    requires Inv(r) && AllListed(r) && DistinctNames(Next(r, e).reg.instances)
    ensures AllListed(Next(r, e).reg)
  {
    match e
    case Signal(sig, clk) => SignalKeepsListed(r, sig, clk);
    case Reply(serial, body, calls, clk) =>
      if serial in r.handlers {
        var r1 := r.(handlers := r.handlers - {serial});
        SameMapsKeepListed(r, r1);
        OnReplyKeepsListed(r1, r.handlers[serial], body, calls, clk);
      }
    case PublishAll(order) =>
      PublishStoredKeepsMaps(r, order, |order|);
      SameMapsKeepListed(r, Next(r, e).reg);
    case ReadRequest(topic, call) =>
      ReadRequestKeepsMaps(r, topic, call);
      SameMapsKeepListed(r, Next(r, e).reg);
    case AliveChanged(alive) => SameMapsKeepListed(r, Next(r, e).reg);
    case Scan(call) => SameMapsKeepListed(r, Next(r, e).reg);
  }

  /** No two services ever have an instance and the same short name at the same time. */
  predicate NamesStayDistinct(vrmId: string, textOf: Variant -> string, es: seq<Event>) {
    && DistinctNames(Run(Initial(vrmId, textOf), es).instances)
    && (es != [] ==> NamesStayDistinct(vrmId, textOf, es[..|es| - 1]))
  }

  lemma {:induction false} RunsAreListed(vrmId: string, textOf: Variant -> string, es: seq<Event>)
    requires NamesStayDistinct(vrmId, textOf, es)
    ensures Inv(Run(Initial(vrmId, textOf), es)) && AllListed(Run(Initial(vrmId, textOf), es))
    decreases |es|
  {
    if es != [] {
      var before := es[..|es| - 1];
      RunsAreListed(vrmId, textOf, before);
      NextKeeps(Run(Initial(vrmId, textOf), before), es[|es| - 1]);
      NextKeepsListed(Run(Initial(vrmId, textOf), before), es[|es| - 1]);
    }
  }

  /** Main result: after any such run, every stored item is found again under its own topic. */
  lemma EveryTopicResolves(vrmId: string, textOf: Variant -> string, es: seq<Event>, service: string, path: string, action: string)
    requires NamesStayDistinct(vrmId, textOf, es)
    requires var r := Run(Initial(vrmId, textOf), es);
      service in r.items && path in r.items[service] && SlashFree(r.items[service][path])
    requires '/' !in action
    ensures var r := Run(Initial(vrmId, textOf), es);
      var i := r.items[service][path];
      i.topic != "" && FindByTopic(r, RequestTopic(i, action)) == Success(i)
  {
    var r := Run(Initial(vrmId, textOf), es);
    RunsAreListed(vrmId, textOf, es);
    assert Listed(r, service);
    assert ServiceOk(r.items[service], r.vrmId, service, r.instances[service]);
    assert ItemOk(r.items[service][path], r.vrmId, service, r.instances[service], path);
    ResolvesIffIndexed(r, service, path, action);
  }
}

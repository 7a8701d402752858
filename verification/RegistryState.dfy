/**
 The registry as an object: the maps, the queue and the handlers are fields that its methods
 update in place, as State does. Each method is tied to the function of Registry that says
 what it computes. The store is a map of item values, so an update through a reference into
 the store is a reassignment of the field.
 */
module RegistryState {
  import opened Wrappers
  import opened Text
  import opened ShortNames
  import opened Variants
  import opened Items
  import opened Registry
  import opened RegistryInvariant

  /** The signal with the owner entry that removal turned out to find. */
  function WithLeftover(sig: SignalBody, leftover: Option<string>): SignalBody {
    if sig.NameOwnerChanged? then sig.(leftover := leftover) else sig
  }

  lemma {:induction false} ThrownPassStops(items: Store, alive: bool, q: seq<Queued>, clk: Clock, off: nat, m: nat, n: nat)
    requires m <= n <= |q| && PassTo(items, alive, q, clk, off, m).outcome != Ok
    ensures PassTo(items, alive, q, clk, off, n) == PassTo(items, alive, q, clk, off, m)
    decreases n
  {
    if m < n {
      ThrownPassStops(items, alive, q, clk, off, m, n - 1);
    }
  }

  lemma {:induction false} ThrownMappingStops(r: Reg, service: string, instance: string, ups: seq<Update>, force: bool, m: nat, n: nat)
    requires m <= n <= |ups| && MapTo(r, service, instance, ups, force, m).outcome != Ok
    ensures MapTo(r, service, instance, ups, force, n) == MapTo(r, service, instance, ups, force, m)
    decreases n
  {
    if m < n {
      ThrownMappingStops(r, service, instance, ups, force, m, n - 1);
    }
  }

  lemma PutTwice(items: Store, service: string, path: string, i: Item, j: Item)
    ensures Put(Put(items, service, path, i), service, path, j) == Put(items, service, path, j)
  {
    var a, b := Put(Put(items, service, path, i), service, path, j), Put(items, service, path, j);
    assert a[service] == b[service];
  }

  /** A pass whose messages come after those already sent. */
  function After(p: Pass, sent: seq<Publication>): Pass {
    p.(out := sent + p.out)
  }

  lemma PassStepAfter(p: Pass, sent: seq<Publication>, alive: bool, e: Queued, now: nat)
    ensures PassStep(After(p, sent), alive, e, now) == After(PassStep(p, alive, e, now), sent)
  {}

  function Following(m: Mapping, sent: seq<Publication>): Mapping {
    m.(out := sent + m.out)
  }

  lemma MapStepFollowing(m: Mapping, sent: seq<Publication>, r: Reg, now: Reg, service: string, instance: string, u: Update, force: bool)
    requires now.vrmId == r.vrmId && now.alive == r.alive
    ensures MapStep(Following(m, sent), now, service, instance, u, force) == Following(MapStep(m, r, service, instance, u, force), sent)
  {}

  lemma AtMostOneEntry(r: Reg, service: string)
    requires Inv(r)
    ensures forall k, l | k in r.index && l in r.index && r.index[k] == service && r.index[l] == service :: k == l
  {}

  class State {
    const vrmId: string
    const textOf: Variant -> string
    var alive: bool
    var idToName: map<string, string>
    var index: map<string, string>
    var instances: map<string, string>
    var items: Store
    var queue: seq<Queued>
    var handlers: map<nat, Handler>
    var nextSerial: nat
    var out: seq<Publication>

    function View(): Reg
      reads this
    {
      Reg(vrmId, textOf, alive, idToName, index, instances, items, queue, handlers, nextSerial, out)
    }

    constructor (vrmId: string, textOf: Variant -> string)
      ensures View() == Initial(vrmId, textOf)
    {
      this.vrmId, this.textOf := vrmId, textOf;
      alive, idToName, index, instances, items := false, map[], map[], map[], map[];
      queue, handlers, nextSerial, out := [], map[], 1, [];
    }

    // ---------- delayed changes ----------

    /** Judges one queued change: dropped, kept for later, or applied to the item it is for. */
    method ProcessOne(e: Queued, now: nat) returns (o: Outcome)
      modifies `items, `queue, `out
      ensures Pass(items, queue, out, o) == PassStep(Pass(old(items), old(queue), old(out), Ok), alive, e, now)
    {
      if Expired(e, now) {
        return Ok;
      }
      if e.service !in items {
        queue := queue + [e];
        return Ok;
      }
      if e.path !in items[e.service] {
        return Threw(QueuedPathMissing);
      }
      var i := SetValue(items[e.service][e.path], e.value);
      items := Put(items, e.service, e.path, i);
      if alive {
        var r := Publish(i, false);
        PutTwice(old(items), e.service, e.path, i, r.item);
        items := Put(items, e.service, e.path, r.item);
        out := out + r.out;
        return Thrown(r.threw);
      }
      return Ok;
    }

    method ProcessDelayed(clk: Clock, off: nat) returns (o: Outcome)
      modifies `items, `queue, `out
      ensures Step(View(), o) == Registry.ProcessDelayed(old(View()), clk, off)
    {
      if queue == [] {
        return Ok;
      }
      var changed := queue;
      queue := [];
      o := ProcessAll(changed, clk, off);
    }

    method ProcessAll(changed: seq<Queued>, clk: Clock, off: nat) returns (o: Outcome)
      requires queue == []
      modifies `items, `queue, `out
      ensures Pass(items, queue, out, o) == After(PassTo(old(items), alive, changed, clk, off, |changed|), old(out))
    {
      o := Ok;
      ghost var store, sent := items, out;
      for i := 0 to |changed|
        invariant o == Ok
        invariant Pass(items, queue, out, o) == After(PassTo(store, alive, changed, clk, off, i), sent)
      {
        PassStepAfter(PassTo(store, alive, changed, clk, off, i), sent, alive, changed[i], clk(off + i));
        o := ProcessOne(changed[i], clk(off + i));
        if o != Ok {
          ThrownPassStops(store, alive, changed, clk, off, i + 1, |changed|);
          return;
        }
      }
    }

    // ---------- mapping ----------

    method StoreAndGetInstance(service: string, ups: seq<Update>, known: bool) returns (r: Result<string, Error>)
      modifies `instances
      ensures service in old(instances) ==> r == Success(old(instances)[service]) && instances == old(instances)
      ensures service !in old(instances) && known ==> r == Failure(ProgrammingError) && instances == old(instances)
      ensures service !in old(instances) && !known ==>
        r == Success(InstanceOf(ups, textOf)) && instances == old(instances)[service := r.value]
    {
      if service in instances {
        return Success(instances[service]);
      }
      if known {
        return Failure(ProgrammingError);
      }
      var instance := InstanceOf(ups, textOf);
      instances := instances[service := instance];
      return Success(instance);
    }

    /** Stores one entry of a service and publishes it if anyone should hear of it. */
    method MapItem(service: string, instance: string, u: Update, force: bool) returns (o: Outcome)
      modifies `items, `out
      ensures Mapping(items, out, o) == MapStep(Mapping(old(items), old(out), Ok), old(View()), service, instance, u, force)
    {
      var mapped := SetMappingDetails(NewItem(u.path, u.value), vrmId, service, instance);
      if mapped.Failure? {
        return Threw(ErrorOf(mapped.error));
      }
      var path := mapped.value.path;
      var stored := Assign(StoredOrEmpty(items, service, path), mapped.value);
      if stored.Failure? {
        return Threw(ErrorOf(stored.error));
      }
      if alive || Retained(stored.value) || force {
        var p := Publish(stored.value, false);
        items := Put(items, service, path, p.item);
        out := out + p.out;
        return Thrown(p.threw);
      }
      items := Put(items, service, path, stored.value);
      return Ok;
    }

    method MapItems(service: string, instance: string, ups: seq<Update>, force: bool) returns (o: Outcome)
      modifies `items, `out
      ensures Mapping(items, out, o) == Following(MapTo(old(View()), service, instance, ups, force, |ups|), old(out))
    {
      ghost var before := View();
      o := Ok;
      for i := 0 to |ups|
        invariant o == Ok
        invariant Mapping(items, out, o) == Following(MapTo(before, service, instance, ups, force, i), before.out)
      {
        MapStepFollowing(MapTo(before, service, instance, ups, force, i), before.out, before, View(), service, instance, ups[i], force);
        o := MapItem(service, instance, ups[i], force);
        if o != Ok {
          ThrownMappingStops(before, service, instance, ups, force, i + 1, |ups|);
          return;
        }
      }
    }

    method AddMapping(service: string, ups: seq<Update>, known: bool, force: bool, clk: Clock, off: nat) returns (o: Outcome)
      modifies this
      ensures Step(View(), o) == Registry.AddMapping(old(View()), service, ups, known, force, clk, off)
    {
      if known && service !in items {
        QueueAll(service, ups, clk, off);
        return Ok;
      }
      var instance := StoreAndGetInstance(service, ups, known);
      if instance.Failure? {
        return Threw(instance.error);
      }
      assert instances == old(instances)[service := instance.value];
      var name := NameOf(service, instance.value);
      if name == None {
        return Threw(BadName);
      }
      index := index[name.value.total := service];
      o := MapItems(service, instance.value, ups, force);
      if o == Ok {
        o := ProcessDelayed(clk, off);
      }
    }

    method QueueAll(service: string, ups: seq<Update>, clk: Clock, off: nat)
      modifies `queue
      ensures queue == old(queue) + Stamped(service, ups, clk, off, |ups|)
    {
      for i := 0 to |ups|
        invariant queue == old(queue) + Stamped(service, ups, clk, off, i)
      {
        queue := queue + [Queued(service, PrefixSlash(ups[i].path), ups[i].value, clk(off + i))];
      }
    }

    // ---------- removal ----------

    /** Erases the first index entry found for the service; the invariant says there is no other. */
    method EraseIndexEntry(service: string)
      requires forall k, l | k in index && l in index && index[k] == service && index[l] == service :: k == l
      modifies `index
      ensures index == Purged(old(index), service)
    {
      var rest := index.Keys;
      while rest != {}
        invariant rest <= index.Keys && index == old(index)
        invariant forall k | k in index && k !in rest :: index[k] != service
        decreases rest
      {
        var k :| k in rest;
        rest := rest - {k};
        if index[k] == service {
          index := index - {k};
          return;
        }
      }
      assert index == Purged(index, service);
    }

    /** Erases at most one owner entry that names the service. */
    method EraseOwnerEntry(service: string) returns (erased: Option<string>)
      modifies `idToName
      ensures erased.Some? ==> erased.value in old(idToName) && old(idToName)[erased.value] == service
      ensures erased == None ==> service !in old(idToName).Values
      ensures idToName == if erased.Some? then old(idToName) - {erased.value} else old(idToName)
    {
      var rest := idToName.Keys;
      while rest != {}
        invariant rest <= idToName.Keys && idToName == old(idToName)
        invariant forall k | k in idToName && k !in rest :: idToName[k] != service
        decreases rest
      {
        var k :| k in rest;
        rest := rest - {k};
        if idToName[k] == service {
          idToName := idToName - {k};
          return Some(k);
        }
      }
      return None;
    }

    method PublishNulls(service: string, order: seq<string>)
      requires service in items
      modifies `out
      ensures out == old(out) + NullPublications(items[service], order)
    {
      for i := 0 to |order|
        invariant out == old(out) + NullPublications(items[service], order[..i])
      {
        assert order[..i + 1][..i] == order[..i];
        if order[i] in items[service] {
          out := out + Publish(items[service][order[i]], true).out;
        }
      }
      assert order[..|order|] == order;
    }

    method ForgetItems(service: string, order: seq<string>)
      modifies `items, `instances, `out
      ensures items == old(items) - {service} && instances == old(instances) - {service}
      ensures out == old(out) + (if service in old(items) then NullPublications(old(items)[service], order) else [])
    {
      if service in items {
        PublishNulls(service, order);
      }
      items := items - {service};
      instances := instances - {service};
    }

    /** `order` is the order in which the items of the service are iterated. */
    method RemoveService(service: string, order: seq<string>) returns (leftover: Option<string>)
      requires Inv(View())
      modifies this
      ensures View() == Registry.RemoveService(old(View()), service, order, leftover)
      ensures leftover.Some? ==> leftover.value in old(idToName) && old(idToName)[leftover.value] == service
      ensures leftover == None ==> service !in old(idToName).Values
    {
      AtMostOneEntry(View(), service);
      ForgetItems(service, order);
      EraseIndexEntry(service);
      leftover := EraseOwnerEntry(service);
    }

    // ---------- the driver ----------

    method Call(h: Handler, accepted: bool) returns (o: Outcome)
      modifies `handlers, `nextSerial
      ensures Step(View(), o) == Registry.Call(old(View()), h, accepted)
    {
      if !accepted {
        return Threw(CallRefused);
      }
      handlers := handlers[nextSerial := h];
      nextSerial := nextSerial + 1;
      return Ok;
    }

    /** A signal: first the delayed changes, then what the signal says. */
    method HandleMessage(sig: SignalBody, clk: Clock) returns (o: Outcome, leftover: Option<string>)
      requires Inv(View())
      modifies this
      ensures Step(View(), o) == OnSignal(old(View()), WithLeftover(sig, leftover), clk)
      ensures Inv(View()) && !Impossible(o)
    {
      var off := |queue|;
      leftover := None;
      ProcessKeeps(View(), clk, 0);
      o := ProcessDelayed(clk, 0);
      if o == Ok {
        ghost var middle := View();
        o, leftover := DispatchSignal(sig, clk, off);
        DispatchKeeps(middle, WithLeftover(sig, leftover), clk, off);
      }
    }

    method DispatchSignal(sig: SignalBody, clk: Clock, off: nat) returns (o: Outcome, leftover: Option<string>)
      requires Inv(View())
      modifies this
      ensures Step(View(), o) == Dispatch(old(View()), WithLeftover(sig, leftover), clk, off)
    {
      o, leftover := Ok, None;
      match sig
      case NameOwnerChanged(name, oldOwner, newOwner, accepted, order, _) =>
        if !StartsWith(name, VICTRON_PREFIX) {
          return;
        }
        if newOwner != "" {
          idToName := idToName[newOwner := name];
          o := Call(GetNameOwner(name), accepted);
        } else if oldOwner != "" {
          idToName := idToName - {oldOwner};
          assert Inv(View());
          leftover := RemoveService(name, order);
        }
      case Changed(sender, ups) =>
        var service := NamedOwner(View(), sender);
        if StartsWith(service, VICTRON_PREFIX) {
          o := AddMapping(service, ups, true, false, clk, off);
        }
      case Unreadable => o := Threw(BadMessage);
      case Other =>
    }

    /** Asks the bus which services there are. */
    method ScanAllServices(accepted: bool) returns (o: Outcome)
      modifies `handlers, `nextSerial
      ensures Step(View(), o) == Next(old(View()), Scan(accepted))
    {
      o := Call(ListNames, accepted);
    }

    /** Asks for the owner of every Victron service in the list, until the bus refuses a call. */
    method ScanServices(names: seq<string>, calls: nat) returns (o: Outcome)
      modifies `handlers, `nextSerial
      ensures Step(View(), o) == ScanAll(old(View()), names, calls)
    {
      var left := calls;
      for i := 0 to |names|
        invariant ScanAll(View(), names[i..], left) == ScanAll(old(View()), names, calls)
      {
        assert names[i..][1..] == names[i + 1..];
        if StartsWith(names[i], "com.victronenergy") {
          o := Call(GetNameOwner(names[i]), left > 0);
          if o != Ok {
            return;
          }
          left := left - 1;
        }
      }
      return Ok;
    }

    method StoreFreshValue(service: string, path: string, v: Variant) returns (o: Outcome)
      modifies `items, `out
      ensures Step(View(), o) == OnFreshValue(old(View()), service, path, v)
    {
      if service !in items || path !in items[service] {
        return Threw(ItemGone);
      }
      var i := SetValue(items[service][path], ValueMinMax(v, Unknown, Unknown));
      items := Put(items, service, path, i);
      var p := Publish(i, false);
      PutTwice(old(items), service, path, i, p.item);
      items := Put(items, service, path, p.item);
      out := out + p.out;
      return Thrown(p.threw);
    }

    /** A reply: the handler waiting for the serial is taken out before it runs. */
    method PendingCallNotify(serial: nat, body: ReplyBody, calls: nat, clk: Clock) returns (o: Outcome)
      modifies this
      ensures Step(View(), o) == Next(old(View()), Reply(serial, body, calls, clk))
    {
      if serial !in handlers {
        return Ok;
      }
      var h := handlers[serial];
      handlers := handlers - {serial};
      o := RunHandler(h, body, calls, clk);
    }

    method RunHandler(h: Handler, body: ReplyBody, calls: nat, clk: Clock) returns (o: Outcome)
      modifies this
      ensures Step(View(), o) == OnReply(old(View()), h, body, calls, clk)
    {
      match (h, body)
      case (ListNames, Names(names)) => o := ScanServices(names, calls);
      case (ListNames, _) => o := Threw(BadMessage);
      case (GetItems(service), ErrorReply(name)) =>
        o := Ok;
        if name == UNKNOWN_METHOD {
          o := Call(GetValue(service, "/", false), calls > 0);
        }
      case (_, ErrorReply(_)) => o := Ok;
      case (GetNameOwner(service), Owner(owner)) =>
        idToName := idToName[owner := service];
        o := Call(GetItems(service), calls > 0);
      case (GetItems(service), ItemsBody(ups)) => o := AddMapping(service, ups, false, false, clk, 0);
      case (GetValue(service, prefix, force), Tree(vals)) =>
        o := AddMapping(service, TreeUpdates(prefix, vals), false, force, clk, 0);
      case (ReadItem(service, path), Value(v)) => o := StoreFreshValue(service, path, v);
      case _ => o := Threw(BadMessage);
    }

    method HandleRead(topic: string, accepted: bool) returns (o: Outcome)
      modifies `handlers, `nextSerial
      ensures Step(View(), o) == OnReadRequest(old(View()), topic, accepted)
    {
      var subtopics := SplitToVector(topic, '/', |topic|, true);
      if |subtopics| < 3 {
        return Threw(NotFound);
      }
      if subtopics[2] == GUI_CUSTOMIZATIONS {
        return Ok;
      }
      var found := FindByTopic(View(), topic);
      match found
      case Success(i) => o := Call(ReadItem(i.serviceName, i.path), accepted);
      case Failure(NoItem(service, path)) => o := Call(GetValue(service, path, true), accepted);
      case Failure(_) => o := Threw(NotFound);
    }
  }
}

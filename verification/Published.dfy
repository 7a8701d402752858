/**
 What MQTT subscribers have last been told. While the system is alive, the last message sent
 for every stored item is its present rendering: through mapping, replay, reads, removal and
 republishing. A keep-alive that publishes everything brings this about.
 */
module Published {
  import opened Wrappers
  import opened Text
  import opened ShortNames
  import opened Variants
  import opened Items
  import opened Documents
  import opened Registry
  import opened RegistryInvariant
  import opened Renderings
  import opened Mirror
  import opened MirrorRuns

  type Places = set<(string, string)>

  /** The last message sent for the item at a place. */
  function LastFor(out: seq<Publication>, s: string, p: string): Option<Publication> {
    if out == [] then None
    else
      var x := out[|out| - 1];
      if x.source.serviceName == s && x.source.path == p then Some(x) else LastFor(out[..|out| - 1], s, p)
  }

  /** The message is the item's rendering, on its topic, and retained exactly if the item is. */
  predicate Carries(m: Publication, i: Item) {
    m.topic == i.topic && m.payload == Rendering(i) && m.retain == Retained(i)
  }

  /** The item's last message is its rendering, unless it is blocked or has none. */
  predicate Shows(out: seq<Publication>, s: string, p: string, i: Item) {
    || Blocked(i) || Rendering(i) == None
    || (LastFor(out, s, p).Some? && Carries(LastFor(out, s, p).value, i))
  }

  /** Every stored item but the hidden ones has been shown as it is. */
  predicate Shown(items: Store, out: seq<Publication>, hidden: Places) {
    forall s, p | s in items && p in items[s] && (s, p) !in hidden :: Shows(out, s, p, items[s][p])
  }

  predicate ShownIn(r: Reg, hidden: Places) {
    Shown(r.items, r.out, hidden)
  }

  // ---------- messages and places ----------

  lemma {:induction false} LastForOther(out: seq<Publication>, more: seq<Publication>, s: string, p: string)
    requires forall x | x in more :: x.source.serviceName != s || x.source.path != p
    ensures LastFor(out + more, s, p) == LastFor(out, s, p)
  {
    if more == [] {
      assert out + more == out;
    } else {
      LastForOther(out, more[..|more| - 1], s, p);
      assert (out + more)[..|out + more| - 1] == out + more[..|more| - 1];
      assert more[|more| - 1] in more;
    }
  }

  lemma LastForOne(out: seq<Publication>, x: Publication)
    ensures LastFor(out + [x], x.source.serviceName, x.source.path) == Some(x)
  {}

  /** What publishing an item that is stored at a place sends. */
  lemma SentFromPlace(i: Item, vrmId: string, s: string, instance: string, p: string, nullPayload: bool)
    requires ItemOk(i, vrmId, s, instance, p)
    ensures forall x | x in Publish(i, nullPayload).out :: x.source.serviceName == s && x.source.path == p
    ensures Rendering(Publish(i, nullPayload).item) == Rendering(i)
  {
    PublishSendsRendering(i, nullPayload);
  }

  lemma PublishedShows(out: seq<Publication>, i: Item, vrmId: string, s: string, instance: string, p: string)
    requires ItemOk(i, vrmId, s, instance, p)
    ensures Shows(out + Publish(i, false).out, s, p, Publish(i, false).item)
  {
    SentFromPlace(i, vrmId, s, instance, p, false);
    PublishSendsRendering(i, false);
    var r := Publish(i, false);
    if !Blocked(i) && Rendering(i).Some? {
      assert r.out == [r.out[0]];
      LastForOne(out, r.out[0]);
    }
  }

  /** Storing and publishing an item shows it and hides no other. */
  lemma PutShows(items: Store, out: seq<Publication>, hidden: Places, i: Item, vrmId: string, s: string, instance: string, p: string)
    requires Shown(items, out, hidden) && ItemOk(i, vrmId, s, instance, p)
    ensures var r := Publish(i, false); Shown(Put(items, s, p, r.item), out + r.out, hidden - {(s, p)})
  {
    var r := Publish(i, false);
    var after := Put(items, s, p, r.item);
    PublishedShows(out, i, vrmId, s, instance, p);
    SentFromPlace(i, vrmId, s, instance, p, false);
    forall t, q | t in after && q in after[t] && (t, q) !in hidden - {(s, p)} ensures Shows(out + r.out, t, q, after[t][q]) {
      if (t, q) != (s, p) {
        assert Shows(out, t, q, items[t][q]);
        LastForOther(out, r.out, t, q);
      }
    }
  }

  lemma HidingMore(items: Store, out: seq<Publication>, hidden: Places, more: Places)
    requires Shown(items, out, hidden) && hidden <= more
    ensures Shown(items, out, more)
  {}

  // ---------- steps ----------

  lemma PassStepShows(p: Pass, sent: seq<Publication>, e: Queued, now: nat, hidden: Places, instances: map<string, string>, vrmId: string)
    requires StoreOk(p.items, instances, vrmId) && Shown(p.items, sent + p.out, hidden)
    ensures var a := PassStep(p, true, e, now); Shown(a.items, sent + a.out, hidden)
  {
    if VerdictOf(p.items, e, now) == Apply {
      var i := p.items[e.service][e.path];
      assert ServiceOk(p.items[e.service], vrmId, e.service, instances[e.service]);
      UpdateKeepsItem(i, e.value, vrmId, e.service, instances[e.service], e.path);
      var j := SetValue(i, e.value);
      PutShows(p.items, sent + p.out, hidden, j, vrmId, e.service, instances[e.service], e.path);
      assert sent + p.out + Publish(j, false).out == sent + (p.out + Publish(j, false).out);
      var a := PassStep(p, true, e, now);
      HidingMore(a.items, sent + a.out, hidden - {(e.service, e.path)}, hidden);
    }
  }

  lemma {:induction false} PassShows(r: Reg, clk: Clock, off: nat, n: nat, hidden: Places)
    requires Inv(r) && r.alive && ShownIn(r, hidden) && n <= |r.queue|
    ensures var p := PassTo(r.items, true, r.queue, clk, off, n); Shown(p.items, r.out + p.out, hidden)
    decreases n
  {
    if n == 0 {
      assert r.out + [] == r.out;
    } else {
      PassShows(r, clk, off, n - 1, hidden);
      var p := PassTo(r.items, true, r.queue, clk, off, n - 1);
      if p.outcome == Ok {
        PassKeeps(r.items, true, r.queue, clk, off, n - 1, r.instances, r.vrmId);
        PassStepShows(p, r.out, r.queue[n - 1], clk(off + n - 1), hidden, r.instances, r.vrmId);
      }
    }
  }

  lemma ProcessShows(r: Reg, clk: Clock, off: nat, hidden: Places)
    requires Inv(r) && r.alive && ShownIn(r, hidden)
    ensures ShownIn(ProcessDelayed(r, clk, off).reg, hidden)
  {
    PassShows(r, clk, off, |r.queue|, hidden);
  }

  lemma MapStepShows(m: Mapping, r: Reg, service: string, instance: string, u: Update, force: bool, hidden: Places)
    requires MappingOk(m, r.instances, r.vrmId) && r.alive && Shown(m.items, r.out + m.out, hidden)
    requires service in r.instances && r.instances[service] == instance && NameOf(service, instance).Some?
    ensures var a := MapOne(m, r, service, instance, u, force); Shown(a.items, r.out + a.out, hidden)
  {
    var path := PrefixSlash(u.path);
    MappedItemOk(m, r, service, instance, u);
    var mapped := SetMappingDetails(NewItem(u.path, u.value), r.vrmId, service, instance).value;
    var i := Assign(StoredOrEmpty(m.items, service, path), mapped).value;
    PutShows(m.items, r.out + m.out, hidden, i, r.vrmId, service, instance, path);
    assert r.out + m.out + Publish(i, false).out == r.out + (m.out + Publish(i, false).out);
    var a := MapStep(m, r, service, instance, u, force);
    HidingMore(a.items, r.out + a.out, hidden - {(service, path)}, hidden);
  }

  lemma {:induction false} MapToShows(r: Reg, service: string, instance: string, ups: seq<Update>, force: bool, n: nat, hidden: Places)
    requires Inv(r) && r.alive && ShownIn(r, hidden) && n <= |ups|
    requires service in r.instances && r.instances[service] == instance && NameOf(service, instance).Some?
    ensures var m := MapTo(r, service, instance, ups, force, n); Shown(m.items, r.out + m.out, hidden)
    decreases n
  {
    if n == 0 {
      assert r.out + [] == r.out;
    } else {
      MapToShows(r, service, instance, ups, force, n - 1, hidden);
      MapToKeeps(r, service, instance, ups, force, n - 1);
      MapStepShows(MapTo(r, service, instance, ups, force, n - 1), r, service, instance, ups[n - 1], force, hidden);
    }
  }

  lemma MapServiceShows(r: Reg, service: string, instance: string, ups: seq<Update>, force: bool, clk: Clock, off: nat, hidden: Places)
    requires Inv(r) && r.alive && ShownIn(r, hidden)
    requires service in r.instances && r.instances[service] == instance && NameOf(service, instance).Some?
    ensures ShownIn(MapService(r, service, instance, ups, force, clk, off).reg, hidden)
  {
    var m := MapTo(r, service, instance, ups, force, |ups|);
    MapToShows(r, service, instance, ups, force, |ups|, hidden);
    MapToKeeps(r, service, instance, ups, force, |ups|);
    var r1 := r.(items := m.items, out := r.out + m.out);
    assert Inv(r1);
    ProcessShows(r1, clk, off, hidden);
  }

  lemma AddMappingShows(r: Reg, service: string, ups: seq<Update>, known: bool, force: bool, clk: Clock, off: nat, hidden: Places)
    requires Inv(r) && r.alive && ShownIn(r, hidden)
    ensures ShownIn(AddMapping(r, service, ups, known, force, clk, off).reg, hidden)
  {
    if !(known && service !in r.items) {
      assert known ==> service in r.instances;
      var instance := if service in r.instances then r.instances[service] else InstanceOf(ups, r.textOf);
      StoreInstanceKeeps(r, service, instance);
      if NameOf(service, instance).Some? {
        var r1 := r.(instances := r.instances[service := instance]);
        MapServiceShows(r1.(index := r1.index[NameOf(service, instance).value.total := service]),
                        service, instance, ups, force, clk, off, hidden);
      }
    }
  }

  lemma {:induction false} NullsAreOwn(its: map<string, Item>, order: seq<string>, vrmId: string, service: string, instance: string)
    requires ServiceOk(its, vrmId, service, instance)
    ensures forall x | x in NullPublications(its, order) :: x.source.serviceName == service
  {
    if order != [] {
      NullsAreOwn(its, order[..|order| - 1], vrmId, service, instance);
      var last := order[|order| - 1];
      if last in its {
        SentFromPlace(its[last], vrmId, service, instance, last, true);
      }
    }
  }

  lemma RemoveShows(r: Reg, service: string, order: seq<string>, leftover: Option<string>, hidden: Places)
    requires Inv(r) && ShownIn(r, hidden)
    ensures ShownIn(RemoveService(r, service, order, leftover), hidden)
  {
    var a := RemoveService(r, service, order, leftover);
    if service in r.items {
      NullsAreOwn(r.items[service], order, r.vrmId, service, r.instances[service]);
      forall s, p | s in a.items && p in a.items[s] && (s, p) !in hidden ensures Shows(a.out, s, p, a.items[s][p]) {
        assert Shows(r.out, s, p, r.items[s][p]);
        LastForOther(r.out, NullPublications(r.items[service], order), s, p);
      }
    } else {
      assert a.out == r.out;
    }
  }

  lemma SignalShows(r: Reg, sig: SignalBody, clk: Clock, hidden: Places)
    requires Inv(r) && r.alive && ShownIn(r, hidden)
    ensures ShownIn(OnSignal(r, sig, clk).reg, hidden)
  {
    ProcessKeeps(r, clk, 0);
    ProcessShows(r, clk, 0, hidden);
    var s := ProcessDelayed(r, clk, 0).reg;
    match sig
    case NameOwnerChanged(name, oldOwner, newOwner, accepted, order, leftover) =>
      RemoveShows(s.(idToName := s.idToName - {oldOwner}), name, order, leftover, hidden);
    case Changed(sender, ups) => AddMappingShows(s, NamedOwner(s, sender), ups, true, false, clk, |r.queue|, hidden);
    case _ =>
  }

  lemma {:induction false} ScanAllSendsNothing(r: Reg, names: seq<string>, calls: nat)
    ensures var a := ScanAll(r, names, calls).reg; a.out == r.out && a.items == r.items
    decreases |names|
  {
    if names != [] {
      if !StartsWith(names[0], "com.victronenergy") {
        ScanAllSendsNothing(r, names[1..], calls);
      } else if calls > 0 {
        ScanAllSendsNothing(Call(r, GetNameOwner(names[0]), true).reg, names[1..], calls - 1);
      }
    }
  }

  lemma FreshValueShows(r: Reg, service: string, path: string, v: Variant, hidden: Places)
    requires Inv(r) && ShownIn(r, hidden)
    ensures ShownIn(OnFreshValue(r, service, path, v).reg, hidden)
  {
    if service in r.items && path in r.items[service] {
      var i, u := r.items[service][path], ValueMinMax(v, Unknown, Unknown);
      assert ServiceOk(r.items[service], r.vrmId, service, r.instances[service]);
      UpdateKeepsItem(i, u, r.vrmId, service, r.instances[service], path);
      PutShows(r.items, r.out, hidden, SetValue(i, u), r.vrmId, service, r.instances[service], path);
      var a := OnFreshValue(r, service, path, v).reg;
      HidingMore(a.items, a.out, hidden - {(service, path)}, hidden);
    }
  }

  lemma ReplyShows(r: Reg, h: Handler, body: ReplyBody, calls: nat, clk: Clock, hidden: Places)
    requires Inv(r) && r.alive && ShownIn(r, hidden)
    ensures ShownIn(OnReply(r, h, body, calls, clk).reg, hidden)
  {
    match (h, body)
    case (ListNames, Names(names)) => ScanAllSendsNothing(r, names, calls);
    case (GetItems(t), ItemsBody(ups)) => AddMappingShows(r, t, ups, false, false, clk, 0, hidden);
    case (GetValue(t, prefix, force), Tree(vals)) => AddMappingShows(r, t, TreeUpdates(prefix, vals), false, force, clk, 0, hidden);
    case (ReadItem(t, path), Value(v)) => FreshValueShows(r, t, path, v, hidden);
    case _ =>
  }

  // ---------- publishing everything ----------

  function PlacesOf(order: seq<(string, string)>): Places {
    set x | x in order
  }

  lemma PlacesGrow(order: seq<(string, string)>, n: nat)
    requires n < |order|
    ensures PlacesOf(order[..n + 1]) == PlacesOf(order[..n]) + {order[n]}
  {
    assert order[..n + 1] == order[..n] + [order[n]];
  }

  lemma StoredItemOk(r: Reg, s: string, p: string)
    requires Inv(r) && s in r.items && p in r.items[s]
    ensures s in r.instances && ItemOk(r.items[s][p], r.vrmId, s, r.instances[s], p)
  {
    assert ServiceOk(r.items[s], r.vrmId, s, r.instances[s]);
  }

  /** Unless it throws, publishing shows every item it comes to. */
  lemma {:induction false} PublishStoredShows(r: Reg, order: seq<(string, string)>, n: nat, hidden: Places)
    requires Inv(r) && ShownIn(r, hidden) && n <= |order|
    ensures var s := PublishStored(r, order, n);
      ShownIn(s.reg, if s.outcome == Ok then hidden - PlacesOf(order[..n]) else hidden)
    decreases n
  {
    if n > 0 {
      PublishStoredShows(r, order, n - 1, hidden);
      PublishStoredKeeps(r, order, n - 1);
      PublishOneMore(r, order, n, hidden);
    }
  }

  lemma PublishOneMore(r: Reg, order: seq<(string, string)>, n: nat, hidden: Places)
    requires 0 < n <= |order|
    requires var b := PublishStored(r, order, n - 1);
      Inv(b.reg) && ShownIn(b.reg, if b.outcome == Ok then hidden - PlacesOf(order[..n - 1]) else hidden)
    ensures var s := PublishStored(r, order, n);
      ShownIn(s.reg, if s.outcome == Ok then hidden - PlacesOf(order[..n]) else hidden)
  {
    PlacesGrow(order, n - 1);
    var b := PublishStored(r, order, n - 1);
    var (s, p) := order[n - 1];
    var left := hidden - PlacesOf(order[..n - 1]);
    if b.outcome == Ok {
      if s in b.reg.items && p in b.reg.items[s] {
        StoredItemOk(b.reg, s, p);
        PutShows(b.reg.items, b.reg.out, left, b.reg.items[s][p], b.reg.vrmId, s, b.reg.instances[s], p);
        var a := PublishStored(r, order, n).reg;
        assert left - {(s, p)} == hidden - PlacesOf(order[..n]);
        HidingMore(a.items, a.out, left - {(s, p)}, hidden);
      }
    }
  }

  /** The order names every stored item. */
  predicate Complete(order: seq<(string, string)>, items: Store) {
    forall s, p | s in items && p in items[s] :: (s, p) in order
  }

  /** The stored items the order names have a rendering, unless they are blocked. */
  predicate Showable(order: seq<(string, string)>, n: nat, items: Store)
    requires n <= |order|
  {
    forall k | 0 <= k < n :: ShowableAt(order[k], items)
  }

  predicate ShowableAt(place: (string, string), items: Store) {
    place.0 in items && place.1 in items[place.0] ==> CanShow(items[place.0][place.1])
  }

  predicate CanShow(i: Item) {
    Blocked(i) || Rendering(i).Some?
  }

  /** The stores differ in caches only. */
  predicate SameButCaches(a: Store, b: Store) {
    SameShape(a, b) && forall s, p | s in a && p in a[s] :: a[s][p].(cache := None) == b[s][p].(cache := None)
  }

  /** Publishing changes caches only, and throws exactly on an unblocked item without a rendering. */
  lemma {:induction false} PublishStoredThrowsIff(r: Reg, order: seq<(string, string)>, n: nat)
    requires Inv(r) && n <= |order|
    ensures var s := PublishStored(r, order, n);
      SameButCaches(r.items, s.reg.items) && (s.outcome == Ok <==> Showable(order, n, r.items))
    decreases n
  {
    if n > 0 {
      PublishStoredThrowsIff(r, order, n - 1);
      PublishStoredKeeps(r, order, n - 1);
      OneMoreThrowsIff(r, order, n, PublishStored(r, order, n - 1));
    }
  }

  lemma OneMoreThrowsIff(r: Reg, order: seq<(string, string)>, n: nat, b: Step)
    requires 0 < n <= |order| && b == PublishStored(r, order, n - 1)
    requires Inv(b.reg) && SameButCaches(r.items, b.reg.items) && (b.outcome == Ok <==> Showable(order, n - 1, r.items))
    ensures var s := PublishStored(r, order, n);
      SameButCaches(r.items, s.reg.items) && (s.outcome == Ok <==> Showable(order, n, r.items))
  {
    PublishOneThrowsIff(r.items, b, order[n - 1].0, order[n - 1].1);
    assert Showable(order, n, r.items) <==> Showable(order, n - 1, r.items) && ShowableAt(order[n - 1], r.items);
  }

  lemma PublishOneThrowsIff(items: Store, b: Step, s: string, p: string)
    requires Inv(b.reg) && SameButCaches(items, b.reg.items)
    ensures var a := PublishOne(b, s, p);
      SameButCaches(items, a.reg.items) && (a.outcome == Ok <==> b.outcome == Ok && ShowableAt((s, p), items))
  {
    if b.outcome == Ok && s in b.reg.items && p in b.reg.items[s] {
      PublishPlace(items, b.reg, s, p);
    }
  }

  lemma PublishPlace(items: Store, b: Reg, s: string, p: string)
    requires Inv(b) && SameButCaches(items, b.items) && s in b.items && p in b.items[s]
    ensures var r := Publish(b.items[s][p], false);
      SameButCaches(items, Put(b.items, s, p, r.item)) && (r.threw <==> !ShowableAt((s, p), items))
  {
    StoredItemOk(b, s, p);
    PutSame(items, b.items, s, p);
    PublishThrowsIff(items[s][p], b.items[s][p]);
  }

  lemma PutSame(items: Store, now: Store, s: string, p: string)
    requires SameButCaches(items, now) && s in now && p in now[s]
    ensures SameButCaches(items, Put(now, s, p, Publish(now[s][p], false).item))
  {
    var i := Publish(now[s][p], false).item;
    assert i.(cache := None) == now[s][p].(cache := None);
  }

  lemma PublishThrowsIff(i: Item, j: Item)
    requires i.(cache := None) == j.(cache := None) && Coherent(j) && j.topic != ""
    ensures Publish(j, false).threw <==> !CanShow(i)
  {
    SameRendering(i, j);
    PublishSendsRendering(j, false);
  }

  lemma SameRendering(i: Item, j: Item)
    requires i.(cache := None) == j.(cache := None)
    ensures Rendering(i) == Rendering(j) && (Blocked(i) <==> Blocked(j))
  {}

  /** Main result: publishing everything shows everything, whatever was hidden, if and only if every unblocked item has a rendering. */
  lemma PublishAllShows(r: Reg, order: seq<(string, string)>)
    requires Inv(r) && Complete(order, r.items)
    ensures Next(r, PublishAll(order)).outcome == Ok <==> Showable(order, |order|, r.items)
    ensures Showable(order, |order|, r.items) ==> ShownIn(Next(r, PublishAll(order)).reg, {})
  {
    var all := PlacesOf(order);
    assert ShownIn(r, all);
    PublishStoredThrowsIff(r, order, |order|);
    PublishStoredShows(r, order, |order|, all);
    assert order[..|order|] == order;
    assert all - all == {};
  }

  // ---------- runs ----------

  /** The system is alive, or the event itself publishes or says that it is. */
  predicate Watched(r: Reg, e: Event) {
    r.alive || e.PublishAll? || e.AliveChanged? || e.Scan?
  }

  /** Every event of a living system shows what it changes. */
  lemma NextShows(r: Reg, e: Event, hidden: Places)
    requires Inv(r) && ShownIn(r, hidden) && Watched(r, e)
    ensures ShownIn(Next(r, e).reg, hidden)
  {
    match e
    case Signal(sig, clk) => SignalShows(r, sig, clk, hidden);
    case Reply(serial, body, calls, clk) =>
      if serial in r.handlers {
        ReplyShows(r.(handlers := r.handlers - {serial}), r.handlers[serial], body, calls, clk, hidden);
      }
    case ReadRequest(topic, call) =>
      assert OnReadRequest(r, topic, call).reg.items == r.items && OnReadRequest(r, topic, call).reg.out == r.out;
    case AliveChanged(alive) =>
    case Scan(call) =>
    case PublishAll(order) =>
      PublishStoredShows(r, order, |order|, hidden);
      var a := PublishStored(r, order, |order|).reg;
      HidingMore(a.items, a.out, if PublishStored(r, order, |order|).outcome == Ok then hidden - PlacesOf(order[..|order|]) else hidden, hidden);
  }

  ghost predicate WatchedRun(r: Reg, es: seq<Event>) {
    es != [] ==> WatchedRun(r, es[..|es| - 1]) && Watched(Run(r, es[..|es| - 1]), es[|es| - 1])
  }

  /** Main result: as long as the system stays alive, what has been shown stays current in every run. */
  lemma {:induction false} StaysShown(r: Reg, es: seq<Event>, hidden: Places)
    requires Inv(r) && ShownIn(r, hidden) && WatchedRun(r, es)
    ensures Inv(Run(r, es)) && ShownIn(Run(r, es), hidden)
    decreases |es|
  {
    if es != [] {
      var init := es[..|es| - 1];
      StaysShown(r, init, hidden);
      NextKeeps(Run(r, init), es[|es| - 1]);
      NextShows(Run(r, init), es[|es| - 1], hidden);
    }
  }

  /** From a complete publication on, in every run of a living system: the last message for every item is its rendering. */
  lemma SubscribersAreCurrent(r: Reg, order: seq<(string, string)>, es: seq<Event>, s: string, p: string)
    requires Inv(r) && Complete(order, r.items) && Showable(order, |order|, r.items)
    requires WatchedRun(Next(r, PublishAll(order)).reg, es)
    requires var a := Run(Next(r, PublishAll(order)).reg, es);
      s in a.items && p in a.items[s] && !Blocked(a.items[s][p]) && Rendering(a.items[s][p]).Some?
    ensures var a := Run(Next(r, PublishAll(order)).reg, es);
      var last := LastFor(a.out, s, p);
      last.Some? && Carries(last.value, a.items[s][p])
  {
    PublishAllShows(r, order);
    NextKeeps(r, PublishAll(order));
    StaysShown(Next(r, PublishAll(order)).reg, es, {});
    var a := Run(Next(r, PublishAll(order)).reg, es);
    assert Shows(a.out, s, p, a.items[s][p]);
  }

  /** While asleep, a replayed change leaves the last message current exactly when it does not change the rendering. */
  lemma AsleepStaysCurrentIff(p: Pass, sent: seq<Publication>, e: Queued, now: nat)
    requires VerdictOf(p.items, e, now) == Apply
    requires var i := p.items[e.service][e.path];
      !Blocked(i) && Rendering(i).Some? && Shows(sent + p.out, e.service, e.path, i)
    ensures var a := PassStep(p, false, e, now);
      && e.service in a.items && e.path in a.items[e.service]
      && var i, j := p.items[e.service][e.path], a.items[e.service][e.path];
      Shows(sent + a.out, e.service, e.path, j) <==> Rendering(j) == None || Rendering(j) == Rendering(i)
  {}

  lemma CarriesIsSeen(m: Publication, i: Item, vrmId: string, s: string, instance: string, p: string)
    requires ItemOk(i, vrmId, s, instance, p) && Carries(m, i) && Rendering(i).Some?
    ensures Sees(m, vrmId, i.shortName, s, p, i.value)
  {
    ByName(i, vrmId, s, instance, p);
    RenderingDescribes(i, m.payload.value);
    var t, n := i.shortName.serviceType, i.shortName.instance;
    assert "N/" + vrmId + "/" + (t + "/" + n) + p == "N/" + vrmId + "/" + t + "/" + n + p;
  }

  /**
   Main result, end to end: everything was published; then a service appears under a connection
   and the system stays alive in a good, uncrossed run. For every item of the service that is
   ever sent, the last message sent is the document of the values the service itself has for it.
   */
  lemma SubscribersSeeTheService(r: Reg, order: seq<(string, string)>, es: seq<Event>, s: string, owner: string, truth: Values, last: nat, p: string)
    requires Inv(r) && RegRenders(r) && Complete(order, r.items)
    requires var now := Next(r, PublishAll(order)).reg;
      && Life(now, es, s, owner, truth, last) && UncrossedRun(now, es, s) && WatchedRun(now, es)
      && s in Run(now, es).items
    requires p in TruthOver(es, owner, truth)
    ensures var a, own := Run(Next(r, PublishAll(order)).reg, es), TruthOver(es, owner, truth);
      && p in a.items[s] && a.items[s][p].value == own[p]
      && (!NeverSent(s, p) ==>
            LastFor(a.out, s, p).Some? && Sees(LastFor(a.out, s, p).value, a.vrmId, a.items[s][p].shortName, s, p, own[p]))
  {
    var now := Next(r, PublishAll(order)).reg;
    var a := Run(now, es);
    MirrorAgrees(now, es, s, owner, truth, last);
    assert ValuesOf(a.items[s]) == TruthOver(es, owner, truth);
    var i := a.items[s][p];
    assert i.value == ValuesOf(a.items[s])[p];
    RenderingExistsIff(i);
    RenderingStoreShowable(order, r.items);
    NextKeeps(r, PublishAll(order));
    RunKeeps(now, es);
    StoredItemOk(a, s, p);
    ByName(i, a.vrmId, s, a.instances[s], p);
    if !NeverSent(s, p) {
      SubscribersAreCurrent(r, order, es, s, p);
      CarriesIsSeen(LastFor(a.out, s, p).value, i, a.vrmId, s, a.instances[s], p);
    }
  }

  /**
   Main result: in every run from the empty registry no message comes from an item that is never
   sent, only the serial number is retained, and every payload is the document of its source's
   values, with the text of the two secrets masked.
   */
  lemma EveryRunKeepsSecrets(vrmId: string, textOf: Variant -> string, es: seq<Event>, m: Publication)
    requires m in Run(Initial(vrmId, textOf), es).out
    ensures var t, p := m.source.shortName.serviceType, m.source.path;
      && !(t == "vebus" && p == "/Interfaces/Mk2/Tunnel") && !(t == "paygo" && p == "/LVD/Threshold")
      && (m.retain ==> t == "system" && p == "/Serial" && m.payload.Some?)
      && (m.payload.Some? ==> Describes(m.payload.value, m.source.value, t == "settings"
            && (p == "/Settings/Ble/Service/Pincode" || p == "/Settings/Services/AccessPointPassword")))
  {
    RunKeeps(Initial(vrmId, textOf), es);
    assert Genuine(m);
    if m.payload.Some? {
      RenderingDescribes(m.source, m.payload.value);
    }
  }

  lemma RenderingStoreShowable(order: seq<(string, string)>, items: Store)
    requires StoreRenders(items)
    ensures Showable(order, |order|, items)
  {
    forall k | 0 <= k < |order| ensures ShowableAt(order[k], items) {
      if order[k].0 in items && order[k].1 in items[order[k].0] {
        RenderingExistsIff(items[order[k].0][order[k].1]);
      }
    }
  }
}

/**
 From when on the mirror agrees, exactly when it does, and exactly when a message disrupts the
 queue.
 */
module MirrorLimits {
  import opened Text
  import opened ShortNames
  import opened Registry
  import opened RegistryInvariant
  import opened DelayedChanges
  import opened Renderings
  import opened Owners
  import opened Mirror
  import opened MirrorRuns

  // ---------- known services stay known ----------

  lemma {:induction false} MapToOnlyAdds(r: Reg, service: string, instance: string, ups: seq<Update>, force: bool, n: nat)
    requires n <= |ups|
    ensures r.items.Keys <= MapTo(r, service, instance, ups, force, n).items.Keys
    decreases n
  {
    if n > 0 {
      MapToOnlyAdds(r, service, instance, ups, force, n - 1);
      MapOneKnows(MapTo(r, service, instance, ups, force, n - 1), r, service, instance, ups[n - 1], force);
    }
  }

  lemma AddMappingOnlyAdds(r: Reg, service: string, ups: seq<Update>, known: bool, force: bool, clk: Clock, off: nat)
    ensures r.items.Keys <= AddMapping(r, service, ups, known, force, clk, off).reg.items.Keys
  {
    var instance := if service in r.instances then r.instances[service] else InstanceOf(ups, r.textOf);
    if NameOf(service, instance).Some? {
      MapServiceOnlyAdds(Indexed(r, service, instance), service, instance, ups, force, clk, off);
    }
  }

  lemma MapServiceOnlyAdds(r: Reg, service: string, instance: string, ups: seq<Update>, force: bool, clk: Clock, off: nat)
    ensures r.items.Keys <= MapService(r, service, instance, ups, force, clk, off).reg.items.Keys
  {
    MapToOnlyAdds(r, service, instance, ups, force, |ups|);
    ProcessSettles(Mapped(r, service, instance, ups, force), clk, off);
  }

  /** Only its disappearance makes a known service unknown again. */
  lemma KnownStaysKnown(r: Reg, e: Event, service: string)
    requires service in r.items && !Removes(e, service)
    ensures service in Next(r, e).reg.items
  {
    match e
    case Signal(sig, clk) =>
      ProcessSettles(r, clk, 0);
      if sig.Changed? {
        var s := ProcessDelayed(r, clk, 0).reg;
        AddMappingOnlyAdds(s, NamedOwner(s, sig.sender), sig.ups, true, false, clk, |r.queue|);
      }
    case Reply(serial, body, calls, clk) =>
      if serial in r.handlers {
        KnownStaysOnReply(r.(handlers := r.handlers - {serial}), r.handlers[serial], body, calls, clk, service);
      }
    case PublishAll(order) => PublishStoredValues(r, order, |order|, service);
    case ReadRequest(topic, call) => ReadRequestKeeps(r, topic, call);
    case AliveChanged(alive) =>
    case Scan(call) =>
  }

  lemma KnownStaysOnReply(r: Reg, h: Handler, body: ReplyBody, calls: nat, clk: Clock, service: string)
    requires service in r.items
    ensures service in OnReply(r, h, body, calls, clk).reg.items
  {
    match (h, body)
    case (ListNames, Names(names)) => ScanAllKeepsQueue(r, names, calls);
    case (GetItems(t), ItemsBody(ups)) => AddMappingOnlyAdds(r, t, ups, false, false, clk, 0);
    case (GetValue(t, prefix, force), Tree(vals)) => AddMappingOnlyAdds(r, t, TreeUpdates(prefix, vals), false, force, clk, 0);
    case _ =>
  }

  // ---------- exactly when the mirror agrees ----------

  /** The reply that makes a service known mirrors its values if and only if the replay agrees with them. */
  lemma FirstMappingIff(r: Reg, e: Event, s: string, owner: string, truth: Values, last: nat)
    requires Ready(r, last) && StartsWith(s, VICTRON_PREFIX) && FirstMapping(r, e, s)
    requires GoodStep(r, e, s, owner, truth, last)
    ensures var a := Next(r, e).reg;
      s in a.items && (ValuesOf(a.items[s]) == truth <==> ReplaysTruth(r.queue, e.clk, 0, s, truth))
  {
    var r1, ups := Taken(r, e), MappingReply(r, e).value.1;
    var i := InstanceFor(r1, s, ups);
    MappingReplyIs(r, e);
    PrefixedHasName(s);
    assert Inv(r1);
    AddMappingIs(r1, s, ups, false, Forces(r, e), e.clk, 0);
    FirstMapServiceIff(Indexed(r1, s, i), s, i, ups, Forces(r, e), e.clk, truth);
  }

  lemma {:induction false} LifePrefix(r: Reg, es: seq<Event>, k: nat, s: string, owner: string, truth: Values, last: nat)
    requires Life(r, es, s, owner, truth, last) && 0 < k <= |es|
    ensures Life(r, es[..k], s, owner, truth, last)
    decreases |es|
  {
    if k < |es| {
      assert es[..|es| - 1][0] == es[0];
      LifePrefix(r, es[..|es| - 1], k, s, owner, truth, last);
      assert es[..|es| - 1][..k] == es[..k];
    } else {
      assert es[..k] == es;
    }
  }

  lemma LifeStep(r: Reg, es: seq<Event>, s: string, owner: string, truth: Values, last: nat)
    requires Life(r, es, s, owner, truth, last)
    ensures GoodStep(Run(r, es[..|es| - 1]), es[|es| - 1], s, owner, TruthOver(es[..|es| - 1], owner, truth), LastOver(r, es[..|es| - 1], last))
    ensures |es| > 1 ==> Life(r, es[..|es| - 1], s, owner, truth, last)
  {
    assert |es| > 1 ==> es[..|es| - 1][0] == es[0];
  }

  /** While the service is unknown its queued changes echo, whatever expires when. */
  lemma {:induction false} EchoesWhileUnknown(r: Reg, es: seq<Event>, s: string, owner: string, truth: Values, last: nat)
    requires Life(r, es, s, owner, truth, last) && s !in Run(r, es).items
    ensures var a, now := Run(r, es), LastOver(r, es, last);
      Ready(a, now) && Owns(a, owner, s) && Mirrors(a, s, TruthOver(es, owner, truth), now)
    decreases |es|
  {
    var init, e := es[..|es| - 1], es[|es| - 1];
    var b, now, t := Run(r, init), LastOver(r, init, last), TruthOver(init, owner, truth);
    LifeStep(r, es, s, owner, truth, last);
    if init == [] {
      NothingEchoes(truth, r.queue, s, last);
    } else {
      if s in b.items {
        KnownStaysKnown(b, e, s);
      }
      EchoesWhileUnknown(r, init, s, owner, truth, last);
    }
    if FirstMapping(b, e, s) {
      FirstMappingIff(b, e, s, owner, t, now);
    }
    NextMirrors(b, e, s, owner, t, now);
  }

  /** Once the mirror agrees it goes on agreeing: no later event needs any condition on expiry. */
  lemma {:induction false} AgreementStays(r: Reg, es: seq<Event>, k: nat, s: string, owner: string, truth: Values, last: nat)
    requires Life(r, es, s, owner, truth, last) && 0 < k <= |es|
    requires var a, now := Run(r, es[..k]), LastOver(r, es[..k], last);
      && Ready(a, now) && Owns(a, owner, s) && s in a.items
      && ValuesOf(a.items[s]) == TruthOver(es[..k], owner, truth)
    ensures var a, now := Run(r, es), LastOver(r, es, last);
      && Ready(a, now) && Owns(a, owner, s) && s in a.items
      && ValuesOf(a.items[s]) == TruthOver(es, owner, truth)
    decreases |es|
  {
    if k == |es| {
      assert es[..k] == es;
    } else {
      var init, e := es[..|es| - 1], es[|es| - 1];
      LifeStep(r, es, s, owner, truth, last);
      assert init[..k] == es[..k];
      AgreementStays(r, init, k, s, owner, truth, last);
      KnownStaysKnown(Run(r, init), e, s);
      NextMirrors(Run(r, init), e, s, owner, TruthOver(init, owner, truth), LastOver(r, init, last));
    }
  }

  /**
   Main result: in every run, the reply that makes the service known mirrors its values if and
   only if what has not expired of its queued changes, each judged when the pass comes to it,
   agrees with them. If so, the mirror agrees after every later event too.
   */
  lemma MirrorAgreesIff(r: Reg, es: seq<Event>, k: nat, s: string, owner: string, truth: Values, last: nat)
    requires Life(r, es, s, owner, truth, last) && k < |es| && FirstMapping(Run(r, es[..k]), es[k], s)
    ensures var b, a := Run(r, es[..k]), Run(r, es[..k + 1]);
      && s in a.items
      && (ValuesOf(a.items[s]) == TruthOver(es[..k + 1], owner, truth)
          <==> ReplaysTruth(b.queue, es[k].clk, 0, s, TruthOver(es[..k], owner, truth)))
    ensures ReplaysTruth(Run(r, es[..k]).queue, es[k].clk, 0, s, TruthOver(es[..k], owner, truth)) ==>
      s in Run(r, es).items && ValuesOf(Run(r, es).items[s]) == TruthOver(es, owner, truth)
  {
    var b, now, t := Run(r, es[..k]), LastOver(r, es[..k], last), TruthOver(es[..k], owner, truth);
    AppearanceMapsNothing(r, es, k, s, owner);
    LifePrefix(r, es, k, s, owner, truth, last);
    LifePrefix(r, es, k + 1, s, owner, truth, last);
    LifeStep(r, es[..k + 1], s, owner, truth, last);
    assert es[..k + 1][..k] == es[..k] && es[..k + 1][k] == es[k];
    EchoesWhileUnknown(r, es[..k], s, owner, truth, last);
    FirstMappingIff(b, es[k], s, owner, t, now);
    if ReplaysTruth(b.queue, es[k].clk, 0, s, t) {
      NextMirrors(b, es[k], s, owner, t, now);
      AgreementStays(r, es, k + 1, s, owner, truth, last);
    }
  }

  lemma AppearanceMapsNothing(r: Reg, es: seq<Event>, k: nat, s: string, owner: string)
    requires k < |es| && Appears(r, es[0], owner, s) && FirstMapping(Run(r, es[..k]), es[k], s)
    ensures k > 0
  {
    assert es[..0] == [];
  }

  /** The event is a reply to GetItems of the service with at least one item. */
  predicate IsItemsReply(r: Reg, e: Event, service: string) {
    && e.Reply? && e.serial in r.handlers && r.handlers[e.serial] == GetItems(service)
    && e.body.ItemsBody? && e.body.ups != []
  }

  /** After the reply and after every later event of an uncrossed run the mirror is the service's values. */
  lemma {:induction false} MirrorAgreesFromReplyOn(r: Reg, es: seq<Event>, k: nat, s: string, owner: string, truth: Values, last: nat)
    requires Life(r, es, s, owner, truth, last) && UncrossedRun(r, es, s)
    requires k < |es| && IsItemsReply(Run(r, es[..k]), es[k], s)
    ensures s in Run(r, es).items && ValuesOf(Run(r, es).items[s]) == TruthOver(es, owner, truth)
    decreases |es|
  {
    var before, e := es[..|es| - 1], es[|es| - 1];
    MirrorAgrees(r, es, s, owner, truth, last);
    LifeStep(r, es, s, owner, truth, last);
    assert es[..0] == [];
    assert k > 0;
    if k < |es| - 1 {
      assert before[..k] == es[..k];
      MirrorAgreesFromReplyOn(r, before, k, s, owner, truth, last);
      KnownStaysKnown(Run(r, before), e, s);
    } else if s in Run(r, before).items {
      KnownStaysKnown(Run(r, before), e, s);
    } else {
      MirrorAgrees(r, before, s, owner, truth, last);
      FirstMappingIff(Run(r, before), e, s, owner, TruthOver(before, owner, truth), LastOver(r, before, last));
    }
  }

  /** A known service that disappears is as new: another life of it can begin. */
  lemma DisappearanceMakesNew(r: Reg, e: Event, s: string, owner: string)
    requires Settled(r) && s in r.items && Owns(r, owner, s) && Removes(e, s) && e.sig.oldOwner == owner
    ensures NewTo(Next(r, e).reg, s)
  {
    SettledPassOnlyExpires(r.items, r.alive, r.queue, e.clk, 0, |r.queue|);
    ProcessSettles(r, e.clk, 0);
    NextOwners(r, e);
    forall x ensures !OwnedBy(Next(r, e).reg.idToName, x, s) {
      assert OwnedBy(r.idToName, x, s) ==> x == owner;
    }
  }

  // ---------- exactly when a message disrupts the queue ----------

  lemma SignalNeverDisrupts(r: Reg, sig: SignalBody, clk: Clock)
    requires Inv(r) && Settled(r) && RegRenders(r) && EventRenders(Signal(sig, clk))
    ensures OnSignal(r, sig, clk).outcome != Threw(QueuedPathMissing)
  {
    SettledPassOnlyExpires(r.items, r.alive, r.queue, clk, 0, |r.queue|);
    ProcessKeeps(r, clk, 0);
    ProcessSettles(r, clk, 0);
    ProcessRenders(r, clk, 0);
    var b := ProcessDelayed(r, clk, 0).reg;
    if sig.Changed? && StartsWith(NamedOwner(b, sig.sender), VICTRON_PREFIX) && NamedOwner(b, sig.sender) in b.items {
      var service := NamedOwner(b, sig.sender);
      var i := InstanceFor(b, service, sig.ups);
      PrefixedHasName(service);
      AddMappingIs(b, service, sig.ups, true, false, clk, |r.queue|);
      MapServiceThrowsIff(Indexed(b, service, i), service, i, sig.ups, false, clk, |r.queue|);
    }
  }

  lemma MappingReplyDisruptsIff(r: Reg, e: Event)
    requires Inv(r) && Settled(r) && RegRenders(r) && EventRenders(e) && MappingReply(r, e).Some?
    ensures Next(r, e).outcome == Threw(QueuedPathMissing) <==> !TellsQueued(r, e)
  {
    var r1 := Taken(r, e);
    var (t, ups) := MappingReply(r, e).value;
    MappingReplyIs(r, e);
    assert Inv(r1);
    if MakeShort(t).Some? {
      var i := InstanceFor(r1, t, ups);
      AddMappingIs(r1, t, ups, false, Forces(r, e), e.clk, 0);
      MapServiceThrowsIff(Indexed(r1, t, i), t, i, ups, Forces(r, e), e.clk, 0);
    }
  }

  lemma {:induction false} ScanAllDisruptsNothing(r: Reg, names: seq<string>, calls: nat)
    ensures ScanAll(r, names, calls).outcome != Threw(QueuedPathMissing)
    decreases |names|
  {
    if names != [] {
      if !StartsWith(names[0], "com.victronenergy") {
        ScanAllDisruptsNothing(r, names[1..], calls);
      } else if calls > 0 {
        ScanAllDisruptsNothing(Call(r, GetNameOwner(names[0]), true).reg, names[1..], calls - 1);
      }
    }
  }

  lemma OtherReplyDisruptsNothing(r: Reg, h: Handler, body: ReplyBody, calls: nat, clk: Clock)
    requires !(h.GetItems? && body.ItemsBody?) && !(h.GetValue? && body.Tree?)
    ensures OnReply(r, h, body, calls, clk).outcome != Threw(QueuedPathMissing)
  {
    if h.ListNames? && body.Names? {
      ScanAllDisruptsNothing(r, body.names, calls);
    }
  }

  /**
   While values have a JSON form, an event throws the missing-path exception if and only if it
   is a reply that makes a service known and leaves out an unexpired queued path of it. Whether
   the system is alive makes no difference.
   */
  lemma DisruptsIff(r: Reg, e: Event)
    requires Inv(r) && Settled(r) && RegRenders(r) && EventRenders(e)
    ensures Next(r, e).outcome == Threw(QueuedPathMissing) <==> !TellsQueued(r, e)
    ensures Next(r, e).outcome != Threw(BadDictKey)
  {
    NextRenders(r, e);
    if MappingReply(r, e).Some? {
      MappingReplyDisruptsIff(r, e);
    } else {
      match e
      case Signal(sig, clk) => SignalNeverDisrupts(r, sig, clk);
      case Reply(serial, body, calls, clk) =>
        if serial in r.handlers {
          OtherReplyDisruptsNothing(r.(handlers := r.handlers - {serial}), r.handlers[serial], body, calls, clk);
        }
      case PublishAll(order) => PublishStoredRenders(r, order, |order|);
      case _ =>
    }
  }

  /** An empty reply leaves the service unknown. */
  lemma EmptyReplyMapsNothing(r: Reg, service: string, clk: Clock)
    requires service !in r.items
    ensures service !in AddMapping(r, service, [], false, false, clk, 0).reg.items
  {
    var instance := if service in r.instances then r.instances[service] else InstanceOf([], r.textOf);
    if NameOf(service, instance).Some? {
      var r2 := Indexed(r, service, instance);
      assert MapTo(r2, service, instance, [], false, 0).items == r2.items;
      ProcessSettles(Mapped(r2, service, instance, [], false), clk, 0);
    }
  }
}

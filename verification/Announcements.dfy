/**
 Which messages an event sends: for an item that is read, for the items of a removed service,
 and for the items of a reply while the system is asleep. Messages are described by the names
 of service and path and by the values in them.
 */
module Announcements {
  import opened Wrappers
  import opened Text
  import opened ShortNames
  import opened Variants
  import opened Items
  import opened Documents
  import opened Registry
  import opened RegistryInvariant

  /** Publishing an item that is stored at a place sends one message that shows its values, or none if the place is never sent. */
  lemma PublishIsSeen(i: Item, vrmId: string, s: string, instance: string, p: string)
    requires ItemOk(i, vrmId, s, instance, p)
    ensures var r := Publish(i, false);
      && (r.threw <==> !NeverSent(s, p) && !ValueRenders(i.value))
      && (NeverSent(s, p) || r.threw ==> r.out == [])
      && (!NeverSent(s, p) && !r.threw ==> |r.out| == 1 && r.out[0].source == r.item && Sees(r.out[0], vrmId, i.shortName, s, p, i.value))
      && r.item.(cache := None) == i.(cache := None)
  {
    PublishSendsRendering(i, false);
    ByName(i, vrmId, s, instance, p);
    RenderingHolds(i);
    if Rendering(i).Some? {
      RenderingDescribes(i, Rendering(i).value);
      var t, n := i.shortName.serviceType, i.shortName.instance;
      assert "N/" + vrmId + "/" + (t + "/" + n) + p == "N/" + vrmId + "/" + t + "/" + n + p;
    }
  }

  // ---------- a value that was read ----------

  /** A defined new value replaces the old one; minimum and maximum stay. */
  predicate ReadInto(before: ValueMinMax, v: Variant, now: ValueMinMax) {
    now.min == before.min && now.max == before.max && now.value == if v == Unknown then before.value else v
  }

  /** Only the item at this place differs. */
  predicate OnlyAt(a: Store, b: Store, s: string, p: string) {
    SameShape(a, b) && forall t, q | t in a && q in a[t] && (t != s || q != p) :: b[t][q] == a[t][q]
  }

  /** The value read is stored at its place, and nothing else changes but the messages. */
  ghost predicate StoredAt(r: Reg, a: Reg, s: string, p: string, v: Variant) {
    && a == r.(items := a.items, out := a.out) && s in r.items && p in r.items[s] && OnlyAt(r.items, a.items, s, p)
    && ReadInto(r.items[s][p].value, v, a.items[s][p].value) && a.items[s][p].shortName == r.items[s][p].shortName
  }

  /** One message shows the item at its place; none if it is never sent, and none but an exception if it has no JSON form. */
  ghost predicate SentOnce(before: seq<Publication>, after: seq<Publication>, o: Outcome, vrmId: string, s: string, p: string, i: Item) {
    if NeverSent(s, p) then o == Ok && after == before
    else if !ValueRenders(i.value) then o == Threw(BadDictKey) && after == before
    else o == Ok && |after| == |before| + 1 && after[..|before|] == before && Sees(after[|before|], vrmId, i.shortName, s, p, i.value)
  }

  /**
   Main result: the reply to a read of an item throws exactly when the item is gone or has no
   JSON form; it stores the value that was read and nothing else, and, alive or asleep, sends
   the item once unless the item is never sent.
   */
  lemma FreshValueIsStoredAndSent(r: Reg, s: string, p: string, v: Variant)
    requires Inv(r)
    ensures var f := OnFreshValue(r, s, p, v);
      if s !in r.items || p !in r.items[s] then f == Step(r, Threw(ItemGone))
      else StoredAt(r, f.reg, s, p, v) && SentOnce(r.out, f.reg.out, f.outcome, r.vrmId, s, p, f.reg.items[s][p])
  {
    if s in r.items && p in r.items[s] {
      FreshValueIsStored(r, s, p, v);
      FreshValueIsSent(r, s, p, v);
    }
  }

  lemma FreshValueIsStored(r: Reg, s: string, p: string, v: Variant)
    requires s in r.items && p in r.items[s]
    ensures StoredAt(r, OnFreshValue(r, s, p, v).reg, s, p, v)
  {
    var i := Publish(SetValue(r.items[s][p], ValueMinMax(v, Unknown, Unknown)), false).item;
    assert ReadInto(r.items[s][p].value, v, i.value);
    assert OnlyAt(r.items, Put(r.items, s, p, i), s, p);
  }

  lemma FreshValueIsSent(r: Reg, s: string, p: string, v: Variant)
    requires Inv(r) && s in r.items && p in r.items[s]
    ensures var f := OnFreshValue(r, s, p, v);
      s in f.reg.items && p in f.reg.items[s] && SentOnce(r.out, f.reg.out, f.outcome, r.vrmId, s, p, f.reg.items[s][p])
  {
    var i := SetValue(r.items[s][p], ValueMinMax(v, Unknown, Unknown));
    assert ServiceOk(r.items[s], r.vrmId, s, r.instances[s]);
    UpdateKeepsItem(r.items[s][p], ValueMinMax(v, Unknown, Unknown), r.vrmId, s, r.instances[s], p);
    PublishIsSeen(i, r.vrmId, s, r.instances[s], p);
    var r1 := Publish(i, false);
    assert r1.item.value == i.value && r1.item.shortName == i.shortName;
    assert (r.out + r1.out)[..|r.out|] == r.out;
  }

  // ---------- a removed service ----------

  /** Those of the paths that are stored and get an empty payload, in order. */
  function Cleared(s: string, its: map<string, Item>, order: seq<string>): seq<string> {
    if order == [] then []
    else
      var p := order[|order| - 1];
      Cleared(s, its, order[..|order| - 1]) + (if p in its && !NeverSent(s, p) && !KeptRetained(s, p) then [p] else [])
  }

  /** Message k is an empty payload for the k-th of these items, not retained. */
  predicate Clears(ms: seq<Publication>, its: map<string, Item>, paths: seq<string>) {
    && |ms| == |paths|
    && forall k | 0 <= k < |paths| :: paths[k] in its && ms[k] == Publication(its[paths[k]].topic, false, None, its[paths[k]])
  }

  lemma {:induction false} NullsClear(its: map<string, Item>, order: seq<string>, vrmId: string, s: string, instance: string)
    requires ServiceOk(its, vrmId, s, instance)
    ensures Clears(NullPublications(its, order), its, Cleared(s, its, order))
  {
    if order != [] {
      var p := order[|order| - 1];
      NullsClear(its, order[..|order| - 1], vrmId, s, instance);
      if p in its {
        PublishSendsRendering(its[p], true);
        ByName(its[p], vrmId, s, instance, p);
      }
    }
  }

  /** Main result: the disappearance of a service sends exactly one empty payload for each of its items that is neither blocked nor retained, and nothing else. */
  lemma RemovalSends(r: Reg, s: string, order: seq<string>, leftover: Option<string>)
    requires Inv(r)
    ensures var a := RemoveService(r, s, order, leftover);
      && |r.out| <= |a.out| && a.out[..|r.out|] == r.out
      && (s !in r.items ==> a.out == r.out)
      && (s in r.items ==> Clears(a.out[|r.out|..], r.items[s], Cleared(s, r.items[s], order)))
  {
    if s in r.items {
      NullsClear(r.items[s], order, r.vrmId, s, r.instances[s]);
      var ms := NullPublications(r.items[s], order);
      assert (r.out + ms)[..|r.out|] == r.out && (r.out + ms)[|r.out|..] == ms;
    }
  }

  // ---------- a reply ----------

  /** Somebody hears of the item when it is mapped. */
  predicate Heard(alive: bool, force: bool, s: string, p: string) {
    (alive || force || KeptRetained(s, p)) && !NeverSent(s, p)
  }

  type Place = (string, string)

  /** The places of the first n entries of which somebody hears, in order. */
  function HeardOf(alive: bool, force: bool, s: string, ups: seq<Update>, n: nat): seq<Place>
    requires n <= |ups|
  {
    if n == 0 then []
    else
      var p := PrefixSlash(ups[n - 1].path);
      HeardOf(alive, force, s, ups, n - 1) + (if Heard(alive, force, s, p) then [(s, p)] else [])
  }

  /** Message k shows the item at the k-th of these places, as its source is. */
  ghost predicate ShowsAll(ms: seq<Publication>, vrmId: string, places: seq<Place>) {
    && |ms| == |places|
    && forall k | 0 <= k < |places| :: Sees(ms[k], vrmId, ms[k].source.shortName, places[k].0, places[k].1, ms[k].source.value)
  }

  lemma MapOneSends(m: Mapping, r: Reg, s: string, instance: string, ups: seq<Update>, force: bool, n: nat)
    requires 0 < n <= |ups| && MappingOk(m, r.instances, r.vrmId)
    requires s in r.instances && r.instances[s] == instance && NameOf(s, instance).Some?
    requires m.outcome == Ok && ShowsAll(m.out, r.vrmId, HeardOf(r.alive, force, s, ups, n - 1))
    ensures var a := MapOne(m, r, s, instance, ups[n - 1], force);
      a.outcome == Ok ==> ShowsAll(a.out, r.vrmId, HeardOf(r.alive, force, s, ups, n))
  {
    var u := ups[n - 1];
    var p := PrefixSlash(u.path);
    MappedItemOk(m, r, s, instance, u);
    var mapped := SetMappingDetails(NewItem(u.path, u.value), r.vrmId, s, instance).value;
    var i := Assign(StoredOrEmpty(m.items, s, p), mapped).value;
    PublishIsSeen(i, r.vrmId, s, instance, p);
    ByName(i, r.vrmId, s, instance, p);
  }

  lemma {:induction false} MapToSends(r: Reg, s: string, instance: string, ups: seq<Update>, force: bool, n: nat)
    requires n <= |ups| && StoreOk(r.items, r.instances, r.vrmId)
    requires s in r.instances && r.instances[s] == instance && NameOf(s, instance).Some?
    requires MapTo(r, s, instance, ups, force, n).outcome == Ok
    ensures ShowsAll(MapTo(r, s, instance, ups, force, n).out, r.vrmId, HeardOf(r.alive, force, s, ups, n))
    decreases n
  {
    if n > 0 {
      MapToSends(r, s, instance, ups, force, n - 1);
      MapToKeeps(r, s, instance, ups, force, n - 1);
      MapOneSends(MapTo(r, s, instance, ups, force, n - 1), r, s, instance, ups, force, n);
    }
  }

  // ---------- delayed changes, and publishing everything ----------

  /** The places of those of the first n entries that a pass applies and somebody hears of, in order. */
  function AppliedTo(items: Store, q: seq<Queued>, clk: Clock, off: nat, n: nat): seq<Place>
    requires n <= |q|
  {
    if n == 0 then []
    else
      var e := q[n - 1];
      AppliedTo(items, q, clk, off, n - 1)
      + (if VerdictOf(items, e, clk(off + n - 1)) == Apply && !NeverSent(e.service, e.path) then [(e.service, e.path)] else [])
  }

  lemma PassOneSends(items: Store, p: Pass, q: seq<Queued>, clk: Clock, off: nat, n: nat, instances: map<string, string>, vrmId: string)
    requires 0 < n <= |q| && StoreOk(p.items, instances, vrmId) && SameShape(items, p.items)
    requires p.outcome == Ok && ShowsAll(p.out, vrmId, AppliedTo(items, q, clk, off, n - 1))
    ensures var a := PassOne(p, true, q[n - 1], clk(off + n - 1));
      a.outcome == Ok ==> ShowsAll(a.out, vrmId, AppliedTo(items, q, clk, off, n))
  {
    var e := q[n - 1];
    assert VerdictOf(items, e, clk(off + n - 1)) == VerdictOf(p.items, e, clk(off + n - 1));
    if VerdictOf(p.items, e, clk(off + n - 1)) == Apply {
      assert ServiceOk(p.items[e.service], vrmId, e.service, instances[e.service]);
      UpdateKeepsItem(p.items[e.service][e.path], e.value, vrmId, e.service, instances[e.service], e.path);
      PublishIsSeen(SetValue(p.items[e.service][e.path], e.value), vrmId, e.service, instances[e.service], e.path);
    }
  }

  /** While the system lives, a pass that does not throw sends exactly one message for each change it applies, in order, blocked ones apart. */
  lemma {:induction false} LivingPassSends(items: Store, q: seq<Queued>, clk: Clock, off: nat, n: nat, instances: map<string, string>, vrmId: string)
    requires n <= |q| && StoreOk(items, instances, vrmId) && PassTo(items, true, q, clk, off, n).outcome == Ok
    ensures ShowsAll(PassTo(items, true, q, clk, off, n).out, vrmId, AppliedTo(items, q, clk, off, n))
    decreases n
  {
    if n > 0 {
      LivingPassSends(items, q, clk, off, n - 1, instances, vrmId);
      PassKeeps(items, true, q, clk, off, n - 1, instances, vrmId);
      PassOneSends(items, PassTo(items, true, q, clk, off, n - 1), q, clk, off, n, instances, vrmId);
    }
  }

  /** Those of the first n places that are stored and sent, in order. */
  function SentOf(items: Store, order: seq<Place>, n: nat): seq<Place>
    requires n <= |order|
  {
    if n == 0 then []
    else
      var (s, p) := order[n - 1];
      SentOf(items, order, n - 1) + (if s in items && p in items[s] && !NeverSent(s, p) then [order[n - 1]] else [])
  }

  /** What was sent since is one message for each of these places. */
  ghost predicate SentSince(before: seq<Publication>, after: seq<Publication>, vrmId: string, places: seq<Place>) {
    |before| <= |after| && after[..|before|] == before && ShowsAll(after[|before|..], vrmId, places)
  }

  lemma ShowsBoth(ms: seq<Publication>, more: seq<Publication>, vrmId: string, places: seq<Place>, others: seq<Place>)
    requires ShowsAll(ms, vrmId, places) && ShowsAll(more, vrmId, others)
    ensures ShowsAll(ms + more, vrmId, places + others)
  {}

  lemma SendMore(before: seq<Publication>, after: seq<Publication>, vrmId: string, places: seq<Place>, ms: seq<Publication>, more: seq<Place>)
    requires SentSince(before, after, vrmId, places) && ShowsAll(ms, vrmId, more)
    ensures SentSince(before, after + ms, vrmId, places + more)
  {
    ShowsBoth(after[|before|..], ms, vrmId, places, more);
    assert (after + ms)[|before|..] == after[|before|..] + ms;
    assert (after + ms)[..|before|] == before;
  }

  lemma PublishPlaceSends(i: Item, vrmId: string, s: string, instance: string, p: string)
    requires ItemOk(i, vrmId, s, instance, p)
    ensures !Publish(i, false).threw ==> ShowsAll(Publish(i, false).out, vrmId, if NeverSent(s, p) then [] else [(s, p)])
  {
    PublishIsSeen(i, vrmId, s, instance, p);
  }

  lemma PublishOneSends(r: Reg, b: Step, order: seq<Place>, n: nat)
    requires 0 < n <= |order| && Inv(b.reg) && b.outcome == Ok && SameShape(r.items, b.reg.items) && b.reg.vrmId == r.vrmId
    requires SentSince(r.out, b.reg.out, r.vrmId, SentOf(r.items, order, n - 1))
    ensures var a := PublishOne(b, order[n - 1].0, order[n - 1].1);
      a.outcome == Ok ==> SentSince(r.out, a.reg.out, r.vrmId, SentOf(r.items, order, n))
  {
    var (s, p) := order[n - 1];
    var before := SentOf(r.items, order, n - 1);
    if s in b.reg.items && p in b.reg.items[s] {
      assert ServiceOk(b.reg.items[s], r.vrmId, s, b.reg.instances[s]);
      PublishPlaceSends(b.reg.items[s][p], r.vrmId, s, b.reg.instances[s], p);
      var pub := Publish(b.reg.items[s][p], false);
      if !pub.threw {
        SendMore(r.out, b.reg.out, r.vrmId, before, pub.out, if NeverSent(s, p) then [] else [order[n - 1]]);
      }
    } else {
      assert before + [] == before;
    }
  }

  lemma {:induction false} PublishStoredShape(r: Reg, order: seq<Place>, n: nat)
    requires n <= |order|
    ensures var a := PublishStored(r, order, n).reg; SameShape(r.items, a.items) && a.vrmId == r.vrmId
    decreases n
  {
    if n > 0 {
      PublishStoredShape(r, order, n - 1);
    }
  }

  /** Publishing everything, unless it throws, sends exactly one message for each stored item in turn, blocked ones apart. */
  lemma {:induction false} PublishAllSends(r: Reg, order: seq<Place>, n: nat)
    requires Inv(r) && n <= |order| && PublishStored(r, order, n).outcome == Ok
    ensures SentSince(r.out, PublishStored(r, order, n).reg.out, r.vrmId, SentOf(r.items, order, n))
    decreases n
  {
    if n > 0 {
      PublishAllSends(r, order, n - 1);
      PublishStoredKeeps(r, order, n - 1);
      PublishStoredShape(r, order, n - 1);
      PublishOneSends(r, PublishStored(r, order, n - 1), order, n);
    }
  }

  lemma {:induction false} AsleepPassSendsNothing(items: Store, q: seq<Queued>, clk: Clock, off: nat, n: nat)
    requires n <= |q|
    ensures PassTo(items, false, q, clk, off, n).out == []
    decreases n
  {
    if n > 0 {
      AsleepPassSendsNothing(items, q, clk, off, n - 1);
    }
  }

  /**
   Main result: while the system is asleep, a reply with the items of a service sends exactly
   one message for each of them that is retained, or for each at all if publishing is forced,
   blocked ones apart; each message shows the values mapped.
   */
  lemma AsleepReplySends(r: Reg, s: string, ups: seq<Update>, force: bool, clk: Clock, off: nat)
    requires Inv(r) && !r.alive && AddMapping(r, s, ups, false, force, clk, off).outcome == Ok
    ensures var a := AddMapping(r, s, ups, false, force, clk, off).reg;
      && |r.out| <= |a.out| && a.out[..|r.out|] == r.out
      && ShowsAll(a.out[|r.out|..], r.vrmId, HeardOf(false, force, s, ups, |ups|))
  {
    var instance := if s in r.instances then r.instances[s] else InstanceOf(ups, r.textOf);
    StoreInstanceKeeps(r, s, instance);
    var r1 := r.(instances := r.instances[s := instance]);
    MapServiceSends(r1.(index := r1.index[NameOf(s, instance).value.total := s]), s, instance, ups, force, clk, off);
  }

  lemma MapServiceSends(r: Reg, s: string, instance: string, ups: seq<Update>, force: bool, clk: Clock, off: nat)
    requires Inv(r) && !r.alive && MapService(r, s, instance, ups, force, clk, off).outcome == Ok
    requires s in r.instances && r.instances[s] == instance && NameOf(s, instance).Some?
    ensures var a := MapService(r, s, instance, ups, force, clk, off).reg;
      && |r.out| <= |a.out| && a.out[..|r.out|] == r.out
      && ShowsAll(a.out[|r.out|..], r.vrmId, HeardOf(false, force, s, ups, |ups|))
  {
    var m := MapTo(r, s, instance, ups, force, |ups|);
    MapToSends(r, s, instance, ups, force, |ups|);
    AsleepPassSendsNothing(m.items, r.queue, clk, off, |r.queue|);
    assert r.out + m.out + [] == r.out + m.out;
    assert (r.out + m.out)[..|r.out|] == r.out && (r.out + m.out)[|r.out|..] == m.out;
  }
}

/**
 The instance of a service and the topics that carry it (get_instance_from_items in
 src/utils.cpp, store_and_get_instance_from_service in src/state.cpp): which text the first
 reply for a service gives it, and that every item of the service is published under that
 text as long as the service is not removed.
 */
module Instances {
  import opened Wrappers
  import opened Text
  import opened ShortNames
  import opened Variants
  import opened Documents
  import opened Registry
  import opened RegistryInvariant
  import opened TopicRoundTrip
  import opened Owners

  /** Update i is the first for the path. */
  predicate FirstFor(ups: seq<Update>, i: nat, path: string) {
    i < |ups| && PrefixSlash(ups[i].path) == path && forall m | 0 <= m < i :: PrefixSlash(ups[m].path) != path
  }

  predicate NoneFor(ups: seq<Update>, path: string) {
    forall i | 0 <= i < |ups| :: PrefixSlash(ups[i].path) != path
  }

  lemma {:induction false} FoundFirst(ups: seq<Update>, i: nat, path: string)
    requires FirstFor(ups, i, path)
    ensures FindUpdate(ups, path) == Some(ups[i].value.value)
  {
    if i > 0 {
      assert PrefixSlash(ups[0].path) != path;
      forall m | 0 <= m < i - 1 ensures PrefixSlash(ups[1..][m].path) != path {
        assert ups[1..][m] == ups[m + 1];
      }
      FoundFirst(ups[1..], i - 1, path);
    }
  }

  lemma {:induction false} FoundNone(ups: seq<Update>, path: string)
    requires NoneFor(ups, path)
    ensures FindUpdate(ups, path) == None
  {
    if ups != [] {
      assert PrefixSlash(ups[0].path) != path;
      forall m | 0 <= m < |ups[1..]| ensures PrefixSlash(ups[1..][m].path) != path {
        assert ups[1..][m] == ups[m + 1];
      }
      FoundNone(ups[1..], path);
    }
  }

  /** The integer that a value of an integer type is. */
  function WholeOf(v: Variant): Option<int> {
    match v
    case Int16(n) => Some(n)
    case Int32(n) => Some(n)
    case Int64(n) => Some(n)
    case Byte(n) => Some(n)
    case UInt16(n) => Some(n)
    case UInt32(n) => Some(n)
    case UInt64(n) => Some(n)
    case Boolean(bits) => Some(bits)
    case _ => None
  }

  /** r is x without its fraction. */
  predicate Truncates(r: int, x: real) {
    if x >= 0.0 then r as real <= x < (r + 1) as real else (r - 1) as real < x <= r as real
  }

  predicate FitsInt32(n: int) {
    -0x8000_0000 <= n < 0x8000_0000
  }

  /** n is what the device instance v says as a signed 32-bit integer. */
  ghost predicate SaysInstance(v: Variant, n: int) {
    if WholeOf(v).Some? then FitsInt32(n) && (n - WholeOf(v).value) % 0x1_0000_0000 == 0
    else if v.Double? then exists t :: Truncates(t, v.d) && FitsInt32(n) && (n - t) % 0x1_0000_0000 == 0
    else n == 0
  }

  lemma OneResidue(m: int, n: int)
    requires FitsInt32(m) && FitsInt32(n) && (m - n) % 0x1_0000_0000 == 0
    ensures m == n
  {}

  lemma SameResidue(x: int, m: int, n: int)
    requires (m - x) % 0x1_0000_0000 == 0 && (n - x) % 0x1_0000_0000 == 0 && FitsInt32(m) && FitsInt32(n)
    ensures m == n
  {
    OneResidue(m, n);
  }

  lemma AsInt32Says(v: Variant, n: int)
    requires SaysInstance(v, n)
    ensures AsInt32(v) == n
  {
    match WholeOf(v)
    case Some(m) =>
      WrapsModulo(m);
      SameResidue(m, AsInt32(v), n);
    case None =>
      if v.Double? {
        var t :| Truncates(t, v.d) && FitsInt32(n) && (n - t) % 0x1_0000_0000 == 0;
        var f := if v.d < 0.0 then -((-v.d).Floor) else v.d.Floor;
        assert t == f;
        WrapsModulo(t);
        SameResidue(t, AsInt32(v), n);
      }
  }

  /** With a device instance, the instance is the decimal text of that, as a signed 32-bit integer. */
  lemma DeviceInstanceIs(ups: seq<Update>, textOf: Variant -> string, i: nat, n: int)
    requires FirstFor(ups, i, "/DeviceInstance") && SaysInstance(ups[i].value.value, n)
    ensures Decimal(InstanceOf(ups, textOf), n)
  {
    FoundFirst(ups, i, "/DeviceInstance");
    AsInt32Says(ups[i].value.value, n);
    IntTextIsDecimal(InstanceOf(ups, textOf), n);
  }

  /** t is the text of v: its own, that of an integer in decimal, a byte as one character. */
  predicate IsTextOf(t: string, v: Variant, textOf: Variant -> string) {
    if v.Unknown? then t == "unknown type"
    else if v.Str? then t == v.s
    else if v.Byte? then (0 <= v.n < 256 ==> |t| == 1 && t[0] as int == v.n)
    else if WholeOf(v).Some? then Decimal(t, WholeOf(v).value)
    else t == textOf(v)
  }

  lemma TextOfIs(v: Variant, textOf: Variant -> string)
    ensures IsTextOf(TextOf(v, textOf), v, textOf)
  {
    if WholeOf(v).Some? && !v.Byte? {
      IntTextIsDecimal(TextOf(v, textOf), WholeOf(v).value);
    }
  }

  /** Without one it is the text of the identifier. */
  lemma IdentifierIs(ups: seq<Update>, textOf: Variant -> string, i: nat)
    requires NoneFor(ups, "/DeviceInstance") && FirstFor(ups, i, "/Identifier")
    ensures IsTextOf(InstanceOf(ups, textOf), ups[i].value.value, textOf)
  {
    FoundNone(ups, "/DeviceInstance");
    FoundFirst(ups, i, "/Identifier");
    TextOfIs(ups[i].value.value, textOf);
  }

  /** With neither it is 0. */
  lemma NoInstanceIsZero(ups: seq<Update>, textOf: Variant -> string)
    requires NoneFor(ups, "/DeviceInstance") && NoneFor(ups, "/Identifier")
    ensures InstanceOf(ups, textOf) == "0"
  {
    FoundNone(ups, "/DeviceInstance");
    FoundNone(ups, "/Identifier");
  }

  // ---------- which instance a service has ----------

  /** The event is a reply with items of the service: its GetItems or GetValue reply. */
  predicate Brings(r: Reg, e: Event, s: string, ups: seq<Update>) {
    && e.Reply? && e.serial in r.handlers
    && match (r.handlers[e.serial], e.body)
       case (GetItems(t), ItemsBody(us)) => t == s && us == ups
       case (GetValue(t, prefix, force), Tree(vals)) => t == s && TreeUpdates(prefix, vals) == ups
       case _ => false
  }

  lemma MapServiceInstances(r: Reg, service: string, instance: string, ups: seq<Update>, force: bool, clk: Clock, off: nat)
    ensures MapService(r, service, instance, ups, force, clk, off).reg.instances == r.instances
  {}

  lemma AddMappingInstances(r: Reg, service: string, ups: seq<Update>, known: bool, force: bool, clk: Clock, off: nat)
    ensures AddMapping(r, service, ups, known, force, clk, off).reg.instances
         == if known || service in r.instances then r.instances else r.instances[service := InstanceOf(ups, r.textOf)]
  {
    if !(known && (service !in r.items || service !in r.instances)) {
      var instance := if service in r.instances then r.instances[service] else InstanceOf(ups, r.textOf);
      var r1 := r.(instances := r.instances[service := instance]);
      assert service in r.instances ==> r1.instances == r.instances;
      if NameOf(service, instance).Some? {
        MapServiceInstances(r1.(index := r1.index[NameOf(service, instance).value.total := service]), service, instance, ups, force, clk, off);
      }
    }
  }

  /** The first reply gives the service its instance. */
  lemma BringsInstance(r: Reg, e: Event, s: string, ups: seq<Update>)
    requires Brings(r, e, s, ups) && s !in r.instances
    ensures Next(r, e).reg.instances == r.instances[s := InstanceOf(ups, r.textOf)]
  {
    var force := match r.handlers[e.serial] case GetValue(_, _, f) => f case _ => false;
    AddMappingInstances(r.(handlers := r.handlers - {e.serial}), s, ups, false, force, e.clk, 0);
  }

  lemma ProcessKeepsInstances(r: Reg, clk: Clock, off: nat)
    ensures ProcessDelayed(r, clk, off).reg.instances == r.instances
  {}

  predicate SameInstance(r: Reg, a: Reg, s: string) {
    s in r.instances ==> s in a.instances && a.instances[s] == r.instances[s]
  }

  lemma SignalKeepsInstance(r: Reg, sig: SignalBody, clk: Clock, s: string)
    requires !Removes(Signal(sig, clk), s)
    ensures SameInstance(r, OnSignal(r, sig, clk).reg, s)
  {
    ProcessKeepsInstances(r, clk, 0);
    var b := ProcessDelayed(r, clk, 0).reg;
    if sig.Changed? {
      AddMappingInstances(b, NamedOwner(b, sig.sender), sig.ups, true, false, clk, |r.queue|);
    }
  }

  lemma ReplyKeepsInstance(r: Reg, h: Handler, body: ReplyBody, calls: nat, clk: Clock, s: string)
    ensures SameInstance(r, OnReply(r, h, body, calls, clk).reg, s)
  {
    match (h, body)
    case (GetItems(t), ItemsBody(ups)) => AddMappingInstances(r, t, ups, false, false, clk, 0);
    case (GetValue(t, prefix, force), Tree(vals)) => AddMappingInstances(r, t, TreeUpdates(prefix, vals), false, force, clk, 0);
    case _ => OtherRepliesKeepMaps(r, h, body, calls, clk);
  }

  lemma NextKeepsInstance(r: Reg, e: Event, s: string)
    requires !Removes(e, s)
    ensures SameInstance(r, Next(r, e).reg, s)
  {
    match e
    case Signal(sig, clk) => SignalKeepsInstance(r, sig, clk, s);
    case Reply(serial, body, calls, clk) =>
      if serial in r.handlers {
        ReplyKeepsInstance(r.(handlers := r.handlers - {serial}), r.handlers[serial], body, calls, clk, s);
      }
    case PublishAll(order) => PublishStoredKeepsMaps(r, order, |order|);
    case ReadRequest(topic, call) => ReadRequestKeepsMaps(r, topic, call);
    case _ =>
  }

  predicate NotRemoved(es: seq<Event>, s: string) {
    forall i | 0 <= i < |es| :: !Removes(es[i], s)
  }

  lemma {:induction false} RunKeepsInstance(r: Reg, es: seq<Event>, s: string)
    requires Inv(r) && NotRemoved(es, s)
    ensures Inv(Run(r, es)) && SameInstance(r, Run(r, es), s)
    decreases |es|
  {
    if es != [] {
      var init := es[..|es| - 1];
      RunKeepsInstance(r, init, s);
      NextKeeps(Run(r, init), es[|es| - 1]);
      NextKeepsInstance(Run(r, init), es[|es| - 1], s);
    }
  }

  lemma ItemTopic(r: Reg, s: string, t: string, p: string)
    requires Inv(r) && s in r.items && p in r.items[s] && OfType(s, t) && '.' !in t && '/' !in t
    ensures s in r.instances && r.items[s][p].topic == "N/" + r.vrmId + "/" + t + "/" + r.instances[s] + p
  {
    assert ServiceOk(r.items[s], r.vrmId, s, r.instances[s]);
    assert ItemOk(r.items[s][p], r.vrmId, s, r.instances[s], p);
    ShortIffOfType(s, t);
    var n := r.instances[s];
    assert "N/" + r.vrmId + "/" + (t + "/" + n) + p == "N/" + r.vrmId + "/" + t + "/" + n + p;
  }

  /**
   Main result: after the first reply for a service, in every run that does not remove it, each
   of its items is published under the portal id, the type, the instance of that reply, and its path.
   */
  lemma TopicsCarryTheInstance(r: Reg, e: Event, ups: seq<Update>, es: seq<Event>, s: string, t: string, p: string)
    requires Inv(r) && Brings(r, e, s, ups) && s !in r.instances && NotRemoved(es, s)
    requires OfType(s, t) && '.' !in t && '/' !in t
    requires var a := Run(Next(r, e).reg, es); s in a.items && p in a.items[s]
    ensures var a := Run(Next(r, e).reg, es);
      a.items[s][p].topic == "N/" + a.vrmId + "/" + t + "/" + InstanceOf(ups, r.textOf) + p
  {
    NextKeeps(r, e);
    BringsInstance(r, e, s, ups);
    RunKeepsInstance(Next(r, e).reg, es, s);
    ItemTopic(Run(Next(r, e).reg, es), s, t, p);
  }

  /** So with a device instance, that number in decimal is in every topic of the service. */
  lemma TopicsNameTheDevice(r: Reg, e: Event, ups: seq<Update>, es: seq<Event>, s: string, t: string, p: string, i: nat, n: int)
    returns (instance: string)
    requires Inv(r) && Brings(r, e, s, ups) && s !in r.instances && NotRemoved(es, s)
    requires OfType(s, t) && '.' !in t && '/' !in t
    requires FirstFor(ups, i, "/DeviceInstance") && SaysInstance(ups[i].value.value, n)
    requires var a := Run(Next(r, e).reg, es); s in a.items && p in a.items[s]
    ensures Decimal(instance, n)
    ensures var a := Run(Next(r, e).reg, es); a.items[s][p].topic == "N/" + a.vrmId + "/" + t + "/" + instance + p
  {
    instance := InstanceOf(ups, r.textOf);
    DeviceInstanceIs(ups, r.textOf, i, n);
    TopicsCarryTheInstance(r, e, ups, es, s, t, p);
  }

  /** A reply for a name that is neither a Victron name nor short throws and stores no item. */
  lemma BadNamesAreRefused(r: Reg, e: Event, s: string, ups: seq<Update>)
    requires Brings(r, e, s, ups)
    requires !StartsWith(s, "com.victronenergy.") && ('.' in s || '/' in s)
    ensures Next(r, e).outcome == Threw(BadName) && Next(r, e).reg.items == r.items && Next(r, e).reg.out == r.out
  {
    NoShortIff(s);
  }
}

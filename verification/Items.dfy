/**
 Item (src/types.cpp) with its write-once strings (src/boomstring.cpp) and its cached
 rendering (src/cachedstring.cpp).

 `Item` is the value of an item and the functions on it say what each operation does;
 `LiveItem` is the object whose methods update the fields. The cache holds the JSON document
 instead of its text; the empty text is None.
 */
module Items {
  import opened Wrappers
  import opened Text
  import opened ShortNames
  import opened Variants

  datatype ValueMinMax = ValueMinMax(value: Variant, min: Variant, max: Variant)

  const UNDEFINED := ValueMinMax(Unknown, Unknown, Unknown)

  datatype Item = Item(
    value: ValueMinMax,
    path: string,
    vrmId: string,
    serviceName: string,
    shortName: ShortName,
    topic: string,
    cache: Option<Json>)

  /** A message handed to the broker; None is the empty payload. `source` is the item that sent it. */
  datatype Publication = Publication(topic: string, retain: bool, payload: Option<Json>, source: Item)

  datatype ItemError = BadServiceName | ReadOnlyString | Unrenderable

  // ---------- partial updates ----------

  function Pick(current: Variant, update: Variant): Variant {
    if Defined(update) then update else current
  }

  /** Assignment of values: an undefined component leaves the old one in place. */
  function Merge(a: ValueMinMax, b: ValueMinMax): ValueMinMax {
    ValueMinMax(Pick(a.value, b.value), Pick(a.min, b.min), Pick(a.max, b.max))
  }

  function MergeAll(a: ValueMinMax, us: seq<ValueMinMax>): ValueMinMax {
    if us == [] then a else Merge(MergeAll(a, us[..|us| - 1]), us[|us| - 1])
  }

  /** The last value that is not undefined, or else the given one. */
  function LastDefined(a: Variant, vs: seq<Variant>): Variant {
    if vs == [] then a
    else if vs[|vs| - 1] != Unknown then vs[|vs| - 1]
    else LastDefined(a, vs[..|vs| - 1])
  }

  /** After any updates each component is the last defined one, or still the original. */
  lemma {:induction false} MergeKeepsLastDefined(a: ValueMinMax, us: seq<ValueMinMax>)
    ensures var r := MergeAll(a, us);
      && r.value == LastDefined(a.value, seq(|us|, i requires 0 <= i < |us| => us[i].value))
      && r.min == LastDefined(a.min, seq(|us|, i requires 0 <= i < |us| => us[i].min))
      && r.max == LastDefined(a.max, seq(|us|, i requires 0 <= i < |us| => us[i].max))
  {
    if us != [] {
      var n, ws := |us| - 1, us[..|us| - 1];
      MergeKeepsLastDefined(a, ws);
      assert seq(|us|, i requires 0 <= i < |us| => us[i].value)[..n] == seq(n, i requires 0 <= i < n => ws[i].value);
      assert seq(|us|, i requires 0 <= i < |us| => us[i].min)[..n] == seq(n, i requires 0 <= i < n => ws[i].min);
      assert seq(|us|, i requires 0 <= i < |us| => us[i].max)[..n] == seq(n, i requires 0 <= i < n => ws[i].max);
    }
  }

  // ---------- write-once strings ----------

  /** None is the exception "trying to change a read-only string". */
  function AssignOnce(current: string, update: string): Option<string> {
    if current != "" && current != update then None else Some(update)
  }

  // ---------- operations on item values ----------

  /** A parsed item: a value and a path, nothing else known yet. */
  function NewItem(path: string, value: ValueMinMax): Item {
    Item(value, PrefixSlash(path), "", "", NO_NAME, "", None)
  }

  const EMPTY_ITEM := Item(UNDEFINED, "", "", "", NO_NAME, "", None)

  function TopicOf(vrmId: string, name: ShortName, path: string): string {
    "N/" + vrmId + "/" + name.total + path
  }

  function SetMappingDetails(i: Item, vrmId: string, service: string, instance: string): Result<Item, ItemError> {
    match NameOf(service, instance)
    case None => Failure(BadServiceName)
    case Some(name) =>
      match (AssignOnce(i.vrmId, vrmId), AssignOnce(i.serviceName, service), AssignOnce(i.topic, TopicOf(vrmId, name, i.path)))
      case (Some(v), Some(s), Some(t)) => Success(i.(vrmId := v, shortName := name, serviceName := s, topic := t))
      case _ => Failure(ReadOnlyString)
  }

  /** Assignment of a whole item: values merge, strings are write-once, the cache is dropped. */
  function Assign(current: Item, other: Item): Result<Item, ItemError> {
    match (AssignOnce(current.path, other.path), AssignOnce(current.vrmId, other.vrmId),
           AssignOnce(current.serviceName, other.serviceName), AssignOnce(current.topic, other.topic))
    case (Some(p), Some(v), Some(s), Some(t)) =>
      Success(Item(Merge(current.value, other.value), p, v, s, other.shortName, t, None))
    case _ => Failure(ReadOnlyString)
  }

  function SetValue(i: Item, v: ValueMinMax): Item {
    i.(value := Merge(i.value, v), cache := None)
  }

  predicate Masked(i: Item) {
    && i.shortName.serviceType == "settings"
    && (i.path == "/Settings/Ble/Service/Pincode" || i.path == "/Settings/Services/AccessPointPassword")
  }

  predicate Retained(i: Item) {
    i.shortName.serviceType == "system" && i.path == "/Serial"
  }

  predicate Blocked(i: Item) {
    || (i.shortName.serviceType == "vebus" && i.path == "/Interfaces/Mk2/Tunnel")
    || (i.shortName.serviceType == "paygo" && i.path == "/LVD/Threshold")
  }

  function Member(o: map<string, Json>, key: string, v: Variant): Option<map<string, Json>> {
    if !Defined(v) then Some(o)
    else match AsJson(v, false)
         case None => None
         case Some(j) => Some(o[key := j])
  }

  /** The document for the item's present state; None when rendering throws. */
  function Rendering(i: Item): Option<Json> {
    match AsJson(i.value.value, Masked(i))
    case None => None
    case Some(v) =>
      match Member(map["value" := v], "min", i.value.min)
      case None => None
      case Some(o) =>
        match Member(o, "max", i.value.max)
        case None => None
        case Some(o2) => Some(JObj(o2))
  }

  /** The rendering as_json hands out: the cached one when there is one. */
  function CachedRendering(i: Item): Option<Json> {
    if i.cache.Some? then i.cache else Rendering(i)
  }

  datatype PublishResult = PublishResult(item: Item, out: seq<Publication>, threw: bool)

  function Publish(i: Item, nullPayload: bool): PublishResult {
    if i.topic == "" || Blocked(i) then PublishResult(i, [], false)
    else if nullPayload then
      PublishResult(i, if Retained(i) then [] else [Publication(i.topic, false, None, i)], false)
    else match CachedRendering(i)
         case None => PublishResult(i, [], true)
         case Some(j) =>
           var c := i.(cache := Some(j));
           PublishResult(c, [Publication(i.topic, Retained(i), Some(j), c)], false)
  }

  // ---------- what every operation keeps ----------

  /** The cache is empty or agrees with the present state. */
  predicate Coherent(i: Item) {
    i.cache.Some? ==> Rendering(i) == i.cache
  }

  /** The item is what the registry stores under this service and path. */
  predicate Identified(i: Item, vrmId: string, service: string, instance: string, path: string) {
    && NameOf(service, instance) == Some(i.shortName)
    && i.path == path && i.vrmId == vrmId && i.serviceName == service
    && i.topic == TopicOf(vrmId, i.shortName, path)
    && StartsWith(path, "/")
  }

  predicate Genuine(p: Publication) {
    && p.topic == p.source.topic && p.topic != "" && !Blocked(p.source)
    && (p.payload.Some? ==> p.payload == Rendering(p.source))
    && (p.retain ==> Retained(p.source) && p.payload.Some?)
  }

  /**
   A payload sent for a coherent item is the rendering of that item as it is, and retained
   exactly for items that are; without a payload only items that are not retained send.
   */
  lemma PublishSendsRendering(i: Item, nullPayload: bool)
    requires Coherent(i)
    ensures var r := Publish(i, nullPayload);
      && Coherent(r.item) && r.item.(cache := None) == i.(cache := None)
      && (forall p | p in r.out :: Genuine(p))
      && (r.threw <==> i.topic != "" && !Blocked(i) && !nullPayload && Rendering(i) == None)
      && (r.out != [] <==> i.topic != "" && !Blocked(i) && if nullPayload then !Retained(i) else Rendering(i).Some?)
      && (r.out != [] ==> r.out == [Publication(i.topic, Retained(i), if nullPayload then None else Rendering(i), r.item)])
  {}

  /** A masked text never leaves in the value of a payload. */
  lemma MaskedTextNeverSent(i: Item, p: Publication)
    requires Coherent(i) && Masked(i) && i.value.value.Str?
    requires p in Publish(i, false).out
    ensures p.payload.Some? && p.payload.value.JObj? && "value" in p.payload.value.o
    ensures p.payload.value.o["value"] == JStr("******")
  {}

  /** Mapping, copying into the store and updating keep identity and coherence, and do not throw. */
  lemma MappingNewItemSucceeds(path: string, v: ValueMinMax, vrmId: string, service: string, instance: string)
    requires NameOf(service, instance).Some?
    ensures var m := SetMappingDetails(NewItem(path, v), vrmId, service, instance);
      && m.Success? && Coherent(m.value) && m.value.value == v
      && Identified(m.value, vrmId, service, instance, PrefixSlash(path))
  {}

  lemma AssignKeepsIdentity(current: Item, other: Item, vrmId: string, service: string, instance: string, path: string)
    requires Identified(other, vrmId, service, instance, path)
    requires current == EMPTY_ITEM || Identified(current, vrmId, service, instance, path)
    ensures var r := Assign(current, other);
      && r.Success? && Coherent(r.value) && r.value.value == Merge(current.value, other.value)
      && Identified(r.value, vrmId, service, instance, path)
  {}

  /** Once an identity string is set, assignment succeeds exactly when it changes none of them. */
  lemma AssignThrowsExactlyOnChange(current: Item, other: Item)
    requires current.path != "" && current.vrmId != "" && current.serviceName != "" && current.topic != ""
    ensures Assign(current, other).Success? <==>
      && current.path == other.path && current.vrmId == other.vrmId
      && current.serviceName == other.serviceName && current.topic == other.topic
  {}

  // ---------- the object ----------

  class LiveItem {
    var value: ValueMinMax
    var path: string
    var vrmId: string
    var serviceName: string
    var shortName: ShortName
    var topic: string
    var cache: Option<Json>

    function View(): Item
      reads this
    {
      Item(value, path, vrmId, serviceName, shortName, topic, cache)
    }

    constructor (path: string, value: ValueMinMax)
      ensures View() == NewItem(path, value)
    {
      this.value := value;
      this.path := PrefixSlash(path);
      vrmId, serviceName, shortName, topic, cache := "", "", NO_NAME, "", None;
    }

    /** Drops the cache before the values change, so the cache stays coherent. */
    method Update(v: ValueMinMax)
      modifies this
      ensures View() == SetValue(old(View()), v) && Coherent(View())
    {
      cache := None;
      MergeValue(v);
    }

    method MergeValue(v: ValueMinMax)
      modifies `value
      ensures value == Merge(old(value), v)
    {
      if Defined(v.value) {
        value := value.(value := v.value);
      }
      if Defined(v.min) {
        value := value.(min := v.min);
      }
      if Defined(v.max) {
        value := value.(max := v.max);
      }
    }

    method MapTo(vrmId: string, service: string, instance: string) returns (error: Option<ItemError>)
      modifies this
      ensures match SetMappingDetails(old(View()), vrmId, service, instance)
              case Success(i) => error == None && View() == i
              case Failure(e) => error == Some(e)
      ensures unchanged(`value) && unchanged(`path) && unchanged(`cache)
    {
      var name := NameOf(service, instance);
      if name == None {
        return Some(BadServiceName);
      }
      var v := AssignOnce(this.vrmId, vrmId);
      if v == None {
        return Some(ReadOnlyString);
      }
      this.vrmId := v.value;
      shortName := name.value;
      var s := AssignOnce(serviceName, service);
      if s == None {
        return Some(ReadOnlyString);
      }
      serviceName := s.value;
      var t := AssignOnce(topic, "N" + "/" + this.vrmId + "/" + shortName.total + path);
      if t == None {
        return Some(ReadOnlyString);
      }
      topic := t.value;
      return None;
    }

    method AssignFrom(other: Item) returns (error: Option<ItemError>)
      modifies this
      ensures match Assign(old(View()), other)
              case Success(i) => error == None && View() == i
              case Failure(e) => error == Some(e)
    {
      MergeValue(other.value);
      var p := AssignOnce(path, other.path);
      if p == None {
        return Some(ReadOnlyString);
      }
      path := p.value;
      var v := AssignOnce(vrmId, other.vrmId);
      if v == None {
        return Some(ReadOnlyString);
      }
      vrmId := v.value;
      var s := AssignOnce(serviceName, other.serviceName);
      if s == None {
        return Some(ReadOnlyString);
      }
      serviceName := s.value;
      shortName := other.shortName;
      var t := AssignOnce(topic, other.topic);
      if t == None {
        return Some(ReadOnlyString);
      }
      topic := t.value;
      cache := None;
      return None;
    }

    /** Fills the cache on first use; a coherent cache makes the answer the fresh rendering. */
    method Json() returns (r: Option<Json>)
      modifies `cache
      ensures r == CachedRendering(old(View()))
      ensures old(Coherent(View())) ==> r == Rendering(View()) && Coherent(View())
      ensures r.Some? ==> cache == r
      ensures r == None ==> cache == old(cache)
    {
      if cache.Some? {
        return cache;
      }
      r := Rendering(View());
      if r.Some? {
        cache := r;
      }
    }

    method Send(nullPayload: bool) returns (out: seq<Publication>, threw: bool)
      modifies `cache
      ensures PublishResult(View(), out, threw) == Publish(old(View()), nullPayload)
    {
      if topic == "" {
        return [], false;
      }
      if (shortName.serviceType == "vebus" && path == "/Interfaces/Mk2/Tunnel")
         || (shortName.serviceType == "paygo" && path == "/LVD/Threshold") {
        return [], false;
      }
      var payload: Option<Variants.Json> := None;
      if !nullPayload {
        payload := Json();
        if payload == None {
          return [], true;
        }
      }
      var retain := Retained(View());
      if retain && payload == None {
        return [], false;
      }
      return [Publication(topic, retain, payload, View())], false;
    }
  }
}

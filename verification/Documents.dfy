/**
 What a payload says: the JSON document of a value (as_json_value in src/vevariant.cpp) and of
 an item (as_json in src/types.cpp), described by what is in it, whoever builds it. And which
 items are masked, blocked or retained, by the names of service and path.
 */
module Documents {
  import opened Wrappers
  import opened Text
  import opened ShortNames
  import opened Variants
  import opened Items

  // ---------- values ----------

  /** One of the first n entries has this text as its key. */
  predicate HasKey(entries: seq<Entry>, n: nat, key: string)
    requires n <= |entries|
  {
    exists i :: 0 <= i < n && entries[i].key == Str(key)
  }

  /** Entry i is the last of the first n with this text as its key. */
  predicate LastWith(entries: seq<Entry>, n: nat, i: nat, key: string)
    requires n <= |entries|
  {
    i < n && entries[i].key == Str(key) && forall m | i < m < n :: entries[m].key != Str(key)
  }

  /** Every key of every dictionary in it is text. */
  predicate Renderable(v: Variant) {
    match v
    case Array(arr, _) => forall i | 0 <= i < |arr| :: Renderable(arr[i])
    case Dict(entries, _) => forall i | 0 <= i < |entries| :: entries[i].key.Str? && Renderable(entries[i].val)
    case _ => true
  }

  /** j is the JSON form of v: a number for a number, of dictionary entries with one key the last. */
  ghost predicate Denotes(j: Json, v: Variant) {
    match v
    case Unknown => j == JStr("unknown_type")
    case Int16(n) => j == JInt(n)
    case Int32(n) => j == JInt(n)
    case Int64(n) => j == JInt(n)
    case Byte(n) => j == JInt(n)
    case UInt16(n) => j == JInt(n)
    case UInt32(n) => j == JInt(n)
    case UInt64(n) => j == JInt(n)
    case Str(s) => j == JStr(s)
    case Double(d) => j == JFloat(d)
    case Boolean(bits) => j == JBool(bits != 0)
    case NullArray(_) => j == JNull
    case Array(arr, _) =>
      if arr == [] then j == JNull
      else j.JArr? && |j.a| == |arr| && forall i | 0 <= i < |arr| :: Denotes(j.a[i], arr[i])
    case Dict(entries, _) =>
      && Renderable(v) && j.JObj?
      && (forall k: string :: k in j.o <==> HasKey(entries, |entries|, k))
      && (forall i: nat, k: string | k in j.o && LastWith(entries, |entries|, i, k) :: Denotes(j.o[k], entries[i].val))
  }

  /** The object has the last of the first n entries for every key. */
  ghost predicate Collects(o: map<string, Json>, entries: seq<Entry>, n: nat)
    requires n <= |entries|
  {
    && (forall k: string :: k in o <==> HasKey(entries, n, k))
    && (forall i: nat, k: string | k in o && LastWith(entries, n, i, k) :: Some(o[k]) == AsJson(entries[i].val, false))
  }

  lemma {:induction false} ElementsHave(v: Variant, n: nat)
    requires v.Array? && n <= |v.arr|
    ensures ElementsAsJson(v, n).Some? <==> forall i | 0 <= i < n :: AsJson(v.arr[i], false).Some?
    ensures ElementsAsJson(v, n).Some? ==> forall i | 0 <= i < n :: Some(ElementsAsJson(v, n).value[i]) == AsJson(v.arr[i], false)
    decreases n
  {
    if n > 0 {
      ElementsHave(v, n - 1);
    }
  }

  lemma CollectOne(o: map<string, Json>, entries: seq<Entry>, n: nat, j: Json)
    requires 0 < n <= |entries| && Collects(o, entries, n - 1)
    requires entries[n - 1].key.Str? && AsJson(entries[n - 1].val, false) == Some(j)
    ensures Collects(o[entries[n - 1].key.s := j], entries, n)
  {
    var a, last := o[entries[n - 1].key.s := j], entries[n - 1].key.s;
    forall k: string ensures k in a <==> HasKey(entries, n, k) {
      assert HasKey(entries, n, k) <==> HasKey(entries, n - 1, k) || k == last;
    }
    forall i: nat, k: string | k in a && LastWith(entries, n, i, k) ensures Some(a[k]) == AsJson(entries[i].val, false) {
      if k != last {
        assert LastWith(entries, n - 1, i, k);
      }
    }
  }

  lemma {:induction false} EntriesHave(v: Variant, n: nat)
    requires v.Dict? && n <= |v.entries|
    ensures EntriesAsJson(v, n).Some? <==> forall i | 0 <= i < n :: v.entries[i].key.Str? && AsJson(v.entries[i].val, false).Some?
    ensures EntriesAsJson(v, n).Some? ==> Collects(EntriesAsJson(v, n).value, v.entries, n)
    decreases n
  {
    if n > 0 {
      EntriesHave(v, n - 1);
      if EntriesAsJson(v, n).Some? {
        CollectOne(EntriesAsJson(v, n - 1).value, v.entries, n, AsJson(v.entries[n - 1].val, false).value);
      }
    }
  }

  /** A value has a JSON form exactly when every key of every dictionary in it is text. */
  lemma {:induction false} HasJsonIff(v: Variant)
    ensures AsJson(v, false).Some? <==> Renderable(v)
  {
    match v
    case Array(arr, _) =>
      ElementsHave(v, |arr|);
      forall i | 0 <= i < |arr| ensures AsJson(arr[i], false).Some? <==> Renderable(arr[i]) {
        HasJsonIff(arr[i]);
      }
    case Dict(entries, _) =>
      EntriesHave(v, |entries|);
      forall i | 0 <= i < |entries| ensures AsJson(entries[i].val, false).Some? <==> Renderable(entries[i].val) {
        HasJsonIff(entries[i].val);
      }
    case _ =>
  }

  lemma {:induction false} JsonDenotes(v: Variant)
    requires AsJson(v, false).Some?
    ensures Denotes(AsJson(v, false).value, v)
  {
    HasJsonIff(v);
    match v
    case Array(arr, _) =>
      ElementsHave(v, |arr|);
      forall i | 0 <= i < |arr| ensures AsJson(arr[i], false).Some? && Denotes(AsJson(arr[i], false).value, arr[i]) {
        JsonDenotes(arr[i]);
      }
    case Dict(entries, _) =>
      EntriesHave(v, |entries|);
      forall i | 0 <= i < |entries| ensures AsJson(entries[i].val, false).Some? && Denotes(AsJson(entries[i].val, false).value, entries[i].val) {
        JsonDenotes(entries[i].val);
      }
    case _ =>
  }

  lemma {:induction false} LastOf(entries: seq<Entry>, n: nat, key: string) returns (i: nat)
    requires n <= |entries| && HasKey(entries, n, key)
    ensures LastWith(entries, n, i, key)
    decreases n
  {
    if entries[n - 1].key == Str(key) {
      i := n - 1;
    } else {
      i := LastOf(entries, n - 1, key);
    }
  }

  /** No other document denotes the value. */
  lemma {:induction false} DenotesOnly(v: Variant, j: Json)
    requires Denotes(j, v)
    ensures AsJson(v, false) == Some(j)
  {
    match v
    case Array(arr, _) =>
      ElementsHave(v, |arr|);
      forall i | 0 <= i < |arr| ensures arr != [] ==> AsJson(arr[i], false) == Some(j.a[i]) {
        DenotesOnly(arr[i], j.a[i]);
      }
      if arr != [] {
        assert ElementsAsJson(v, |arr|).value == j.a;
      }
    case Dict(entries, _) =>
      HasJsonIff(v);
      EntriesHave(v, |entries|);
      var o := EntriesAsJson(v, |entries|).value;
      forall k | k in o ensures k in j.o && o[k] == j.o[k] {
        var i := LastOf(entries, |entries|, k);
        DenotesOnly(entries[i].val, j.o[k]);
      }
      assert o == j.o;
    case _ =>
  }

  /** Main result: the JSON form of a value is the one document that denotes it. */
  lemma AsJsonDenotes(v: Variant, j: Json)
    ensures AsJson(v, false) == Some(j) <==> Denotes(j, v)
  {
    if AsJson(v, false) == Some(j) {
      JsonDenotes(v);
    } else if Denotes(j, v) {
      DenotesOnly(v, j);
    }
  }

  // ---------- items ----------

  /** The service has this type, by its name on the bus or by its short name. */
  predicate OfType(service: string, t: string) {
    || service == t || service == "com.victronenergy." + t
    || (StartsWith(service, "com.victronenergy." + t + "."))
  }

  /** The pin code and the access point password. */
  predicate Secret(service: string, path: string) {
    && OfType(service, "settings")
    && (path == "/Settings/Ble/Service/Pincode" || path == "/Settings/Services/AccessPointPassword")
  }

  predicate NeverSent(service: string, path: string) {
    || (OfType(service, "vebus") && path == "/Interfaces/Mk2/Tunnel")
    || (OfType(service, "paygo") && path == "/LVD/Threshold")
  }

  predicate KeptRetained(service: string, path: string) {
    OfType(service, "system") && path == "/Serial"
  }

  /** d is the document of these values: a value, and a minimum and a maximum exactly when defined. */
  ghost predicate Describes(d: Json, v: ValueMinMax, secret: bool) {
    && d.JObj?
    && (forall k: string :: k in d.o <==> k == "value" || (k == "min" && v.min != Unknown) || (k == "max" && v.max != Unknown))
    && (if secret && v.value.Str? then d.o["value"] == JStr("******") else Denotes(d.o["value"], v.value))
    && (v.min != Unknown ==> Denotes(d.o["min"], v.min))
    && (v.max != Unknown ==> Denotes(d.o["max"], v.max))
  }

  predicate ValueRenders(v: ValueMinMax) {
    Renderable(v.value) && Renderable(v.min) && Renderable(v.max)
  }

  lemma MaskedJson(v: Variant, mask: bool)
    ensures AsJson(v, mask) == if mask && v.Str? then Some(JStr("******")) else AsJson(v, false)
  {}

  /** What a rendering that exists holds under each key. */
  lemma RenderingHolds(i: Item)
    ensures Rendering(i).Some? <==> ValueRenders(i.value)
    ensures Rendering(i).Some? ==>
      var d := Rendering(i).value;
      && d.JObj?
      && (forall k: string :: k in d.o <==> k == "value" || (k == "min" && Defined(i.value.min)) || (k == "max" && Defined(i.value.max)))
      && Some(d.o["value"]) == AsJson(i.value.value, Masked(i))
      && (Defined(i.value.min) ==> Some(d.o["min"]) == AsJson(i.value.min, false))
      && (Defined(i.value.max) ==> Some(d.o["max"]) == AsJson(i.value.max, false))
  {
    HasJsonIff(i.value.value);
    HasJsonIff(i.value.min);
    HasJsonIff(i.value.max);
    MaskedJson(i.value.value, Masked(i));
  }

  /** Main result: the rendering of an item is the one document of its values, and exists exactly when all keys in them are text. */
  lemma RenderingDescribes(i: Item, d: Json)
    ensures Rendering(i) == Some(d) <==> Describes(d, i.value, Masked(i))
    ensures Rendering(i).Some? <==> ValueRenders(i.value)
  {
    RenderingHolds(i);
    MaskedJson(i.value.value, Masked(i));
    if Rendering(i).Some? {
      MembersDenote(i, Rendering(i).value);
    }
    if Describes(d, i.value, Masked(i)) {
      MembersDenote(i, d);
      HasJsonIff(i.value.value);
      HasJsonIff(i.value.min);
      HasJsonIff(i.value.max);
      assert Rendering(i).value.o == d.o;
    }
  }

  lemma MembersDenote(i: Item, d: Json)
    requires d.JObj? && "value" in d.o && (Defined(i.value.min) ==> "min" in d.o) && (Defined(i.value.max) ==> "max" in d.o)
    ensures AsJson(i.value.value, false) == Some(d.o["value"]) <==> Denotes(d.o["value"], i.value.value)
    ensures Defined(i.value.min) ==> (AsJson(i.value.min, false) == Some(d.o["min"]) <==> Denotes(d.o["min"], i.value.min))
    ensures Defined(i.value.max) ==> (AsJson(i.value.max, false) == Some(d.o["max"]) <==> Denotes(d.o["max"], i.value.max))
  {
    AsJsonDenotes(i.value.value, d.o["value"]);
    if Defined(i.value.min) {
      AsJsonDenotes(i.value.min, d.o["min"]);
    }
    if Defined(i.value.max) {
      AsJsonDenotes(i.value.max, d.o["max"]);
    }
  }

  // ---------- which items ----------

  /** A name on the bus, or a short name, has exactly one type. */
  lemma ShortIffOfType(service: string, t: string)
    requires '.' !in t && '/' !in t
    ensures MakeShort(service) == Some(t) <==> OfType(service, t)
  {
    var p := VICTRON_PREFIX;
    assert p[3] == '.' && p[|p| - 1] == '.';
    if StartsWith(service, p) {
      var e := FindFrom(service, '.', |p|);
      FindFromIsFirst(service, '.', |p|);
      assert service == p + service[|p|..];
      if OfType(service, t) {
        assert service != t by { assert service[3] == '.'; }
        assert forall k | 0 <= k < |t| :: service[|p| + k] == t[k];
        assert service[|p|..|p| + |t|] == t;
        if service == p + t {
          assert e == |service|;
        } else {
          assert service[|p| + |t|] == (p + t + ".")[|p| + |t|] == '.';
          assert e == |p| + |t|;
        }
      }
    }
  }

  /** Which items are masked, never sent or retained, by the names they are stored under. */
  lemma ByName(i: Item, vrmId: string, service: string, instance: string, path: string)
    requires Identified(i, vrmId, service, instance, path)
    ensures Masked(i) <==> Secret(service, path)
    ensures Blocked(i) <==> NeverSent(service, path)
    ensures Retained(i) <==> KeptRetained(service, path)
  {
    ShortIffOfType(service, "settings");
    ShortIffOfType(service, "vebus");
    ShortIffOfType(service, "paygo");
    ShortIffOfType(service, "system");
  }

  /** What subscribers see of these values: their document on the item's topic, retained or masked by the names. */
  ghost predicate Sees(m: Publication, vrmId: string, name: ShortName, s: string, p: string, v: ValueMinMax) {
    && m.topic == "N/" + vrmId + "/" + name.serviceType + "/" + name.instance + p
    && m.payload.Some? && Describes(m.payload.value, v, Secret(s, p))
    && (m.retain <==> KeptRetained(s, p))
  }
}

/**
 VeVariant (src/vevariant.cpp): a value read from D-Bus or built from JSON, rendered back to
 JSON, given a D-Bus signature and marshalled. A double is a real; JSON text is not modelled,
 only the document it denotes.
 */
module Variants {
  import opened Wrappers

  datatype Json =
    | JNull
    | JBool(b: bool)
    | JInt(n: int)
    | JFloat(r: real)
    | JStr(s: string)
    | JArr(a: seq<Json>)
    | JObj(o: map<string, Json>)

  /**
   NullArray is the array type with a null pointer behind it. `contained` is the stored
   signature text of the elements. Unknown is the default-constructed, undefined value.
   */
  datatype Variant =
    | Unknown
    | Int16(n: int)
    | Int32(n: int)
    | Int64(n: int)
    | Byte(n: int)
    | UInt16(n: int)
    | UInt32(n: int)
    | UInt64(n: int)
    | Str(s: string)
    | Double(d: real)
    | Boolean(bits: nat)
    | NullArray(contained: string)
    | Array(arr: seq<Variant>, contained: string)
    | Dict(entries: seq<Entry>, contained: string)

  datatype Entry = Entry(key: Variant, val: Variant)

  datatype VariantError = UnsupportedObject | MixedArray | UnknownType | NotMarshallable

  const INT32_MAX := 0x7FFF_FFFF
  const INT32_MIN := -0x8000_0000
  const INT64_MAX := 0x7FFF_FFFF_FFFF_FFFF
  const INT64_MIN := -0x8000_0000_0000_0000
  const TWO_TO_64 := 0x1_0000_0000_0000_0000

  const NULL_ELEMENT_TYPE := "i"
  const EMPTY_ELEMENT_TYPE := "u"

  predicate Defined(v: Variant) {
    !v.Unknown?
  }

  /** The conversion of a JSON number to a signed 64-bit integer; one out of range wraps. */
  function WrapInt64(n: int): int {
    (n - INT64_MIN) % TWO_TO_64 + INT64_MIN
  }

  /** The D-Bus type code; a dictionary reports the array code, Unknown the invalid code. */
  function TypeCode(v: Variant): char {
    match v
    case Unknown => '\0'
    case Int16(_) => 'n'
    case Int32(_) => 'i'
    case Int64(_) => 'x'
    case Byte(_) => 'y'
    case UInt16(_) => 'q'
    case UInt32(_) => 'u'
    case UInt64(_) => 't'
    case Str(_) => 's'
    case Double(_) => 'd'
    case Boolean(_) => 'b'
    case NullArray(_) => 'a'
    case Array(_, _) => 'a'
    case Dict(_, _) => 'a'
  }

  /** as_int for a 32-bit int: integers wrap, doubles lose their fraction, all else is 0. */
  function AsInt32(v: Variant): int {
    match v
    case Double(d) => WrapInt32(if d < 0.0 then -((-d).Floor) else d.Floor)
    case Boolean(bits) => WrapInt32(bits)
    case Unknown => 0
    case Str(_) => 0
    case NullArray(_) => 0
    case Array(_, _) => 0
    case Dict(_, _) => 0
    case _ => WrapInt32(v.n)
  }

  function WrapInt32(n: int): int {
    (n - INT32_MIN) % 0x1_0000_0000 + INT32_MIN
  }

  /** Wrapping keeps the number modulo 2^64 or 2^32 and leaves what fits. */
  lemma WrapsModulo(n: int)
    ensures -0x8000_0000_0000_0000 <= WrapInt64(n) < 0x8000_0000_0000_0000 && (WrapInt64(n) - n) % 0x1_0000_0000_0000_0000 == 0
    ensures -0x8000_0000 <= WrapInt32(n) < 0x8000_0000 && (WrapInt32(n) - n) % 0x1_0000_0000 == 0
  {}

  // ---------- from JSON ----------

  function FromJson(j: Json): Result<Variant, VariantError>
    decreases j, if j.JArr? then |j.a| + 1 else 0
  {
    match j
    case JInt(n) =>
      var v := WrapInt64(n);
      Success(if v > INT32_MAX || v < INT32_MIN then Int64(v) else Int32(v))
    case JStr(s) => Success(Str(s))
    case JFloat(r) => Success(Double(r))
    case JBool(b) => Success(Boolean(if b then 1 else 0))
    case JArr(a) =>
      (match FromElements(j, |a|)
       case Failure(e) => Failure(e)
       case Success(vs) => Success(Array(vs, ElementType(vs))))
    case JObj(_) => Failure(UnsupportedObject)
    case JNull => Success(Array([], NULL_ELEMENT_TYPE))
  }

  /** The first n elements of an array; an element must have the type code of the one before it. */
  function FromElements(j: Json, n: nat): (r: Result<seq<Variant>, VariantError>)
    requires j.JArr? && n <= |j.a|
    ensures r.Success? ==> |r.value| == n
    decreases j, n
  {
    if n == 0 then Success([])
    else
      match FromElements(j, n - 1)
      case Failure(e) => Failure(e)
      case Success(vs) =>
        match FromJson(j.a[n - 1])
        case Failure(e) => Failure(e)
        case Success(v) =>
          if n > 1 && TypeCode(vs[n - 2]) != TypeCode(v) then Failure(MixedArray) else Success(vs + [v])
  }

  /** The type recorded for the elements: that of the last one, which is that of every one. */
  function ElementType(vs: seq<Variant>): string {
    if vs == [] then EMPTY_ELEMENT_TYPE else [TypeCode(vs[|vs| - 1])]
  }

  method ConstructFromJson(j: Json) returns (r: Result<Variant, VariantError>)
    ensures r == FromJson(j)
    decreases j
  {
    match j
    case JArr(a) =>
      var vs: seq<Variant> := [];
      var contained := EMPTY_ELEMENT_TYPE;
      var lastType := '\0';
      for i := 0 to |a|
        invariant FromElements(j, i) == Success(vs)
        invariant contained == ElementType(vs)
        invariant i > 0 ==> lastType == TypeCode(vs[i - 1])
        invariant forall k: nat | k < i :: FromElements(j, k).Success?
      {
        var v := ConstructFromJson(a[i]);
        if v.Failure? {
          FirstFailureWins(j, i + 1, |a|);
          return Failure(v.error);
        }
        if i > 0 && lastType != TypeCode(v.value) {
          FirstFailureWins(j, i + 1, |a|);
          return Failure(MixedArray);
        }
        vs := vs + [v.value];
        contained := [TypeCode(v.value)];
        lastType := TypeCode(v.value);
      }
      r := Success(Array(vs, contained));
    case _ =>
      r := FromJson(j);
  }

  lemma {:induction false} FirstFailureWins(j: Json, m: nat, n: nat)
    requires j.JArr? && m <= n <= |j.a| && FromElements(j, m).Failure?
    ensures FromElements(j, n) == FromElements(j, m)
    decreases n
  {
    if m < n {
      FirstFailureWins(j, m, n - 1);
    }
  }

  // ---------- to JSON ----------

  /** None stands for the exception thrown on a dictionary key that is not a string. */
  function AsJson(v: Variant, mask: bool): Option<Json>
    decreases v, if v.Array? then |v.arr| + 2 else if v.Dict? then |v.entries| + 2 else 0
  {
    match v
    case Unknown => Some(JStr("unknown_type"))
    case Str(s) => Some(JStr(if mask then "******" else s))
    case Double(d) => Some(JFloat(d))
    case Boolean(bits) => Some(JBool(bits != 0))
    case NullArray(_) => Some(JNull)
    case Array(arr, _) =>
      if arr == [] then Some(JNull)
      else (match ElementsAsJson(v, |arr|)
            case None => None
            case Some(js) => Some(JArr(js)))
    case Dict(entries, _) =>
      (match EntriesAsJson(v, |entries|)
       case None => None
       case Some(o) => Some(JObj(o)))
    case _ => Some(JInt(v.n))
  }

  function ElementsAsJson(v: Variant, n: nat): (r: Option<seq<Json>>)
    requires v.Array? && n <= |v.arr|
    ensures r.Some? ==> |r.value| == n
    decreases v, n + 1
  {
    if n == 0 then Some([])
    else match (ElementsAsJson(v, n - 1), AsJson(v.arr[n - 1], false))
         case (Some(js), Some(j)) => Some(js + [j])
         case _ => None
  }

  function EntriesAsJson(v: Variant, n: nat): Option<map<string, Json>>
    requires v.Dict? && n <= |v.entries|
    decreases v, n + 1
  {
    if n == 0 then Some(map[])
    else
      var e := v.entries[n - 1];
      match (EntriesAsJson(v, n - 1), AsJson(e.val, false))
      case (Some(o), Some(j)) => if e.key.Str? then Some(o[e.key.s := j]) else None
      case _ => None
  }

  // ---------- round trip ----------

  /** The type code the constructor will give, read off the JSON. */
  function JsonCode(j: Json): char {
    match j
    case JInt(n) =>
      var v := WrapInt64(n);
      if v > INT32_MAX || v < INT32_MIN then 'x' else 'i'
    case JStr(_) => 's'
    case JFloat(_) => 'd'
    case JBool(_) => 'b'
    case JArr(_) => 'a'
    case JNull => 'a'
    case JObj(_) => '\0'
  }

  /** No object at any depth, and the elements of every array share one D-Bus type code. */
  predicate Acceptable(j: Json) {
    match j
    case JObj(_) => false
    case JArr(a) =>
      && (forall i | 0 <= i < |a| :: Acceptable(a[i]))
      && (forall i | 0 <= i < |a| :: JsonCode(a[i]) == JsonCode(a[0]))
    case _ => true
  }

  /** The document rendered back: empty arrays are null, oversized unsigned integers have wrapped. */
  function Normal(j: Json): Json {
    match j
    case JArr(a) => if a == [] then JNull else JArr(seq(|a|, i requires 0 <= i < |a| => Normal(a[i])))
    case JInt(n) => JInt(WrapInt64(n))
    case _ => j
  }

  /** Only empty arrays replaced. */
  function EmptyAsNull(j: Json): Json {
    match j
    case JArr(a) => if a == [] then JNull else JArr(seq(|a|, i requires 0 <= i < |a| => EmptyAsNull(a[i])))
    case _ => j
  }

  predicate FitsInt64(j: Json) {
    match j
    case JInt(n) => INT64_MIN <= n <= INT64_MAX
    case JArr(a) => forall i | 0 <= i < |a| :: FitsInt64(a[i])
    case _ => true
  }

  /** The constructor accepts exactly the acceptable documents, and keeps their type code. */
  lemma {:induction false} AcceptsExactly(j: Json)
    ensures FromJson(j).Success? <==> Acceptable(j)
    ensures FromJson(j).Success? ==> TypeCode(FromJson(j).value) == JsonCode(j)
    decreases j, 1
  {
    if j.JArr? {
      AcceptsElements(j, |j.a|);
    }
  }

  lemma {:induction false} AcceptsElements(j: Json, n: nat)
    requires j.JArr? && n <= |j.a|
    ensures FromElements(j, n).Success?
       <==> && (forall i | 0 <= i < n :: Acceptable(j.a[i]))
            && (forall i | 0 <= i < n :: JsonCode(j.a[i]) == JsonCode(j.a[0]))
    ensures FromElements(j, n).Success? ==>
      forall i | 0 <= i < n :: TypeCode(FromElements(j, n).value[i]) == JsonCode(j.a[i])
    decreases j, 0, n
  {
    if n > 0 {
      AcceptsElements(j, n - 1);
      AcceptsExactly(j.a[n - 1]);
    }
  }

  /** What an accepted document comes back as. */
  lemma {:induction false} RoundTrip(j: Json)
    requires Acceptable(j)
    ensures FromJson(j).Success? && AsJson(FromJson(j).value, false) == Some(Normal(j))
    decreases j, 1
  {
    AcceptsExactly(j);
    if j.JArr? && j.a != [] {
      RoundTripElements(j, |j.a|);
      var v := FromJson(j).value;
      assert ElementsAsJson(v, |v.arr|).value == Normal(j).a;
    }
  }

  lemma {:induction false} RoundTripElements(j: Json, n: nat)
    requires j.JArr? && Acceptable(j) && n <= |j.a| && FromJson(j).Success?
    ensures ElementsAsJson(FromJson(j).value, n).Some?
    ensures forall i | 0 <= i < n :: ElementsAsJson(FromJson(j).value, n).value[i] == Normal(j.a[i])
    decreases j, 0, n
  {
    if n > 0 {
      RoundTripElements(j, n - 1);
      RoundTrip(j.a[n - 1]);
      BuiltElement(j, |j.a|, n - 1);
    }
  }

  lemma {:induction false} BuiltElement(j: Json, n: nat, i: nat)
    requires j.JArr? && i < n <= |j.a| && FromElements(j, n).Success?
    ensures FromJson(j.a[i]) == Success(FromElements(j, n).value[i])
    decreases n
  {
    if i < n - 1 {
      BuiltElement(j, n - 1, i);
    }
  }

  /** Only empty arrays change exactly when every integer fits in 64 signed bits. */
  lemma {:induction false} NormalOnlyEmptiesIffFits(j: Json)
    ensures Normal(j) == EmptyAsNull(j) <==> FitsInt64(j)
  {
    if j.JArr? && j.a != [] {
      forall i | 0 <= i < |j.a| ensures Normal(j.a[i]) == EmptyAsNull(j.a[i]) <==> FitsInt64(j.a[i]) {
        NormalOnlyEmptiesIffFits(j.a[i]);
      }
      if Normal(j) == EmptyAsNull(j) {
        forall i | 0 <= i < |j.a| ensures FitsInt64(j.a[i]) {
          assert Normal(j).a[i] == EmptyAsNull(j).a[i];
        }
      } else {
        assert Normal(j).a != EmptyAsNull(j).a;
      }
    }
  }

  /** 2^63 is accepted and comes back negative. */
  lemma OversizedIntegerWraps()
    ensures FromJson(JInt(INT64_MAX + 1)) == Success(Int64(INT64_MIN))
    ensures AsJson(Int64(INT64_MIN), false) == Some(JInt(INT64_MIN))
  {}

  /** A rendered document renders as itself. */
  lemma {:induction false} NormalIsFixed(j: Json)
    ensures Normal(Normal(j)) == Normal(j)
  {
    if j.JArr? && j.a != [] {
      forall i | 0 <= i < |j.a| ensures Normal(Normal(j.a[i])) == Normal(j.a[i]) {
        NormalIsFixed(j.a[i]);
      }
      assert Normal(Normal(j)).a == Normal(j).a;
    }
  }
}

/**
 D-Bus signatures of variants and their marshalling (src/vevariant.cpp), against the type
 system of the D-Bus Specification, section "Type System": a single complete type is a basic
 code, or 'a' followed by a single complete type.
 */
module Signatures {
  import opened Wrappers
  import opened Variants

  /** A single complete type, for the container type the constructor can build. */
  datatype Ty = Basic(code: char) | ArrayOf(elem: Ty)

  /** The memory a scalar is appended from. */
  datatype Datum = Whole(n: int) | Real(d: real) | Characters(s: string)

  /** What the message writer is asked to do, in order. */
  datatype Token = Put(code: char, datum: Datum) | Open(elementSignature: string) | Close

  const BASIC_CODES := "ybnqiuxtdsogh"

  function TyText(t: Ty): string {
    match t
    case Basic(c) => [c]
    case ArrayOf(e) => "a" + TyText(e)
  }

  predicate ValidTy(t: Ty) {
    match t
    case Basic(c) => c in BASIC_CODES
    case ArrayOf(e) => ValidTy(e)
  }

  /** A reader of signatures: one complete type from the front of the text, and what is left. */
  function ReadTy(s: string): Option<(Ty, string)> {
    if s == "" then None
    else if s[0] == 'a' then
      match ReadTy(s[1..])
      case Some((t, rest)) => Some((ArrayOf(t), rest))
      case None => None
    else if s[0] in BASIC_CODES then Some((Basic(s[0]), s[1..]))
    else None
  }

  /** The signature text of the contained elements; empty for anything but an array. */
  function ContainedText(v: Variant): string {
    match v
    case NullArray(c) => c
    case Array(arr, c) => if arr == [] then c else c + ContainedText(arr[0])
    case Dict(_, c) => c
    case _ => ""
  }

  /** The recursive signature; Unknown has none. */
  function SignatureText(v: Variant): Result<string, VariantError> {
    match v
    case Unknown => Failure(UnknownType)
    case NullArray(_) => Success("a" + ContainedText(v))
    case Array(_, _) => Success("a" + ContainedText(v))
    case _ => Success([TypeCode(v)])
  }

  predicate Scalar(v: Variant) {
    !v.Unknown? && !v.NullArray? && !v.Array? && !v.Dict?
  }

  function DatumOf(v: Variant): Datum
    requires Scalar(v)
  {
    match v
    case Int16(n) => Whole(n)
    case Int32(n) => Whole(n)
    case Int64(n) => Whole(n)
    case Byte(n) => Whole(n)
    case UInt16(n) => Whole(n)
    case UInt32(n) => Whole(n)
    case UInt64(n) => Whole(n)
    case Boolean(bits) => Whole(bits)
    case Double(d) => Real(d)
    case Str(s) => Characters(s)
  }

  /** What append_args_to_dbus_message makes the writer do. */
  function Marshal(v: Variant): Result<seq<Token>, VariantError>
    decreases v, if v.Array? then |v.arr| + 2 else 0
  {
    match v
    case Unknown => Failure(NotMarshallable)
    case Dict(_, _) => Failure(NotMarshallable)
    case NullArray(_) => Success([Open(EMPTY_ELEMENT_TYPE), Close])
    case Array(arr, _) =>
      (match MarshalElements(v, |arr|)
       case Failure(e) => Failure(e)
       case Success(ts) => Success([Open(ContainedText(v))] + ts + [Close]))
    case _ => Success([Put(TypeCode(v), DatumOf(v))])
  }

  function MarshalElements(v: Variant, n: nat): Result<seq<Token>, VariantError>
    requires v.Array? && n <= |v.arr|
    decreases v, n + 1
  {
    if n == 0 then Success([])
    else
      match MarshalElements(v, n - 1)
      case Failure(e) => Failure(e)
      case Success(ts) =>
        if n > 1 && TypeCode(v.arr[n - 1]) != TypeCode(v.arr[n - 2]) then Failure(MixedArray)
        else match Marshal(v.arr[n - 1])
             case Failure(e) => Failure(e)
             case Success(es) => Success(ts + es)
  }

  method AppendArgs(v: Variant) returns (r: Result<seq<Token>, VariantError>)
    ensures r == Marshal(v)
    decreases v
  {
    match v
    case Array(arr, _) =>
      var ts: seq<Token> := [];
      var lastType := '\0';
      for i := 0 to |arr|
        invariant MarshalElements(v, i) == Success(ts)
        invariant i > 0 ==> lastType == TypeCode(arr[i - 1])
      {
        if i > 0 && TypeCode(arr[i]) != lastType {
          FirstMarshalFailureWins(v, i + 1, |arr|);
          return Failure(MixedArray);
        }
        var es := AppendArgs(arr[i]);
        if es.Failure? {
          FirstMarshalFailureWins(v, i + 1, |arr|);
          return Failure(es.error);
        }
        ts := ts + es.value;
        lastType := TypeCode(arr[i]);
      }
      r := Success([Open(ContainedText(v))] + ts + [Close]);
    case _ =>
      r := Marshal(v);
  }

  lemma {:induction false} FirstMarshalFailureWins(v: Variant, m: nat, n: nat)
    requires v.Array? && m <= n <= |v.arr| && MarshalElements(v, m).Failure?
    ensures MarshalElements(v, n) == MarshalElements(v, m)
    decreases n
  {
    if m < n {
      FirstMarshalFailureWins(v, m, n - 1);
    }
  }

  // ---------- the type of a variant ----------

  /** A scalar, or an array whose elements have one type code, recorded as their type. */
  predicate Typable(v: Variant) {
    if v.Array? then
      && (forall i | 0 <= i < |v.arr| :: Typable(v.arr[i]) && TypeCode(v.arr[i]) == TypeCode(v.arr[0]))
      && (if v.arr == [] then |v.contained| == 1 && v.contained[0] in BASIC_CODES else v.contained == [TypeCode(v.arr[0])])
    else Scalar(v)
  }

  /** Exactly the variants the JSON constructor builds; see BuiltFromJson. */
  predicate JsonBuilt(v: Variant) {
    match v
    case Str(_) => true
    case Double(_) => true
    case Boolean(bits) => bits <= 1
    case Int32(n) => INT32_MIN <= n <= INT32_MAX
    case Int64(n) => INT64_MIN <= n < INT32_MIN || INT32_MAX < n <= INT64_MAX
    case Array(arr, c) =>
      && (forall i | 0 <= i < |arr| :: JsonBuilt(arr[i]) && TypeCode(arr[i]) == TypeCode(arr[0]))
      && (if arr == [] then c == "i" || c == "u" else c == [TypeCode(arr[0])])
    case _ => false
  }

  lemma {:induction false} BuiltIsTypable(v: Variant)
    requires JsonBuilt(v)
    ensures Typable(v)
  {
    if v.Array? {
      forall i | 0 <= i < |v.arr| ensures Typable(v.arr[i]) {
        BuiltIsTypable(v.arr[i]);
      }
    }
  }

  lemma {:induction false} BuiltFromJson(j: Json)
    ensures FromJson(j).Success? ==> JsonBuilt(FromJson(j).value)
    ensures j.JNull? ==> SignatureText(FromJson(j).value) == Success("ai")
    ensures j == JArr([]) ==> SignatureText(FromJson(j).value) == Success("au")
    decreases j, 1
  {
    if j.JArr? && FromJson(j).Success? {
      BuiltElements(j, |j.a|);
    }
    assert "a" + "i" == "ai" && "a" + "u" == "au";
  }

  lemma {:induction false} BuiltElements(j: Json, n: nat)
    requires j.JArr? && n <= |j.a| && FromElements(j, n).Success?
    ensures var vs := FromElements(j, n).value;
      forall i | 0 <= i < n :: JsonBuilt(vs[i]) && TypeCode(vs[i]) == TypeCode(vs[0])
    decreases j, 0, n
  {
    if n > 0 {
      BuiltElements(j, n - 1);
      BuiltFromJson(j.a[n - 1]);
    }
  }

  /** The type announced for a variant: that of its first element, all the way down. */
  function TyOf(v: Variant): Ty {
    if v.Array? then
      ArrayOf(if v.arr != [] then TyOf(v.arr[0]) else if v.contained != "" then Basic(v.contained[0]) else Basic('u'))
    else Basic(TypeCode(v))
  }

  /** All elements of every array, at any depth, have the same announced type. */
  predicate Uniform(v: Variant) {
    v.Array? ==> forall i | 0 <= i < |v.arr| :: Uniform(v.arr[i]) && TyOf(v.arr[i]) == TyOf(v.arr[0])
  }

  /** The recursive signature is the text of one complete type, 'a' before that of the first element. */
  lemma {:induction false} SignatureIsCompleteType(v: Variant)
    requires Typable(v)
    ensures ValidTy(TyOf(v)) && SignatureText(v) == Success(TyText(TyOf(v)))
    ensures ReadTy(TyText(TyOf(v))) == Some((TyOf(v), ""))
    ensures v.Array? && v.arr != [] ==>
      SignatureText(v.arr[0]).Success? && SignatureText(v).value == "a" + SignatureText(v.arr[0]).value
  {
    SignatureOfBuilt(v);
    ReadTyOfText(TyOf(v), "");
    assert TyText(TyOf(v)) + "" == TyText(TyOf(v));
    if v.Array? && v.arr != [] {
      SignatureOfBuilt(v.arr[0]);
    }
  }

  lemma {:induction false} SignatureOfBuilt(v: Variant)
    requires Typable(v)
    ensures ValidTy(TyOf(v)) && SignatureText(v) == Success(TyText(TyOf(v)))
    ensures v.Array? ==> TyText(TyOf(v)) == "a" + ContainedText(v)
  {
    if v.Array? && v.arr == [] {
      assert v.contained == [v.contained[0]];
    }
    if v.Array? && v.arr != [] {
      SignatureOfBuilt(v.arr[0]);
      var f := v.arr[0];
      if !f.Array? {
        assert ContainedText(v) == [TypeCode(f)];
      }
    }
  }

  lemma {:induction false} ReadTyOfText(t: Ty, rest: string)
    requires ValidTy(t)
    ensures ReadTy(TyText(t) + rest) == Some((t, rest))
  {
    match t
    case Basic(c) =>
      assert (TyText(t) + rest)[1..] == rest;
    case ArrayOf(e) =>
      ReadTyOfText(e, rest);
      assert (TyText(t) + rest)[1..] == TyText(e) + rest;
  }

  // ---------- reading a marshalled stream by its announced type ----------

  /** The variant a reader makes of a basic value of this type; codes as in the D-Bus Specification, "Basic types". */
  function Rebuilt(code: char, datum: Datum): Option<Variant> {
    match datum
    case Characters(s) => if code == 's' then Some(Str(s)) else None
    case Real(d) => if code == 'd' then Some(Double(d)) else None
    case Whole(n) =>
      if code == 'y' then Some(Byte(n))
      else if code == 'b' then (if n >= 0 then Some(Boolean(n)) else None)
      else if code == 'n' then Some(Int16(n))
      else if code == 'q' then Some(UInt16(n))
      else if code == 'i' then Some(Int32(n))
      else if code == 'u' then Some(UInt32(n))
      else if code == 'x' then Some(Int64(n))
      else if code == 't' then Some(UInt64(n))
      else None
  }

  /** One value of type t from the front of the stream; None when the stream is not of that type. */
  function ReadValue(t: Ty, ts: seq<Token>): (r: Option<(Variant, seq<Token>)>)
    ensures r.Some? ==> |r.value.1| < |ts|
    decreases |ts|, 0
  {
    if ts == [] then None
    else match t
      case Basic(c) =>
        if !ts[0].Put? || ts[0].code != c then None
        else (match Rebuilt(c, ts[0].datum)
              case None => None
              case Some(v) => Some((v, ts[1..])))
      case ArrayOf(e) =>
        if ts[0] != Open(TyText(e)) then None
        else (match ReadElements(e, ts[1..])
              case None => None
              case Some((vs, rest)) => Some((Array(vs, TyText(e)[..1]), rest)))
  }

  function ReadElements(t: Ty, ts: seq<Token>): (r: Option<(seq<Variant>, seq<Token>)>)
    ensures r.Some? ==> |r.value.1| < |ts|
    decreases |ts|, 1
  {
    if ts == [] then None
    else if ts[0] == Close then Some(([], ts[1..]))
    else match ReadValue(t, ts)
         case None => None
         case Some((v, rest)) => Preceded([v], ReadElements(t, rest))
  }

  /** What was read before and what is read now. */
  function Preceded(vs: seq<Variant>, r: Option<(seq<Variant>, seq<Token>)>): Option<(seq<Variant>, seq<Token>)> {
    match r
    case None => None
    case Some((ws, rest)) => Some((vs + ws, rest))
  }

  lemma PrecededTwice(a: seq<Variant>, b: seq<Variant>, r: Option<(seq<Variant>, seq<Token>)>)
    ensures Preceded(a, Preceded(b, r)) == Preceded(a + b, r)
  {
    if r.Some? {
      assert a + (b + r.value.0) == a + b + r.value.0;
    }
  }

  lemma PrecededByNothing(r: Option<(seq<Variant>, seq<Token>)>)
    ensures Preceded([], r) == r
  {
    if r.Some? {
      assert [] + r.value.0 == r.value.0;
    }
  }

  /**
   Main result: marshalling a typable variant never throws, and a reader that goes by the
   announced signature reads back the very variant if it is uniform, and fails if it is not.
   */
  lemma {:induction false} MarshalledAsAnnouncedIffUniform(v: Variant)
    requires Typable(v)
    ensures Marshal(v).Success?
    ensures ReadValue(TyOf(v), Marshal(v).value) == if Uniform(v) then Some((v, [])) else None
  {
    ReadMarshalled(TyOf(v), v, []);
    assert Marshal(v).value + [] == Marshal(v).value;
    TypedIffUniform(v);
  }

  /** v is a value of type t, with every container announcing its elements as t does. */
  predicate Typed(v: Variant, t: Ty) {
    if v.Array? then
      && t.ArrayOf? && ContainedText(v) == TyText(t.elem)
      && forall i | 0 <= i < |v.arr| :: Typed(v.arr[i], t.elem)
    else t == Basic(TypeCode(v))
  }

  lemma {:induction false} TypedIffUniform(v: Variant)
    requires Typable(v)
    ensures Typed(v, TyOf(v)) <==> Uniform(v)
  {
    if v.Array? {
      SignatureOfBuilt(v);
      forall i | 0 <= i < |v.arr|
        ensures Typed(v.arr[i], TyOf(v.arr[0])) <==> Uniform(v.arr[i]) && TyOf(v.arr[i]) == TyOf(v.arr[0])
      {
        TypedIffUniform(v.arr[i]);
        if Typed(v.arr[i], TyOf(v.arr[0])) {
          TypedHasOneType(v.arr[i], TyOf(v.arr[0]));
        }
      }
    }
  }

  lemma {:induction false} TypedHasOneType(v: Variant, t: Ty)
    requires Typable(v) && Typed(v, t) && ValidTy(t)
    ensures TyOf(v) == t
  {
    if v.Array? {
      SignatureOfBuilt(v);
      assert TyText(TyOf(v).elem) == TyText(TyOf(v))[1..] == ContainedText(v);
      TextIsInjective(TyOf(v).elem, t.elem);
    }
  }

  lemma {:induction false} TextIsInjective(t: Ty, u: Ty)
    requires ValidTy(t) && ValidTy(u) && TyText(t) == TyText(u)
    ensures t == u
  {
    ReadTyOfText(t, "");
    ReadTyOfText(u, "");
    assert TyText(t) + "" == TyText(t);
  }

  lemma ContainedIsFirst(v: Variant)
    requires Typable(v) && v.Array?
    ensures ContainedText(v) != "" && ContainedText(v)[..1] == v.contained
  {}

  lemma {:induction false} ReadMarshalled(t: Ty, v: Variant, rest: seq<Token>)
    requires Typable(v)
    ensures Marshal(v).Success?
    ensures Marshal(v).value != [] && Marshal(v).value[0] != Close
    ensures ReadValue(t, Marshal(v).value + rest) == if Typed(v, t) then Some((v, rest)) else None
    decreases v, 2
  {
    if v.Array? {
      MarshalElementsSucceeds(v, |v.arr|);
      var ts := MarshalElements(v, |v.arr|).value;
      assert Marshal(v).value + rest == [Open(ContainedText(v))] + (ts + ([Close] + rest));
      assert (Marshal(v).value + rest)[1..] == ts + ([Close] + rest);
      if t.ArrayOf? && ContainedText(v) == TyText(t.elem) {
        ReadMarshalledElements(t.elem, v, |v.arr|, [Close] + rest);
        FirstTypedMeansAll(v, |v.arr|, t.elem);
        ContainedIsFirst(v);
        assert ([Close] + rest)[1..] == rest;
        assert v.arr[..|v.arr|] + [] == v.arr;
      }
    } else {
      assert (Marshal(v).value + rest)[1..] == rest;
      assert Rebuilt(TypeCode(v), DatumOf(v)) == Some(v);
    }
  }

  lemma {:induction false} MarshalElementsSucceeds(v: Variant, n: nat)
    requires Typable(v) && v.Array? && n <= |v.arr|
    ensures MarshalElements(v, n).Success?
    decreases v, 0, n
  {
    if n > 0 {
      MarshalElementsSucceeds(v, n - 1);
      ReadMarshalled(TyOf(v.arr[n - 1]), v.arr[n - 1], []);
    }
  }

  predicate FirstTyped(v: Variant, n: nat, t: Ty)
    requires v.Array? && n <= |v.arr|
    decreases n
  {
    n == 0 || (FirstTyped(v, n - 1, t) && Typed(v.arr[n - 1], t))
  }

  lemma {:induction false} FirstTypedMeansAll(v: Variant, n: nat, t: Ty)
    requires v.Array? && n <= |v.arr|
    ensures FirstTyped(v, n, t) <==> forall i | 0 <= i < n :: Typed(v.arr[i], t)
    decreases n
  {
    if n > 0 {
      FirstTypedMeansAll(v, n - 1, t);
    }
  }

  /** Reading on from the elements either reads them and what follows, or has already failed. */
  lemma {:induction false} ReadMarshalledElements(t: Ty, v: Variant, n: nat, rest: seq<Token>)
    requires Typable(v) && v.Array? && n <= |v.arr|
    ensures MarshalElements(v, n).Success?
    ensures ReadElements(t, MarshalElements(v, n).value + rest)
         == if FirstTyped(v, n, t) then Preceded(v.arr[..n], ReadElements(t, rest)) else None
    decreases v, 1, n
  {
    MarshalElementsSucceeds(v, n);
    if n == 0 {
      assert MarshalElements(v, n).value + rest == rest;
      PrecededByNothing(ReadElements(t, rest));
    } else {
      MarshalElementsSucceeds(v, n - 1);
      ReadOneElement(t, v.arr[n - 1], rest);
      var es := Marshal(v.arr[n - 1]).value;
      ReadMarshalledElements(t, v, n - 1, es + rest);
      LastElement(t, v, n, rest);
    }
  }

  /** The stream of n elements is that of n - 1 and the last one, and so is what is read from it. */
  lemma LastElement(t: Ty, v: Variant, n: nat, rest: seq<Token>)
    requires v.Array? && 0 < n <= |v.arr| && MarshalElements(v, n).Success? && MarshalElements(v, n - 1).Success? && Marshal(v.arr[n - 1]).Success?
    requires var es := Marshal(v.arr[n - 1]).value;
      && ReadElements(t, es + rest) == (if Typed(v.arr[n - 1], t) then Preceded([v.arr[n - 1]], ReadElements(t, rest)) else None)
      && ReadElements(t, MarshalElements(v, n - 1).value + (es + rest))
      == if FirstTyped(v, n - 1, t) then Preceded(v.arr[..n - 1], ReadElements(t, es + rest)) else None
    ensures ReadElements(t, MarshalElements(v, n).value + rest)
         == if FirstTyped(v, n, t) then Preceded(v.arr[..n], ReadElements(t, rest)) else None
  {
    var before, es := MarshalElements(v, n - 1).value, Marshal(v.arr[n - 1]).value;
    assert MarshalElements(v, n).value + rest == before + (es + rest);
    PrecededTwice(v.arr[..n - 1], [v.arr[n - 1]], ReadElements(t, rest));
    assert v.arr[..n] == v.arr[..n - 1] + [v.arr[n - 1]];
  }

  lemma {:induction false} ReadOneElement(t: Ty, v: Variant, rest: seq<Token>)
    requires Typable(v)
    ensures Marshal(v).Success?
    ensures ReadElements(t, Marshal(v).value + rest) == if Typed(v, t) then Preceded([v], ReadElements(t, rest)) else None
    decreases v, 3
  {
    ReadMarshalled(t, v, rest);
    assert (Marshal(v).value + rest)[0] == Marshal(v).value[0];
  }

  /** An accepted document that is uniform arrives as the document it is rendered back as. */
  lemma WriteArrives(j: Json)
    requires Acceptable(j) && FromJson(j).Success? && Uniform(FromJson(j).value)
    ensures var v := FromJson(j).value;
      && SignatureText(v) == Success(TyText(TyOf(v))) && Marshal(v).Success?
      && var r := ReadValue(TyOf(v), Marshal(v).value);
      r.Some? && r.value.1 == [] && AsJson(r.value.0, false) == Some(Normal(j))
  {
    BuiltFromJson(j);
    BuiltIsTypable(FromJson(j).value);
    RoundTrip(j);
    SignatureOfBuilt(FromJson(j).value);
    MarshalledAsAnnouncedIffUniform(FromJson(j).value);
  }

  /** No undefined value or dictionary at any depth, and the elements of every array share one type code. */
  predicate Writable(v: Variant) {
    match v
    case Unknown => false
    case Dict(_, _) => false
    case Array(arr, _) => forall i | 0 <= i < |arr| :: Writable(arr[i]) && TypeCode(arr[i]) == TypeCode(arr[0])
    case _ => true
  }

  lemma {:induction false} MarshalsIff(v: Variant)
    ensures Marshal(v).Success? <==> Writable(v)
    decreases v, 2
  {
    if v.Array? {
      ElementsMarshalIff(v, |v.arr|);
    }
  }

  lemma {:induction false} ElementsMarshalIff(v: Variant, n: nat)
    requires v.Array? && n <= |v.arr|
    ensures MarshalElements(v, n).Success? <==> forall i | 0 <= i < n :: Writable(v.arr[i]) && TypeCode(v.arr[i]) == TypeCode(v.arr[0])
    decreases v, 1, n
  {
    if n > 0 {
      ElementsMarshalIff(v, n - 1);
      MarshalsIff(v.arr[n - 1]);
    }
  }

  // ---------- what is put, uniform or not ----------

  /** The scalars in a variant, in order. */
  function Leaves(v: Variant): seq<Variant>
    decreases v, if v.Array? then |v.arr| + 2 else 0
  {
    if v.Array? then LeavesOf(v, |v.arr|) else if v.NullArray? then [] else [v]
  }

  function LeavesOf(v: Variant, n: nat): seq<Variant>
    requires v.Array? && n <= |v.arr|
    decreases v, n + 1
  {
    if n == 0 then [] else LeavesOf(v, n - 1) + Leaves(v.arr[n - 1])
  }

  /** The values put on the stream, in order. */
  function Puts(ts: seq<Token>): seq<Option<Variant>> {
    if ts == [] then []
    else (if ts[0].Put? then [Rebuilt(ts[0].code, ts[0].datum)] else []) + Puts(ts[1..])
  }

  function AllRead(vs: seq<Variant>): seq<Option<Variant>> {
    seq(|vs|, i requires 0 <= i < |vs| => Some(vs[i]))
  }

  lemma {:induction false} PutsConcat(a: seq<Token>, b: seq<Token>)
    ensures Puts(a + b) == Puts(a) + Puts(b)
  {
    if a == [] {
      assert a + b == b;
    } else {
      PutsConcat(a[1..], b);
      assert (a + b)[1..] == a[1..] + b;
    }
  }

  /** Whether or not the stream keeps to its announcement, what is put are the scalars of the variant in order. */
  lemma {:induction false} PutsTheLeaves(v: Variant)
    requires Marshal(v).Success?
    ensures Puts(Marshal(v).value) == AllRead(Leaves(v))
    decreases v, 2
  {
    if v.Array? {
      PutsTheElements(v, |v.arr|);
      var ts := MarshalElements(v, |v.arr|).value;
      PutsConcat([Open(ContainedText(v))] + ts, [Close]);
      PutsConcat([Open(ContainedText(v))], ts);
    } else if v.NullArray? {
      assert Marshal(v).value == [Open(EMPTY_ELEMENT_TYPE)] + [Close];
      PutsConcat([Open(EMPTY_ELEMENT_TYPE)], [Close]);
      assert [Close][1..] == [] && [Open(EMPTY_ELEMENT_TYPE)][1..] == [];
    } else {
      assert Rebuilt(TypeCode(v), DatumOf(v)) == Some(v);
      assert [Put(TypeCode(v), DatumOf(v))][1..] == [];
    }
  }

  lemma {:induction false} PutsTheElements(v: Variant, n: nat)
    requires v.Array? && n <= |v.arr| && MarshalElements(v, n).Success?
    ensures Puts(MarshalElements(v, n).value) == AllRead(LeavesOf(v, n))
    decreases v, 1, n
  {
    if n > 0 {
      PutsTheElements(v, n - 1);
      PutsTheLeaves(v.arr[n - 1]);
      PutsConcat(MarshalElements(v, n - 1).value, Marshal(v.arr[n - 1]).value);
      assert AllRead(LeavesOf(v, n)) == AllRead(LeavesOf(v, n - 1)) + AllRead(Leaves(v.arr[n - 1]));
    }
  }

  /** The constructor accepts a document whose inner arrays differ in type; its stream breaks its announcement. */
  lemma MixedInnerArraysAreAnnouncedWrongly()
    ensures var j := JArr([JArr([]), JArr([JInt(1)])]);
      var v := Array([Array([], "u"), Array([Int32(1)], "i")], "a");
      && FromJson(j) == Success(v)
      && SignatureText(v) == Success("aau")
      && Marshal(v).Success?
      && ReadValue(TyOf(v), Marshal(v).value) == None
  {
    var j := JArr([JArr([]), JArr([JInt(1)])]);
    TwoInnerArrays(j);
    BuiltFromJson(j);
    BuiltIsTypable(FromJson(j).value);
    NonUniformPair(FromJson(j).value);
  }

  lemma NonUniformPair(v: Variant)
    requires Typable(v) && v == Array([Array([], "u"), Array([Int32(1)], "i")], "a")
    ensures SignatureText(v) == Success("aau") && Marshal(v).Success?
    ensures ReadValue(TyOf(v), Marshal(v).value) == None
  {
    assert TyOf(v.arr[1]) != TyOf(v.arr[0]);
    MarshalledAsAnnouncedIffUniform(v);
    assert ContainedText(v) == "a" + ContainedText(v.arr[0]) == "au";
    assert "a" + "au" == "aau";
  }

  lemma TwoInnerArrays(j: Json)
    requires j == JArr([JArr([]), JArr([JInt(1)])])
    ensures FromJson(j) == Success(Array([Array([], "u"), Array([Int32(1)], "i")], "a"))
  {
    var empty, one := Array([], "u"), Array([Int32(1)], "i");
    OneElement(j.a[1]);
    assert FromJson(j.a[0]) == Success(empty);
    assert FromElements(j, 0) == Success([]);
    var none: seq<Variant> := [];
    assert none + [empty] == [empty];
    assert FromElements(j, 1) == Success([empty]);
    assert [empty] + [one] == [empty, one];
    assert FromElements(j, 2) == Success([empty, one]);
  }

  lemma OneElement(j: Json)
    requires j == JArr([JInt(1)])
    ensures FromJson(j) == Success(Array([Int32(1)], "i"))
  {
    assert FromElements(j, 0) == Success([]);
    var none: seq<Variant> := [];
    assert none + [Int32(1)] == [Int32(1)];
    assert FromElements(j, 1) == Success([Int32(1)]);
  }

  /** For arrays of scalars the constructor's own check is enough. */
  lemma FlatArraysAreUniform(v: Variant)
    requires Typable(v) && (v.Array? ==> forall i | 0 <= i < |v.arr| :: !v.arr[i].Array?)
    ensures Uniform(v)
  {}
}

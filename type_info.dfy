/**
 * Type names and type infos of `magic`: a name is built for a type expression by recursion
 * over its template arguments, `MakeTypeName` strips references and cv-qualifiers first, and
 * in the string-compare mode (mode 1) a `TypeInfo` carries that name and `TypeCast` compares
 * names. A type without a `TypeName` specialization has no name (the program would not link).
 */
module TypeInfos {
  import opened Wrappers

  /** The types named by `IMPL_TYPE_NAME` in the library. */
  datatype Primitive =
    | Void | Bool | Char | UInt8 | Int8 | UInt16 | Int16 | UInt32 | Int32 | UInt64 | Int64
    | Float | Double | StdString | MagicNull | MagicUndefined | MagicErrorCode

  /** `IMPL_TYPE_NAME(Type)` names a type by its own spelling. */
  function PrimitiveName(p: Primitive): string
  {
    match p
    case Void => "void"
    case Bool => "bool"
    case Char => "char"
    case UInt8 => "uint8_t"
    case Int8 => "int8_t"
    case UInt16 => "uint16_t"
    case Int16 => "int16_t"
    case UInt32 => "uint32_t"
    case Int32 => "int32_t"
    case UInt64 => "uint64_t"
    case Int64 => "int64_t"
    case Float => "float"
    case Double => "double"
    case StdString => "std::string"
    case MagicNull => "magic::Null"
    case MagicUndefined => "magic::Undefined"
    case MagicErrorCode => "magic::ErrorCode"
  }

  /** The single-parameter templates with a `TypeName` specialization. */
  datatype Wrapper =
    | PointerTo | VectorOf | ListOf | SetOf | UnorderedSetOf | SharedPtrTo | UniquePtrTo | WeakPtrTo

  /** The fixed prefix each single-parameter specialization puts before its argument's name. */
  function WrapperPrefix(w: Wrapper): string
  {
    match w
    case PointerTo => "pointer_"
    case VectorOf => "vector_"
    case ListOf => "list_"
    case SetOf => "set_"
    case UnorderedSetOf => "unordered_set_"
    case SharedPtrTo => "shared_ptr_"
    case UniquePtrTo => "unique_ptr_"
    case WeakPtrTo => "weak_ptr_"
  }

  /** `std::map` and `std::unordered_map`. */
  datatype MapKind = OrderedMap | HashMap

  /** The prefix of a map's name. */
  function MapPrefix(k: MapKind): string
  {
    match k
    case OrderedMap => "map_"
    case HashMap => "unordered_map_"
  }

  /**
   * A C++ type expression. `UserType` is a type the program defines, named by its spelling
   * when it is registered with `IMPL_TYPE_NAME`.
   */
  datatype TypeExpr =
    | Prim(p: Primitive)
    | UserType(spelling: string, registered: bool)
    | Wrap(wrapper: Wrapper, inner: TypeExpr)
    | KeyValue(kind: MapKind, key: TypeExpr, value: TypeExpr)
    | Variant(alternatives: seq<TypeExpr>)
    | Const(base: TypeExpr)
    | Volatile(base: TypeExpr)
    | LRef(base: TypeExpr)
    | RRef(base: TypeExpr)

  /** `MakeTypeName<T>()`: drops one reference, then the cv-qualifiers, and names what is left. */
  function MakeTypeName(t: TypeExpr): Option<string>
    decreases t, 3
  {
    match t
    case LRef(b) => StripCvName(b)
    case RRef(b) => StripCvName(b)
    case _ => StripCvName(t)
  }

  /** The name of `std::remove_cv_t<T>`. */
  function StripCvName(t: TypeExpr): Option<string>
    decreases t, 2
  {
    match t
    case Const(b) => StripCvName(b)
    case Volatile(b) => StripCvName(b)
    case _ => TypeName(t)
  }

  /** `TypeName<T>()()`: the specialization for `T`, or nothing when `T` has none. */
  function TypeName(t: TypeExpr): Option<string>
    decreases t, 1
  {
    match t
    case Prim(p) => Some(PrimitiveName(p))
    case UserType(spelling, registered) => if registered then Some(spelling) else None
    case Wrap(w, inner) =>
      (match MakeTypeName(inner)
       case Some(n) => Some(WrapperPrefix(w) + n)
       case None => None)
    case KeyValue(kind, key, value) =>
      (match (MakeTypeName(key), MakeTypeName(value))
       case (Some(k), Some(v)) => Some(MapPrefix(kind) + k + v)
       case _ => None)
    case Variant(_) => VariantName(t, 0)
    case _ => None
  }

  /** The name of `std::variant<alternatives[k..]>`: `std::variant<>` is "std::variant". */
  function VariantName(t: TypeExpr, k: nat): Option<string>
    requires t.Variant? && k <= |t.alternatives|
    decreases t, 0, |t.alternatives| - k
  {
    if k == |t.alternatives| then Some("std::variant")
    else
      match (VariantName(t, k + 1), MakeTypeName(t.alternatives[k]))
      case (Some(rest), Some(first)) => Some(rest + "_" + first)
      case _ => None
  }

  // ---------------------------------------------------------------------------------------
  // Naming
  // ---------------------------------------------------------------------------------------

  /** `std::remove_reference_t`. */
  function StripReference(t: TypeExpr): (r: TypeExpr)
    ensures !t.LRef? && !t.RRef? ==> r == t
  {
    match t
    case LRef(b) => b
    case RRef(b) => b
    case _ => t
  }

  /** `std::remove_cv_t`. */
  function StripCv(t: TypeExpr): (r: TypeExpr)
    ensures !r.Const? && !r.Volatile?
    ensures !t.Const? && !t.Volatile? ==> r == t
  {
    match t
    case Const(b) => StripCv(b)
    case Volatile(b) => StripCv(b)
    case _ => t
  }

  /** Naming through the cv-stripping step is naming the stripped type. */
  lemma {:induction false} StripCvNameIsStripCv(t: TypeExpr)
    ensures StripCvName(t) == TypeName(StripCv(t))
  {
    match t
    case Const(b) => StripCvNameIsStripCv(b);
    case Volatile(b) => StripCvNameIsStripCv(b);
    case _ =>
  }

  /** `MakeTypeName<T>` is `TypeName<std::remove_cv_t<std::remove_reference_t<T>>>`. */
  lemma MakeTypeNameStrips(t: TypeExpr)
    ensures MakeTypeName(t) == TypeName(StripCv(StripReference(t)))
  {
    StripCvNameIsStripCv(StripReference(t));
  }

  /**
   * A type and its const, volatile, reference and const-reference forms all get the same
   * name.
   */
  lemma QualifiersIgnored(t: TypeExpr)
    requires !t.LRef? && !t.RRef?
    ensures MakeTypeName(Const(t)) == MakeTypeName(t)
    ensures MakeTypeName(Volatile(t)) == MakeTypeName(t)
    ensures MakeTypeName(Const(Volatile(t))) == MakeTypeName(t)
    ensures MakeTypeName(LRef(t)) == MakeTypeName(t)
    ensures MakeTypeName(RRef(t)) == MakeTypeName(t)
    ensures MakeTypeName(LRef(Const(t))) == MakeTypeName(t)
  {
    MakeTypeNameStrips(t);
    MakeTypeNameStrips(Const(t));
    MakeTypeNameStrips(Volatile(t));
    MakeTypeNameStrips(Const(Volatile(t)));
    MakeTypeNameStrips(LRef(t));
    MakeTypeNameStrips(RRef(t));
    MakeTypeNameStrips(LRef(Const(t)));
  }

  /** A type with no qualifier at the top is named by its own specialization. */
  lemma UnqualifiedName(t: TypeExpr)
    requires !t.Const? && !t.Volatile? && !t.LRef? && !t.RRef?
    ensures MakeTypeName(t) == TypeName(t)
  {
    assert StripCvName(t) == TypeName(t);
  }

  /** A primitive is named by its spelling, and so is a registered user type. */
  lemma LeafNames(p: Primitive, spelling: string)
    ensures MakeTypeName(Prim(p)) == Some(PrimitiveName(p))
    ensures MakeTypeName(UserType(spelling, true)) == Some(spelling)
    ensures MakeTypeName(UserType(spelling, false)).None?
    ensures MakeTypeName(Prim(Int32)) == Some("int32_t") && MakeTypeName(Prim(StdString)) == Some("std::string")
  {
    UnqualifiedName(Prim(p));
    UnqualifiedName(UserType(spelling, true));
    UnqualifiedName(UserType(spelling, false));
    UnqualifiedName(Prim(Int32));
    UnqualifiedName(Prim(StdString));
  }

  /**
   * A single-parameter wrapper is named by its prefix and then its argument's name, and a
   * map by its prefix, the key's name and the value's name with no separator; either has a
   * name exactly when its arguments do.
   */
  lemma CompositeNames(w: Wrapper, kind: MapKind, t: TypeExpr, key: TypeExpr, value: TypeExpr)
    ensures MakeTypeName(Wrap(w, t)).Some? <==> MakeTypeName(t).Some?
    ensures MakeTypeName(t).Some? ==> MakeTypeName(Wrap(w, t)).value == WrapperPrefix(w) + MakeTypeName(t).value
    ensures MakeTypeName(KeyValue(kind, key, value)).Some? <==> MakeTypeName(key).Some? && MakeTypeName(value).Some?
    ensures MakeTypeName(key).Some? && MakeTypeName(value).Some? ==>
              MakeTypeName(KeyValue(kind, key, value)).value == MapPrefix(kind) + MakeTypeName(key).value + MakeTypeName(value).value
  {
    UnqualifiedName(Wrap(w, t));
    UnqualifiedName(KeyValue(kind, key, value));
  }

  /** Reads the wrapper back from the front of a name. */
  function WrapperOf(name: string): Option<Wrapper>
  {
    if WrapperPrefix(PointerTo) <= name then Some(PointerTo)
    else if WrapperPrefix(VectorOf) <= name then Some(VectorOf)
    else if WrapperPrefix(ListOf) <= name then Some(ListOf)
    else if WrapperPrefix(SetOf) <= name then Some(SetOf)
    else if WrapperPrefix(UnorderedSetOf) <= name then Some(UnorderedSetOf)
    else if WrapperPrefix(SharedPtrTo) <= name then Some(SharedPtrTo)
    else if WrapperPrefix(UniquePtrTo) <= name then Some(UniquePtrTo)
    else if WrapperPrefix(WeakPtrTo) <= name then Some(WeakPtrTo)
    else None
  }

  /** No wrapper prefix starts another one, so the prefix of a wrapped name identifies the wrapper. */
  lemma WrapperOfPrefixed(w: Wrapper, n: string)
    ensures WrapperOf(WrapperPrefix(w) + n) == Some(w)
  {
    var s := WrapperPrefix(w) + n;
    assert s[..|WrapperPrefix(w)|] == WrapperPrefix(w);
    assert s[0] == WrapperPrefix(w)[0] && s[1] == WrapperPrefix(w)[1] && s[2] == WrapperPrefix(w)[2];
  }

  /** The name of a wrapped type tells which wrapper it is and the name of what it wraps. */
  lemma WrapperNameInjective(w1: Wrapper, t1: TypeExpr, w2: Wrapper, t2: TypeExpr)
    requires MakeTypeName(Wrap(w1, t1)).Some? && MakeTypeName(Wrap(w1, t1)) == MakeTypeName(Wrap(w2, t2))
    ensures w1 == w2 && MakeTypeName(t1) == MakeTypeName(t2)
  {
    CompositeNames(w1, OrderedMap, t1, t1, t1);
    CompositeNames(w2, OrderedMap, t2, t2, t2);
    var n1 := MakeTypeName(t1).value;
    var n2 := MakeTypeName(t2).value;
    WrapperOfPrefixed(w1, n1);
    WrapperOfPrefixed(w2, n2);
    assert n1 == (WrapperPrefix(w1) + n1)[|WrapperPrefix(w1)|..];
    assert n2 == (WrapperPrefix(w2) + n2)[|WrapperPrefix(w2)|..];
  }

  /**
   * Map names are ambiguous: with no separator between the key's and the value's name,
   * `map<Tag, SetName>` and `map<TagSet, Name>` get the same name.
   */
  lemma MapNamesAmbiguous()
    ensures var a := KeyValue(OrderedMap, UserType("Tag", true), UserType("SetName", true));
            var b := KeyValue(OrderedMap, UserType("TagSet", true), UserType("Name", true));
            a != b && MakeTypeName(a) == MakeTypeName(b) == Some("map_TagSetName")
  {
    assert "map_" + "Tag" + "SetName" == "map_TagSetName";
    assert "map_" + "TagSet" + "Name" == "map_TagSetName";
  }

  /** The concatenation of a sequence of strings. */
  function Concat(ss: seq<string>): string
  {
    if |ss| == 0 then "" else ss[0] + Concat(ss[1..])
  }

  /** A sequence in reverse order. */
  function Reverse<T>(s: seq<T>): (r: seq<T>)
    ensures |r| == |s|
  {
    if |s| == 0 then [] else Reverse(s[1..]) + [s[0]]
  }

  /** Concatenating one more string at the end. */
  lemma {:induction false} ConcatSnoc(ss: seq<string>, s: string)
    ensures Concat(ss + [s]) == Concat(ss) + s
  {
    if |ss| > 0 {
      assert (ss + [s])[1..] == ss[1..] + [s];
      ConcatSnoc(ss[1..], s);
    }
  }

  /** The pieces "_<name>" the alternatives of a variant contribute, in declaration order. */
  function AlternativePieces(alts: seq<TypeExpr>): (pieces: seq<string>)
    requires forall i :: 0 <= i < |alts| ==> MakeTypeName(alts[i]).Some?
    ensures |pieces| == |alts|
    ensures forall i :: 0 <= i < |alts| ==> pieces[i] == "_" + MakeTypeName(alts[i]).value
  {
    seq(|alts|, i requires 0 <= i < |alts| => "_" + MakeTypeName(alts[i]).value)
  }

  /** The name of the variant of `alternatives[k..]`: its pieces in reverse order after "std::variant". */
  lemma {:induction false} VariantNameSuffix(t: TypeExpr, k: nat)
    requires t.Variant? && k <= |t.alternatives|
    requires forall i :: 0 <= i < |t.alternatives| ==> MakeTypeName(t.alternatives[i]).Some?
    ensures VariantName(t, k) == Some("std::variant" + Concat(Reverse(AlternativePieces(t.alternatives)[k..])))
    decreases |t.alternatives| - k
  {
    var pieces := AlternativePieces(t.alternatives);
    if k < |t.alternatives| {
      VariantNameSuffix(t, k + 1);
      var first := MakeTypeName(t.alternatives[k]).value;
      var before := Concat(Reverse(pieces[k + 1..]));
      assert pieces[k..][1..] == pieces[k + 1..];
      assert Reverse(pieces[k..]) == Reverse(pieces[k + 1..]) + [pieces[k]];
      ConcatSnoc(Reverse(pieces[k + 1..]), pieces[k]);
      assert pieces[k] == "_" + first;
      assert VariantName(t, k) == Some(("std::variant" + before) + "_" + first);
      assert ("std::variant" + before) + "_" + first == "std::variant" + (before + ("_" + first));
    } else {
      assert pieces[k..] == [];
      assert Concat(Reverse(pieces[k..])) == "";
      assert "std::variant" + "" == "std::variant";
    }
  }

  /**
   * `variant<T1, ..., Tn>` is named "std::variant" followed by "_<name of Ti>" for the
   * alternatives in reverse order.
   */
  lemma VariantNameReversed(alts: seq<TypeExpr>)
    requires forall i :: 0 <= i < |alts| ==> MakeTypeName(alts[i]).Some?
    ensures MakeTypeName(Variant(alts)) == Some("std::variant" + Concat(Reverse(AlternativePieces(alts))))
  {
    UnqualifiedName(Variant(alts));
    VariantNameSuffix(Variant(alts), 0);
    assert AlternativePieces(alts)[0..] == AlternativePieces(alts);
  }

  /** The variant of `alternatives[k..]` has a name exactly when each of those alternatives has one. */
  lemma {:induction false} VariantNamedFrom(t: TypeExpr, k: nat)
    requires t.Variant? && k <= |t.alternatives|
    ensures VariantName(t, k).Some? <==> forall i :: k <= i < |t.alternatives| ==> MakeTypeName(t.alternatives[i]).Some?
    decreases |t.alternatives| - k
  {
    if k < |t.alternatives| {
      VariantNamedFrom(t, k + 1);
    }
  }

  /** A variant has a name exactly when every alternative has one. */
  lemma VariantNamedIff(alts: seq<TypeExpr>)
    ensures MakeTypeName(Variant(alts)).Some? <==> forall i :: 0 <= i < |alts| ==> MakeTypeName(alts[i]).Some?
  {
    UnqualifiedName(Variant(alts));
    VariantNamedFrom(Variant(alts), 0);
  }

  // ---------------------------------------------------------------------------------------
  // TypeInfo in the string-compare mode
  // ---------------------------------------------------------------------------------------

  /** `TypeInfo`: the stored pointer, here a type name or null. */
  datatype TypeInfo = TypeInfo(typeInfo: Option<string>)

  /** A default-constructed `TypeInfo` holds null. */
  const DefaultTypeInfo: TypeInfo := TypeInfo(None)

  /** `CompareTypeInfo` in mode 1: false when either side is null, else whether the names agree. */
  predicate CompareTypeInfo(src: Option<string>, dst: Option<string>)
  {
    if src.None? || dst.None? then false else src.value == dst.value
  }

  /** `TypeInfo::operator==`. */
  predicate InfoEqual(a: TypeInfo, b: TypeInfo)
  {
    CompareTypeInfo(a.typeInfo, b.typeInfo)
  }

  /** `TypeInfo::operator!=`. */
  predicate InfoNotEqual(a: TypeInfo, b: TypeInfo)
  {
    !InfoEqual(a, b)
  }

  /** `TypeInfo::operator bool`: true when the stored pointer is null. */
  predicate AsBool(a: TypeInfo)
  {
    a.typeInfo.None?
  }

  /** `MakeTypeInfo<T>()` in mode 1: the type's name. */
  function MakeTypeInfo(t: TypeExpr): (info: TypeInfo)
    requires MakeTypeName(t).Some?
    ensures info.typeInfo == MakeTypeName(t)
  {
    TypeInfo(MakeTypeName(t))
  }

  /**
   * `TypeCast<T>(src_ptr, type_info)`: the pointer when the infos compare equal, else null.
   * `T` is not a reference type, since the result is a `T*`.
   */
  function TypeCast(t: TypeExpr, src: Option<nat>, info: TypeInfo): Option<nat>
    requires MakeTypeName(t).Some? && !t.LRef? && !t.RRef?
  {
    if InfoEqual(MakeTypeInfo(t), info) then src else None
  }

  /**
   * `==` holds exactly when both infos are non-null and hold the same name; so it is
   * symmetric, a null info equals nothing, not even itself, and `!=` is its negation.
   */
  lemma InfoEqualCharacterized(a: TypeInfo, b: TypeInfo)
    ensures InfoEqual(a, b) <==> a.typeInfo.Some? && a.typeInfo == b.typeInfo
    ensures InfoEqual(a, b) <==> InfoEqual(b, a)
    ensures InfoNotEqual(a, b) <==> !InfoEqual(a, b)
    ensures !InfoEqual(DefaultTypeInfo, DefaultTypeInfo)
    ensures AsBool(DefaultTypeInfo)
  {
  }

  /** The info of a named type is not null, so its `operator bool` is false, and it equals itself. */
  lemma MadeInfoProperties(t: TypeExpr)
    requires MakeTypeName(t).Some?
    ensures !AsBool(MakeTypeInfo(t))
    ensures InfoEqual(MakeTypeInfo(t), MakeTypeInfo(t))
    ensures !InfoEqual(MakeTypeInfo(t), DefaultTypeInfo)
  {
  }

  /**
   * `TypeCast<T>` returns the pointer exactly when the info holds `T`'s name: for the info of
   * a type `U` that is when `T` and `U` have the same name, and a null info never casts.
   */
  lemma TypeCastIff(t: TypeExpr, u: TypeExpr, src: Option<nat>)
    requires MakeTypeName(t).Some? && !t.LRef? && !t.RRef? && MakeTypeName(u).Some?
    ensures TypeCast(t, src, MakeTypeInfo(u)) == (if MakeTypeName(t) == MakeTypeName(u) then src else None)
    ensures TypeCast(t, src, MakeTypeInfo(t)) == src
    ensures TypeCast(t, src, DefaultTypeInfo) == None
  {
  }

  /**
   * Qualifiers do not matter to a cast: a cast to `const T` or `volatile T` accepts the info
   * of `T`, and a cast to `T` accepts the info made for `const T&`.
   */
  lemma TypeCastIgnoresQualifiers(t: TypeExpr, src: Option<nat>)
    requires MakeTypeName(t).Some? && !t.LRef? && !t.RRef?
    ensures MakeTypeName(Const(t)).Some? && MakeTypeName(Volatile(t)).Some? && MakeTypeName(LRef(Const(t))).Some?
    ensures TypeCast(Const(t), src, MakeTypeInfo(t)) == src
    ensures TypeCast(Volatile(t), src, MakeTypeInfo(t)) == src
    ensures TypeCast(t, src, MakeTypeInfo(LRef(Const(t)))) == src
  {
    QualifiersIgnored(t);
  }

  /** Because map names are ambiguous, a cast to one map type accepts the info of another. */
  lemma MapCastConfusion(src: Option<nat>)
    ensures var a := KeyValue(OrderedMap, UserType("Tag", true), UserType("SetName", true));
            var b := KeyValue(OrderedMap, UserType("TagSet", true), UserType("Name", true));
            MakeTypeName(a).Some? && MakeTypeName(b).Some? && a != b && TypeCast(a, src, MakeTypeInfo(b)) == src
  {
    MapNamesAmbiguous();
  }
}

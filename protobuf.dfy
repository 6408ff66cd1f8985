/**
 * What the core sees of the protobuf library: descriptors of message types and fields, and
 * generic message instances read through reflection. The wire format is not modelled; a
 * message is the set of field values it holds.
 */
module Protobuf {
  import opened Wrappers

  /** `FieldDescriptor::CppType`. */
  datatype CppType =
    | CppInt32
    | CppInt64
    | CppUInt32
    | CppUInt64
    | CppDouble
    | CppFloat
    | CppBool
    | CppEnum
    | CppString
    | CppMessage

  /** `FieldDescriptor::Label`: `is_optional()` is `Optional`, `is_repeated()` is `Repeated`. */
  datatype Label = Optional | Required | Repeated

  /**
   * A field descriptor: declared name, JSON name, kind, cardinality, whether it is a map
   * field (a repeated field of synthetic key/value entries) and whether it declares a default.
   */
  datatype FieldDesc = FieldDesc(
    name: string,
    jsonName: string,
    cppType: CppType,
    cardinality: Label,
    isMap: bool,
    hasDefault: bool)

  /** A message descriptor: the full type name and the fields in declaration order. */
  datatype Descriptor = Descriptor(fullName: string, fields: seq<FieldDesc>)

  /** `Descriptor::FindFieldByName`: the first declared field with that name. */
  function FieldByName(fields: seq<FieldDesc>, name: string): (r: Option<nat>)
    ensures r.Some? ==> r.value < |fields| && fields[r.value].name == name
    ensures r.Some? ==> forall j :: 0 <= j < r.value ==> fields[j].name != name
    ensures r.None? ==> forall j :: 0 <= j < |fields| ==> fields[j].name != name
    decreases |fields|
  {
    if |fields| == 0 then None
    else if fields[0].name == name then Some(0)
    else
      match FieldByName(fields[1..], name)
      case None => None
      case Some(k) => Some(k + 1)
  }

  /** A scalar field value; floating-point kinds are not modelled. */
  datatype Scalar = IntValue(i: int) | BoolValue(b: bool) | StringValue(s: string) | EnumValue(number: int)

  /** One value of a field: a scalar or a sub-message. */
  datatype PbValue = ScalarValue(scalar: Scalar) | MessageValue(msg: Message)

  /** What a message holds for one field: nothing, one value, or the elements of a repeated field. */
  datatype FieldValue = Unset | Singular(v: PbValue) | RepeatedValues(elems: seq<PbValue>)

  /** A generic message: its descriptor and, for each declared field by index, what it holds. */
  datatype Message = Message(desc: Descriptor, values: seq<FieldValue>)

  /** A map-entry descriptor has fields named "key" and "value". */
  predicate IsMapEntry(d: Descriptor)
  {
    FieldByName(d.fields, "key").Some? && FieldByName(d.fields, "value").Some?
  }

  /**
   * A message conforms to its descriptor the way protobuf guarantees: one slot per field,
   * and the elements of a repeated message field are conforming messages, map entries for a
   * map field.
   */
  predicate WellFormed(m: Message)
    decreases m
  {
    && |m.values| == |m.desc.fields|
    && forall i, k | 0 <= i < |m.values| && m.values[i].RepeatedValues? && m.desc.fields[i].cppType == CppMessage
                     && 0 <= k < |m.values[i].elems| ::
         && m.values[i].elems[k].MessageValue?
         && WellFormed(m.values[i].elems[k].msg)
         && (m.desc.fields[i].isMap ==> IsMapEntry(m.values[i].elems[k].msg.desc))
  }

  /** A message that conforms to its descriptor, as every parsed or constructed message does. */
  type WfMessage = m: Message | WellFormed(m) witness Message(Descriptor("", []), [])

  /** `Reflection::HasField` for a singular field. */
  predicate HasField(m: Message, i: nat)
    requires i < |m.values|
  {
    m.values[i].Singular?
  }

  /** `Reflection::FieldSize` for a repeated field. */
  function FieldSize(m: Message, i: nat): nat
    requires i < |m.values|
  {
    if m.values[i].RepeatedValues? then |m.values[i].elems| else 0
  }

  /** A fresh instance of the type's prototype (`GetPrototype(descriptor)->New()`): every field unset. */
  function DefaultMessage(d: Descriptor): (m: WfMessage)
    ensures m.desc == d && |m.values| == |d.fields|
    ensures forall i :: 0 <= i < |m.values| ==> !HasField(m, i) && FieldSize(m, i) == 0
  {
    Message(d, seq(|d.fields|, _ => Unset))
  }
}

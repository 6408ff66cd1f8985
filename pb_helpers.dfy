/**
 * The helpers of the protobuf serializer: field lookup by name (`find_field`), the annotation
 * of an error with the message type and field it arose at (`MakeErrorCode`), and the set of
 * fields reported as warnings (`AddWarnningField`).
 */
module PbHelpers {
  import opened Wrappers
  import opened ErrorCodes
  import Protobuf

  /** What `find_field` finds: a declared field, by index, or a known extension. */
  datatype FieldRef = Declared(index: nat) | Extension(field: Protobuf.FieldDesc)

  /**
   * `find_field`: the declared field with that name; failing that, the known extension with
   * that name; failing that, the first declared field whose JSON name it is; else nothing.
   * `knownExtensions` stands for `Reflection::FindKnownExtensionByName`.
   */
  method FindField(descriptor: Protobuf.Descriptor, knownExtensions: map<string, Protobuf.FieldDesc>, name: string) returns (r: Option<FieldRef>)
    ensures Protobuf.FieldByName(descriptor.fields, name).Some? ==>
              r == Some(Declared(Protobuf.FieldByName(descriptor.fields, name).value))
    ensures Protobuf.FieldByName(descriptor.fields, name).None? && name in knownExtensions ==>
              r == Some(Extension(knownExtensions[name]))
    ensures Protobuf.FieldByName(descriptor.fields, name).None? && name !in knownExtensions && r.Some? ==>
              && r.value.Declared?
              && r.value.index < |descriptor.fields|
              && descriptor.fields[r.value.index].jsonName == name
              && forall j :: 0 <= j < r.value.index ==> descriptor.fields[j].jsonName != name
    ensures r.None? <==>
              && Protobuf.FieldByName(descriptor.fields, name).None?
              && name !in knownExtensions
              && forall j :: 0 <= j < |descriptor.fields| ==> descriptor.fields[j].jsonName != name
  {
    var found := Protobuf.FieldByName(descriptor.fields, name);
    if found.Some? {
      return Some(Declared(found.value));
    }
    if name in knownExtensions {
      return Some(Extension(knownExtensions[name]));
    }
    r := None;
    var i := 0;
    while i < |descriptor.fields|
      invariant 0 <= i <= |descriptor.fields|
      invariant forall j :: 0 <= j < i ==> descriptor.fields[j].jsonName != name
    {
      if descriptor.fields[i].jsonName == name {
        r := Some(Declared(i));
        break;
      }
      i := i + 1;
    }
  }

  /** `s.find(w) != npos`: `w` occurs in `s`. */
  predicate Contains(s: string, w: string)
  {
    exists i :: 0 <= i <= |s| && w <= s[i..]
  }

  /** The word whose presence marks a message as already annotated. */
  const FieldMarker: string := "Field: "

  /** The text `MakeErrorCode` appends: " Message Type: <type>, Field: <field>". */
  function Annotation(messageType: string, fieldName: string): (a: string)
    ensures a == " Message Type: " + messageType + ", Field: " + fieldName
  {
    " Message Type: " + messageType + ", " + FieldMarker + fieldName
  }

  /** Whatever precedes it, the annotation brings the marker with it. */
  lemma AnnotatedContainsMarker(s: string, messageType: string, fieldName: string)
    ensures Contains(s + Annotation(messageType, fieldName), FieldMarker)
  {
    var t := s + Annotation(messageType, fieldName);
    var k := |s| + |" Message Type: "| + |messageType| + |", "|;
    assert t[k..] == FieldMarker + fieldName;
  }

  /**
   * `MakeErrorCode(error_code, field_name, message_type)`: a failing code whose message does
   * not yet contain "Field: " gets " Message Type: <type>, Field: <field>" appended to its
   * message; any other code keeps its message. Only the message changes.
   */
  function MakeErrorCode(e: ErrorCode, fieldName: string, messageType: string): (r: ErrorCode)
    ensures !Failing(e) ==> r == e
    ensures r.value == e.value && r.category == e.category && r.categoryName == e.categoryName
    ensures Failing(e) && !Contains(Message(e), FieldMarker) ==>
              Message(r) == Message(e) + Annotation(messageType, fieldName)
    ensures Contains(Message(e), FieldMarker) ==> Message(r) == Message(e)
    ensures Failing(e) ==> Contains(Message(r), FieldMarker)
  {
    if Failing(e) then
      var cached := CacheMessage(e);
      if !Contains(Message(cached), FieldMarker) then
        AnnotatedContainsMarker(Message(cached), messageType, fieldName);
        SetMessage(cached, Message(cached) + Annotation(messageType, fieldName))
      else cached
    else e
  }

  /**
   * Annotating twice is annotating once: re-wrapping an annotated code, with any field and
   * type, changes nothing.
   */
  lemma MakeErrorCodeIdempotent(e: ErrorCode, fieldName: string, messageType: string, otherField: string, otherType: string)
    ensures MakeErrorCode(MakeErrorCode(e, fieldName, messageType), otherField, otherType) ==
            MakeErrorCode(e, fieldName, messageType)
  {
    var once := MakeErrorCode(e, fieldName, messageType);
    if Failing(e) {
      var i :| 0 <= i <= |Message(once)| && FieldMarker <= Message(once)[i..];
      assert once.customMessage != "";
    }
  }

  /** The annotated code is `==` to the original, and fails exactly when it does. */
  lemma MakeErrorCodeEqual(e: ErrorCode, fieldName: string, messageType: string)
    ensures Equal(MakeErrorCode(e, fieldName, messageType), e)
    ensures Equal(e, MakeErrorCode(e, fieldName, messageType))
    ensures Failing(MakeErrorCode(e, fieldName, messageType)) <==> Failing(e)
  {
  }

  /** `WarnningFields`: a set of "<message type>:<field>" strings. */
  class WarningFields {
    var entries: set<string>

    constructor()
      ensures entries == {}
    {
      entries := {};
    }
  }

  /** The entry recorded for a field of a message type. */
  function WarningEntry(descriptor: Protobuf.Descriptor, field: Protobuf.FieldDesc): string
  {
    descriptor.fullName + ":" + field.name
  }

  /**
   * `AddWarnningField`: when the sink, the descriptor and the field are all present, records
   * "<full name>:<field name>"; otherwise does nothing. Recording an entry twice is recording
   * it once.
   */
  method AddWarningField(sink: WarningFields?, descriptor: Option<Protobuf.Descriptor>, field: Option<Protobuf.FieldDesc>)
    modifies sink
    ensures sink != null && descriptor.Some? && field.Some? ==>
              sink.entries == old(sink.entries) + {WarningEntry(descriptor.value, field.value)}
    ensures sink != null && (descriptor.None? || field.None?) ==> sink.entries == old(sink.entries)
    ensures sink != null && descriptor.Some? && field.Some? && WarningEntry(descriptor.value, field.value) in old(sink.entries) ==>
              sink.entries == old(sink.entries)
  {
    if sink != null && field.Some? && descriptor.Some? {
      sink.entries := sink.entries + {WarningEntry(descriptor.value, field.value)};
    }
  }
}

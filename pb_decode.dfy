/**
 * The reflective decode engine `from_pb`: it walks a message's fields in declaration order
 * and builds a dynamic mapping, one entry per field it does not skip, using a dispatch table
 * of conversion functions keyed by the field's `CppType`.
 *
 * The walk is specified by functions (`Walk`, `FieldResult`, `Elements`, `ElementResult`,
 * `Fold`, `FromPbEntry`, `FromPbSpec`) and carried out by methods with the source's loops (`FromPb`,
 * `FromPbRepeated`) that are proved to compute them; the lemmas state what the walk promises.
 */
module PbDecode {
  import opened Wrappers
  import opened ErrorCodes
  import opened PbErrors
  import opened Protobuf
  import opened Dynamic

  /** `PBOptions`. */
  datatype PBOptions = PBOptions(useCamelcase: bool)

  /** `PBInfo`: the message type name and the serialized bytes. */
  datatype PBInfo = PBInfo(typeName: string, data: seq<bv8>)

  /**
   * `Context`: the message being read, the index of the field being converted, the options,
   * and, for one element of a repeated field, that element's index.
   */
  datatype Context = Context(message: Message, field: nat, options: PBOptions, index: Option<nat>)

  /** A scalar conversion function: reads the field `Context` points at and returns a status and a value. */
  type FromPbFunction = Context -> (ErrorCode, Object)

  /** The dispatch table; a `CppType` without an entry has no conversion function. */
  type FromPbFunctionMap = map<CppType, FromPbFunction>

  /**
   * `ParseFromArray` into a fresh instance of the given type: nothing when the bytes are
   * malformed, else a message of that type.
   */
  type Parser = (Descriptor, seq<bv8>) -> Option<WfMessage>

  /** The status `from_pb` returns for a kind the table has no entry for. */
  const NoConvertCode: ErrorCode := MakePBErrorCode(NoConvertFunction)

  /** `CommonError::SUCCESS` as an `ErrorCode`. */
  const SuccessCode: ErrorCode := FromCommon(Success)

  /** The walk skips an optional field that is not set and declares no default. */
  predicate Skipped(m: Message, i: nat)
    requires i < |m.values| == |m.desc.fields|
  {
    var f := m.desc.fields[i];
    f.cardinality == Optional && !HasField(m, i) && !f.hasDefault
  }

  /** The key of a field in the output mapping: the JSON name under `use_camelcase`, else the declared name. */
  function OutputKey(f: FieldDesc, options: PBOptions): string
  {
    if options.useCamelcase then f.jsonName else f.name
  }

  /**
   * No two fields of the descriptor share an output key. Declared names are unique; JSON names
   * can collide in proto2 (`foo_bar` and `fooBar`), so under `use_camelcase` this is an
   * assumption about the descriptor.
   */
  ghost predicate DistinctOutputKeys(d: Descriptor, options: PBOptions)
  {
    forall j, j' :: 0 <= j < |d.fields| && 0 <= j' < |d.fields| && j != j' ==>
      OutputKey(d.fields[j], options) != OutputKey(d.fields[j'], options)
  }

  // ---------------------------------------------------------------------------------------
  // Map entries: `from_pb<Key, Value>(Message*)`
  // ---------------------------------------------------------------------------------------

  /** The index of the entry's field named "key" or "value". */
  function EntryField(entry: Message, name: string): (k: nat)
    requires IsMapEntry(entry.desc) && (name == "key" || name == "value")
    ensures k < |entry.desc.fields| && entry.desc.fields[k].name == name
    ensures forall j :: 0 <= j < k ==> entry.desc.fields[j].name != name
  {
    FieldByName(entry.desc.fields, name).value
  }

  /**
   * Decodes one map entry into (status, key container, value container): the key is converted
   * first, and only when it succeeds is the value converted.
   */
  function FromPbEntry(entry: Message, options: PBOptions, table: FromPbFunctionMap): (ErrorCode, Object, Object)
    requires IsMapEntry(entry.desc)
  {
    var keyType := entry.desc.fields[EntryField(entry, "key")].cppType;
    if keyType !in table then (NoConvertCode, Nil, Nil)
    else
      var keyResult := table[keyType](Context(entry, EntryField(entry, "key"), options, None));
      if Failing(keyResult.0) then (keyResult.0, keyResult.1, Nil)
      else
        var valueType := entry.desc.fields[EntryField(entry, "value")].cppType;
        if valueType !in table then (NoConvertCode, Nil, Nil)
        else
          var valueResult := table[valueType](Context(entry, EntryField(entry, "value"), options, None));
          (valueResult.0, keyResult.1, valueResult.1)
  }

  // ---------------------------------------------------------------------------------------
  // The field walk: `from_pb<Object>(Message*)`
  // ---------------------------------------------------------------------------------------

  /**
   * Where the field walk stands: still running with the last status and the mapping built so
   * far, stopped by a failing field (the mapping is kept), or aborted for want of a conversion
   * function.
   */
  datatype WalkState =
    | Running(last: ErrorCode, dict: map<Object, Object>)
    | Stopped(error: ErrorCode, dict: map<Object, Object>)
    | Unconvertible

  /** The (status, key, value) one element of a repeated field yields; the key is nil outside map fields. */
  type ElementOutcome = (ErrorCode, Object, Object)

  /** Where the loop over a repeated field's elements stands, with the container built so far. */
  datatype Collected = Collecting(container: Object) | Broken(container: Object)

  /** What `from_pb<Object>(Message*)` returns for a message. */
  function FromPbSpec(m: Message, options: PBOptions, table: FromPbFunctionMap): (ErrorCode, Object)
    requires WellFormed(m)
    decreases m, 4
  {
    match Walk(m, options, table, |m.desc.fields|)
    case Running(last, dict) => (last, Dict(dict))
    case Stopped(error, dict) => (error, Dict(dict))
    case Unconvertible => (NoConvertCode, Nil)
  }

  /** The walk after its first `k` fields. */
  function Walk(m: Message, options: PBOptions, table: FromPbFunctionMap, k: nat): WalkState
    requires WellFormed(m) && k <= |m.desc.fields|
    decreases m, 3, k
  {
    if k == 0 then Running(DefaultErrorCode, map[])
    else
      var s := Walk(m, options, table, k - 1);
      var f := m.desc.fields[k - 1];
      if !s.Running? || Skipped(m, k - 1) then s
      else if f.cppType !in table then Unconvertible
      else
        var r := FieldResult(m, options, table, k - 1);
        if Failing(r.0) then Stopped(r.0, s.dict)
        else Running(r.0, s.dict[Str(OutputKey(f, options)) := r.1])
  }

  /**
   * The status and value one field yields: a repeated field yields success and its container,
   * a singular field whatever its conversion function returns.
   */
  function FieldResult(m: Message, options: PBOptions, table: FromPbFunctionMap, i: nat): (ErrorCode, Object)
    requires WellFormed(m) && i < |m.desc.fields| && m.desc.fields[i].cppType in table
    decreases m, 2
  {
    var f := m.desc.fields[i];
    if f.cardinality == Repeated then (SuccessCode, Fold(f.isMap, Elements(m, options, table, i)).container)
    else table[f.cppType](Context(m, i, options, None))
  }

  /** The outcomes of the elements of repeated field `i`, in index order. */
  function Elements(m: Message, options: PBOptions, table: FromPbFunctionMap, i: nat): (es: seq<ElementOutcome>)
    requires WellFormed(m) && i < |m.desc.fields| && m.desc.fields[i].cppType in table
    ensures |es| == FieldSize(m, i)
    ensures forall j :: 0 <= j < |es| ==> es[j] == ElementResult(m, options, table, i, j)
    decreases m, 1
  {
    seq(FieldSize(m, i), j requires 0 <= j < FieldSize(m, i) => ElementResult(m, options, table, i, j))
  }

  /**
   * The (status, key, value) of element `index` of repeated field `i`: a map entry is decoded
   * key first, any other sub-message by the walk itself, a scalar by the table with the
   * element's index in the context.
   */
  function ElementResult(m: Message, options: PBOptions, table: FromPbFunctionMap, i: nat, index: nat): ElementOutcome
    requires WellFormed(m) && i < |m.desc.fields| && m.desc.fields[i].cppType in table
    requires index < FieldSize(m, i)
    decreases m, 0
  {
    var f := m.desc.fields[i];
    if f.cppType == CppMessage then
      var item := m.values[i].elems[index].msg;
      if f.isMap then FromPbEntry(item, options, table)
      else
        var r := FromPbSpec(item, options, table);
        (r.0, Nil, r.1)
    else
      var r := table[f.cppType](Context(m, i, options, Some(index)));
      (r.0, Nil, r.1)
  }

  /**
   * The element loop of a repeated field over the outcomes `es` of its elements, in index
   * order: a failing element breaks the loop, every other one is added to the container.
   */
  function Fold(isMap: bool, es: seq<ElementOutcome>): (c: Collected)
    ensures isMap ==> c.container.Dict?
    ensures !isMap ==> c.container.Array?
    decreases |es|
  {
    if |es| == 0 then Collecting(EmptyContainer(isMap))
    else
      var s := Fold(isMap, es[..|es| - 1]);
      var e := es[|es| - 1];
      if s.Broken? then s
      else if Failing(e.0) then Broken(s.container)
      else if isMap then Collecting(DictAdd(s.container, e.1, e.2))
      else Collecting(ArrayAdd(s.container, e.2))
  }

  // ---------------------------------------------------------------------------------------
  // The methods that carry the walk out
  // ---------------------------------------------------------------------------------------

  /** `from_pb<Object>(Message*, options)`. */
  method FromPb(m: Message, options: PBOptions, table: FromPbFunctionMap) returns (err: ErrorCode, obj: Object)
    requires WellFormed(m)
    ensures (err, obj) == FromPbSpec(m, options, table)
    decreases m, 3
  {
    var fields := m.desc.fields;
    var objectWrapper: map<Object, Object> := map[];
    var result: (ErrorCode, Object) := (DefaultErrorCode, Nil);
    var i := 0;
    while i < |fields|
      invariant 0 <= i <= |fields|
      invariant Walk(m, options, table, i) == Running(result.0, objectWrapper)
    {
      WalkStep(m, options, table, i);
      var field := fields[i];
      if field.cardinality == Optional && !HasField(m, i) && !field.hasDefault {
        i := i + 1;
        continue;
      }
      if field.cppType !in table {
        WalkStaysDone(m, options, table, i + 1, |fields|);
        return NoConvertCode, Nil;
      }
      var fieldName := if options.useCamelcase then field.jsonName else field.name;
      result := FromPbField(m, options, table, i);
      if Failing(result.0) {
        WalkStaysDone(m, options, table, i + 1, |fields|);
        break;
      }
      objectWrapper := objectWrapper[Str(fieldName) := result.1];
      i := i + 1;
    }
    return result.0, Dict(objectWrapper);
  }

  /** The status and value of field `i`: the repeated branch, or the field's conversion function. */
  method FromPbField(m: Message, options: PBOptions, table: FromPbFunctionMap, i: nat) returns (result: (ErrorCode, Object))
    requires WellFormed(m) && i < |m.desc.fields| && m.desc.fields[i].cppType in table
    ensures result == FieldResult(m, options, table, i)
    decreases m, 2
  {
    var field := m.desc.fields[i];
    if field.cardinality == Repeated {
      result := FromPbRepeated(m, options, table, i);
    } else {
      result := table[field.cppType](Context(m, i, options, None));
    }
  }

  /** The repeated branch of the field walk, for field `i`. */
  method FromPbRepeated(m: Message, options: PBOptions, table: FromPbFunctionMap, i: nat) returns (result: (ErrorCode, Object))
    requires WellFormed(m) && i < |m.desc.fields|
    requires m.desc.fields[i].cardinality == Repeated && m.desc.fields[i].cppType in table
    ensures result == FieldResult(m, options, table, i)
    decreases m, 1
  {
    var field := m.desc.fields[i];
    var size := FieldSize(m, i);
    var container := if field.isMap then Dict(map[]) else Array([]);
    var isMap := field.isMap;
    ghost var es := Elements(m, options, table, i);
    var index := 0;
    while index < size
      invariant 0 <= index <= size
      invariant Fold(isMap, es[..index]) == Collecting(container)
    {
      var status, key, value := FromPbElement(m, options, table, i, index);
      FoldStep(isMap, es, index);
      if Failing(status) {
        FoldStaysBroken(isMap, es, index + 1, size);
        break;
      }
      if isMap {
        container := DictAdd(container, key, value);
      } else {
        container := ArrayAdd(container, value);
      }
      index := index + 1;
    }
    assert es[..size] == es;
    result := (SuccessCode, container);
  }

  /** One pass of the repeated branch's loop body: element `index` of field `i`. */
  method FromPbElement(m: Message, options: PBOptions, table: FromPbFunctionMap, i: nat, index: nat)
    returns (status: ErrorCode, key: Object, value: Object)
    requires WellFormed(m) && i < |m.desc.fields| && m.desc.fields[i].cppType in table
    requires index < FieldSize(m, i)
    ensures (status, key, value) == ElementResult(m, options, table, i, index)
    decreases m, 0
  {
    var field := m.desc.fields[i];
    key := Nil;
    if field.cppType == CppMessage {
      var item := m.values[i].elems[index].msg;
      if field.isMap {
        var entry := FromPbEntry(item, options, table);
        status, key, value := entry.0, entry.1, entry.2;
      } else {
        status, value := FromPb(item, options, table);
      }
    } else {
      var r := table[field.cppType](Context(m, i, options, Some(index)));
      status, value := r.0, r.1;
    }
  }

  /** `from_pb(DescriptorPool*, PBInfo, options)`: look the type up, parse the bytes, walk. */
  method FromPbPool(pool: map<string, Descriptor>, info: PBInfo, options: PBOptions, parse: Parser, table: FromPbFunctionMap)
    returns (err: ErrorCode, obj: Object)
    requires forall d, data :: parse(d, data).Some? ==> parse(d, data).value.desc == d
    ensures info.typeName !in pool ==> err == MakePBErrorCode(MessageNotFound) && obj == Nil
    ensures info.typeName in pool && parse(pool[info.typeName], info.data).None? ==>
              err == MakePBErrorCode(ParseError) && obj == Nil
    ensures info.typeName in pool && parse(pool[info.typeName], info.data).Some? ==>
              (err, obj) == FromPbSpec(parse(pool[info.typeName], info.data).value, options, table)
  {
    if info.typeName !in pool {
      return MakePBErrorCode(MessageNotFound), Nil;
    }
    var descriptor := pool[info.typeName];
    var message := parse(descriptor, info.data);
    if message.None? {
      return MakePBErrorCode(ParseError), Nil;
    }
    err, obj := FromPb(message.value, options, table);
  }

  /** `from_default_pb(DescriptorPool*, type, options)`: look the type up and walk a fresh, unparsed instance. */
  method FromDefaultPb(pool: map<string, Descriptor>, typeName: string, options: PBOptions, table: FromPbFunctionMap)
    returns (err: ErrorCode, obj: Object)
    ensures typeName !in pool ==> err == MakePBErrorCode(MessageNotFound) && obj == Nil
    ensures typeName in pool ==> (err, obj) == FromPbSpec(DefaultMessage(pool[typeName]), options, table)
  {
    if typeName !in pool {
      return MakePBErrorCode(MessageNotFound), Nil;
    }
    var descriptor := pool[typeName];
    err, obj := FromPb(DefaultMessage(descriptor), options, table);
  }

  // ---------------------------------------------------------------------------------------
  // What the walk promises
  // ---------------------------------------------------------------------------------------

  /** The walk after `k + 1` fields is one step on from the walk after `k`. */
  lemma WalkStep(m: Message, options: PBOptions, table: FromPbFunctionMap, k: nat)
    requires WellFormed(m) && k < |m.desc.fields|
    ensures var s := Walk(m, options, table, k);
      var f := m.desc.fields[k];
      Walk(m, options, table, k + 1) ==
        (if !s.Running? || Skipped(m, k) then s
         else if f.cppType !in table then Unconvertible
         else if Failing(FieldResult(m, options, table, k).0) then Stopped(FieldResult(m, options, table, k).0, s.dict)
         else Running(FieldResult(m, options, table, k).0, s.dict[Str(OutputKey(f, options)) := FieldResult(m, options, table, k).1]))
  {
  }

  /** Once the walk has stopped or aborted, later fields change nothing. */
  lemma {:induction false} WalkStaysDone(m: Message, options: PBOptions, table: FromPbFunctionMap, j: nat, k: nat)
    requires WellFormed(m) && j <= k <= |m.desc.fields|
    requires !Walk(m, options, table, j).Running?
    ensures Walk(m, options, table, k) == Walk(m, options, table, j)
    decreases k
  {
    if k > j {
      WalkStaysDone(m, options, table, j, k - 1);
    }
  }

  /** Every field before `k` that is not skipped has a conversion function and converts without failure. */
  ghost predicate PrefixConverts(m: Message, options: PBOptions, table: FromPbFunctionMap, k: nat)
    requires WellFormed(m) && k <= |m.desc.fields|
  {
    forall j :: 0 <= j < k && !Skipped(m, j) ==>
      m.desc.fields[j].cppType in table && !Failing(FieldResult(m, options, table, j).0)
  }

  /** The output keys of the fields before `k` that are not skipped. */
  ghost function ProcessedKeys(m: Message, options: PBOptions, k: nat): set<Object>
    requires |m.values| == |m.desc.fields| && k <= |m.desc.fields|
  {
    set j | 0 <= j < k && !Skipped(m, j) :: Str(OutputKey(m.desc.fields[j], options))
  }

  lemma ProcessedKeysStep(m: Message, options: PBOptions, k: nat)
    requires |m.values| == |m.desc.fields| && k < |m.desc.fields|
    ensures ProcessedKeys(m, options, k + 1) ==
            ProcessedKeys(m, options, k) + (if Skipped(m, k) then {} else {Str(OutputKey(m.desc.fields[k], options))})
  {
    var a := ProcessedKeys(m, options, k + 1);
    var b := ProcessedKeys(m, options, k) + (if Skipped(m, k) then {} else {Str(OutputKey(m.desc.fields[k], options))});
    forall x | x in a ensures x in b {
      var j :| 0 <= j < k + 1 && !Skipped(m, j) && x == Str(OutputKey(m.desc.fields[j], options));
      if j < k {
        assert x in ProcessedKeys(m, options, k);
      }
    }
    forall x | x in b ensures x in a {
      if x in ProcessedKeys(m, options, k) {
        var j :| 0 <= j < k && !Skipped(m, j) && x == Str(OutputKey(m.desc.fields[j], options));
        assert x in a;
      }
    }
  }

  /** The walk is still running after `k` fields exactly when every earlier field it does not skip converted. */
  lemma {:induction false} WalkRunningIff(m: Message, options: PBOptions, table: FromPbFunctionMap, k: nat)
    requires WellFormed(m) && k <= |m.desc.fields|
    ensures Walk(m, options, table, k).Running? <==> PrefixConverts(m, options, table, k)
  {
    if k > 0 {
      WalkRunningIff(m, options, table, k - 1);
      if !Walk(m, options, table, k - 1).Running? {
        assert !PrefixConverts(m, options, table, k - 1);
      }
    }
  }

  /**
   * A running walk's mapping holds exactly the output keys of the fields it did not skip,
   * and a stopped walk's holds no key beyond them.
   */
  lemma {:induction false} WalkKeys(m: Message, options: PBOptions, table: FromPbFunctionMap, k: nat)
    requires WellFormed(m) && k <= |m.desc.fields|
    ensures Walk(m, options, table, k).Running? ==> Walk(m, options, table, k).dict.Keys == ProcessedKeys(m, options, k)
    ensures Walk(m, options, table, k).Stopped? ==> Walk(m, options, table, k).dict.Keys <= ProcessedKeys(m, options, k)
  {
    if k > 0 {
      WalkKeys(m, options, table, k - 1);
      ProcessedKeysStep(m, options, k - 1);
    }
  }

  /** The shape of the walk after `k` fields: when it is running, and which keys its mapping holds. */
  lemma WalkShape(m: Message, options: PBOptions, table: FromPbFunctionMap, k: nat)
    requires WellFormed(m) && k <= |m.desc.fields|
    ensures Walk(m, options, table, k).Running? <==> PrefixConverts(m, options, table, k)
    ensures Walk(m, options, table, k).Running? ==> Walk(m, options, table, k).dict.Keys == ProcessedKeys(m, options, k)
    ensures Walk(m, options, table, k).Stopped? ==> Walk(m, options, table, k).dict.Keys <= ProcessedKeys(m, options, k)
  {
    WalkRunningIff(m, options, table, k);
    WalkKeys(m, options, table, k);
  }

  /**
   * In a running walk, each converted field sits under its output key with the value its
   * conversion produced (output keys being distinct, no later field overwrites it).
   */
  lemma {:induction false} WalkValues(m: Message, options: PBOptions, table: FromPbFunctionMap, k: nat)
    requires WellFormed(m) && k <= |m.desc.fields| && DistinctOutputKeys(m.desc, options)
    ensures Walk(m, options, table, k).Running? ==>
      forall j :: 0 <= j < k && !Skipped(m, j) && m.desc.fields[j].cppType in table ==>
        Str(OutputKey(m.desc.fields[j], options)) in Walk(m, options, table, k).dict &&
        Walk(m, options, table, k).dict[Str(OutputKey(m.desc.fields[j], options))] == FieldResult(m, options, table, j).1
  {
    if k > 0 {
      WalkValues(m, options, table, k - 1);
      var s := Walk(m, options, table, k - 1);
      if Walk(m, options, table, k).Running? {
        assert s.Running?;
        forall j | 0 <= j < k - 1 && !Skipped(m, j) && m.desc.fields[j].cppType in table
          ensures OutputKey(m.desc.fields[j], options) != OutputKey(m.desc.fields[k - 1], options)
        {
        }
      }
    }
  }

  /**
   * A field that is optional, not set and has no default gets no entry in the output
   * mapping, whether the walk completes or stops.
   */
  lemma SkippedFieldOmitted(m: Message, options: PBOptions, table: FromPbFunctionMap, i: nat)
    requires WellFormed(m) && i < |m.desc.fields| && DistinctOutputKeys(m.desc, options)
    requires m.desc.fields[i].cardinality == Optional && !HasField(m, i) && !m.desc.fields[i].hasDefault
    ensures FromPbSpec(m, options, table).1.Dict? ==>
              Str(OutputKey(m.desc.fields[i], options)) !in FromPbSpec(m, options, table).1.entries
  {
    var n := |m.desc.fields|;
    WalkShape(m, options, table, n);
  }

  /**
   * When every field the walk does not skip converts, the result is success with a mapping
   * that holds exactly those fields, each under its JSON name if `use_camelcase` is set and
   * its declared name otherwise, with the value its conversion produced.
   */
  lemma ConvertedFieldsPresent(m: Message, options: PBOptions, table: FromPbFunctionMap)
    requires WellFormed(m) && DistinctOutputKeys(m.desc, options)
    requires PrefixConverts(m, options, table, |m.desc.fields|)
    ensures !Failing(FromPbSpec(m, options, table).0)
    ensures FromPbSpec(m, options, table).1.Dict?
    ensures FromPbSpec(m, options, table).1.entries.Keys == ProcessedKeys(m, options, |m.desc.fields|)
    ensures forall j :: 0 <= j < |m.desc.fields| && !Skipped(m, j) && m.desc.fields[j].cppType in table ==>
      var f := m.desc.fields[j];
      (if options.useCamelcase then Str(f.jsonName) else Str(f.name)) in FromPbSpec(m, options, table).1.entries &&
      FromPbSpec(m, options, table).1.entries[if options.useCamelcase then Str(f.jsonName) else Str(f.name)] ==
        FieldResult(m, options, table, j).1
  {
    var n := |m.desc.fields|;
    WalkShape(m, options, table, n);
    WalkValues(m, options, table, n);
    var s := Walk(m, options, table, n);
    assert s.Running?;
    if n > 0 {
      LastStatusConverted(m, options, table, n);
    }
  }

  /** A running walk's status is not failing. */
  lemma {:induction false} LastStatusConverted(m: Message, options: PBOptions, table: FromPbFunctionMap, k: nat)
    requires WellFormed(m) && k <= |m.desc.fields|
    ensures Walk(m, options, table, k).Running? ==> !Failing(Walk(m, options, table, k).last)
  {
    if k > 0 {
      LastStatusConverted(m, options, table, k - 1);
    }
  }

  /**
   * A field that is not skipped and whose kind has no table entry makes the whole walk
   * return `kNoConvertFunction` with a nil container, when every earlier field converted.
   */
  lemma UnsupportedFieldAborts(m: Message, options: PBOptions, table: FromPbFunctionMap, i: nat)
    requires WellFormed(m) && i < |m.desc.fields|
    requires PrefixConverts(m, options, table, i)
    requires !Skipped(m, i) && m.desc.fields[i].cppType !in table
    ensures FromPbSpec(m, options, table) == (NoConvertCode, Nil)
  {
    WalkShape(m, options, table, i);
    WalkStaysDone(m, options, table, i + 1, |m.desc.fields|);
  }

  /** Conversely, a nil container comes only from such a field. */
  lemma UnconvertibleHasCause(m: Message, options: PBOptions, table: FromPbFunctionMap)
    requires WellFormed(m)
    requires FromPbSpec(m, options, table).1 == Nil
    ensures FromPbSpec(m, options, table).0 == NoConvertCode
    ensures exists i :: 0 <= i < |m.desc.fields| && PrefixConverts(m, options, table, i) &&
                        !Skipped(m, i) && m.desc.fields[i].cppType !in table
  {
    var i := FirstUnconvertible(m, options, table, |m.desc.fields|);
    WalkShape(m, options, table, i);
  }

  /** The field at which an aborted walk aborted. */
  lemma {:induction false} FirstUnconvertible(m: Message, options: PBOptions, table: FromPbFunctionMap, k: nat) returns (i: nat)
    requires WellFormed(m) && k <= |m.desc.fields|
    requires Walk(m, options, table, k).Unconvertible?
    ensures i < k && Walk(m, options, table, i).Running? && !Skipped(m, i) && m.desc.fields[i].cppType !in table
  {
    if Walk(m, options, table, k - 1).Unconvertible? {
      i := FirstUnconvertible(m, options, table, k - 1);
    } else {
      i := k - 1;
    }
  }

  /**
   * A failing singular field ends the walk: the result carries that field's status and a
   * mapping holding only the fields before it, which is the running walk's mapping at that
   * field; no later field is added.
   */
  lemma FailingSingularFieldStops(m: Message, options: PBOptions, table: FromPbFunctionMap, i: nat)
    requires WellFormed(m) && i < |m.desc.fields|
    requires PrefixConverts(m, options, table, i)
    requires !Skipped(m, i) && m.desc.fields[i].cppType in table && m.desc.fields[i].cardinality != Repeated
    requires Failing(table[m.desc.fields[i].cppType](Context(m, i, options, None)).0)
    ensures FromPbSpec(m, options, table).0 == table[m.desc.fields[i].cppType](Context(m, i, options, None)).0
    ensures FromPbSpec(m, options, table).1.Dict?
    ensures FromPbSpec(m, options, table).1.entries.Keys == ProcessedKeys(m, options, i)
    ensures Walk(m, options, table, i).Running?
    ensures FromPbSpec(m, options, table).1 == Dict(Walk(m, options, table, i).dict)
  {
    WalkRunningIff(m, options, table, i);
    WalkShape(m, options, table, i);
    WalkStaysDone(m, options, table, i + 1, |m.desc.fields|);
  }

  /**
   * A repeated field with a table entry never stops the walk: it yields `SUCCESS` and a
   * container, a mapping for a map field and an array otherwise, empty when the field has
   * no elements.
   */
  lemma RepeatedFieldSucceeds(m: Message, options: PBOptions, table: FromPbFunctionMap, i: nat)
    requires WellFormed(m) && i < |m.desc.fields| && m.desc.fields[i].cppType in table
    requires m.desc.fields[i].cardinality == Repeated
    ensures FieldResult(m, options, table, i).0 == SuccessCode && !Failing(FieldResult(m, options, table, i).0)
    ensures m.desc.fields[i].isMap ==> FieldResult(m, options, table, i).1.Dict?
    ensures !m.desc.fields[i].isMap ==> FieldResult(m, options, table, i).1.Array?
    ensures FieldSize(m, i) == 0 ==> FieldResult(m, options, table, i).1 == EmptyContainer(m.desc.fields[i].isMap)
  {
  }

  /** Once an element has failed, later elements change nothing. */
  lemma {:induction false} FoldStaysBroken(isMap: bool, es: seq<ElementOutcome>, j: nat, k: nat)
    requires j <= k <= |es|
    requires Fold(isMap, es[..j]).Broken?
    ensures Fold(isMap, es[..k]) == Fold(isMap, es[..j])
    decreases k
  {
    if k > j {
      assert es[..k][..k - 1] == es[..k - 1];
      FoldStaysBroken(isMap, es, j, k - 1);
    }
  }

  /** The loop after `k + 1` outcomes is one step on from the loop after `k`. */
  lemma FoldStep(isMap: bool, es: seq<ElementOutcome>, k: nat)
    requires k < |es|
    ensures var s := Fold(isMap, es[..k]);
      Fold(isMap, es[..k + 1]) ==
        (if s.Broken? then s
         else if Failing(es[k].0) then Broken(s.container)
         else if isMap then Collecting(DictAdd(s.container, es[k].1, es[k].2))
         else Collecting(ArrayAdd(s.container, es[k].2)))
  {
    assert es[..k + 1][..k] == es[..k];
  }

  /** How many of the outcomes `es` succeed before the first that fails. */
  function Leading(es: seq<ElementOutcome>): (n: nat)
    ensures n <= |es|
    ensures forall j :: 0 <= j < n ==> !Failing(es[j].0)
    ensures n < |es| ==> Failing(es[n].0)
    decreases |es|
  {
    if |es| == 0 then 0
    else
      var p := Leading(es[..|es| - 1]);
      if p == |es| - 1 && !Failing(es[|es| - 1].0) then |es| else p
  }

  /** The loop is still collecting after `es` exactly when none of them failed. */
  lemma {:induction false} FoldStatus(isMap: bool, es: seq<ElementOutcome>)
    ensures Fold(isMap, es).Collecting? <==> Leading(es) == |es|
    decreases |es|
  {
    if |es| > 0 {
      FoldStatus(isMap, es[..|es| - 1]);
    }
  }

  /** The container after `es` is the one built from the outcomes before the first failure. */
  lemma {:induction false} FoldTruncates(isMap: bool, es: seq<ElementOutcome>)
    ensures Fold(isMap, es[..Leading(es)]).Collecting?
    ensures Fold(isMap, es).container == Fold(isMap, es[..Leading(es)]).container
    decreases |es|
  {
    if |es| > 0 {
      var p := es[..|es| - 1];
      FoldTruncates(isMap, p);
      FoldStatus(isMap, p);
      FoldStatus(isMap, es);
      var n := Leading(es);
      if n == |es| {
        assert es[..n] == es;
      } else {
        assert es[..n] == p[..n];
        if Fold(isMap, p).Collecting? {
          assert p[..|p|] == p;
        }
      }
    }
  }

  /** Without failures, the array holds every outcome's value in order. */
  lemma {:induction false} FoldArrayAll(es: seq<ElementOutcome>)
    requires forall j :: 0 <= j < |es| ==> !Failing(es[j].0)
    ensures Fold(false, es).Collecting?
    ensures var items := Fold(false, es).container.items;
      |items| == |es| && forall j :: 0 <= j < |es| ==> items[j] == es[j].2
    decreases |es|
  {
    if |es| > 0 {
      FoldArrayAll(es[..|es| - 1]);
    }
  }

  /** The keys of the outcomes `es`. */
  ghost function KeysOf(es: seq<ElementOutcome>): set<Object>
  {
    set j | 0 <= j < |es| :: es[j].1
  }

  /** No outcome after position `j` carries the key of outcome `j`. */
  ghost predicate LastWithKey(es: seq<ElementOutcome>, j: nat)
    requires j < |es|
  {
    forall j' :: j < j' < |es| ==> es[j'].1 != es[j].1
  }

  lemma KeysOfStep(es: seq<ElementOutcome>)
    requires |es| > 0
    ensures KeysOf(es) == KeysOf(es[..|es| - 1]) + {es[|es| - 1].1}
  {
    var p := es[..|es| - 1];
    forall x | x in KeysOf(es) ensures x in KeysOf(p) + {es[|es| - 1].1} {
      var j :| 0 <= j < |es| && x == es[j].1;
      if j < |p| {
        assert p[j] == es[j];
      }
    }
    forall x | x in KeysOf(p) ensures x in KeysOf(es) {
      var j :| 0 <= j < |p| && x == p[j].1;
      assert es[j] == p[j];
    }
    assert es[|es| - 1].1 in KeysOf(es);
  }

  /** Without failures, the mapping holds exactly the outcomes' keys. */
  lemma {:induction false} FoldMapKeys(es: seq<ElementOutcome>)
    requires forall j :: 0 <= j < |es| ==> !Failing(es[j].0)
    ensures Fold(true, es).Collecting?
    ensures Fold(true, es).container.entries.Keys == KeysOf(es)
    decreases |es|
  {
    if |es| > 0 {
      FoldMapKeys(es[..|es| - 1]);
      KeysOfStep(es);
    }
  }

  /** Without failures, each key of the mapping holds the value of the last outcome carrying it. */
  lemma {:induction false} FoldMapValues(es: seq<ElementOutcome>)
    requires forall j :: 0 <= j < |es| ==> !Failing(es[j].0)
    ensures forall j :: 0 <= j < |es| && LastWithKey(es, j) ==>
      es[j].1 in Fold(true, es).container.entries && Fold(true, es).container.entries[es[j].1] == es[j].2
    decreases |es|
  {
    if |es| > 0 {
      var p := es[..|es| - 1];
      FoldMapValues(p);
      FoldStatus(true, p);
      var last := es[|es| - 1];
      var prev := Fold(true, p).container;
      var c := Fold(true, es).container;
      assert c == DictAdd(prev, last.1, last.2);
      forall j | 0 <= j < |p| && LastWithKey(es, j)
        ensures es[j].1 in c.entries && c.entries[es[j].1] == es[j].2
      {
        assert last.1 != es[j].1;
        assert p[j] == es[j];
        assert LastWithKey(p, j) by {
          forall j' | j < j' < |p| ensures p[j'].1 != p[j].1 {
            assert p[j'] == es[j'];
          }
        }
      }
    }
  }

  /**
   * The array of a repeated non-map field holds, in index order, the values of its elements
   * up to the first that fails; a failing element ends the array there. A scalar element is
   * converted with its own index in the context, a message element by the walk itself.
   */
  lemma RepeatedArrayContents(m: Message, options: PBOptions, table: FromPbFunctionMap, i: nat)
    requires WellFormed(m) && i < |m.desc.fields| && m.desc.fields[i].cppType in table
    requires m.desc.fields[i].cardinality == Repeated && !m.desc.fields[i].isMap
    ensures var items := FieldResult(m, options, table, i).1.items;
      && |items| == Leading(Elements(m, options, table, i)) <= FieldSize(m, i)
      && (forall j :: 0 <= j < |items| ==>
            !Failing(ElementResult(m, options, table, i, j).0) && items[j] == ElementResult(m, options, table, i, j).2)
      && (|items| < FieldSize(m, i) ==> Failing(ElementResult(m, options, table, i, |items|).0))
    ensures var items := FieldResult(m, options, table, i).1.items;
      m.desc.fields[i].cppType != CppMessage ==>
        forall j :: 0 <= j < |items| ==> items[j] == table[m.desc.fields[i].cppType](Context(m, i, options, Some(j))).1
    ensures var items := FieldResult(m, options, table, i).1.items;
      m.desc.fields[i].cppType == CppMessage ==>
        forall j :: 0 <= j < |items| ==> items[j] == FromPbSpec(m.values[i].elems[j].msg, options, table).1
  {
    var es := Elements(m, options, table, i);
    FoldTruncates(false, es);
    FoldArrayAll(es[..Leading(es)]);
  }

  /**
   * The mapping of a map field holds the keys of its entries up to the first entry that
   * fails (a failing key or value, or one without a conversion function), each with the
   * value of the last such entry carrying that key.
   */
  lemma RepeatedMapContents(m: Message, options: PBOptions, table: FromPbFunctionMap, i: nat)
    requires WellFormed(m) && i < |m.desc.fields| && m.desc.fields[i].cppType in table
    requires m.desc.fields[i].cardinality == Repeated && m.desc.fields[i].isMap
    ensures var entries := FieldResult(m, options, table, i).1.entries;
      var decoded := Elements(m, options, table, i)[..Leading(Elements(m, options, table, i))];
      && entries.Keys == KeysOf(decoded)
      && forall j :: 0 <= j < |decoded| && LastWithKey(decoded, j) ==>
           && !Failing(ElementResult(m, options, table, i, j).0)
           && ElementResult(m, options, table, i, j).1 in entries
           && entries[ElementResult(m, options, table, i, j).1] == ElementResult(m, options, table, i, j).2
    ensures Leading(Elements(m, options, table, i)) < FieldSize(m, i) ==>
      Failing(ElementResult(m, options, table, i, Leading(Elements(m, options, table, i))).0)
  {
    var es := Elements(m, options, table, i);
    FoldTruncates(true, es);
    FoldMapKeys(es[..Leading(es)]);
    FoldMapValues(es[..Leading(es)]);
  }

  /**
   * In a map field, every entry before the first failing one had its key and its value
   * converted by the table: the element's key is the key conversion's object and its value is
   * the value conversion's object, which is what `RepeatedMapContents` puts in the mapping.
   */
  lemma RepeatedMapObjects(m: Message, options: PBOptions, table: FromPbFunctionMap, i: nat)
    requires WellFormed(m) && i < |m.desc.fields| && m.desc.fields[i].cppType == CppMessage && CppMessage in table
    requires m.desc.fields[i].cardinality == Repeated && m.desc.fields[i].isMap
    ensures forall j :: 0 <= j < Leading(Elements(m, options, table, i)) ==>
      var entry := m.values[i].elems[j].msg;
      var keyType := entry.desc.fields[EntryField(entry, "key")].cppType;
      var valueType := entry.desc.fields[EntryField(entry, "value")].cppType;
      && keyType in table && valueType in table
      && ElementResult(m, options, table, i, j).1 == table[keyType](Context(entry, EntryField(entry, "key"), options, None)).1
      && ElementResult(m, options, table, i, j).2 == table[valueType](Context(entry, EntryField(entry, "value"), options, None)).1
  {
    var es := Elements(m, options, table, i);
    forall j | 0 <= j < Leading(es)
      ensures var entry := m.values[i].elems[j].msg;
        var keyType := entry.desc.fields[EntryField(entry, "key")].cppType;
        var valueType := entry.desc.fields[EntryField(entry, "value")].cppType;
        && keyType in table && valueType in table
        && ElementResult(m, options, table, i, j).1 == table[keyType](Context(entry, EntryField(entry, "key"), options, None)).1
        && ElementResult(m, options, table, i, j).2 == table[valueType](Context(entry, EntryField(entry, "value"), options, None)).1
    {
      assert !Failing(es[j].0);
      EntryConverted(m.values[i].elems[j].msg, options, table);
    }
  }

  /**
   * A map field whose entries all convert, key and value, yields a mapping keyed by every
   * entry's converted key: the element loop runs to the end.
   */
  lemma RepeatedMapAllConverted(m: Message, options: PBOptions, table: FromPbFunctionMap, i: nat)
    requires WellFormed(m) && i < |m.desc.fields| && m.desc.fields[i].cppType == CppMessage && CppMessage in table
    requires m.desc.fields[i].cardinality == Repeated && m.desc.fields[i].isMap
    requires forall j :: 0 <= j < FieldSize(m, i) ==>
      var entry := m.values[i].elems[j].msg;
      var keyType := entry.desc.fields[EntryField(entry, "key")].cppType;
      var valueType := entry.desc.fields[EntryField(entry, "value")].cppType;
      && keyType in table && valueType in table
      && !Failing(table[keyType](Context(entry, EntryField(entry, "key"), options, None)).0)
      && !Failing(table[valueType](Context(entry, EntryField(entry, "value"), options, None)).0)
    ensures Leading(Elements(m, options, table, i)) == FieldSize(m, i)
    ensures forall j :: 0 <= j < FieldSize(m, i) ==>
      var entry := m.values[i].elems[j].msg;
      var keyType := entry.desc.fields[EntryField(entry, "key")].cppType;
      table[keyType](Context(entry, EntryField(entry, "key"), options, None)).1 in FieldResult(m, options, table, i).1.entries
  {
    var es := Elements(m, options, table, i);
    forall j | 0 <= j < |es| ensures !Failing(es[j].0) {
      EntryConverted(m.values[i].elems[j].msg, options, table);
    }
    assert Leading(es) == |es|;
    RepeatedMapContents(m, options, table, i);
    assert es[..Leading(es)] == es;
    forall j | 0 <= j < |es|
      ensures var entry := m.values[i].elems[j].msg;
        var keyType := entry.desc.fields[EntryField(entry, "key")].cppType;
        table[keyType](Context(entry, EntryField(entry, "key"), options, None)).1 in FieldResult(m, options, table, i).1.entries
    {
      EntryConverted(m.values[i].elems[j].msg, options, table);
      assert es[j].1 in KeysOf(es);
    }
  }

  /**
   * A map entry decodes without failure exactly when both the key's and the value's kinds
   * have conversion functions and both conversions succeed; the result then carries the
   * value's status, the key's object and the value's object. A missing conversion function,
   * for the key or, once the key has converted, for the value, yields `kNoConvertFunction`
   * with two nils.
   */
  lemma EntryConverted(entry: Message, options: PBOptions, table: FromPbFunctionMap)
    requires IsMapEntry(entry.desc)
    ensures !Failing(FromPbEntry(entry, options, table).0) ==>
      var keyType := entry.desc.fields[EntryField(entry, "key")].cppType;
      var valueType := entry.desc.fields[EntryField(entry, "value")].cppType;
      && keyType in table && valueType in table
      && !Failing(table[keyType](Context(entry, EntryField(entry, "key"), options, None)).0)
      && FromPbEntry(entry, options, table).1 == table[keyType](Context(entry, EntryField(entry, "key"), options, None)).1
      && FromPbEntry(entry, options, table).2 == table[valueType](Context(entry, EntryField(entry, "value"), options, None)).1
      && FromPbEntry(entry, options, table).0 == table[valueType](Context(entry, EntryField(entry, "value"), options, None)).0
    ensures var keyType := entry.desc.fields[EntryField(entry, "key")].cppType;
      var valueType := entry.desc.fields[EntryField(entry, "value")].cppType;
      keyType in table && valueType in table
      && !Failing(table[keyType](Context(entry, EntryField(entry, "key"), options, None)).0) && !Failing(table[valueType](Context(entry, EntryField(entry, "value"), options, None)).0) ==>
        !Failing(FromPbEntry(entry, options, table).0)
    ensures var keyType := entry.desc.fields[EntryField(entry, "key")].cppType;
      var valueType := entry.desc.fields[EntryField(entry, "value")].cppType;
      keyType !in table || (!Failing(table[keyType](Context(entry, EntryField(entry, "key"), options, None)).0) && valueType !in table) ==>
        FromPbEntry(entry, options, table) == (NoConvertCode, Nil, Nil)
  {
    assert Failing(NoConvertCode) by { PBCategoryTexts(); }
  }

  /**
   * When the key fails, the value is never converted: the result is the key conversion's
   * status and object with a nil value, the same under any table that agrees on the key's
   * conversion function.
   */
  lemma EntryKeyFailureIgnoresValue(entry: Message, options: PBOptions, table: FromPbFunctionMap, other: FromPbFunctionMap)
    requires IsMapEntry(entry.desc)
    requires entry.desc.fields[EntryField(entry, "key")].cppType in table && entry.desc.fields[EntryField(entry, "key")].cppType in other
    requires table[entry.desc.fields[EntryField(entry, "key")].cppType] == other[entry.desc.fields[EntryField(entry, "key")].cppType]
    requires Failing(table[entry.desc.fields[EntryField(entry, "key")].cppType](Context(entry, EntryField(entry, "key"), options, None)).0)
    ensures FromPbEntry(entry, options, table) == FromPbEntry(entry, options, other)
    ensures FromPbEntry(entry, options, table).2 == Nil
    ensures var keyResult := table[entry.desc.fields[EntryField(entry, "key")].cppType](Context(entry, EntryField(entry, "key"), options, None));
      FromPbEntry(entry, options, table).0 == keyResult.0 && FromPbEntry(entry, options, table).1 == keyResult.1
  {
  }
}

# PBConvertFramework core in Dafny

This project models the core of PBConvertFramework, a C++ library that converts protobuf messages into host-side dynamic values (a mapping of field names to values). It covers four parts:

- **The error model of `magic`.** This is the `CommonError` enumeration and its category `ShellapiCommonError`. It also covers `ErrorCode`, which is a `std::error_code` with a custom message and a custom category name. The accessors fill both in lazily. The model covers the three constructors and `operator==`/`operator!=`.
- **The protobuf error set.** This is the `PBError` enumeration (codes 100–106) and its category `ShellapiPBError`.
- **The serializer.** That is `from_pb`, the reflective decode walk over a message's fields in declaration order. It covers a dispatch table of conversion functions keyed by `CppType`, repeated fields, map entries decoded key first, and the two descriptor-pool entry points (`from_pb` on serialized bytes and `from_default_pb`). It also covers the helpers `find_field`, `MakeErrorCode` (annotating a failing code with its message type and field, once) and `AddWarnningField`.
- **Type names and `TypeInfo`.** `MakeTypeName<T>` strips a reference and the cv-qualifiers. It then names the type by recursion over its template arguments. In the string-compare mode, `TypeInfo`, `operator==` and `TypeCast` compare these names.

Modules, one per file:

| file | module | models |
|---|---|---|
| `wrappers.dfy` | `Wrappers` | `Option` for a pointer that may be null or a lookup that may miss |
| `error_code.dfy` | `ErrorCodes` | `src/magic/error_code.h`, `src/magic/error_code.cc` |
| `pb_errors.dfy` | `PbErrors` | `PBError` and `PBErrorCategory` (`src/serializer/pb_serializer.h`, `.cc`) |
| `protobuf.dfy` | `Protobuf` | what the core reads through protobuf reflection: descriptors, fields, message values |
| `dynamic.dfy` | `Dynamic` | the dynamic host value, with `DictWrapper::Add` and `ArrayWrapper::Add` |
| `pb_helpers.dfy` | `PbHelpers` | `find_field`, `MakeErrorCode`, `AddWarnningField` (`src/serializer/pb_serializer.cc`) |
| `pb_decode.dfy` | `PbDecode` | the `from_pb` templates and `from_default_pb` (`src/serializer/pb_serializer.h`) |
| `type_info.dfy` | `TypeInfos` | `src/magic/type_info.h` |

How the decode walk is modelled:

- The specification functions are `Walk`, a left fold over the fields; `FieldResult`; `Elements` and `Fold`, the element loop of a repeated field; `ElementResult`; `FromPbEntry`; and `FromPbSpec`.
- The methods `FromPb`, `FromPbField`, `FromPbRepeated` and `FromPbElement` keep the source's loops, with their `continue`, `break` and early returns. Each is proved to compute its specification function.
- The lemmas state what the walk promises about the mapping it returns.
- `ErrorCode` is a value. The lazy cache writes of `message()` and `category()` are functions that return the new state; apart from `set_message`, nothing in the source changes a filled cache, and a cache an accessor filled holds what that accessor would compute again; where the write lands is therefore not observable.

Some points where the code behaves differently from what a reader might expect. The model follows the code in each case:

- When a singular field fails, the walk stops and returns that field's status together with the mapping built so far. It does not return an empty result (`FailingSingularFieldStops`).
- A field whose `CppType` has no conversion function aborts the walk with `kNoConvertFunction` and a nil object (`UnsupportedFieldAborts`).
- The repeated branch always resets the status to `SUCCESS`. A failing element of a repeated field therefore only truncates the container, and no error is reported for it. This includes a map entry whose key or value kind has no conversion function (`RepeatedFieldSucceeds`, `RepeatedArrayContents`, `RepeatedMapContents`).
- `TypeInfo::operator bool` is true when the stored pointer is null (`TypeInfos.AsBool`).
- A map type's name puts the key's name and the value's name side by side with no separator. So `map<Tag, SetName>` and `map<TagSet, Name>` get the same name, and `TypeCast` accepts one for the other (`MapNamesAmbiguous`, `MapCastConfusion`).
- In `src/magic/type_info.h`, `MakeTypeInfo` calls `detial::MakeTypeName` and `detial::MakeTypeId`. No such namespace exists. The model calls the `detail` functions that were evidently meant.

## Model

| member | source | states |
|---|---|---|
| ErrorCodes.CommonValuesLaidOut | src/magic/error_code.h:71-86 | `UNKNOWN` is -1, `SUCCESS` is 0, and the twelve enumerators after it count up from 1, ending with `END` = 12 |
| ErrorCodes.CommonValueInjective | src/magic/error_code.h:71-86 | two enumerators have the same integer exactly when they are the same enumerator |
| ErrorCodes.CommonCategoryTexts | src/magic/error_code.cc:10-33 | the category is named "ShellapiCommonError"; `message(code)` is non-empty exactly for codes -1..11, is "Success!" for 0 and "Unknown error!" for -1, and is "" for `END` |
| ErrorCodes.FromCommon | src/magic/error_code.cc:35-37 | a `CommonError` becomes a code with that enumerator's integer in the common category; it fails exactly when the enumerator is not `SUCCESS` |
| ErrorCodes.CacheMessage | src/magic/error_code.cc:56-61 | after `message()` the custom message holds what `message()` returned; value, category and category name are unchanged |
| ErrorCodes.MessageCacheStable | src/magic/error_code.cc:56-61 | a second `message()` returns the same text and writes nothing more |
| ErrorCodes.CacheCategory | src/magic/error_code.cc:63-68 | after `category()` the cached name holds what `category()` returned; everything else is unchanged |
| ErrorCodes.CategoryCacheStable | src/magic/error_code.cc:63-68 | `category()` is stable under a second call and does not change what `message()` returns |
| ErrorCodes.SetMessage | src/magic/error_code.cc:70-72 | `set_message` changes only the custom message; afterwards `message()` returns the new text, or the category's text when the new text is empty |
| ErrorCodes.FromBool | src/magic/error_code.cc:45-47 | `true` is `SUCCESS` (0, not failing, "Success!"); `false` is `UNKNOWN` (-1, failing, "Unknown error!") |
| ErrorCodes.Quoted | src/magic/error_code.cc:39-43 | takes the other code's value and category, fails exactly when it does, has the message `"<additional>" <other message>`, and does not copy the custom category name |
| ErrorCodes.WithCustomText | src/magic/error_code.cc:49-54 | any integer is taken as a `CommonError`, so it lands in the common category; `message()` and `category()` return the custom strings when they are non-empty |
| ErrorCodes.EqualCharacterized | src/magic/error_code.cc:74-84 | for a non-failing left side, `==` holds exactly when the right side does not fail; for a failing one, exactly when the values agree and the category names or the categories agree; `==` is reflexive and symmetric, and `!=` is its negation |
| ErrorCodes.SuccessesAreEqual | src/magic/error_code.cc:74-77 | any two codes with value 0 are `==`, whatever their categories and messages, and both are `==` to `SUCCESS` and to a default code |
| ErrorCodes.CustomZeroIsSuccess | src/magic/error_code.h:31 | a custom enumerator with value 0 does not fail and is `==` to `SUCCESS`, which is why a custom code must not be 0 |
| ErrorCodes.EqualNotTransitive | src/magic/error_code.cc:74-80 | `==` is not transitive among constructible codes: `ErrorCode(5, "", "A")` == `ErrorCode(5, "", "B")` (same base), which == the `std::error_code` 5 of a category named "B" (same category name), yet the first is not == the third |
| PbErrors.PBCodesConsecutive | src/serializer/pb_serializer.h:38-46 | the `PBError` codes are 100, 101, …, 106 in declaration order, and none of them is a `CommonError` value |
| PbErrors.PBCategoryTexts | src/serializer/pb_serializer.cc:10-28 | the category is named "ShellapiPBError"; `message(code)` is non-empty exactly for codes 100..106, with the listed texts |
| PbErrors.MakePBErrorCode | src/serializer/pb_serializer.cc:31-33 | a `PBError` becomes its integer in the PB category; it always fails, has a non-empty message, and its category name is "ShellapiPBError" |
| PbErrors.PBErrorCodesEqual | src/serializer/pb_serializer.cc:31-33 | two PB error codes are `==` exactly when they come from the same enumerator |
| Protobuf.FieldByName | src/serializer/pb_serializer.h:117-118 | finds the first declared field with the given name, or nothing when no field has it |
| Protobuf.DefaultMessage | src/serializer/pb_serializer.h:262-264 | a fresh instance of the prototype has the requested descriptor and no field is set (no singular value, no repeated elements) |
| Dynamic.DictAdd | src/serializer/pb_serializer.h:95-99 | `Add(key, value)` adds the key or replaces its value, and leaves every other key as it was |
| Dynamic.ArrayAdd | src/serializer/pb_serializer.h:101-105 | `Add(value)` appends the value at the end and keeps the earlier items |
| PbHelpers.FindField | src/serializer/pb_serializer.cc:35-51 | finds the declared field of that name first, then a known extension, then the first field whose JSON name matches; it returns nothing exactly when all three fail |
| PbHelpers.AnnotatedContainsMarker | src/serializer/pb_serializer.cc:56-59 | whatever it follows, the appended text contains the marker "Field: " |
| PbHelpers.MakeErrorCode | src/serializer/pb_serializer.cc:53-62 | a non-failing code comes back unchanged; a failing one without "Field: " in its message gets the annotation appended; a message already containing the marker is left as it is; value and category never change; the result of a failing code always contains the marker |
| PbHelpers.MakeErrorCodeIdempotent | src/serializer/pb_serializer.cc:56-60 | annotating an annotated code again, with any field and type, changes nothing |
| PbHelpers.MakeErrorCodeEqual | src/serializer/pb_serializer.cc:53-62 | the annotated code is `==` to the original in both directions and fails exactly when it does |
| PbHelpers.WarningFields.constructor | src/serializer/pb_serializer.h:61 | a new set of warning fields is empty |
| PbHelpers.AddWarningField | src/serializer/pb_serializer.cc:74-80 | when the set, the descriptor and the field are all present, "<full name>:<field name>" is added to the set; when the descriptor or the field is missing, the set is unchanged; adding an entry that is already there changes nothing |
| PbDecode.EntryField | src/serializer/pb_serializer.h:117-118 | a map entry's "key" and "value" fields exist, and this is the index of the first field with the requested name |
| PbDecode.EntryConverted | src/serializer/pb_serializer.h:112-147 | a map entry decodes without failure exactly when the key and the value kinds both have conversion functions and both conversions succeed; the result then has the value's status, the key conversion's object and the value conversion's object; a missing function for the key, or for the value once the key has converted, gives `kNoConvertFunction` with two nils |
| PbDecode.EntryKeyFailureIgnoresValue | src/serializer/pb_serializer.h:130-132 | when the key fails, the value is never converted: the result is the key conversion's status and object with a nil value, whatever the value's conversion function is |
| PbDecode.Fold | src/serializer/pb_serializer.h:183-214 | the element loop builds a mapping for a map field and an array otherwise |
| PbDecode.FromPb | src/serializer/pb_serializer.h:149-227 | the loop over the fields computes exactly `FromPbSpec`, including the skip, the early return on a missing conversion function and the break on a failing field |
| PbDecode.FromPbField | src/serializer/pb_serializer.h:181-219 | the status and value of one field are those of the repeated branch or of the field's conversion function |
| PbDecode.FromPbRepeated | src/serializer/pb_serializer.h:181-216 | the element loop, with its break on a failing element and the reset to `SUCCESS`, computes exactly the repeated branch of `FieldResult` |
| PbDecode.FromPbElement | src/serializer/pb_serializer.h:188-206 | one element is decoded as a map entry, as a nested message by the walk itself, or by the table with the element's index in the context |
| PbDecode.FromPbPool | src/serializer/pb_serializer.h:229-249 | an unknown type gives `KPBMessageNotFound` and nil; bytes that do not parse give `kPBParseError` and nil; otherwise the result is the walk over the parsed message, which is of the requested type |
| PbDecode.FromDefaultPb | src/serializer/pb_serializer.h:251-267 | an unknown type gives `KPBMessageNotFound` and nil; otherwise the result is the walk over a fresh instance with every field unset |
| PbDecode.WalkStaysDone | src/serializer/pb_serializer.h:220-226 | once the walk has aborted or stopped, later fields change nothing |
| PbDecode.ProcessedKeysStep | src/serializer/pb_serializer.h:160-163 | one more field adds its output key to the keys processed so far, unless it is skipped |
| PbDecode.WalkRunningIff | src/serializer/pb_serializer.h:158-225 | the walk is still running after k fields exactly when every earlier field it did not skip has a conversion function and did not fail |
| PbDecode.WalkKeys | src/serializer/pb_serializer.h:158-225 | a running walk's mapping holds exactly the output keys of the fields it did not skip; a stopped walk's mapping holds no key beyond them |
| PbDecode.WalkValues | src/serializer/pb_serializer.h:223 | in a running walk, each converted field's output key maps to the value its conversion produced (output keys being distinct) |
| PbDecode.SkippedFieldOmitted | src/serializer/pb_serializer.h:160-163 | an optional field that is not set and has no default gets no entry in the result, whether the walk completes or stops |
| PbDecode.ConvertedFieldsPresent | src/serializer/pb_serializer.h:174-226 | when every field that is not skipped converts, the status does not fail, and the mapping holds exactly those fields, under the JSON name with `use_camelcase` and the declared name otherwise, each with its converted value |
| PbDecode.LastStatusConverted | src/serializer/pb_serializer.h:220-226 | a running walk's status is not failing |
| PbDecode.UnsupportedFieldAborts | src/serializer/pb_serializer.h:164-172 | a field that is not skipped and whose kind has no table entry makes the whole walk return `kNoConvertFunction` and nil, when every earlier field converted |
| PbDecode.UnconvertibleHasCause | src/serializer/pb_serializer.h:164-172 | conversely, a nil result comes only with `kNoConvertFunction` and from such a field |
| PbDecode.FirstUnconvertible | src/serializer/pb_serializer.h:164-172 | an aborted walk aborted at a field it reached running, that it did not skip, and whose kind has no table entry |
| PbDecode.FailingSingularFieldStops | src/serializer/pb_serializer.h:217-226 | a failing singular field ends the walk: the result has that field's status and a mapping holding exactly the output keys of the earlier fields, and which is the mapping the walk had built when it reached that field |
| PbDecode.RepeatedFieldSucceeds | src/serializer/pb_serializer.h:181-216 | a repeated field with a table entry yields `SUCCESS` and a mapping (map field) or an array (otherwise), empty when the field has no elements |
| PbDecode.FoldStaysBroken | src/serializer/pb_serializer.h:207-208 | once an element has failed, later elements change nothing |
| PbDecode.Leading | src/serializer/pb_serializer.h:207-208 | the number of elements before the first failing one: all of them succeed, and the next one, if any, fails |
| PbDecode.FoldStatus | src/serializer/pb_serializer.h:207-208 | the loop runs to the end exactly when no element fails |
| PbDecode.FoldTruncates | src/serializer/pb_serializer.h:187-214 | the container is the one built from the elements before the first failure |
| PbDecode.FoldArrayAll | src/serializer/pb_serializer.h:211-212 | without failures, the array holds every element's value, in order |
| PbDecode.FoldMapKeys | src/serializer/pb_serializer.h:209-210 | without failures, the mapping holds exactly the elements' keys |
| PbDecode.FoldMapValues | src/serializer/pb_serializer.h:209-210 | without failures, each key maps to the value of the last element carrying it |
| PbDecode.RepeatedArrayContents | src/serializer/pb_serializer.h:187-216 | a repeated non-map field's array holds, in index order, the values of its elements before the first failing one; a scalar element is converted with its own index in the context, and a message element by the walk itself |
| PbDecode.RepeatedMapContents | src/serializer/pb_serializer.h:187-216 | a map field's mapping holds exactly the keys of its entries before the first failing one, each with the value of the last entry carrying it; the entry at that point, if any, failed |
| PbDecode.RepeatedMapObjects | src/serializer/pb_serializer.h:189-196 | in a map field, each entry before the first failing one is given a key that is the key conversion's object and a value that is the value conversion's object of that entry |
| PbDecode.RepeatedMapAllConverted | src/serializer/pb_serializer.h:187-216 | a map field whose entries all convert, key and value, is looped over to the end, and its mapping holds every entry's converted key |
| TypeInfos.StripCv | src/magic/type_info.h:98 | the result has no const or volatile qualifier at the top, and a type without one is unchanged |
| TypeInfos.StripCvNameIsStripCv | src/magic/type_info.h:98 | naming through the cv-stripping step is naming the cv-stripped type |
| TypeInfos.MakeTypeNameStrips | src/magic/type_info.h:96-99 | `MakeTypeName<T>` is the name of `remove_cv_t<remove_reference_t<T>>` |
| TypeInfos.QualifiersIgnored | src/magic/type_info.h:96-99 | `const T`, `volatile T`, `const volatile T`, `T&`, `T&&` and `const T&` get the same name as `T` |
| TypeInfos.UnqualifiedName | src/magic/type_info.h:96-99 | a type with no qualifier at the top is named by its own specialization |
| TypeInfos.LeafNames | src/magic/type_info.h:240-255 | a primitive is named by its spelling ("int32_t", "std::string", …); a registered user type by its spelling; an unregistered one has no name |
| TypeInfos.CompositeNames | src/magic/type_info.h:125-173 | a wrapper's name is its prefix followed by the argument's name, and a map's name is its prefix followed by the key's and the value's names; each has a name exactly when its arguments do |
| TypeInfos.WrapperOfPrefixed | src/magic/type_info.h:125-223 | the prefix of a wrapped name tells which wrapper it is |
| TypeInfos.WrapperNameInjective | src/magic/type_info.h:125-223 | equal names of two wrapped types mean the same wrapper and equally named arguments |
| TypeInfos.MapNamesAmbiguous | src/magic/type_info.h:155-163 | `map<Tag, SetName>` and `map<TagSet, Name>` both get the name "map_TagSetName" |
| TypeInfos.VariantNameSuffix | src/magic/type_info.h:225-238 | the name of the variant of the alternatives from k on is "std::variant" followed by their pieces in reverse order |
| TypeInfos.VariantNameReversed | src/magic/type_info.h:225-238 | `variant<T1, …, Tn>` is named "std::variant" followed by "_<name of Ti>" for i from n down to 1 |
| TypeInfos.VariantNamedFrom | src/magic/type_info.h:225-238 | the variant of the alternatives from k on has a name exactly when each of them has one |
| TypeInfos.VariantNamedIff | src/magic/type_info.h:225-238 | a variant has a name exactly when every alternative has one |
| TypeInfos.InfoEqualCharacterized | src/magic/type_info.h:106-123 | `==` holds exactly when both infos are non-null and hold the same name; it is symmetric, a null info equals nothing (not even itself), `!=` is its negation, and `operator bool` of a null info is true |
| TypeInfos.MadeInfoProperties | src/magic/type_info.h:267-275 | the info of a named type is non-null, so its `operator bool` is false; it equals itself and differs from a null info |
| TypeInfos.TypeCastIff | src/magic/type_info.h:303-307 | for a non-reference `T`, `TypeCast<T>` with `U`'s info returns the pointer exactly when `T` and `U` have the same name; with `T`'s own info it returns the pointer; with a null info it returns null |
| TypeInfos.TypeCastIgnoresQualifiers | src/magic/type_info.h:303-307 | a cast to `const T` or `volatile T` accepts the info of `T`, and a cast to `T` accepts the info made for `const T&` |
| TypeInfos.MapCastConfusion | src/magic/type_info.h:155-163 | a cast to `map<Tag, SetName>` accepts the info of the different type `map<TagSet, Name>` |

## Left out

- The conversion functions in the dispatch table (`from_pb<CppType, Object>`) are not in this model. The table is a parameter: a map from `CppType` to a function of the context. The model proves its properties for every table.
- Floating-point field values are not in this model. `Scalar` holds integers, booleans, strings and enum numbers.
- The protobuf library is represented by oracles. A message is its descriptor plus one value slot per field. `ParseFromArray` is a parameter `parse`. `DescriptorPool::FindMessageTypeByName` is a map from names to descriptors. `Reflection::FindKnownExtensionByName` is a map from names to fields. The wire format is not modelled.
- The encode direction (`to_pb`) and the platform adapters that supply the dynamic value type are not part of the core that this model covers. The model's `Object` stands for the host value, with `DictWrapper::Add` and `ArrayWrapper::Add` as its two operations.
- `IsMessageInitialized` and `GetPBMessage` (src/serializer/pb_serializer.cc:64-72) only forward to protobuf reflection, so they have no model.
- `PB_LOG` output and the `assert(false)` lines before the `kNoConvertFunction` returns are not modelled. Logging is I/O, and the model takes the release-build path in which the assert is compiled out. This choice is made separately from the `TypeInfo` mode. Unless `SHELL_API_TYPE_INFO_IMPL_TYPE` is predefined, src/magic/type_info.h:38-62 picks the `std::type_info` mode (0) whenever RTTI is enabled, whatever `NDEBUG` says, and picks the string-compare mode (1) only when RTTI is disabled and `NDEBUG` is undefined; in that build the `assert(false)` lines abort instead of returning `kNoConvertFunction`. The model's combination, mode 1 with the asserts compiled out, is the build that predefines `SHELL_API_TYPE_INFO_IMPL_TYPE` as 1 and defines `NDEBUG`.
- Dynamic.DictAdd, Dynamic.ArrayAdd: a conversion that succeeds with a nil object stores a `Nil` entry or item. The Objective-C adapter does otherwise: `setValue:nil forKey:` removes the key (src/serializer/pb_serializer_oc.h:63-68) and `addObject:nil` throws (src/serializer/pb_serializer_oc.h:33-35). Those platform behaviours are not modelled.
- `kPBPoolIsNull` is in the enumeration, but no modelled code produces it. A null descriptor pool cannot be expressed: the pool is a map.
- ErrorCodes.CacheMessage, ErrorCodes.CacheCategory, ErrorCodes.SetMessage: the `mutable` cache writes of `message()` and `category()`, and the write of `set_message`, are functions that return the new state. They do not update an object in place. The source does call the accessors on references, in the quoting constructor (src/magic/error_code.cc:39-43), in `operator==` and in `operator<<`, so there the cache of the caller's object is written. Apart from `set_message`, which the model applies as written, nothing in the source changes a filled cache, and a cache an accessor filled holds what that accessor would compute again, so no accessor result differs because of where the write lands. Aliasing of one `ErrorCode` object through several references is not modelled.
- `std::error_category` identity, which is object identity in C++, is equality of the modelled `Category` values.
- The system category's message texts (`strerror`) are not modelled. `SystemCategory` has no texts.
- `TypeInfo` in the `std::type_info` mode (0) and the address-compare mode (2) is not modelled. Only the string-compare mode (1) is.
- TypeInfos.TypeCast is left as a plain function without an `ensures` clause, and it requires a non-reference `T`, because `TypeCast<T&>` would return a pointer to a reference and does not compile. `TypeCastIff`, `TypeCastIgnoresQualifiers` and `MapCastConfusion` state what it does.
- Type expressions are limited to the specializations the header defines. A type without a `TypeName` specialization has no name (`None`), where the C++ program would fail to link.
- The `static` caching of composite names inside each `TypeName` specialization is not modelled. The cached name is the computed one, so this makes no difference to the results.
- PbDecode.WalkValues, PbDecode.SkippedFieldOmitted, PbDecode.ConvertedFieldsPresent: these require that no two fields share an output key. Declared field names are always unique within a message. JSON names, which are the keys under `use_camelcase`, can collide in proto2 (`foo_bar` and `fooBar`), and protobuf accepts such descriptors there. With a collision, a later field's value overwrites an earlier one's under the shared key, and these three lemmas do not cover that case.
- The insertion side effect of `operator[]` on the message-text tables is not modelled. A code the table lacks reads as "".

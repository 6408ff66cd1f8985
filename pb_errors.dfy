/** The `PBError` enumeration, its category `PBErrorCategory`, and `make_error_code(PBError)`. */
module PbErrors {
  import opened ErrorCodes

  /** The enumerators of `PBError`, in declaration order. */
  datatype PBError =
    | NoConvertFunction
    | MessageInfoError
    | GetRepeatItemError
    | NoExistAndNoDefaultValue
    | MessageNotFound
    | ParseError
    | PoolIsNull

  /** The integer each enumerator stands for: 100 for the first, then one more each. */
  function PBCode(e: PBError): int
  {
    match e
    case NoConvertFunction => 100
    case MessageInfoError => 101
    case GetRepeatItemError => 102
    case NoExistAndNoDefaultValue => 103
    case MessageNotFound => 104
    case ParseError => 105
    case PoolIsNull => 106
  }

  /** The enumerators in declaration order. */
  const AllPBErrors: seq<PBError> :=
    [NoConvertFunction, MessageInfoError, GetRepeatItemError, NoExistAndNoDefaultValue,
     MessageNotFound, ParseError, PoolIsNull]

  /** The codes start at 100 and are consecutive; none of them is a `CommonError` value. */
  lemma PBCodesConsecutive()
    ensures forall k :: 0 <= k < |AllPBErrors| ==> PBCode(AllPBErrors[k]) == 100 + k
    ensures forall e: PBError, c: CommonError :: PBCode(e) != CommonValue(c)
  {
  }

  /** The table of `PBErrorCategory::message`. */
  const PBTexts: map<int, string> := map[
    100 := "No convert function!",
    101 := "PB Message info error!",
    102 := "Get repeat item error!",
    103 := "PB field no exist and no default value!",
    104 := "PB message not found!",
    105 := "PB parse error!",
    106 := "PB pool is null!"
  ]

  /** `PBErrorCategory::instance()`. */
  const PBCategory: Category := Category("ShellapiPBError", PBTexts)

  /**
   * `PBErrorCategory::message` has a non-empty text for exactly the `PBError` codes and reads
   * "" for any other code; the category is named "ShellapiPBError".
   */
  lemma PBCategoryTexts()
    ensures PBCategory.name == "ShellapiPBError"
    ensures forall code: int :: CategoryMessage(PBCategory, code) != "" <==> 100 <= code <= 106
    ensures CategoryMessage(PBCategory, PBCode(MessageNotFound)) == "PB message not found!"
    ensures CategoryMessage(PBCategory, PBCode(ParseError)) == "PB parse error!"
    ensures CategoryMessage(PBCategory, PBCode(NoConvertFunction)) == "No convert function!"
  {
    forall code: int
      ensures CategoryMessage(PBCategory, code) != "" <==> 100 <= code <= 106
    {
      if 100 <= code <= 106 {
        assert code in PBTexts;
      }
    }
  }

  /**
   * `make_error_code(PBError)`, and the implicit conversion of a `PBError` to an `ErrorCode`:
   * the enumerator's integer in the PB category, no custom strings; it is always a failure.
   */
  function MakePBErrorCode(e: PBError): (r: ErrorCode)
    ensures r.value == PBCode(e) && r.category == PBCategory
    ensures Failing(r)
    ensures Message(r) != "" && CategoryName(r) == "ShellapiPBError"
  {
    PBCategoryTexts();
    ErrorCode(PBCode(e), PBCategory, "", "")
  }

  /** Two PB error codes are `==` exactly when they come from the same enumerator. */
  lemma PBErrorCodesEqual(e: PBError, f: PBError)
    ensures Equal(MakePBErrorCode(e), MakePBErrorCode(f)) <==> e == f
  {
  }
}

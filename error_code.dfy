/**
 * The error model of `magic`: the `CommonError` enumeration, error categories, and the
 * `ErrorCode` value, a `std::error_code` extended with a custom message and a custom
 * category name that its accessors fill in lazily.
 */
module ErrorCodes {

  /** The enumerators of `CommonError`, in declaration order. */
  datatype CommonError =
    | Unknown
    | Success
    | Failed
    | MissingArg
    | ArgTypeError
    | NoSuchMethod
    | PipelinePolicyForbidden
    | ForbiddenCallFromChildFrame
    | CorruptedData
    | UnsupportedOs
    | TooManyArgs
    | InvalidArg
    | RspTypeError
    | End

  /** The integer each enumerator stands for. */
  function CommonValue(c: CommonError): int
  {
    match c
    case Unknown => -1
    case Success => 0
    case Failed => 1
    case MissingArg => 2
    case ArgTypeError => 3
    case NoSuchMethod => 4
    case PipelinePolicyForbidden => 5
    case ForbiddenCallFromChildFrame => 6
    case CorruptedData => 7
    case UnsupportedOs => 8
    case TooManyArgs => 9
    case InvalidArg => 10
    case RspTypeError => 11
    case End => 12
  }

  /** The enumerators that follow `SUCCESS`, in declaration order. */
  const AfterSuccess: seq<CommonError> :=
    [Failed, MissingArg, ArgTypeError, NoSuchMethod, PipelinePolicyForbidden,
     ForbiddenCallFromChildFrame, CorruptedData, UnsupportedOs, TooManyArgs, InvalidArg,
     RspTypeError, End]

  /** `SUCCESS` is 0, `UNKNOWN` is -1, and the enumerators after `SUCCESS` count up from 1 to `END` = 12. */
  lemma CommonValuesLaidOut()
    ensures CommonValue(Success) == 0 && CommonValue(Unknown) == -1
    ensures |AfterSuccess| == 12 && AfterSuccess[11] == End
    ensures forall k :: 0 <= k < |AfterSuccess| ==> CommonValue(AfterSuccess[k]) == k + 1
  {
  }

  /** Distinct enumerators have distinct values, so a value names at most one enumerator. */
  lemma CommonValueInjective(c: CommonError, d: CommonError)
    ensures CommonValue(c) == CommonValue(d) <==> c == d
  {
  }

  /**
   * A `std::error_category`: its `name()` and the table behind its `message(code)`.
   * Two categories are the same category exactly when they are equal values.
   */
  datatype Category = Category(name: string, texts: map<int, string>)

  /** `message(code)` of a category: the table entry, or "" for a code the table lacks. */
  function CategoryMessage(c: Category, code: int): string
  {
    if code in c.texts then c.texts[code] else ""
  }

  /** The table of `ErrorCategory::message`. */
  const CommonTexts: map<int, string> := map[
    -1 := "Unknown error!",
    0 := "Success!",
    1 := "Failed!",
    2 := "Missing arg!",
    3 := "Arg type error!",
    4 := "No such method!",
    5 := "Pipeline policy fired, api call forbidden!",
    6 := "Current not in main frame, forbidden!",
    7 := "Corrupted data!",
    8 := "OS not supported!",
    9 := "More args than need!",
    10 := "Invalid arg!",
    11 := "Response type error!"
  ]

  /** `ErrorCategory::instance()`. */
  const CommonCategory: Category := Category("ShellapiCommonError", CommonTexts)

  /** `std::system_category()`, the category of a default-constructed `std::error_code`. */
  const SystemCategory: Category := Category("system", map[])

  /**
   * `ErrorCategory::message` has a non-empty text for exactly the codes -1 to 11; `END` and
   * every other code read as "". The category is named "ShellapiCommonError".
   */
  lemma CommonCategoryTexts()
    ensures CommonCategory.name == "ShellapiCommonError"
    ensures forall code: int :: CategoryMessage(CommonCategory, code) != "" <==> -1 <= code <= 11
    ensures CategoryMessage(CommonCategory, CommonValue(Success)) == "Success!"
    ensures CategoryMessage(CommonCategory, CommonValue(Unknown)) == "Unknown error!"
    ensures CategoryMessage(CommonCategory, CommonValue(End)) == ""
  {
    forall code: int
      ensures CategoryMessage(CommonCategory, code) != "" <==> -1 <= code <= 11
    {
      if -1 <= code <= 11 {
        assert code in CommonTexts;
      }
    }
  }

  /**
   * The state of an `ErrorCode` object: the `std::error_code` base (value and category) and
   * the two cache strings `custom_message_` and `category_name_`.
   */
  datatype ErrorCode = ErrorCode(value: int, category: Category, customMessage: string, categoryName: string)

  /** `operator bool` of `std::error_code`: true exactly when the value is not zero. */
  predicate Failing(e: ErrorCode)
  {
    e.value != 0
  }

  /** The conversion from a `CommonError` enumerator (`make_error_code`): no custom strings. */
  function FromCommon(c: CommonError): (e: ErrorCode)
    ensures e.value == CommonValue(c) && e.category == CommonCategory
    ensures Failing(e) <==> c != Success
  {
    ErrorCode(CommonValue(c), CommonCategory, "", "")
  }

  /** A default-constructed `std::error_code`: value 0 in the system category. */
  const DefaultErrorCode: ErrorCode := ErrorCode(0, SystemCategory, "", "")

  /** What `message()` returns: the custom message if there is one, else the category's text. */
  function Message(e: ErrorCode): string
  {
    if e.customMessage != "" then e.customMessage else CategoryMessage(e.category, e.value)
  }

  /** The state `message()` leaves behind: an empty cache is filled with the category's text. */
  function CacheMessage(e: ErrorCode): (c: ErrorCode)
    ensures c.value == e.value && c.category == e.category && c.categoryName == e.categoryName
    ensures c.customMessage == Message(e)
  {
    if e.customMessage == "" then e.(customMessage := CategoryMessage(e.category, e.value)) else e
  }

  /** `message()` is stable: after one call, a second call returns the same text and writes nothing. */
  lemma MessageCacheStable(e: ErrorCode)
    ensures Message(CacheMessage(e)) == Message(e)
    ensures CacheMessage(CacheMessage(e)) == CacheMessage(e)
  {
  }

  /** What `category()` returns: the custom category name if there is one, else the category's name. */
  function CategoryName(e: ErrorCode): string
  {
    if e.categoryName != "" then e.categoryName else e.category.name
  }

  /** The state `category()` leaves behind: an empty cache is filled with the category's name. */
  function CacheCategory(e: ErrorCode): (c: ErrorCode)
    ensures c.value == e.value && c.category == e.category && c.customMessage == e.customMessage
    ensures c.categoryName == CategoryName(e)
  {
    if e.categoryName == "" then e.(categoryName := e.category.name) else e
  }

  /** `category()` is stable and does not change what `message()` returns. */
  lemma CategoryCacheStable(e: ErrorCode)
    ensures CategoryName(CacheCategory(e)) == CategoryName(e)
    ensures CacheCategory(CacheCategory(e)) == CacheCategory(e)
    ensures Message(CacheCategory(e)) == Message(e)
  {
  }

  /** `set_message(message)`: overwrites the custom message, and nothing else. */
  function SetMessage(e: ErrorCode, message: string): (r: ErrorCode)
    ensures r.value == e.value && r.category == e.category && r.categoryName == e.categoryName
    ensures message != "" ==> Message(r) == message
    ensures message == "" ==> Message(r) == CategoryMessage(e.category, e.value)
  {
    e.(customMessage := message)
  }

  /** `ErrorCode(bool val)`: `true` is `SUCCESS` (0) and `false` is `UNKNOWN` (-1). */
  function FromBool(val: bool): (e: ErrorCode)
    ensures e.value == (if val then 0 else -1) && e.category == CommonCategory
    ensures Failing(e) <==> !val
    ensures Message(e) == (if val then "Success!" else "Unknown error!")
  {
    if val then FromCommon(Success) else FromCommon(Unknown)
  }

  /**
   * `ErrorCode(additional, other)`: the value and category of `other`, and the custom message
   * `"<additional>" <other.message()>`. The custom category name is not copied.
   */
  function Quoted(additional: string, other: ErrorCode): (e: ErrorCode)
    ensures e.value == other.value && e.category == other.category
    ensures Failing(e) <==> Failing(other)
    ensures Message(e) == "\"" + additional + "\" " + Message(other)
    ensures CategoryName(e) == other.category.name
  {
    ErrorCode(other.value, other.category, "\"" + additional + "\" " + Message(other), "")
  }

  /**
   * `ErrorCode(int val, message, category)`: `val` is taken as a `CommonError`, so it lands in
   * the common category whatever it is; `message` and `category` are the custom strings.
   */
  function WithCustomText(val: int, message: string, category: string): (e: ErrorCode)
    ensures e.value == val && e.category == CommonCategory
    ensures Failing(e) <==> val != 0
    ensures Message(e) == (if message != "" then message else CategoryMessage(CommonCategory, val))
    ensures CategoryName(e) == (if category != "" then category else "ShellapiCommonError")
  {
    ErrorCode(val, CommonCategory, message, category)
  }

  /** `==` of the two `std::error_code` bases: same value, same category. */
  predicate BaseEqual(a: ErrorCode, b: ErrorCode)
  {
    a.value == b.value && a.category == b.category
  }

  /**
   * `ErrorCode::operator==`. When `this` has value 0 only the other value matters; otherwise
   * the values must agree and so must either the category names or the two bases.
   */
  predicate Equal(a: ErrorCode, b: ErrorCode)
  {
    if a.value == 0 then a.value == b.value
    else (a.value == b.value && CategoryName(a) == CategoryName(b)) || BaseEqual(a, b)
  }

  /** `ErrorCode::operator!=`. */
  predicate NotEqual(a: ErrorCode, b: ErrorCode)
  {
    !Equal(a, b)
  }

  /**
   * `==` holds exactly when the values agree and, for a failing value, the category names or
   * the categories agree; it is reflexive and symmetric, and `!=` is its negation.
   */
  lemma EqualCharacterized(a: ErrorCode, b: ErrorCode)
    ensures !Failing(a) ==> (Equal(a, b) <==> !Failing(b))
    ensures Failing(a) ==> (Equal(a, b) <==> a.value == b.value && (CategoryName(a) == CategoryName(b) || a.category == b.category))
    ensures Equal(a, a)
    ensures Equal(a, b) <==> Equal(b, a)
    ensures NotEqual(a, b) <==> !Equal(a, b)
  {
  }

  /** Any two codes with value 0 are `==`, whatever their categories and messages. */
  lemma SuccessesAreEqual(a: ErrorCode, b: ErrorCode)
    requires a.value == 0 && b.value == 0
    ensures Equal(a, b) && !Failing(a)
    ensures Equal(a, FromCommon(Success)) && Equal(a, DefaultErrorCode)
  {
  }

  /**
   * Why a custom code must not be 0: a custom enumerator with value 0, in any category, is
   * not a failure and is `==` to `SUCCESS`.
   */
  lemma CustomZeroIsSuccess(category: Category, message: string, categoryName: string)
    ensures !Failing(ErrorCode(0, category, message, categoryName))
    ensures Equal(ErrorCode(0, category, message, categoryName), FromCommon(Success))
  {
  }

  /**
   * `==` is not transitive, even among codes the constructors build. Two codes made by
   * `ErrorCode(5, "", name)` with names "A" and "B" are `==` because their bases are; the
   * plain `std::error_code` 5 of a category named "B" is `==` to the second through the
   * category name, but not to the first.
   */
  lemma EqualNotTransitive()
    ensures var a := WithCustomText(5, "", "A");
            var b := WithCustomText(5, "", "B");
            var c := ErrorCode(5, Category("B", map[]), "", "");
            Equal(a, b) && Equal(b, c) && !Equal(a, c)
    ensures exists a: ErrorCode, b: ErrorCode, c: ErrorCode :: Equal(a, b) && Equal(b, c) && !Equal(a, c)
  {
    var a := WithCustomText(5, "", "A");
    var b := WithCustomText(5, "", "B");
    var c := ErrorCode(5, Category("B", map[]), "", "");
    assert Equal(a, b) && Equal(b, c) && !Equal(a, c);
  }
}

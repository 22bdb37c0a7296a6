/**
 * `GlobalExceptionHandler`: how every failure becomes the uniform error body.
 * The timestamp of the body is not modelled.
 */
module ExceptionHandler {
  import opened Wrappers
  import opened JavaText
  import opened Dto
  import opened Exceptions

  /** `ErrorResponse` without its timestamp; `details` may be null. */
  datatype ErrorResponse = ErrorResponse(
    status: int,
    error: string,
    message: string,
    path: string,
    details: Option<seq<string>>)

  /** The cause of an unreadable request body, by Jackson exception type. */
  datatype Cause =
    | JsonMapping(message: string)
    | JsonParse(message: string)
    | OtherCause
    | NoCause

  /** `extractFieldName`: the text between the first two double quotes. */
  function ExtractFieldName(errorMessage: string): (name: string)
    ensures '"' !in name
  {
    var startIndex := FirstIndexOf(errorMessage, '"');
    var endIndex := IndexOf(errorMessage, '"', startIndex + 1);
    if startIndex >= 0 && endIndex > startIndex then
      assert forall j | startIndex + 1 <= j < endIndex :: errorMessage[j] != '"';
      errorMessage[startIndex + 1..endIndex]
    else
      "unknown"
  }

  /** A message with fewer than two double quotes names no field. */
  lemma ExtractFieldNameUnknown(errorMessage: string)
    requires Occurrences(errorMessage, '"') < 2
    ensures ExtractFieldName(errorMessage) == "unknown"
  {
    var startIndex := FirstIndexOf(errorMessage, '"');
    var endIndex := IndexOf(errorMessage, '"', startIndex + 1);
    if startIndex >= 0 && endIndex > startIndex {
      OccursTwice(errorMessage, '"', startIndex, endIndex);
    }
  }

  /** A message `a "f" b` with no quote in `a` or `f` names the field `f`. */
  lemma ExtractFieldNameBetweenQuotes(a: string, f: string, b: string)
    requires '"' !in a && '"' !in f
    ensures ExtractFieldName(a + "\"" + f + "\"" + b) == f
  {
    var m := a + "\"" + f + "\"" + b;
    assert m[|a|] == '"';
    assert m[..|a|] == a;
    assert FirstIndexOf(m, '"') == |a|;
    assert m[|a| + 1 + |f|] == '"';
    assert forall j | |a| + 1 <= j < |a| + 1 + |f| :: m[j] == f[j - |a| - 1];
    assert IndexOf(m, '"', |a| + 1) == |a| + 1 + |f|;
    assert m[|a| + 1..|a| + 1 + |f|] == f;
  }

  const UnknownFieldMessage := "Unknown field in request"
  const FormatErrorMessage := "Request format error"
  const MalformedJsonMessage := "Malformed JSON"
  const InvalidFormatMessage := "Invalid request format"

  /** `handleHttpMessageNotReadable`: the message and the single detail depend
      on the cause; the status is always 400 "Bad Request". */
  method HandleHttpMessageNotReadable(cause: Cause, path: string) returns (resp: ErrorResponse)
    ensures resp.status == 400 && resp.error == "Bad Request" && resp.path == path
    ensures resp.details.Some? && |resp.details.value| == 1
    ensures cause.JsonMapping? && Contains(cause.message, "Unrecognized field") ==>
      && resp.message == "Unknown field in request"
      && resp.details.value[0] == "The field '" + ExtractFieldName(cause.message) + "' is not expected in this request"
    ensures cause.JsonMapping? && !Contains(cause.message, "Unrecognized field") ==>
      resp.message == "Request format error" && resp.details.value[0] == "Please check the format of your request"
    ensures cause.JsonParse? ==>
      resp.message == "Malformed JSON" && resp.details.value[0] == "Your request contains invalid JSON syntax"
    ensures cause.OtherCause? || cause.NoCause? ==>
      resp.message == "Invalid request format" && resp.details.value[0] == "The request could not be processed"
  {
    var message := InvalidFormatMessage;
    var details: seq<string> := [];
    match cause {
      case JsonMapping(m) =>
        if Contains(m, "Unrecognized field") {
          var fieldName := ExtractFieldName(m);
          message := UnknownFieldMessage;
          details := details + ["The field '" + fieldName + "' is not expected in this request"];
        } else {
          message := FormatErrorMessage;
          details := details + ["Please check the format of your request"];
        }
      case JsonParse(_) =>
        message := MalformedJsonMessage;
        details := details + ["Your request contains invalid JSON syntax"];
      case _ =>
        details := details + ["The request could not be processed"];
    }
    resp := ErrorResponse(400, "Bad Request", message, path, Some(details));
  }

  /** A field error rendered as `field: message`. */
  function FieldErrorLines(errors: seq<FieldError>): (lines: seq<string>)
    ensures |lines| == |errors|
    ensures forall i | 0 <= i < |errors| :: lines[i] == errors[i].field + ": " + errors[i].message
  {
    if errors == [] then []
    else [errors[0].field + ": " + errors[0].message] + FieldErrorLines(errors[1..])
  }

  /** A global error rendered as `objectName: message`. */
  function GlobalErrorLines(errors: seq<ObjectError>): (lines: seq<string>)
    ensures |lines| == |errors|
    ensures forall i | 0 <= i < |errors| :: lines[i] == errors[i].objectName + ": " + errors[i].message
  {
    if errors == [] then []
    else [errors[0].objectName + ": " + errors[0].message] + GlobalErrorLines(errors[1..])
  }

  const UnknownFieldsNote := "Request contains unknown fields that are not part of the expected request format"
  const ValidationFailedMessage := "Input validation failed - please check the request format and field requirements"

  /** `handleMethodArgumentNotValid`: 400 "Validation Error", with the field
      errors in order, then the global errors in order, then the unknown-fields
      note exactly when the exception's message mentions "Unknown property". */
  method HandleMethodArgumentNotValid(
      fieldErrors: seq<FieldError>, globalErrors: seq<ObjectError>, exMessage: string, path: string)
      returns (resp: ErrorResponse)
    ensures resp.status == 400 && resp.error == "Validation Error" && resp.path == path
    ensures resp.message == "Input validation failed - please check the request format and field requirements"
    ensures resp.details.Some?
    ensures var d, nf := resp.details.value, |fieldErrors|;
      && |d| == nf + |globalErrors| + (if Contains(exMessage, "Unknown property") then 1 else 0)
      && (forall i | 0 <= i < nf :: d[i] == fieldErrors[i].field + ": " + fieldErrors[i].message)
      && (forall i | 0 <= i < |globalErrors| :: d[nf + i] == globalErrors[i].objectName + ": " + globalErrors[i].message)
      && (Contains(exMessage, "Unknown property") ==> d[|d| - 1] == UnknownFieldsNote)
  {
    var fieldLines := FieldErrorLines(fieldErrors);
    var globalLines := GlobalErrorLines(globalErrors);
    var allErrors: seq<string> := [];
    allErrors := allErrors + fieldLines;
    allErrors := allErrors + globalLines;
    if Contains(exMessage, "Unknown property") {
      allErrors := allErrors + [UnknownFieldsNote];
    }
    resp := ErrorResponse(400, "Validation Error", ValidationFailedMessage, path, Some(allErrors));
  }

  /** `buildErrorResponse`: the exception's own message, no details. */
  function BuildErrorResponse(message: string, status: int, error: string, path: string): (resp: ErrorResponse) {
    ErrorResponse(status, error, message, path, None)
  }

  /** Which `@ExceptionHandler` a thrown exception reaches: the two resource
      exceptions have their own handlers, everything else the generic one. */
  function HandleException(ex: ServiceException, path: string): (resp: ErrorResponse)
    ensures resp.message == ex.message && resp.path == path && resp.details.None?
    ensures ex.ResourceAlreadyExists? <==> resp.status == 409
    ensures ex.ResourceNotFound? <==> resp.status == 404
    ensures resp.status == 409 ==> resp.error == "Conflict"
    ensures resp.status == 404 ==> resp.error == "Not Found"
    ensures !(ex.ResourceAlreadyExists? || ex.ResourceNotFound?) <==> resp.status == 500
    ensures resp.status == 500 ==> resp.error == "Internal Server Error"
  {
    match ex
    case ResourceAlreadyExists(m) => BuildErrorResponse(m, 409, "Conflict", path)
    case ResourceNotFound(m) => BuildErrorResponse(m, 404, "Not Found", path)
    case _ => BuildErrorResponse(ex.message, 500, "Internal Server Error", path)
  }
}

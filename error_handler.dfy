/** The Express error middleware of errorHandlers.js: it starts from a 500
    response and lets each recognised kind of error overwrite the status and
    message in turn, the duplicate-key test last. */
module ErrorHandling {
  import opened Wrappers
  import opened Text

  /** The parts of a thrown error the handler reads: its `name`, the
      messages of `err.errors` (for a validation error), its `code`, and the
      keys of `err.keyValue` in order. */
  datatype ErrorInfo = ErrorInfo(name: string, messages: seq<string>, code: Option<int>, keys: seq<string>)

  /** The JSON the handler sends, with the HTTP status it sends it under. */
  datatype ErrorResponse = ErrorResponse(statusCode: nat, success: bool, message: string)

  /** `Object.keys(err.keyValue)[0]` as it appears in a template string:
      "undefined" when there are no keys. */
  function FirstKey(keys: seq<string>): string
  {
    if keys == [] then "undefined" else keys[0]
  }

  /** `errorHandler`. A MongoDB duplicate key (code 11000) wins over any
      name; otherwise the name decides; an unrecognised error is a 500. */
  method ErrorHandler(err: ErrorInfo) returns (r: ErrorResponse)
    ensures !r.success
    ensures r.statusCode in {400, 401, 500}
    ensures err.code == Some(11000) ==>
              r.statusCode == 400 && r.message == FirstKey(err.keys) + " already exists"
    ensures err.code != Some(11000) && err.name == "ValidationError" ==>
              r.statusCode == 400 && r.message == Join(err.messages, ", ")
    ensures err.code != Some(11000) && err.name == "JsonWebTokenError" ==>
              r.statusCode == 401 && r.message == "Invalid token"
    ensures err.code != Some(11000) && err.name == "TokenExpiredError" ==>
              r.statusCode == 401 && r.message == "Token expired"
    ensures err.code != Some(11000) &&
            err.name !in {"ValidationError", "JsonWebTokenError", "TokenExpiredError"} ==>
              r.statusCode == 500 && r.message == "Internal server error"
  {
    var message := "Internal server error";
    var statusCode := 500;
    if err.name == "ValidationError" {
      message := Join(err.messages, ", ");
      statusCode := 400;
    }
    if err.name == "JsonWebTokenError" {
      message := "Invalid token";
      statusCode := 401;
    }
    if err.name == "TokenExpiredError" {
      message := "Token expired";
      statusCode := 401;
    }
    if err.code == Some(11000) {
      var field := FirstKey(err.keys);
      message := field + " already exists";
      statusCode := 400;
    }
    r := ErrorResponse(statusCode, false, message);
  }
}

/** The global error handler of src/utils/global-error-handler.js: every error
    reaching Express becomes a JSON response whose fields fall back to defaults
    when the error lacks them (JavaScript `||`). `NODE_ENV` is a parameter. */
module ErrorHandler {
  import opened Wrappers
  import opened Errors
  import Validation

  /** The fields the handler reads from a thrown value; each may be absent. */
  datatype ErrorRecord = ErrorRecord(statusCode: Option<int>, success: Option<bool>, message: Option<string>,
                                     errors: Option<seq<map<string, string>>>, stack: Option<string>)

  /** The JSON body; `stack` is `Some` when the key is present (its value may be
      undefined, `Some(None)`). */
  datatype ResponseBody = ResponseBody(success: bool, message: string, errors: seq<map<string, string>>, stack: Option<Option<string>>)

  datatype Response = Response(status: int, body: ResponseBody)

  const DefaultMessage: string := "Internal Server Error"

  /** A status code is truthy unless absent or 0. */
  predicate TruthyStatus(s: Option<int>) {
    s.Some? && s.value != 0
  }

  function GlobalErrorHandler(err: ErrorRecord, nodeEnv: string): (r: Response)
    ensures TruthyStatus(err.statusCode) ==> r.status == err.statusCode.value
    ensures !TruthyStatus(err.statusCode) ==> r.status == 500
    ensures r.body.success <==> err.success == Some(true)
    ensures TruthyString(err.message) ==> r.body.message == err.message.value
    ensures !TruthyString(err.message) ==> r.body.message == "Internal Server Error"
    ensures err.errors.Some? ==> r.body.errors == err.errors.value
    ensures err.errors.None? ==> r.body.errors == []
    ensures r.body.stack.Some? <==> nodeEnv == "development"
    ensures r.body.stack.Some? ==> r.body.stack.value == err.stack
  {
    var status := if TruthyStatus(err.statusCode) then err.statusCode.value else 500;
    var message := if TruthyString(err.message) then err.message.value else DefaultMessage;
    Response(status, ResponseBody(err.success == Some(true), message, err.errors.GetOr([]),
                                  if nodeEnv == "development" then Some(err.stack) else None))
  }

  /** The record an ApiError presents to the handler: its status, message and
      details, with `success` false. */
  function RecordOf(e: ApiError, stack: Option<string>): ErrorRecord {
    ErrorRecord(Some(e.statusCode), Some(false), Some(e.message), Some(e.errors), stack)
  }

  /** An ApiError with a non-zero status and a non-empty message reaches the client
      unchanged: its status, its message and its details, with success false. */
  lemma ApiErrorPassesThrough(e: ApiError, stack: Option<string>, nodeEnv: string)
    requires e.statusCode != 0 && e.message != ""
    ensures var r := GlobalErrorHandler(RecordOf(e, stack), nodeEnv);
      r.status == e.statusCode && r.body.message == e.message && r.body.errors == e.errors && !r.body.success
  {
  }

  /** A bare error with none of the fields gets every default. */
  lemma EmptyErrorDefaults(nodeEnv: string)
    requires nodeEnv != "development"
    ensures GlobalErrorHandler(ErrorRecord(None, None, None, None, None), nodeEnv)
      == Response(500, ResponseBody(false, "Internal Server Error", [], None))
  {
  }

  /** A request that failed validation is answered with status 400, the fixed
      message and one `{path: msg}` entry per validation error. */
  lemma ValidationFailureResponse(errors: seq<Validation.FieldError>, stack: Option<string>, nodeEnv: string)
    requires errors != []
    ensures var r := GlobalErrorHandler(RecordOf(Validation.Validate(errors).err, stack), nodeEnv);
      r.status == 400 && r.body.message == "Received data is not valid"
      && r.body.errors == Validation.Extract(errors) && |r.body.errors| == |errors|
  {
  }
}

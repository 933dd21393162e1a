/** The error the handlers throw: a status code, a message and a list of per-field
    details (each a one-key map from a request path to its message). The class
    itself (src/utils/api-error.js) is not part of this model; these three fields are
    the ones the handlers pass and the global error handler reads. */
module Errors {

  datatype ApiError = ApiError(statusCode: int, message: string, errors: seq<map<string, string>>)

  /** An error built from a status and a message only. */
  function Plain(statusCode: int, message: string): ApiError {
    ApiError(statusCode, message, [])
  }
}

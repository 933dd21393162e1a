/** The `validate` middleware of src/middlewares/validator.middleware.js: with no
    validation errors the request proceeds; otherwise it is forwarded as a 400
    ApiError whose details are one single-key map `{path: msg}` per error. */
module Validation {
  import opened Errors

  datatype FieldError = FieldError(path: string, msg: string)

  /** What `validate` hands to `next`: nothing, or an error. */
  datatype NextCall = Proceed | Forward(err: ApiError)

  const InvalidDataMessage: string := "Received data is not valid"

  function Entry(e: FieldError): map<string, string> {
    map[e.path := e.msg]
  }

  /** One entry per error, in the same order, each mapping only the error's path to
      its message. */
  function Extract(errors: seq<FieldError>): (r: seq<map<string, string>>)
    ensures |r| == |errors|
    ensures forall i :: 0 <= i < |errors| ==>
      r[i].Keys == {errors[i].path} && r[i][errors[i].path] == errors[i].msg
  {
    seq(|errors|, i requires 0 <= i < |errors| => Entry(errors[i]))
  }

  function Validate(errors: seq<FieldError>): (r: NextCall)
    ensures r.Proceed? <==> errors == []
    ensures r.Forward? ==> r.err.statusCode == 400 && r.err.message == "Received data is not valid"
    ensures r.Forward? ==> r.err.errors == Extract(errors)
  {
    if errors == [] then Proceed
    else Forward(ApiError(400, InvalidDataMessage, Extract(errors)))
  }

  /** The error an entry was built from, read back from its single key. */
  ghost function EntryError(m: map<string, string>): FieldError
    requires |m| == 1
  {
    var k :| k in m; FieldError(k, m[k])
  }

  /** Reading the entries back gives the original error list: the extraction loses
      nothing. */
  lemma ExtractLosesNothing(errors: seq<FieldError>)
    ensures forall i :: 0 <= i < |errors| ==> |Extract(errors)[i]| == 1 && EntryError(Extract(errors)[i]) == errors[i]
  {
  }

  /** Distinct error lists give distinct details: Extract is injective. */
  lemma ExtractInjective(a: seq<FieldError>, b: seq<FieldError>)
    requires Extract(a) == Extract(b)
    ensures a == b
  {
  }
}

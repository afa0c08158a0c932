/**
 * `APIError`, the exception for an error answer of the API: it keeps the
 * message and the request, and lifts `code`, `param` and `type` out of a
 * dict body.
 */
module Exceptions {
  import opened PyValues

  /** The parts of an `httpx.Request` an error keeps. */
  datatype Request = Request(httpMethod: string, url: string)

  /** The `code`, `param` and `type` an error reports. */
  datatype ErrorFields = ErrorFields(code: Value, param: Value, errorType: Value)

  /**
   * The fields `__init__` sets from `body`: for a dict, its values under
   * "code", "param" and "type" (`None` for a missing key); for anything else,
   * `None` `body` included, all three are `None`.
   */
  function LiftErrorFields(body: Value): (r: ErrorFields)
    ensures body.Dict? ==>
      (("code" in body.entries ==> r.code == body.entries["code"]) &&
       ("param" in body.entries ==> r.param == body.entries["param"]) &&
       ("type" in body.entries ==> r.errorType == body.entries["type"]))
    ensures body.Dict? ==>
      (("code" !in body.entries ==> r.code == Null) &&
       ("param" !in body.entries ==> r.param == Null) &&
       ("type" !in body.entries ==> r.errorType == Null))
    ensures !body.Dict? ==> r == ErrorFields(Null, Null, Null)
  {
    match body
    case Dict(entries) => ErrorFields(Get(entries, "code"), Get(entries, "param"), Get(entries, "type"))
    case _ => ErrorFields(Null, Null, Null)
  }

  class ApiError {
    var message: string
    var request: Request
    var code: Value
    var param: Value
    var errorType: Value   // the attribute `type`

    /** `APIError(message, request, body=body)`. */
    constructor (message: string, request: Request, body: Value)
      ensures this.message == message && this.request == request
      ensures ErrorFields(code, param, errorType) == LiftErrorFields(body)
    {
      this.request := request;
      this.message := message;
      if body.Dict? {
        code := Get(body.entries, "code");
        param := Get(body.entries, "param");
        errorType := Get(body.entries, "type");
      } else {
        code := Null;
        param := Null;
        errorType := Null;
      }
    }
  }
}

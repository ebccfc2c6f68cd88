/** Classification of the HTTP status code the endpoint answers with. */
module HttpStatus {
  import opened Wrappers

  /** `success?`: a code in the 2xx range or in the 3xx range. */
  function IsSuccess(code: int): (ok: bool)
    ensures ok <==> 200 <= code < 400
  {
    var is2xx := code >= 200 && code <= 299;
    var is3xx := code >= 300 && code <= 399;
    is2xx || is3xx
  }

  /** The class of a status code as section 15 of RFC 9110 defines it (the first digit of 100..599). */
  function StatusClass(code: int): (c: Option<int>)
    ensures c.Some? <==> 100 <= code <= 599
    ensures c.Some? ==> 1 <= c.value <= 5 && c.value * 100 <= code < c.value * 100 + 100
  {
    if 100 <= code <= 599 then Some(code / 100) else None
  }

  /** Success means the Successful (2xx) or Redirection (3xx) class; every other code, defined or not, is failure. */
  lemma SuccessIsClass2Or3(code: int)
    ensures IsSuccess(code) <==> StatusClass(code) == Some(2) || StatusClass(code) == Some(3)
  {
  }

  /** Informational, client-error and server-error classes all fail, as does any code outside 100..599. */
  lemma FailureClasses(code: int)
    ensures StatusClass(code) in {None, Some(1), Some(4), Some(5)} ==> !IsSuccess(code)
    ensures !IsSuccess(100) && !IsSuccess(400) && !IsSuccess(500) && IsSuccess(200) && IsSuccess(300)
  {
  }
}

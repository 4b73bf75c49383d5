/**
 * The decision logic of lib/errorHandler.ts: which message and status an
 * HTTP client error carries, which toast it produces, and when and how
 * soon a failed request is retried. The toasts themselves are not shown.
 */
module Errors {
  import opened Optional
  import opened Text

  /** The `{ message?, error? }` body a failing API response may carry. */
  datatype ResponseBody = ResponseBody(message: Option<string>, error: Option<string>)

  /** The part of an HTTP response the handler reads; a status of 0 stands for a missing one. */
  datatype Response = Response(status: int, data: Option<ResponseBody>)

  /** The fields of an `AxiosError` the handler reads. */
  datatype HttpError = HttpError(
    code: Option<string>,
    message: string,
    response: Option<Response>,
    hasRequest: bool)

  /** A string field that JavaScript treats as true: present and nonempty. */
  predicate Truthy(s: Option<string>) { s.Some? && s.value != "" }

  /** The response body, when there is a response carrying one. */
  function BodyOf(e: HttpError): Option<ResponseBody> {
    if e.response.Some? then e.response.value.data else None
  }

  const GenericResponseMessage := "An error occurred"
  const UnexpectedMessage := "An unexpected error occurred"

  /**
   * `extractErrorMessage`: from a response body, its `message`, else its
   * `error`, else a generic text; without a body, the client's own message,
   * else a fallback. Empty strings count as absent.
   */
  function ExtractErrorMessage(e: HttpError): (r: string)
    ensures r != ""
    ensures BodyOf(e).Some? ==>
      var b := BodyOf(e).value;
      && (Truthy(b.message) ==> r == b.message.value)
      && (!Truthy(b.message) && Truthy(b.error) ==> r == b.error.value)
      && (!Truthy(b.message) && !Truthy(b.error) ==> r == GenericResponseMessage)
    ensures BodyOf(e).None? ==> (r == e.message <==> e.message != "") && (e.message == "" ==> r == UnexpectedMessage)
  {
    match BodyOf(e)
    case Some(b) =>
      if Truthy(b.message) then b.message.value
      else if Truthy(b.error) then b.error.value
      else GenericResponseMessage
    case None =>
      if e.message != "" then e.message else UnexpectedMessage
  }

  /** `extractStatusCode`: the response status when present and nonzero, otherwise 500. */
  function ExtractStatusCode(e: HttpError): (r: int)
    ensures r != 0
    ensures e.response.Some? && e.response.value.status != 0 ==> r == e.response.value.status
    ensures e.response.None? || e.response.value.status == 0 ==> r == 500
  {
    if e.response.Some? && e.response.value.status != 0 then e.response.value.status else 500
  }

  /** `isNetworkError`: a request went out and no response came back. */
  predicate IsNetworkError(e: HttpError) { e.response.None? && e.hasRequest }

  /** `isTimeoutError`. */
  function IsTimeoutError(e: HttpError): (r: bool)
    ensures r <==> e.code == Some("ECONNABORTED") || exists i :: OccursAt(e.message, "timeout", i)
  {
    e.code == Some("ECONNABORTED") || Contains(e.message, "timeout")
  }

  // ---------------------------------------------------------------------
  // Toasts
  // ---------------------------------------------------------------------

  /** The title and description of the error toast `handleApiError` shows. */
  datatype Toast = Toast(title: string, description: string)

  /** The fixed title for each status code the handler recognises. */
  const StatusTitles: map<int, string> := map[
    400 := "Invalid Request",
    401 := "Authentication Required",
    403 := "Access Denied",
    404 := "Not Found",
    409 := "Conflict",
    413 := "File Too Large",
    422 := "Validation Error",
    429 := "Rate Limit Exceeded",
    500 := "Server Error",
    503 := "Service Unavailable"]

  /** Statuses whose toast shows a fixed text rather than the extracted message. */
  const FixedDescriptions: map<int, string> := map[
    401 := "Please log in to continue",
    429 := "Too many requests. Please try again later.",
    500 := "Something went wrong on our end. Please try again.",
    503 := "The service is temporarily unavailable. Please try again later."]

  const NetworkDescription := "Please check your internet connection and try again."

  predicate LooksLikeNetworkFailure(e: HttpError) {
    e.code == Some("NETWORK_ERROR") || Contains(e.message, "Network Error")
  }

  /** The `switch` of `handleApiError`, as the toast it selects. */
  function ErrorToast(e: HttpError): (r: Toast)
    ensures var status := ExtractStatusCode(e);
      && (status in StatusTitles ==> r.title == StatusTitles[status])
      && (status !in StatusTitles ==> (r.title == "Network Error" <==> LooksLikeNetworkFailure(e)))
      && (status !in StatusTitles && !LooksLikeNetworkFailure(e) ==> r.title == "Error")
      && (status in FixedDescriptions ==> r.description == FixedDescriptions[status])
      && (status in StatusTitles && status !in FixedDescriptions ==> r.description == ExtractErrorMessage(e))
      && (status !in StatusTitles ==>
            r.description == if LooksLikeNetworkFailure(e) then NetworkDescription else ExtractErrorMessage(e))
  {
    var message := ExtractErrorMessage(e);
    match ExtractStatusCode(e)
    case 400 => Toast("Invalid Request", message)
    case 401 => Toast("Authentication Required", "Please log in to continue")
    case 403 => Toast("Access Denied", message)
    case 404 => Toast("Not Found", message)
    case 409 => Toast("Conflict", message)
    case 413 => Toast("File Too Large", message)
    case 422 => Toast("Validation Error", message)
    case 429 => Toast("Rate Limit Exceeded", "Too many requests. Please try again later.")
    case 500 => Toast("Server Error", "Something went wrong on our end. Please try again.")
    case 503 => Toast("Service Unavailable", "The service is temporarily unavailable. Please try again later.")
    case _ =>
      if LooksLikeNetworkFailure(e) then Toast("Network Error", NetworkDescription)
      else Toast("Error", message)
  }

  /** An error without a response is reported as a server error (status 500). */
  lemma NoResponseIsServerError(e: HttpError)
    requires e.response.None?
    ensures ErrorToast(e).title == "Server Error"
  {
  }

  /** `createApiError`'s record, without the untyped `details`. */
  datatype ApiError = ApiError(message: string, statusCode: int, error: Option<string>)

  /** `createApiError`: the extracted message and status, and the body's `error` field. */
  function CreateApiError(e: HttpError): (r: ApiError)
    ensures r.message == ExtractErrorMessage(e) && r.statusCode == ExtractStatusCode(e)
    ensures r.message != "" && r.statusCode != 0
    ensures BodyOf(e).Some? ==> r.error == BodyOf(e).value.error
    ensures BodyOf(e).None? ==> r.error.None?
  {
    ApiError(ExtractErrorMessage(e), ExtractStatusCode(e), if BodyOf(e).Some? then BodyOf(e).value.error else None)
  }

  // ---------------------------------------------------------------------
  // Retry policy
  // ---------------------------------------------------------------------

  function Pow2(n: nat): (r: nat)
    ensures r >= 1
  {
    if n == 0 then 1 else 2 * Pow2(n - 1)
  }

  lemma {:induction false} Pow2Monotone(m: nat, n: nat)
    requires m <= n
    ensures Pow2(m) <= Pow2(n)
    decreases n - m
  {
    if m < n {
      Pow2Monotone(m, n - 1);
    }
  }

  /** `retryDelay`: exponential back-off from one second, capped at thirty seconds. */
  function RetryDelay(retryCount: nat): (r: nat)
    ensures 1000 <= r <= 30000
    ensures retryCount == 0 ==> r == 1000
    ensures r <= 1000 * Pow2(retryCount)
    ensures r < 30000 ==> r == 1000 * Pow2(retryCount)
  {
    if 1000 * Pow2(retryCount) < 30000 then 1000 * Pow2(retryCount) else 30000
  }

  /** A later retry never waits less than an earlier one. */
  lemma RetryDelayMonotone(m: nat, n: nat)
    requires m <= n
    ensures RetryDelay(m) <= RetryDelay(n)
  {
    Pow2Monotone(m, n);
  }

  /** From the fifth retry on, the delay is the cap. */
  lemma RetryDelayCapped(n: nat)
    requires n >= 5
    ensures RetryDelay(n) == 30000
  {
    Pow2Monotone(5, n);
    assert Pow2(5) == 32;
  }

  /** `retryCondition`: network failures and server-side statuses are retried. */
  function RetryCondition(e: HttpError): (r: bool)
    ensures r <==> (e.response.None? && e.hasRequest) || (e.response.Some? && e.response.value.status >= 500)
    ensures e.response.Some? && e.response.value.status < 500 ==> !r
  {
    IsNetworkError(e) || (if e.response.Some? && e.response.value.status != 0 then e.response.value.status else 0) >= 500
  }

  /** Every retried error with a response is one that the toast reports with a status of 500 or more. */
  lemma RetriedResponsesAreServerSide(e: HttpError)
    requires RetryCondition(e) && e.response.Some?
    ensures ExtractStatusCode(e) >= 500
  {
  }
}

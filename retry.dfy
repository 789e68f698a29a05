/**
 * The retry decision the pacer asks of every call (shouldRetry and retryErrorCodes in
 * backend/filejump/filejump.go).
 */
module Retry {
  import opened Wrappers
  import opened Errors
  import Paths

  /** The part of an HTTP response shouldRetry reads. */
  datatype Response = Response(statusCode: int, wwwAuthenticate: string)

  /** retryErrorCodes: the statuses worth another attempt, in the source's order. */
  const RetryErrorCodes: seq<int> := [429, 500, 502, 503, 504, 509]

  /** fserrors.ShouldRetryHTTP: a response is present and its status is one of codes. */
  predicate ShouldRetryHTTP(resp: Option<Response>, codes: seq<int>)
  {
    resp.Some? && resp.value.statusCode in codes
  }

  /** A 401 whose Www-Authenticate challenge names an expired token. */
  predicate ExpiredToken(resp: Option<Response>)
  {
    resp.Some? && resp.value.statusCode == 401 && Paths.Contains(resp.value.wwwAuthenticate, "expired_token")
  }

  /**
   * shouldRetry(ctx, resp, err). `contextError` is ctx.Err(); `genericRetry` is the answer of
   * fserrors.ShouldRetry(err), a classifier outside this model. fserrors.ContextError
   * substitutes the context's error for a nil err when the context is done.
   */
  function ShouldRetry(contextError: Option<Error>, resp: Option<Response>, err: Option<Error>, genericRetry: bool)
    : (r: (bool, Option<Error>))
    ensures contextError.Some? ==> !r.0
    ensures contextError.Some? ==> r.1 == (if err.Some? then err else contextError)
    ensures contextError.None? ==> r.1 == err
    ensures contextError.None? ==>
      (r.0 <==> ExpiredToken(resp) || genericRetry ||
                (resp.Some? && resp.value.statusCode in {429, 500, 502, 503, 504, 509}))
  {
    if contextError.Some? then
      (false, if err.None? then contextError else err)
    else
      var authRetry := ExpiredToken(resp);
      (authRetry || genericRetry || ShouldRetryHTTP(resp, RetryErrorCodes), err)
  }

  /** A 401 that is not about an expired token is retried only when the generic classifier says so. */
  lemma PlainUnauthorizedIsNotRetried(resp: Response, err: Option<Error>)
    requires resp.statusCode == 401 && !Paths.Contains(resp.wwwAuthenticate, "expired_token")
    ensures !ShouldRetry(None, Some(resp), err, false).0
  {
  }

  /** The expired-token path alone is enough: it needs neither a listed status nor the classifier. */
  lemma ExpiredTokenIsRetried(challenge: string, err: Option<Error>)
    requires Paths.Contains(challenge, "expired_token")
    ensures ShouldRetry(None, Some(Response(401, challenge)), err, false) == (true, err)
  {
  }

  /** Without a response only the classifier and the context decide. */
  lemma NoResponse(contextError: Option<Error>, err: Option<Error>, genericRetry: bool)
    ensures ShouldRetry(contextError, None, err, genericRetry).0 == (contextError.None? && genericRetry)
  {
  }
}

/**
 * The slice of `HttpResponseMessage` the proxy looks at, and the outcome of one
 * invocation of a request function: a response, or an exception.
 */
module Http {
  import opened Wrappers
  import opened Bytes

  const TooManyRequests := 429

  /** A header collection: header name to its ordered values. */
  type Headers = map<string, seq<string>>

  /**
   * The parsed `Retry-After` header (section 10.2.3 of RFC 9110): absent, a
   * delay in seconds, or an HTTP-date, given here in UTC ticks of 100 ns.
   */
  datatype RetryAfter = NoRetryAfter | Delta(seconds: nat) | Date(ticks: int)

  datatype HttpResponse = HttpResponse(
    status: int,
    headers: Headers,          // response.Headers
    contentHeaders: Headers,   // response.Content.Headers
    contentType: Option<string>, // response.Content.Headers.ContentType?.ToString()
    retryAfter: RetryAfter,    // response.Headers.RetryAfter
    content: seq<byte>         // response.Content.ReadAsByteArrayAsync()
  )

  /** `HttpResponseMessage.IsSuccessStatusCode`. */
  predicate IsSuccessStatusCode(status: int) {
    200 <= status <= 299
  }

  /** What one call of the request function yields. */
  datatype Attempt = Responded(response: HttpResponse) | Threw(message: string)
}

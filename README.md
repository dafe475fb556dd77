# HTTPSmallCacheServer core, modelled in Dafny

HTTPSmallCacheServer is a caching HTTP forward proxy. A request to
`GET /{url}` or `POST /{url}` is forwarded to the absolute URL embedded in the
path. The response bytes and a metadata record are stored on disk under a key
derived from the URL and the POST body. Later identical requests are served
from disk without calling the origin.

This project models the proxy's two pieces of logic and the handlers that
combine them:

- `HttpHelper.ExecuteWithRetry` (`retry.dfy`, module `HttpHelper`). It calls a
  request function at most `maxRetries + 1` times. A response that is not 429
  is returned at once. A 429 with attempts left waits for the `Retry-After`
  delay, or for the time until the `Retry-After` date, or for `2^(attempt+1)`
  seconds, clamped to [1, 60]. An exception with attempts left waits
  `2^(attempt+1)` seconds with no clamp. On the last attempt a 429 is returned
  and an exception propagates. The method records the waits it would sleep and
  counts its calls. It is proved against `RetrySpec`, a declarative statement of
  that behaviour, and `RetrySpecDeterministic` shows the statement fixes the
  outcome.
- `CacheHelper` (`cache_helper.dfy`). `GenerateHash` feeds the first
  `url.Length` bytes of the URL's UTF-8 encoding, then the rest of the body
  stream, to one SHA-256 context. It rewinds the stream and returns the
  uppercase hex digest. For a URL with non-ASCII characters `url.Length`
  (UTF-16 code units) is less than the byte count, so part of the URL is not
  hashed (see "## Findings"); `CacheKey` is the corrected key beside it. `SaveToCache` writes
  `<key>.cache` and then `<key>.metadata.json`. `LoadFromCache` has four
  outcomes: a miss, a hit with the stored record, a hit with a default record
  that is written back (no metadata file), and a hit with a default record
  that is not written back (the record deserializes to `null`). Anything that
  throws inside its `try` gives a miss. The cache directory is a `FileStore`
  object: a map from file name to bytes, plus a set of names whose reads and
  writes throw. The methods are proved against the pure functions `Save` and
  `Load`, and the round-trip and self-healing properties are lemmas about
  those functions.
- The `MapGet` and `MapPost` handlers (`proxy.dfy`, module `Proxy`). Each
  derives the key, serves a hit from the cache, and otherwise calls the origin
  through `ExecuteWithRetry` and stores the result. GET stores every response.
  When the origin call returns, POST writes `<key>.request` whatever the
  status, stores only a 2xx response, and answers with status 200 whatever the
  origin's status (see "## Findings"). A hit or a propagated exception writes
  no `.request` file.
  `RepeatedGetServedFromCache` and `RepeatedPostServedFromCache` show a
  repeated request answered from the cache without an origin call.

Support modules: `Wrappers` (Option), `Bytes` (bytes and
`Convert.ToHexString`), `Utf8` (`Encoding.UTF8.GetBytes` and the UTF-16 length
`string.Length`), and `Http` (responses and attempt outcomes).

Parameters stand for what the model does not compute:
- `sha256` is the SHA-256 digest function.
- A `JsonCodec` pairs `JsonSerializer.Serialize` with `Deserialize`. Its
  `Deserialize` yields a record, `null`, or a `JsonException`.
- `request`/`origin` gives the outcome of the i-th call to the origin.
- `utcNow`/`retryClock` are clock readings in 100 ns ticks.
- `isAbsoluteUrl` is the result of `Uri.TryCreate`.

The model follows the code in two places a reader might not expect:
- A write failure in `SaveToCache` is not caught. It escapes the handler
  (`Unhandled(CacheWriteFailed)`); it does not leave the reply intact.
- Metadata that fails to parse (`JsonException`) is a miss. It does not get a
  default record, and nothing is written back. Only a missing file is healed.

## Model

| member | source | states |
|---|---|---|
| `HttpHelper.ExecuteWithRetry` | Program.cs:277-348 | The results, call count and recorded waits satisfy `RetrySpec`. With a negative bound there are no calls and `RequestFailed(maxRetries + 1)` is raised. Otherwise there are 1 to `maxRetries + 1` calls. Every call but the last was a 429 or an exception and was followed by its wait. The run stops at the first non-429 response or at attempt `maxRetries`. It returns that response, 429 included, or rethrows that exception |
| `HttpHelper.RetrySpecDeterministic` | Program.cs:282-344 | Two runs over the same outcomes and clock have the same result, call count and waits |
| `HttpHelper.FinalThrowOnlyForNegativeBound` | Program.cs:282-347 | The closing `HttpRequestException` is raised exactly when `maxRetries < 0`. The call count is at most `maxRetries + 1`, and 0 for a negative bound |
| `HttpHelper.FirstNonRateLimitedResponseReturned` | Program.cs:286-292 | Take the first attempt `k <= maxRetries` that is not retried, where that outcome is a non-429 response of any status. That response is returned after exactly `k + 1` calls and `k` waits |
| `HttpHelper.RateLimitedThroughoutReturnsLast429` | Program.cs:295-330 | When every attempt gets a 429, the last 429 is returned, not thrown, after `maxRetries + 1` calls. Every wait lies in [1, 60] |
| `HttpHelper.ThrowingThroughoutPropagatesLast` | Program.cs:332-343 | When every attempt throws, the last exception propagates after `maxRetries + 1` calls. The i-th wait is exactly `2^(i+1)` |
| `HttpHelper.ExceptionWaitExceedsCap` | Program.cs:337-341 | The exception path is not clamped: from attempt 5 on its wait is above 60 seconds |
| `HttpHelper.Clamp` | Program.cs:318 | The result lies in [1, 60], equals the input inside that range, and is the nearer bound outside it |
| `HttpHelper.TruncatedSeconds` | Program.cs:304-309 | `(int)TotalSeconds` truncates toward zero, for negative spans too |
| `HttpHelper.RequestedWait` | Program.cs:301-315 | The wait a 429 asks for is zero or less, so that the clamp raises it to 1, exactly when the delta is 0 or the date is less than a second away |
| `HttpHelper.RateLimitWait` | Program.cs:298-318 | A 429 wait always lies in [1, 60]. A delta of at most 60 seconds is used as given, with 0 raised to 1. A delta above 60 gives 60. A date less than a second ahead, or past, gives 1, and a date at least a second ahead gives its whole seconds away, capped at 60. Without a hint the wait is `2^(attempt+1)` below attempt 5 and 60 from attempt 5 on |
| `HttpHelper.TotalWaitWithoutExceptions` | Program.cs:295-324 | When no attempt throws, the total time slept is at most 60 seconds per retry |
| `HttpHelper.RateLimitedOnceWaitsTwoSeconds` | Program.cs:298-305 | A 429 with `Retry-After: 2`, then a 200, with three retries: one wait of exactly 2 seconds, then the 200 is returned after two calls |
| `Bytes.ToHexString` | Program.cs:142 | Each digest byte becomes two uppercase hex digits |
| `Bytes.ToHexStringInjective` | Program.cs:142 | Different digests give different keys |
| `Utf8.Utf16LengthAtMostEncoded` | Program.cs:127 | `url.Length` never exceeds the UTF-8 byte count, so the slice passed to `TransformBlock` is in range. The two are equal exactly for all-ASCII URLs |
| `Utf8.EncodeInjective` | Program.cs:127 | Different strings have different UTF-8 encodings |
| `CacheHelper.GenerateHash` | Program.cs:122-143 | The key is the hex SHA-256 of the first `url.Length` bytes of the URL's UTF-8 encoding followed by the body bytes from the stream's position on (`CacheKeyAsWritten`). The body's bytes are unchanged and its position is reset to 0. With no body, only the URL is hashed |
| `CacheHelper.HashedUrlBytesAsWritten` | Program.cs:127 | The URL bytes the source hashes are the first `url.Length` (UTF-16 code units) bytes of the URL's UTF-8 encoding |
| `CacheHelper.CacheKeyAsWritten` | Program.cs:127-142 | The key the source computes is an uppercase hex string twice the digest's length, and equals the corrected key for every all-ASCII URL |
| `CacheHelper.CacheKey` | Program.cs:127-142 | Corrected: the key over every UTF-8 byte of the URL and the body, an uppercase hex string twice the digest's length |
| `CacheHelper.SameKeyIffSameDigest` | Program.cs:141-142 | Two requests share a key exactly when the digests of the bytes the source hashes agree |
| `CacheHelper.DistinctUrlsHashDistinctInputs` | Program.cs:127-135 | With the whole URL hashed, different URLs with the same body feed different bytes to SHA-256 |
| `CacheHelper.SameUrlDistinctBodies` | Program.cs:127-135 | As written, one URL with two different bodies feeds different bytes to SHA-256 |
| `CacheHelper.KeyDoesNotSeparateUrlFromBody` | Program.cs:127-135 | The URL and the body are concatenated with no separator. After an all-ASCII URL, the hashed bytes of a URL suffix may move into the body without changing the key: `GET /http://x/ab` and `POST /http://x/a` with body `b` share a key |
| `CacheHelper.AsciiUrlHashedWhole` | Program.cs:127 | For an all-ASCII URL the source hashes the whole URL, as intended |
| `CacheHelper.NonAsciiUrlHashedInPart` | Program.cs:127 | For a URL with any non-ASCII character the source leaves trailing UTF-8 bytes unhashed |
| `CacheHelper.NonAsciiUrlsShareKey` | Program.cs:127 | Take an ASCII prefix, then two different 2-byte characters with the same lead byte. As written, the two URLs get the same key |
| `CacheHelper.AccentedUrlsShareKey` | Program.cs:127 | As written, `http://x/é` and `http://x/è` get the same key |
| `CacheHelper.FileNamesDistinct` | Program.cs:157-158 | `.cache`, `.metadata.json` and `.request` names never coincide, whatever the keys. Each kind of name determines its key |
| `CacheHelper.FileStore.Exists` | Program.cs:195 | `File.Exists`: true exactly when the file is in the store |
| `CacheHelper.FileStore.ReadAllBytes` | Program.cs:201 | `File.ReadAllBytesAsync`: the stored bytes, or `None` when the file is missing or its read throws |
| `CacheHelper.FileStore.WriteAllBytes` | Program.cs:161 | `File.WriteAllBytesAsync`: sets that one file to the data and changes nothing else. A write that throws is modelled as throwing before it touches the file |
| `CacheHelper.MergeHeaders` | Program.cs:170-172 | Response and content headers merge into one map holding both, exactly when no name repeats. Otherwise `ToDictionary` throws |
| `CacheHelper.NewMetadata` | Program.cs:164-176 | The saved record carries the request's url and headers, the response's status and content type, the merged response and content headers (names and values, as `MergeHeaders` gives them), and the save time. It exists exactly when no header name repeats |
| `CacheHelper.DefaultMetadata` | Program.cs:210-220 | The made-up record is a 200 from url `unknown`, stamped now, with no request headers and one `Content-Type` response header agreeing with its JSON content type |
| `CacheHelper.Save` | Program.cs:157-180 | A save completes exactly when neither file name throws and the headers merge. Then the payload file holds the data and the metadata file the serialized record. A failed save changes nothing when the payload write throws. Otherwise the payload stays written even when the header merge or the metadata write throws, and is not rolled back. No other file changes |
| `CacheHelper.SaveToCache` | Program.cs:154-181 | The store ends as `Save` prescribes, and `ok` reports whether the source would have thrown |
| `CacheHelper.Load` | Program.cs:191-260 | With no payload: a miss, nothing written. When the payload or the metadata file cannot be read, or the default record cannot be written: a miss, nothing written. A hit returns the stored bytes exactly. A readable payload is a hit unless the metadata throws. The only write is the default record, where no metadata file was. A parsed record is returned as stored. A missing or `null` record is replaced by the default |
| `CacheHelper.LoadFromCache` | Program.cs:189-261 | The returned entry and the store match `Load` |
| `CacheHelper.SaveThenLoad` | Program.cs:157-254 | After a completed save, a load returns the saved bytes and writes nothing, when JSON round-trips. The loaded metadata is the very record the save built: url, status code, content type, request headers, merged response headers and timestamp |
| `CacheHelper.MissingMetadataHealsOnce` | Program.cs:206-224 | With a payload and no metadata file: the first load returns and writes the default record (status 200, JSON content type, url `unknown`). The second load returns that same record, first timestamp included, and writes nothing |
| `CacheHelper.NullMetadataNotWritten` | Program.cs:229-247 | A metadata file that deserializes to `null` gives a default record stamped with the current time, and nothing is written |
| `CacheHelper.SaveKeepsOtherEntries` | Program.cs:157-161 | Saving one key does not change what any other key loads |
| `CacheHelper.SaveKeepsMetadataWithPayload` | Program.cs:157-180 | A save, complete or failed, never leaves a `.metadata.json` file without its `.cache` file, because the payload is written first |
| `CacheHelper.LoadKeepsMetadataWithPayload` | Program.cs:195-224 | A load writes a `.metadata.json` file only where the `.cache` file is present, so no metadata file is left without its payload |
| `Proxy.GetMissReply` | Program.cs:33-35 | A stored GET response is served with status 200 and the origin's bytes, whatever status the origin sent. A failed store escapes as an unhandled write failure |
| `Proxy.PostMissReplyAsWritten` | Program.cs:86-87 | As written, a POST miss is served with status 200 and the origin's bytes, whatever status the origin sent |
| `Proxy.StoredGetReplayed` | Program.cs:21-35 | After a completed save, the hit on a later GET gives exactly the reply the miss gave: status, bytes and content type |
| `Proxy.StoredPostReplayed` | Program.cs:52-87 | After a completed save, the hit on a later POST gives exactly the 200 reply the miss gave as written |
| `Proxy.PostMissDropsOriginStatus` | Program.cs:86-87 | As written, a POST miss is answered 200 whatever the origin's status |
| `Proxy.PostMissReplyKeepsOriginStatus` | Program.cs:86-87 | Corrected: the reply carries the origin's status with the same bytes and content type, and differs from the reply as written exactly when the origin did not answer 200 |
| `Proxy.HandleGet` | Program.cs:14-36 | An invalid target gets 400 and touches nothing. The key is `CacheKeyAsWritten` of the URL. A hit is served from the cache without an origin call. On a miss the origin is called per `RetrySpec`. A propagated exception escapes with the store unchanged. A returned response, whatever its status, is saved and served with status 200 |
| `Proxy.HandlePost` | Program.cs:39-88 | As for GET, with the body in the key (`CacheKeyAsWritten`). On a returned response `<key>.request` is written, and only a 2xx response is saved. A miss is answered 200 whatever the origin's status (`PostMissReplyAsWritten`) |
| `Proxy.RepeatedGetServedFromCache` | Program.cs:14-36 | An uncached GET whose origin answers at once, repeated, gets the same reply with no origin call |
| `Proxy.RepeatedPostServedFromCache` | Program.cs:39-88 | A POST whose origin answers 2xx is answered 200 with the origin's bytes. Repeated with the same body, it gets the same reply from the cache with no origin call |

## Left out

- ASP.NET hosting, routing and `Uri.TryCreate` (Program.cs:6-17, 90): framework plumbing. URL validity is the boolean `isAbsoluteUrl`.
- `HttpClient`, response disposal (Program.cs:323) and the copying of request headers onto the POST content (Program.cs:66-67): the origin is an abstract sequence of call outcomes, so what is sent is not modelled. This includes re-sending the same `StreamContent` on a retried POST.
- `Task.Delay` and real time: waits are recorded, not slept. Clock readings are parameters.
- `HttpHelper.ExceptionWait`: in the model, exception-path waits grow without bound. In the source, `(int)Math.Pow` overflows `int` from attempt 30 on, and `Task.Delay` rejects delays of about 50 days or more. Neither matters for the default of 3 retries.
- `HttpHelper.RateLimitWait`: for a 429 with no `Retry-After` from attempt 30 on (only reachable with `maxRetries` of 31 or more), `(int)Math.Pow(2, attempt + 1)` is outside the `int` range. The model waits 60, as a saturating conversion (.NET 9 and later) gives; older x64 runtimes yield `int.MinValue`, which the clamp turns into 1.
- `CacheHelper.FileStore.WriteAllBytes`: a write that throws is modelled as throwing before it touches the file. `File.WriteAllBytesAsync` and `WriteAllTextAsync` truncate the file on opening, so a failure after that (a full disk, say) can leave an empty or partial file; a partial `.metadata.json` then fails to parse and every later load of that key is a miss. Partial writes are not modelled.
- `HttpHelper.TruncatedSeconds`: `TimeSpan.TotalSeconds` is a `double`, and the model divides exact integers. Out-of-range `(int)` casts are not modelled either; after the clamp they matter only for dates more than 68 years away.
- `Retry-After` parsing: the header is taken already parsed into a delta, a date or nothing, as `RetryConditionHeaderValue` holds it.
- SHA-256 is the parameter `sha256`, and `System.Text.Json` is the `JsonCodec` parameter. Both are foreign library code. Round trips assume the codec inverts serialization (`RoundTrips`).
- Console logging (Program.cs:25, 44, 58, 72-76, 208, 234, 258, 320, 328, 335, 340): output only.
- The `CACHE_PATH` variable and directory creation (Program.cs:9-11): configuration. File names are relative to the cache directory.
- Concurrent requests for one key: the proxy does not guard them, and the model is sequential.
- Lone UTF-16 surrogates in URLs: a Dafny `char` is a Unicode scalar value. .NET would encode a lone surrogate as the 3-byte replacement character.
- Null values inside request headers (Program.cs:168) are not modelled. Request header values are strings already.
- Header maps lose the insertion order that `Dictionary` keeps, and header-name case rules are not modelled.

## Findings

| source | as written | input that shows it | evidently intended | confidence | as-written member | corrected member |
|---|---|---|---|---|---|---|
| Program.cs:127 | `TransformBlock` is passed `url.Length` (UTF-16 code units) as the byte count, so only a prefix of the URL's UTF-8 bytes is hashed | `http://x/é` and `http://x/è` hash the same bytes (`http://x/` and `0xC3`), so a GET of one is served the other's cached response | hash every UTF-8 byte of the URL, so that different URLs get different keys | high (not executed) | `CacheHelper.NonAsciiUrlsShareKey` | `CacheHelper.DistinctUrlsHashDistinctInputs` |
| Program.cs:86 | `Results.StatusCode(...)` builds a result that is discarded, and `Results.File` answers 200 | an uncached POST whose origin answers 500 is answered 200 with the error body | answer a POST miss with the origin's status | medium (not executed) | `Proxy.PostMissDropsOriginStatus` | `Proxy.PostMissReplyKeepsOriginStatus` |

`GenerateHash`, `HandleGet` and `HandlePost` model the code as written: the key is `CacheKeyAsWritten` and a POST miss is answered with `PostMissReplyAsWritten`. The corrected definitions, `CacheKey` and `PostMissReply`, stand beside them with their properties proved. For all-ASCII URLs the corrected key equals the key as written (`CacheHelper.CacheKeyAsWritten`, `CacheHelper.AsciiUrlHashedWhole`), so correcting line 127 would keep existing cache entries under their keys.

/**
 * The two endpoints: `GET /{**url}` and `POST /{**url}`. Each derives the
 * cache key, serves a hit from the cache, and on a miss calls the origin
 * through `ExecuteWithRetry` and stores what comes back. Whether the path is an
 * absolute URL (`Uri.TryCreate`) is an input; the origin is the sequence of
 * outcomes its calls yield.
 */
module Proxy {
  import opened Wrappers
  import opened Bytes
  import opened Http
  import opened HttpHelper
  import opened CacheHelper

  const DefaultMaxRetries := 3
  const OctetStream := "application/octet-stream"
  const Json := "application/json"
  const InvalidTarget := "Invalid target URL"

  /** Why an exception escapes a handler. */
  datatype Cause = OriginFailed(failure: Failure) | CacheWriteFailed

  datatype Reply =
    | BadRequest(message: string)                              // Results.BadRequest
    | File(status: int, data: seq<byte>, contentType: string)  // Results.File
    | Unhandled(cause: Cause)                                  // an exception leaves the handler

  /** The reply to a hit: the stored bytes with the stored content type, or the endpoint's default. */
  function HitReply(entry: CacheEntry, defaultType: string): Reply {
    File(200, entry.data, entry.metadata.contentType.GetOr(defaultType))
  }

  /**
   * The reply to a GET miss once the response is stored: 200 with the origin's
   * bytes whatever status the origin sent, or the escaping write failure.
   */
  function GetMissReply(response: HttpResponse, saved: bool): (reply: Reply)
    ensures reply.File? <==> saved
    ensures reply.File? ==> reply.status == 200 && reply.data == response.content
    ensures !reply.File? ==> reply == Unhandled(CacheWriteFailed)
  {
    if saved then File(200, response.content, response.contentType.GetOr(OctetStream))
    else Unhandled(CacheWriteFailed)
  }

  /**
   * The POST miss reply as written: `Results.StatusCode(...)` on its own line
   * builds a result that is thrown away, so the reply is `Results.File`'s 200
   * whatever the origin's status.
   */
  function PostMissReplyAsWritten(response: HttpResponse): (reply: Reply)
    ensures reply.File? && reply.status == 200 && reply.data == response.content
  {
    File(200, response.content, response.contentType.GetOr(Json))
  }

  /** The POST miss reply carrying the origin's status, as the discarded statement intends. */
  function PostMissReply(response: HttpResponse): Reply {
    File(response.status, response.content, response.contentType.GetOr(Json))
  }

  /** As written, every POST miss is answered 200, even when the origin said otherwise. */
  lemma PostMissDropsOriginStatus(response: HttpResponse)
    requires response.status != 200
    ensures PostMissReplyAsWritten(response).status == 200 != response.status
  {
  }

  /**
   * The corrected reply keeps the origin's status, bytes and content type; it
   * differs from the reply as written exactly when the origin did not answer 200.
   */
  lemma PostMissReplyKeepsOriginStatus(response: HttpResponse)
    ensures PostMissReply(response).File? && PostMissReply(response).status == response.status
    ensures PostMissReply(response).data == PostMissReplyAsWritten(response).data
    ensures PostMissReply(response).contentType == PostMissReplyAsWritten(response).contentType
    ensures PostMissReply(response) != PostMissReplyAsWritten(response) <==> response.status != 200
  {
  }

  /**
   * A GET response that was stored is replayed as it was first served: the
   * hit on a later load gives the very reply the miss gave.
   */
  lemma StoredGetReplayed(files: map<string, seq<byte>>, faulty: set<string>, hash: string, url: string,
                          requestHeaders: Headers, response: HttpResponse, savedAt: int, loadedAt: int,
                          codec: JsonCodec)
    requires RoundTrips(codec)
    requires Save(files, faulty, hash, url, requestHeaders, response, response.content, savedAt, codec).ok
    ensures var saved := Save(files, faulty, hash, url, requestHeaders, response, response.content, savedAt, codec);
            var loaded := Load(saved.files, faulty, hash, loadedAt, codec);
            loaded.entry.Some? && HitReply(loaded.entry.value, OctetStream) == GetMissReply(response, true)
  {
    SaveThenLoad(files, faulty, hash, url, requestHeaders, response, response.content, savedAt, loadedAt, codec);
  }

  /** The same for POST: the later hit repeats the 200 reply the miss gave as written. */
  lemma StoredPostReplayed(files: map<string, seq<byte>>, faulty: set<string>, hash: string, url: string,
                           requestHeaders: Headers, response: HttpResponse, savedAt: int, loadedAt: int,
                           codec: JsonCodec)
    requires RoundTrips(codec)
    requires Save(files, faulty, hash, url, requestHeaders, response, response.content, savedAt, codec).ok
    ensures var saved := Save(files, faulty, hash, url, requestHeaders, response, response.content, savedAt, codec);
            var loaded := Load(saved.files, faulty, hash, loadedAt, codec);
            loaded.entry.Some? && HitReply(loaded.entry.value, Json) == PostMissReplyAsWritten(response)
  {
    SaveThenLoad(files, faulty, hash, url, requestHeaders, response, response.content, savedAt, loadedAt, codec);
  }

  /** GET `/{url}`. */
  method HandleGet(fs: FileStore, url: string, isAbsoluteUrl: bool, requestHeaders: Headers,
                   origin: nat -> Attempt, retryClock: nat -> int, utcNow: int,
                   sha256: seq<byte> -> seq<byte>, codec: JsonCodec)
    returns (reply: Reply, fetched: Option<Execution>, invocations: nat, waits: seq<int>)
    modifies fs
    ensures !isAbsoluteUrl ==> reply == BadRequest(InvalidTarget) && fetched == None && fs.files == old(fs.files)
    ensures isAbsoluteUrl ==>
              var key := CacheKeyAsWritten(url, [], sha256);
              var loaded := Load(old(fs.files), fs.faulty, key, utcNow, codec);
              match loaded.entry
              case Some(entry) =>
                reply == HitReply(entry, OctetStream) && fetched == None && fs.files == loaded.files
              case None =>
                && fetched.Some?
                && RetrySpec(origin, retryClock, DefaultMaxRetries, fetched.value, invocations, waits)
                && match fetched.value
                   case Raised(failure) => reply == Unhandled(OriginFailed(failure)) && fs.files == old(fs.files)
                   case Returned(response) =>
                     var saved := Save(loaded.files, fs.faulty, key, url, requestHeaders, response,
                                       response.content, utcNow, codec);
                     fs.files == saved.files && reply == GetMissReply(response, saved.ok)
    ensures fetched.None? ==> invocations == 0 && waits == []
  {
    invocations, waits, fetched := 0, [], None;
    if !isAbsoluteUrl {
      return BadRequest(InvalidTarget), fetched, invocations, waits;
    }
    var hash := GenerateHash(url, null, sha256);
    var cached := LoadFromCache(fs, hash, utcNow, codec);
    if cached.Some? {
      return HitReply(cached.value, OctetStream), fetched, invocations, waits;
    }
    var result;
    result, invocations, waits := ExecuteWithRetry(origin, retryClock, DefaultMaxRetries);
    fetched := Some(result);
    match result {
      case Raised(failure) =>
        reply := Unhandled(OriginFailed(failure));
      case Returned(response) =>
        var data := response.content;
        var ok := SaveToCache(fs, hash, url, requestHeaders, response, data, utcNow, codec);
        reply := GetMissReply(response, ok);
    }
  }

  /** POST `/{url}` with request body `body`. */
  method HandlePost(fs: FileStore, url: string, isAbsoluteUrl: bool, body: seq<byte>, requestHeaders: Headers,
                    origin: nat -> Attempt, retryClock: nat -> int, utcNow: int,
                    sha256: seq<byte> -> seq<byte>, codec: JsonCodec)
    returns (reply: Reply, fetched: Option<Execution>, invocations: nat, waits: seq<int>)
    modifies fs
    ensures !isAbsoluteUrl ==> reply == BadRequest(InvalidTarget) && fetched == None && fs.files == old(fs.files)
    ensures isAbsoluteUrl ==>
              var key := CacheKeyAsWritten(url, body, sha256);
              var loaded := Load(old(fs.files), fs.faulty, key, utcNow, codec);
              match loaded.entry
              case Some(entry) =>
                reply == HitReply(entry, Json) && fetched == None && fs.files == loaded.files
              case None =>
                && fetched.Some?
                && RetrySpec(origin, retryClock, DefaultMaxRetries, fetched.value, invocations, waits)
                && match fetched.value
                   case Raised(failure) => reply == Unhandled(OriginFailed(failure)) && fs.files == old(fs.files)
                   case Returned(response) =>
                     if RequestFile(key) in fs.faulty then
                       reply == Unhandled(CacheWriteFailed) && fs.files == old(fs.files)
                     else
                       var dumped := loaded.files[RequestFile(key) := body];
                       if IsSuccessStatusCode(response.status) then
                         var saved := Save(dumped, fs.faulty, key, url, requestHeaders, response,
                                           response.content, utcNow, codec);
                         fs.files == saved.files
                         && reply == if saved.ok then PostMissReplyAsWritten(response) else Unhandled(CacheWriteFailed)
                       else
                         fs.files == dumped && reply == PostMissReplyAsWritten(response)
    ensures fetched.None? ==> invocations == 0 && waits == []
  {
    invocations, waits, fetched := 0, [], None;
    if !isAbsoluteUrl {
      return BadRequest(InvalidTarget), fetched, invocations, waits;
    }
    var ms := new MemoryStream(body);
    var hash := GenerateHash(url, ms, sha256);
    var cached := LoadFromCache(fs, hash, utcNow, codec);
    if cached.Some? {
      return HitReply(cached.value, Json), fetched, invocations, waits;
    }
    ms.position := 0;
    var result;
    result, invocations, waits := ExecuteWithRetry(origin, retryClock, DefaultMaxRetries);
    fetched := Some(result);
    match result {
      case Raised(failure) =>
        reply := Unhandled(OriginFailed(failure));
      case Returned(response) =>
        var responseData := response.content;
        var dumped := fs.WriteAllBytes(RequestFile(hash), ms.buffer);
        if !dumped {
          return Unhandled(CacheWriteFailed), fetched, invocations, waits;
        }
        if IsSuccessStatusCode(response.status) {
          var ok := SaveToCache(fs, hash, url, requestHeaders, response, responseData, utcNow, codec);
          if !ok {
            return Unhandled(CacheWriteFailed), fetched, invocations, waits;
          }
        }
        reply := PostMissReplyAsWritten(response);
    }
  }

  /**
   * A GET of an uncached URL whose origin answers at once stores the answer,
   * serving it with status 200;
   * repeating the GET is then served from the cache: same reply, no origin call.
   */
  method RepeatedGetServedFromCache(fs: FileStore, url: string, requestHeaders: Headers,
                                    origin: nat -> Attempt, retryClock: nat -> int,
                                    firstAt: int, secondAt: int,
                                    sha256: seq<byte> -> seq<byte>, codec: JsonCodec)
    returns (first: Reply, second: Reply, secondInvocations: nat)
    requires RoundTrips(codec) && fs.faulty == {}
    requires CacheFile(CacheKeyAsWritten(url, [], sha256)) !in fs.files
    requires origin(0).Responded? && origin(0).response.status != TooManyRequests
    requires origin(0).response.headers.Keys !! origin(0).response.contentHeaders.Keys
    modifies fs
    ensures first == File(200, origin(0).response.content, origin(0).response.contentType.GetOr(OctetStream))
    ensures second == first && secondInvocations == 0
  {
    var fetched, invocations, waits;
    first, fetched, invocations, waits :=
      HandleGet(fs, url, true, requestHeaders, origin, retryClock, firstAt, sha256, codec);
    FirstNonRateLimitedResponseReturned(origin, retryClock, DefaultMaxRetries, 0,
                                        fetched.value, invocations, waits);
    ghost var key := CacheKeyAsWritten(url, [], sha256);
    ghost var response := origin(0).response;
    StoredGetReplayed(old(fs.files), {}, key, url, requestHeaders, response, firstAt, secondAt, codec);
    second, fetched, secondInvocations, waits :=
      HandleGet(fs, url, true, requestHeaders, origin, retryClock, secondAt, sha256, codec);
  }

  /**
   * Two POSTs with the same URL and body share a key: when the first stored a
   * successful answer, served with status 200, the second gets the same reply
   * from the cache without calling the origin.
   */
  method RepeatedPostServedFromCache(fs: FileStore, url: string, body: seq<byte>, requestHeaders: Headers,
                                     origin: nat -> Attempt, retryClock: nat -> int,
                                     firstAt: int, secondAt: int,
                                     sha256: seq<byte> -> seq<byte>, codec: JsonCodec)
    returns (first: Reply, second: Reply, secondInvocations: nat)
    requires RoundTrips(codec) && fs.faulty == {}
    requires CacheFile(CacheKeyAsWritten(url, body, sha256)) !in fs.files
    requires origin(0).Responded? && IsSuccessStatusCode(origin(0).response.status)
    requires origin(0).response.headers.Keys !! origin(0).response.contentHeaders.Keys
    modifies fs
    ensures first == PostMissReplyAsWritten(origin(0).response)
    ensures second == first && secondInvocations == 0
  {
    var fetched, invocations, waits;
    first, fetched, invocations, waits :=
      HandlePost(fs, url, true, body, requestHeaders, origin, retryClock, firstAt, sha256, codec);
    FirstNonRateLimitedResponseReturned(origin, retryClock, DefaultMaxRetries, 0,
                                        fetched.value, invocations, waits);
    ghost var key := CacheKeyAsWritten(url, body, sha256);
    ghost var response := origin(0).response;
    ghost var dumped := old(fs.files)[RequestFile(key) := body];
    FileNamesDistinct(key, key);
    StoredPostReplayed(dumped, {}, key, url, requestHeaders, response, firstAt, secondAt, codec);
    second, fetched, secondInvocations, waits :=
      HandlePost(fs, url, true, body, requestHeaders, origin, retryClock, secondAt, sha256, codec);
  }
}

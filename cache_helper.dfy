/**
 * `CacheHelper`: the content-addressed response cache. A key is the hex
 * SHA-256 digest of the target URL's bytes followed by the request body; an
 * entry is two files in the cache directory, `<key>.cache` holding the response
 * bytes and `<key>.metadata.json` holding a `CacheMetadata` record as JSON.
 *
 * SHA-256 and the JSON serializer are parameters: `sha256` maps the bytes fed
 * to the hash to the digest, and a `JsonCodec` pairs `JsonSerializer.Serialize`
 * (with the UTF-8 text write) and `JsonSerializer.Deserialize`.
 */
module CacheHelper {
  import opened Wrappers
  import opened Bytes
  import opened Utf8
  import opened Http

  const DefaultContentType := "application/json; charset=utf-8"
  const UnknownUrl := "unknown"
  const DefaultStatusCode := 200

  /** The `CacheMetadata` record; `cachedAt` is `DateTime.UtcNow` in ticks. */
  datatype CacheMetadata = CacheMetadata(
    cachedAt: int,
    requestHeaders: Headers,
    responseHeaders: Headers,
    statusCode: int,
    contentType: Option<string>,
    url: string
  )

  /** What `LoadFromCache` returns on a hit: the stored bytes and their metadata. */
  datatype CacheEntry = CacheEntry(data: seq<byte>, metadata: CacheMetadata)

  /** `JsonSerializer.Deserialize<CacheMetadata>`: a record, the JSON literal `null`, or a `JsonException`. */
  datatype Deserialized = Parsed(metadata: CacheMetadata) | JsonNull | Malformed

  datatype JsonCodec = JsonCodec(
    serialize: CacheMetadata -> seq<byte>,
    deserialize: seq<byte> -> Deserialized
  )

  /** Deserializing what was serialized gives the record back. */
  ghost predicate RoundTrips(codec: JsonCodec) {
    forall m :: codec.deserialize(codec.serialize(m)) == Parsed(m)
  }

  // ---------------------------------------------------------------- keys

  /** The bytes fed to SHA-256: the URL's UTF-8 bytes, then the body's. */
  function HashInput(url: string, body: seq<byte>): seq<byte> {
    Encode(url) + body
  }

  /**
   * The URL bytes the source feeds: `TransformBlock(Encoding.UTF8.GetBytes(url), 0, url.Length, ...)`
   * counts `url.Length` UTF-16 code units as if they were bytes.
   */
  function HashedUrlBytesAsWritten(url: string): (bs: seq<byte>)
    ensures bs <= Encode(url) && |bs| == Utf16Length(url)
  {
    Utf16LengthAtMostEncoded(url);
    Encode(url)[..Utf16Length(url)]
  }

  function HashInputAsWritten(url: string, body: seq<byte>): seq<byte> {
    HashedUrlBytesAsWritten(url) + body
  }

  /** The corrected cache key: `Convert.ToHexString` of the digest of every URL byte and the body. */
  function CacheKey(url: string, body: seq<byte>, sha256: seq<byte> -> seq<byte>): (key: string)
    ensures |key| == 2 * |sha256(HashInput(url, body))|
    ensures forall i :: 0 <= i < |key| ==> key[i] in HexDigits
  {
    ToHexString(sha256(HashInput(url, body)))
  }

  /**
   * The cache key as the source computes it: a hex string, usable as a file
   * name, which agrees with the corrected key on every all-ASCII URL.
   */
  function CacheKeyAsWritten(url: string, body: seq<byte>, sha256: seq<byte> -> seq<byte>): (key: string)
    ensures |key| == 2 * |sha256(HashInputAsWritten(url, body))|
    ensures forall i :: 0 <= i < |key| ==> key[i] in HexDigits
    ensures AllAscii(url) ==> key == CacheKey(url, body, sha256)
  {
    Utf16LengthAtMostEncoded(url);
    assert AllAscii(url) ==> HashedUrlBytesAsWritten(url) == Encode(url);
    ToHexString(sha256(HashInputAsWritten(url, body)))
  }

  /** Two requests share a key exactly when the digests of their hash inputs agree. */
  lemma SameKeyIffSameDigest(u1: string, b1: seq<byte>, u2: string, b2: seq<byte>,
                             sha256: seq<byte> -> seq<byte>)
    ensures CacheKeyAsWritten(u1, b1, sha256) == CacheKeyAsWritten(u2, b2, sha256)
        <==> sha256(HashInputAsWritten(u1, b1)) == sha256(HashInputAsWritten(u2, b2))
  {
    if CacheKeyAsWritten(u1, b1, sha256) == CacheKeyAsWritten(u2, b2, sha256) {
      ToHexStringInjective(sha256(HashInputAsWritten(u1, b1)), sha256(HashInputAsWritten(u2, b2)));
    }
  }

  /** As written, the same URL with different bodies still feeds different bytes to the hash. */
  lemma SameUrlDistinctBodies(url: string, b1: seq<byte>, b2: seq<byte>)
    requires b1 != b2
    ensures HashInputAsWritten(url, b1) != HashInputAsWritten(url, b2)
  {
    var n := |HashedUrlBytesAsWritten(url)|;
    assert HashInputAsWritten(url, b1)[n..] == b1;
    assert HashInputAsWritten(url, b2)[n..] == b2;
  }

  /** With the whole URL hashed, different URLs with the same body give different hash inputs. */
  lemma DistinctUrlsHashDistinctInputs(u1: string, u2: string, body: seq<byte>)
    requires u1 != u2
    ensures HashInput(u1, body) != HashInput(u2, body)
  {
    if HashInput(u1, body) == HashInput(u2, body) {
      var e1, e2 := Encode(u1), Encode(u2);
      assert |e1| == |e2|;
      assert e1 == HashInput(u1, body)[..|e1|] == e2;
      EncodeInjective(u1, u2);
    }
  }

  /**
   * The input is a plain concatenation: after an all-ASCII URL, the bytes a
   * URL suffix contributes may move into the body without changing the key,
   * so `GET /http://x/ab` and `POST /http://x/a` with body `b` share one.
   */
  lemma KeyDoesNotSeparateUrlFromBody(url: string, suffix: string, body: seq<byte>,
                                      sha256: seq<byte> -> seq<byte>)
    requires AllAscii(url)
    ensures CacheKeyAsWritten(url + suffix, body, sha256)
         == CacheKeyAsWritten(url, HashedUrlBytesAsWritten(suffix) + body, sha256)
  {
    Utf16LengthAtMostEncoded(url);
    Utf16LengthAtMostEncoded(suffix);
    EncodeAppend(url, suffix);
    Utf16LengthAppend(url, suffix);
    var eu, es := Encode(url), Encode(suffix);
    assert (eu + es)[..|eu| + Utf16Length(suffix)] == eu + es[..Utf16Length(suffix)];
    assert HashInputAsWritten(url + suffix, body) == HashInputAsWritten(url, HashedUrlBytesAsWritten(suffix) + body);
  }

  /** For an all-ASCII URL the source's input is the whole URL, as intended. */
  lemma AsciiUrlHashedWhole(url: string, body: seq<byte>)
    requires AllAscii(url)
    ensures HashInputAsWritten(url, body) == HashInput(url, body)
  {
    Utf16LengthAtMostEncoded(url);
  }

  /** For any URL with a non-ASCII character the source leaves trailing UTF-8 bytes out of the hash. */
  lemma NonAsciiUrlHashedInPart(url: string)
    requires !AllAscii(url)
    ensures |HashedUrlBytesAsWritten(url)| < |Encode(url)|
  {
    Utf16LengthAtMostEncoded(url);
  }

  /**
   * As written, an ASCII prefix followed by two different two-byte characters
   * with the same UTF-8 lead byte gives one key: the continuation byte that
   * tells them apart is never hashed.
   */
  lemma NonAsciiUrlsShareKey(prefix: string, c1: char, c2: char, body: seq<byte>,
                             sha256: seq<byte> -> seq<byte>)
    requires AllAscii(prefix)
    requires 0x80 <= c1 as int < 0x800 && 0x80 <= c2 as int < 0x800
    requires c1 as int / 0x40 == c2 as int / 0x40
    ensures CacheKeyAsWritten(prefix + [c1], body, sha256) == CacheKeyAsWritten(prefix + [c2], body, sha256)
  {
    TwoByteCharHashedAsLeadByte(prefix, c1);
    TwoByteCharHashedAsLeadByte(prefix, c2);
    assert HashInputAsWritten(prefix + [c1], body) == HashInputAsWritten(prefix + [c2], body);
  }

  /** After an ASCII prefix, a two-byte character contributes only its lead byte. */
  lemma TwoByteCharHashedAsLeadByte(prefix: string, c: char)
    requires AllAscii(prefix)
    requires 0x80 <= c as int < 0x800
    ensures HashedUrlBytesAsWritten(prefix + [c]) == Encode(prefix) + [0xC0 + c as int / 0x40]
  {
    Utf16LengthAtMostEncoded(prefix);
    EncodeAppend(prefix, [c]);
    Utf16LengthAppend(prefix, [c]);
    assert Encode([c]) == EncodeScalar(c);
    assert Utf16Length([c]) == 1;
  }

  /** Instance: `http://x/é` and `http://x/è` are cached under one key. */
  lemma AccentedUrlsShareKey(body: seq<byte>, sha256: seq<byte> -> seq<byte>)
    ensures "http://x/\U{E9}" != "http://x/\U{E8}"
    ensures CacheKeyAsWritten("http://x/\U{E9}", body, sha256) == CacheKeyAsWritten("http://x/\U{E8}", body, sha256)
  {
    var prefix := "http://x/";
    assert "http://x/\U{E9}" == prefix + ['\U{E9}'];
    assert "http://x/\U{E8}" == prefix + ['\U{E8}'];
    assert "http://x/\U{E9}"[9] != "http://x/\U{E8}"[9];
    NonAsciiUrlsShareKey(prefix, '\U{E9}', '\U{E8}', body, sha256);
  }

  /** A request body being read: `MemoryStream` with its buffer and position. */
  class MemoryStream {
    var buffer: seq<byte>
    var position: nat

    ghost predicate Valid()
      reads this
    {
      position <= |buffer|
    }

    constructor (bytes: seq<byte>)
      ensures Valid() && buffer == bytes && position == 0
    {
      buffer, position := bytes, 0;
    }
  }

  /**
   * `GenerateHash(url, body)`: feeds the URL bytes, then what remains of the
   * body stream, to one SHA-256 context, rewinds the body and returns the hex
   * digest. Of the URL's UTF-8 bytes only the first `url.Length` are fed (see
   * `HashedUrlBytesAsWritten`).
   */
  method GenerateHash(url: string, body: MemoryStream?, sha256: seq<byte> -> seq<byte>)
    returns (hash: string)
    requires body != null ==> body.Valid()
    modifies body
    ensures body == null ==> hash == CacheKeyAsWritten(url, [], sha256)
    ensures body != null ==> hash == CacheKeyAsWritten(url, old(body.buffer[body.position..]), sha256)
    ensures body != null ==> body.Valid() && body.buffer == old(body.buffer) && body.position == 0
  {
    var urlBytes := Encode(url);
    Utf16LengthAtMostEncoded(url);
    var fed := urlBytes[..Utf16Length(url)];
    if body != null {
      var rest := body.buffer[body.position..];
      fed := fed + rest;
      body.position := 0;
    } else {
      assert fed == HashInputAsWritten(url, []);
    }
    hash := ToHexString(sha256(fed));
  }

  // ---------------------------------------------------------------- store

  function CacheFile(hash: string): string {
    hash + ".cache"
  }

  function MetadataFile(hash: string): string {
    hash + ".metadata.json"
  }

  /** The POST body dump written by the POST handler. */
  function RequestFile(hash: string): string {
    hash + ".request"
  }

  lemma SuffixCancels(a: string, b: string, suffix: string)
    requires a + suffix == b + suffix
    ensures a == b
  {
    assert a == (a + suffix)[..|a|];
    assert b == (b + suffix)[..|b|];
  }

  /** The three file names of one key differ from each other and from every other key's. */
  lemma FileNamesDistinct(h1: string, h2: string)
    ensures CacheFile(h1) != MetadataFile(h2)
    ensures CacheFile(h1) != RequestFile(h2)
    ensures MetadataFile(h1) != RequestFile(h2)
    ensures CacheFile(h1) == CacheFile(h2) ==> h1 == h2
    ensures MetadataFile(h1) == MetadataFile(h2) ==> h1 == h2
    ensures RequestFile(h1) == RequestFile(h2) ==> h1 == h2
  {
    var c, m, r := CacheFile(h1), MetadataFile(h2), RequestFile(h2);
    assert c[|c| - 1] == 'e' && m[|m| - 1] == 'n' && r[|r| - 1] == 't';
    assert MetadataFile(h1)[|MetadataFile(h1)| - 1] == 'n';
    if CacheFile(h1) == CacheFile(h2) { SuffixCancels(h1, h2, ".cache"); }
    if MetadataFile(h1) == MetadataFile(h2) { SuffixCancels(h1, h2, ".metadata.json"); }
    if RequestFile(h1) == RequestFile(h2) { SuffixCancels(h1, h2, ".request"); }
  }

  /**
   * The cache directory: file name to contents. Reading or writing a name in
   * `faulty` throws an I/O exception and changes nothing.
   */
  class FileStore {
    var files: map<string, seq<byte>>
    const faulty: set<string>

    constructor (files: map<string, seq<byte>>, faulty: set<string>)
      ensures this.files == files && this.faulty == faulty
    {
      this.files, this.faulty := files, faulty;
    }

    /** `File.Exists`. */
    method Exists(path: string) returns (b: bool)
      ensures b <==> path in files
    {
      b := path in files;
    }

    /** `File.ReadAllBytesAsync` (and `ReadAllTextAsync`); `None` when it throws. */
    method ReadAllBytes(path: string) returns (r: Option<seq<byte>>)
      ensures r.Some? <==> path in files && path !in faulty
      ensures r.Some? ==> r.value == files[path]
    {
      if path in files && path !in faulty {
        r := Some(files[path]);
      } else {
        r := None;
      }
    }

    /** `File.WriteAllBytesAsync` (and `WriteAllTextAsync`); `false` when it throws. */
    method WriteAllBytes(path: string, data: seq<byte>) returns (ok: bool)
      modifies this
      ensures ok <==> path !in faulty
      ensures files == if ok then old(files)[path := data] else old(files)
    {
      ok := path !in faulty;
      if ok {
        files := files[path := data];
      }
    }
  }

  /** `response.Headers.Concat(response.Content.Headers).ToDictionary(...)`; `None` when a name repeats (ToDictionary throws). */
  function MergeHeaders(first: Headers, second: Headers): (r: Option<Headers>)
    ensures r.Some? <==> first.Keys !! second.Keys
    ensures r.Some? ==> r.value.Keys == first.Keys + second.Keys
    ensures r.Some? ==> forall k :: k in first ==> r.value[k] == first[k]
    ensures r.Some? ==> forall k :: k in second ==> r.value[k] == second[k]
  {
    if first.Keys !! second.Keys then Some(first + second) else None
  }

  /**
   * The record `SaveToCache` builds, or `None` when building it throws: it
   * carries the request's url and headers, the response's status, content
   * type and merged headers, and the time of the save.
   */
  function NewMetadata(url: string, requestHeaders: Headers, response: HttpResponse, utcNow: int)
    : (r: Option<CacheMetadata>)
    ensures r.Some? <==> response.headers.Keys !! response.contentHeaders.Keys
    ensures r.Some? ==> && r.value.url == url && r.value.requestHeaders == requestHeaders
                        && r.value.statusCode == response.status && r.value.contentType == response.contentType
                        && r.value.cachedAt == utcNow
                        && r.value.responseHeaders.Keys == response.headers.Keys + response.contentHeaders.Keys
    ensures r.Some? ==> Some(r.value.responseHeaders) == MergeHeaders(response.headers, response.contentHeaders)
  {
    match MergeHeaders(response.headers, response.contentHeaders)
    case None => None
    case Some(responseHeaders) =>
      Some(CacheMetadata(utcNow, requestHeaders, responseHeaders, response.status, response.contentType, url))
  }

  /**
   * The record `LoadFromCache` makes up when the stored one is missing or
   * `null`: a 200 of unknown origin, stamped now, whose one response header
   * agrees with its JSON content type.
   */
  function DefaultMetadata(utcNow: int): (m: CacheMetadata)
    ensures m.cachedAt == utcNow && m.statusCode == 200 && m.url == "unknown" && m.requestHeaders == map[]
    ensures m.contentType.Some? && m.responseHeaders == map["Content-Type" := [m.contentType.value]]
    ensures m.contentType.value == "application/json; charset=utf-8"
  {
    CacheMetadata(utcNow, map[], map["Content-Type" := [DefaultContentType]],
                  DefaultStatusCode, Some(DefaultContentType), UnknownUrl)
  }

  /** The files after a `SaveToCache`, and whether it finished without throwing. */
  datatype Saved = Saved(files: map<string, seq<byte>>, ok: bool)

  function Save(files: map<string, seq<byte>>, faulty: set<string>, hash: string, url: string,
                requestHeaders: Headers, response: HttpResponse, data: seq<byte>, utcNow: int,
                codec: JsonCodec): (s: Saved)
    ensures s.ok <==> CacheFile(hash) !in faulty && MetadataFile(hash) !in faulty
                      && NewMetadata(url, requestHeaders, response, utcNow).Some?
    ensures s.ok ==> s.files == files[CacheFile(hash) := data]
                       [MetadataFile(hash) := codec.serialize(NewMetadata(url, requestHeaders, response, utcNow).value)]
    ensures !s.ok ==> s.files == files || s.files == files[CacheFile(hash) := data]
    // a throwing payload write changes nothing; after it, the payload stays, even when a later step throws
    ensures CacheFile(hash) in faulty ==> s == Saved(files, false)
    ensures CacheFile(hash) !in faulty ==> CacheFile(hash) in s.files && s.files[CacheFile(hash)] == data
    ensures forall p :: p != CacheFile(hash) && p != MetadataFile(hash) ==>
              (p in s.files <==> p in files) && (p in files ==> s.files[p] == files[p])
  {
    if CacheFile(hash) in faulty then
      Saved(files, false)
    else
      var written := files[CacheFile(hash) := data];
      match NewMetadata(url, requestHeaders, response, utcNow)
      case None => Saved(written, false)
      case Some(metadata) =>
        if MetadataFile(hash) in faulty then Saved(written, false)
        else Saved(written[MetadataFile(hash) := codec.serialize(metadata)], true)
  }

  /** What `LoadFromCache` returns, and the files after it. */
  datatype Loaded = Loaded(entry: Option<CacheEntry>, files: map<string, seq<byte>>)

  function Load(files: map<string, seq<byte>>, faulty: set<string>, hash: string, utcNow: int,
                codec: JsonCodec): (r: Loaded)
    // a miss when no payload is stored, and then nothing is written
    ensures CacheFile(hash) !in files ==> r == Loaded(None, files)
    // a miss when the payload or the metadata cannot be read or written, and then nothing is written
    ensures CacheFile(hash) in files && (CacheFile(hash) in faulty || MetadataFile(hash) in faulty) ==>
              r == Loaded(None, files)
    // a hit returns the stored bytes exactly
    ensures r.entry.Some? ==> CacheFile(hash) in files && r.entry.value.data == files[CacheFile(hash)]
    // a readable payload is a hit unless the metadata read, parse or write throws
    ensures CacheFile(hash) in files && CacheFile(hash) !in faulty && MetadataFile(hash) !in faulty ==>
              (r.entry.None? <==> MetadataFile(hash) in files && codec.deserialize(files[MetadataFile(hash)]).Malformed?)
    // the only write: the default record, where no metadata file was
    ensures r.files == files || (MetadataFile(hash) !in files && r.entry.Some?
              && r.entry.value.metadata == DefaultMetadata(utcNow)
              && r.files == files[MetadataFile(hash) := codec.serialize(DefaultMetadata(utcNow))])
    // stored metadata that parses is returned as stored
    ensures r.entry.Some? && MetadataFile(hash) in files && codec.deserialize(files[MetadataFile(hash)]).Parsed? ==>
              r.entry.value.metadata == codec.deserialize(files[MetadataFile(hash)]).metadata
    // a missing or null record is replaced by the default one
    ensures r.entry.Some? && (MetadataFile(hash) !in files || codec.deserialize(files[MetadataFile(hash)]).JsonNull?) ==>
              r.entry.value.metadata == DefaultMetadata(utcNow)
  {
    if CacheFile(hash) !in files then
      Loaded(None, files)
    else if CacheFile(hash) in faulty then
      Loaded(None, files)
    else
      var data := files[CacheFile(hash)];
      if MetadataFile(hash) !in files then
        var metadata := DefaultMetadata(utcNow);
        if MetadataFile(hash) in faulty then Loaded(None, files)
        else Loaded(Some(CacheEntry(data, metadata)), files[MetadataFile(hash) := codec.serialize(metadata)])
      else if MetadataFile(hash) in faulty then
        Loaded(None, files)
      else
        match codec.deserialize(files[MetadataFile(hash)])
        case Parsed(metadata) => Loaded(Some(CacheEntry(data, metadata)), files)
        case JsonNull => Loaded(Some(CacheEntry(data, DefaultMetadata(utcNow))), files)
        case Malformed => Loaded(None, files)
  }

  /**
   * `SaveToCache(hash, url, requestHeaders, response, data)`: writes the payload,
   * then the metadata record. Returns `false` where the source throws; the
   * payload write is not undone.
   */
  method SaveToCache(fs: FileStore, hash: string, url: string, requestHeaders: Headers,
                     response: HttpResponse, data: seq<byte>, utcNow: int, codec: JsonCodec)
    returns (ok: bool)
    modifies fs
    ensures Saved(fs.files, ok) == Save(old(fs.files), fs.faulty, hash, url, requestHeaders, response, data, utcNow, codec)
  {
    ok := fs.WriteAllBytes(CacheFile(hash), data);
    if !ok {
      return;
    }
    var metadata := NewMetadata(url, requestHeaders, response, utcNow);
    if metadata.None? {
      return false;
    }
    ok := fs.WriteAllBytes(MetadataFile(hash), codec.serialize(metadata.value));
  }

  /**
   * `LoadFromCache(hash)`: `None` on a miss or when anything inside the `try`
   * throws; otherwise the payload with its stored metadata, or with a default
   * record that is written back only when no metadata file exists.
   */
  method LoadFromCache(fs: FileStore, hash: string, utcNow: int, codec: JsonCodec)
    returns (entry: Option<CacheEntry>)
    modifies fs
    ensures Loaded(entry, fs.files) == Load(old(fs.files), fs.faulty, hash, utcNow, codec)
  {
    var cacheFile, metadataFile := CacheFile(hash), MetadataFile(hash);
    var found := fs.Exists(cacheFile);
    if !found {
      return None;
    }
    var data := fs.ReadAllBytes(cacheFile);
    if data.None? {
      return None;
    }
    var metadata: CacheMetadata;
    var metadataExists := fs.Exists(metadataFile);
    if !metadataExists {
      metadata := DefaultMetadata(utcNow);
      var ok := fs.WriteAllBytes(metadataFile, codec.serialize(metadata));
      if !ok {
        return None;
      }
    } else {
      var json := fs.ReadAllBytes(metadataFile);
      if json.None? {
        return None;
      }
      match codec.deserialize(json.value) {
        case Malformed =>
          return None;
        case JsonNull =>
          metadata := DefaultMetadata(utcNow);
        case Parsed(m) =>
          metadata := m;
      }
    }
    entry := Some(CacheEntry(data.value, metadata));
  }

  // ---------------------------------------------------------------- properties

  /**
   * Miss, then hit: a key with no payload loads as absent; after a save that
   * completes, loading it gives back the saved bytes and the saved url, status
   * code, content type and headers, and writes nothing.
   */
  lemma SaveThenLoad(files: map<string, seq<byte>>, faulty: set<string>, hash: string, url: string,
                     requestHeaders: Headers, response: HttpResponse, data: seq<byte>,
                     savedAt: int, loadedAt: int, codec: JsonCodec)
    requires RoundTrips(codec)
    requires Save(files, faulty, hash, url, requestHeaders, response, data, savedAt, codec).ok
    ensures var saved := Save(files, faulty, hash, url, requestHeaders, response, data, savedAt, codec);
            var loaded := Load(saved.files, faulty, hash, loadedAt, codec);
            && loaded.files == saved.files
            && loaded.entry.Some?
            && loaded.entry.value.data == data
            && loaded.entry.value.metadata.url == url
            && loaded.entry.value.metadata.statusCode == response.status
            && loaded.entry.value.metadata.contentType == response.contentType
            && loaded.entry.value.metadata.requestHeaders == requestHeaders
            && loaded.entry.value.metadata.cachedAt == savedAt
            && loaded.entry.value.metadata == NewMetadata(url, requestHeaders, response, savedAt).value
  {
  }

  /**
   * Self-healing: with a readable payload and no metadata file, the first load
   * returns the default record and writes it; the second returns that same
   * record, with the first load's timestamp, and writes nothing.
   */
  lemma MissingMetadataHealsOnce(files: map<string, seq<byte>>, faulty: set<string>, hash: string,
                                 firstAt: int, secondAt: int, codec: JsonCodec)
    requires CacheFile(hash) in files && MetadataFile(hash) !in files
    requires CacheFile(hash) !in faulty && MetadataFile(hash) !in faulty
    requires codec.deserialize(codec.serialize(DefaultMetadata(firstAt))) == Parsed(DefaultMetadata(firstAt))
    ensures var first := Load(files, faulty, hash, firstAt, codec);
            var second := Load(first.files, faulty, hash, secondAt, codec);
            && first.entry == Some(CacheEntry(files[CacheFile(hash)], DefaultMetadata(firstAt)))
            && MetadataFile(hash) in first.files
            && second.entry == first.entry
            && second.files == first.files
  {
  }

  /** A metadata file holding `null` is never repaired: every load makes up a fresh default and writes nothing. */
  lemma NullMetadataNotWritten(files: map<string, seq<byte>>, faulty: set<string>, hash: string,
                               utcNow: int, codec: JsonCodec)
    requires CacheFile(hash) in files && CacheFile(hash) !in faulty
    requires MetadataFile(hash) in files && MetadataFile(hash) !in faulty
    requires codec.deserialize(files[MetadataFile(hash)]) == JsonNull
    ensures Load(files, faulty, hash, utcNow, codec)
         == Loaded(Some(CacheEntry(files[CacheFile(hash)], DefaultMetadata(utcNow))), files)
  {
  }

  /** Saving one key leaves what every other key loads unchanged. */
  lemma SaveKeepsOtherEntries(files: map<string, seq<byte>>, faulty: set<string>, hash: string, other: string,
                              url: string, requestHeaders: Headers, response: HttpResponse, data: seq<byte>,
                              savedAt: int, loadedAt: int, codec: JsonCodec)
    requires hash != other
    ensures var saved := Save(files, faulty, hash, url, requestHeaders, response, data, savedAt, codec);
            Load(saved.files, faulty, other, loadedAt, codec).entry == Load(files, faulty, other, loadedAt, codec).entry
  {
    FileNamesDistinct(hash, other);
    FileNamesDistinct(other, hash);
  }

  /** Every metadata file in the cache directory has its payload beside it. */
  ghost predicate MetadataHasPayload(files: map<string, seq<byte>>) {
    forall h :: MetadataFile(h) in files ==> CacheFile(h) in files
  }

  /** A save, complete or not, never leaves a metadata file without its payload: the payload is written first. */
  lemma SaveKeepsMetadataWithPayload(files: map<string, seq<byte>>, faulty: set<string>, hash: string, url: string,
                                     requestHeaders: Headers, response: HttpResponse, data: seq<byte>,
                                     utcNow: int, codec: JsonCodec)
    requires MetadataHasPayload(files)
    ensures MetadataHasPayload(Save(files, faulty, hash, url, requestHeaders, response, data, utcNow, codec).files)
  {
    var r := Save(files, faulty, hash, url, requestHeaders, response, data, utcNow, codec);
    forall h | MetadataFile(h) in r.files
      ensures CacheFile(h) in r.files
    {
      FileNamesDistinct(h, hash);
      FileNamesDistinct(hash, h);
    }
  }

  /** A load writes a metadata file only where the payload is present. */
  lemma LoadKeepsMetadataWithPayload(files: map<string, seq<byte>>, faulty: set<string>, hash: string,
                                     utcNow: int, codec: JsonCodec)
    requires MetadataHasPayload(files)
    ensures MetadataHasPayload(Load(files, faulty, hash, utcNow, codec).files)
  {
    var r := Load(files, faulty, hash, utcNow, codec);
    forall h | MetadataFile(h) in r.files
      ensures CacheFile(h) in r.files
    {
      FileNamesDistinct(h, hash);
      FileNamesDistinct(hash, h);
    }
  }
}

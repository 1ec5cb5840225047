/**
 * The cache-aside image handler of `serverless/index.js`: it derives a cache
 * key from the request, serves the cached rendition from the bucket when it
 * can, and otherwise reads the original, transforms it, writes the rendition
 * back under the cache key and returns it. Any failure on the way after the
 * cache lookup ends in 404.
 */
module ImageHandler {
  import opened Common
  import Base64
  import Utf8
  import Json
  import opened QueryParams

  /** The part of the HTTP API event the handler reads. */
  datatype Event = Event(rawPath: string, queryStringParameters: Option<Params>)

  /** An object in the bucket: its bytes and its Content-Type. */
  datatype StoredObject = StoredObject(body: seq<byte>, contentType: string)

  /** The Lambda proxy response; `isBase64Encoded` false stands for the field being absent. */
  datatype Response = Response(statusCode: int, headers: map<string, string>, body: Option<string>, isBase64Encoded: bool)

  const ContentTypeHeader := "Content-Type"
  const WebpType := "image/webp"
  const JpegType := "image/jpeg"
  const CachePrefix := "optimized-images/"
  const DefaultFit := "cover"
  const DefaultQuality := 80

  /** A 200 response carrying the bytes in base64. */
  function Ok(contentType: string, bytes: seq<byte>): Response {
    Response(200, map[ContentTypeHeader := contentType], Some(Base64.Encode(bytes)), true)
  }

  /** The 404 response: no headers, no body. */
  const NotFound := Response(404, map[], None, false)

  /** `event.rawPath.replace(/^\//, "")`: the object key of the original. */
  function ObjectPath(rawPath: string): (path: string)
    ensures if |rawPath| > 0 && rawPath[0] == '/' then "/" + path == rawPath else path == rawPath
  {
    if |rawPath| > 0 && rawPath[0] == '/' then rawPath[1..] else rawPath
  }

  /** `{webp: 'image/webp'}[param.type] || 'image/jpeg'`. */
  function ContentTypeFor(param: Params): (contentType: string)
    ensures contentType == WebpType <==> Get(param, TypeName) == Some("webp")
    ensures contentType == WebpType || contentType == JpegType
  {
    if Get(param, TypeName) == Some("webp") then WebpType else JpegType
  }

  /** The cache key: the prefix, then base64 of the UTF-8 of `JSON.stringify({path, param})`. */
  function CacheKey(path: string, param: Params): (key: string)
    ensures |key| > |CachePrefix| + |path|
    ensures key[..|CachePrefix|] == CachePrefix
  {
    var json := Json.Props(path, param);
    var bytes := Utf8.Encode(json);
    Base64.EncodeNotShorter(bytes);
    CachePrefix + Base64.Encode(bytes)
  }

  /** The cache key of a request. */
  function RequestKey(event: Event): (key: string)
    ensures |key| > |CachePrefix| + |ObjectPath(event.rawPath)|
    ensures key[..|CachePrefix|] == CachePrefix
  {
    CacheKey(ObjectPath(event.rawPath), EffectiveParams(event.queryStringParameters))
  }

  // ---------------------------------------------------------------------------
  // The image pipeline. `parseInt` is not modelled: an argument it would parse
  // is carried as the raw string.

  datatype IntArg = ParseIntOf(raw: string) | Literal(value: int)
  datatype Resize = Resize(width: Option<IntArg>, height: Option<IntArg>, fit: string)
  datatype Encoding = SourceFormat | Webp(quality: IntArg) | Jpeg(quality: IntArg)

  /** A sharp pipeline that has not run yet: source bytes, resize options, output encoding. */
  datatype Image = Image(source: seq<byte>, resize: Resize, encoding: Encoding)

  /** Running a pipeline (`toBuffer`): the output bytes, or None when sharp rejects. */
  type Transformer = Image -> Option<seq<byte>>

  /** `param[name] ? parseInt(param[name]) : undefined`. */
  function IntParam(param: Params, name: string): Option<IntArg> {
    if Truthy(Get(param, name)) then Some(ParseIntOf(Get(param, name).value)) else None
  }

  /** The resize options: width and height only when given non-empty, fit "cover" unless given non-empty. */
  function ResizeOf(param: Params): (r: Resize)
    ensures r.width.Some? <==> Truthy(Get(param, "width"))
    ensures r.height.Some? <==> Truthy(Get(param, "height"))
    ensures r.width.Some? ==> r.width.value == ParseIntOf(Get(param, "width").value)
    ensures r.height.Some? ==> r.height.value == ParseIntOf(Get(param, "height").value)
    ensures r.fit != ""
    ensures Truthy(Get(param, "fit")) ==> r.fit == Get(param, "fit").value
  {
    var fit := Get(param, "fit");
    Resize(IntParam(param, "width"), IntParam(param, "height"), if Truthy(fit) then fit.value else DefaultFit)
  }

  /** `param.quality ? parseInt(param.quality) : 80`, with no clamping. */
  function QualityOf(param: Params): (q: IntArg)
    ensures q.Literal? <==> !Truthy(Get(param, "quality"))
    ensures q.Literal? ==> q.value == DefaultQuality
    ensures q.ParseIntOf? ==> q.raw == Get(param, "quality").value
  {
    if Truthy(Get(param, "quality")) then ParseIntOf(Get(param, "quality").value) else Literal(DefaultQuality)
  }

  /** The whole pipeline built for the original's bytes. */
  function Pipeline(source: seq<byte>, param: Params, contentType: string): (image: Image)
    ensures image.source == source && image.resize == ResizeOf(param)
    ensures image.encoding.Webp? <==> contentType == WebpType
    ensures !image.encoding.SourceFormat? && image.encoding.quality == QualityOf(param)
  {
    Image(source, ResizeOf(param),
          if contentType == WebpType then Webp(QualityOf(param)) else Jpeg(QualityOf(param)))
  }

  // ---------------------------------------------------------------------------
  // One request against the bucket, as a function of the bucket before it.

  /** A command sent to the object store. */
  datatype Command = GetObject(key: string) | PutObject(key: string, stored: StoredObject)

  /** Which store calls fail for a reason other than a missing key (network, permissions, ...). */
  datatype Faults = Faults(cacheRead: bool, originRead: bool, cacheWrite: bool)

  /** The response, the bucket afterwards and the commands sent, in order. */
  datatype Run = Run(response: Response, bucket: map<string, StoredObject>, sent: seq<Command>)

  function Handling(bucket: map<string, StoredObject>, event: Event, transform: Transformer, faults: Faults): (run: Run)
    ensures run.response.statusCode == 200 || run.response == NotFound
    ensures 1 <= |run.sent| <= 3 && run.sent[0] == GetObject(RequestKey(event))
    ensures run.response == NotFound ==> run.bucket == bucket
  {
    var path := ObjectPath(event.rawPath);
    var param := EffectiveParams(event.queryStringParameters);
    Serving(bucket, path, param, ContentTypeFor(param), CacheKey(path, param), transform, faults)
  }

  /** The store part of a request, once the original's key, the parameters, the Content-Type and the cache key are known. */
  function Serving(bucket: map<string, StoredObject>, path: string, param: Params, contentType: string, key: string,
                   transform: Transformer, faults: Faults): (run: Run)
    ensures run.response.statusCode == 200 || run.response == NotFound
    ensures 1 <= |run.sent| <= 3 && run.sent[0] == GetObject(key)
    ensures run.response == NotFound ==> run.bucket == bucket
  {
    if !faults.cacheRead && key in bucket then
      Run(Ok(bucket[key].contentType, bucket[key].body), bucket, [GetObject(key)])
    else if faults.originRead || path !in bucket then
      Run(NotFound, bucket, [GetObject(key), GetObject(path)])
    else match transform(Pipeline(bucket[path].body, param, contentType))
      case None => Run(NotFound, bucket, [GetObject(key), GetObject(path)])
      case Some(out) =>
        var written := StoredObject(out, contentType);
        var sent := [GetObject(key), GetObject(path), PutObject(key, written)];
        if faults.cacheWrite then Run(NotFound, bucket, sent)
        else Run(Ok(contentType, out), bucket[key := written], sent)
  }

  datatype GetResult = Found(stored: StoredObject) | NoSuchKey | ReadFailed

  /** The bucket, and the log of the commands sent to it. */
  class ImageService {
    var bucket: map<string, StoredObject>
    var sent: seq<Command>

    constructor (objects: map<string, StoredObject>)
      ensures bucket == objects && sent == []
    {
      bucket := objects;
      sent := [];
    }

    /** `s3.send(new GetObjectCommand(...))` and reading the body. */
    method Get(key: string, fails: bool) returns (r: GetResult)
      modifies this
      ensures bucket == old(bucket) && sent == old(sent) + [GetObject(key)]
      ensures r.Found? <==> !fails && key in bucket
      ensures r.Found? ==> r.stored == bucket[key]
      ensures r == NoSuchKey <==> !fails && key !in bucket
    {
      sent := sent + [GetObject(key)];
      if fails {
        r := ReadFailed;
      } else if key in bucket {
        r := Found(bucket[key]);
      } else {
        r := NoSuchKey;
      }
    }

    /** `s3.send(new PutObjectCommand(...))`: the object is stored unless the call fails. */
    method Put(key: string, stored: StoredObject, fails: bool) returns (ok: bool)
      modifies this
      ensures sent == old(sent) + [PutObject(key, stored)]
      ensures ok == !fails
      ensures bucket == if ok then old(bucket)[key := stored] else old(bucket)
    {
      sent := sent + [PutObject(key, stored)];
      ok := !fails;
      if ok {
        bucket := bucket[key := stored];
      }
    }

    /** `module.exports.handler`. */
    method Handle(event: Event, transform: Transformer, faults: Faults) returns (response: Response)
      modifies this
      ensures var run := Handling(old(bucket), event, transform, faults);
              response == run.response && bucket == run.bucket && sent == old(sent) + run.sent
    {
      var path := ObjectPath(event.rawPath);
      var param := EffectiveParams(event.queryStringParameters);
      var contentType := ContentTypeFor(param);
      var optimizedPath := CacheKey(path, param);
      response := Serve(path, param, contentType, optimizedPath, transform, faults);
    }

    /** The body of the handler after the key is computed: cache lookup, original read, transform, write-back. */
    method Serve(path: string, param: Params, contentType: string, optimizedPath: string,
                 transform: Transformer, faults: Faults) returns (response: Response)
      modifies this
      ensures var run := Serving(old(bucket), path, param, contentType, optimizedPath, transform, faults);
              response == run.response && bucket == run.bucket && sent == old(sent) + run.sent
    {
      var cached := Get(optimizedPath, faults.cacheRead);
      if cached.Found? {
        return Ok(cached.stored.contentType, cached.stored.body);
      }
      // any failure of the cache read is a miss
      var origin := Get(path, faults.originRead);
      if origin.Found? {
        var image := Image(origin.stored.body, ResizeOf(param), SourceFormat);
        if contentType == WebpType {
          image := image.(encoding := Webp(QualityOf(param)));
        } else {
          image := image.(encoding := Jpeg(QualityOf(param)));
        }
        var buf := transform(image);
        if buf.Some? {
          var written := Put(optimizedPath, StoredObject(buf.value, contentType), faults.cacheWrite);
          if written {
            return Ok(contentType, buf.value);
          }
        }
      }
      return NotFound;
    }
  }

  // ---------------------------------------------------------------------------
  // The cache key.

  /** Two requests share a cache key exactly when they have the same path and the same parameters in the same order. */
  lemma CacheKeyInjective(p1: string, q1: Params, p2: string, q2: Params)
    ensures CacheKey(p1, q1) == CacheKey(p2, q2) <==> p1 == p2 && q1 == q2
  {
    if CacheKey(p1, q1) == CacheKey(p2, q2) {
      var b1, b2 := Utf8.Encode(Json.Props(p1, q1)), Utf8.Encode(Json.Props(p2, q2));
      assert Base64.Encode(b1) == CacheKey(p1, q1)[|CachePrefix|..];
      assert Base64.Encode(b2) == CacheKey(p2, q2)[|CachePrefix|..];
      Base64.EncodeInjective(b1, b2);
      Utf8.EncodeInjective(Json.Props(p1, q1), Json.Props(p2, q2));
      Json.PropsInjective(p1, q1, p2, q2);
    }
  }

  lemma SameParamsSameKey(rawPath: string, q1: Option<Params>, q2: Option<Params>)
    requires EffectiveParams(q1) == EffectiveParams(q2)
    ensures RequestKey(Event(rawPath, q1)) == RequestKey(Event(rawPath, q2))
  {
  }

  /** Leaving `type` out, or giving `type=webp` at any position, gives the same key; so do absent parameters. */
  lemma DefaultTypeSameKey(rawPath: string, query: Params, i: nat)
    requires DistinctKeys(query) && Get(query, TypeName).None? && i <= |query|
    ensures RequestKey(Event(rawPath, Some(query[..i] + [(TypeName, DefaultType)] + query[i..])))
         == RequestKey(Event(rawPath, Some(query)))
    ensures RequestKey(Event(rawPath, None)) == RequestKey(Event(rawPath, Some([])))
    ensures RequestKey(Event(rawPath, None)) == RequestKey(Event(rawPath, Some([(TypeName, DefaultType)])))
  {
    ExplicitDefaultType(query, i);
    SameParamsSameKey(rawPath, Some(query[..i] + [(TypeName, DefaultType)] + query[i..]), Some(query));
    EffectiveParamsAbsent();
    SameParamsSameKey(rawPath, None, Some([]));
    assert EffectiveParams(Some([(TypeName, DefaultType)])) == [(TypeName, DefaultType)];
    SameParamsSameKey(rawPath, None, Some([(TypeName, DefaultType)]));
  }

  /**
   * The key follows the order in which the query parameters other than `type`
   * arrive: two requests for the same path whose other parameters differ as
   * sequences, by value or merely by order, get different keys.
   */
  lemma KeyFollowsParameterOrder(rawPath: string, q1: Params, q2: Params)
    requires DistinctKeys(q1) && DistinctKeys(q2)
    requires Without(q1, TypeName) != Without(q2, TypeName)
    ensures RequestKey(Event(rawPath, Some(q1))) != RequestKey(Event(rawPath, Some(q2)))
  {
    var e1, e2 := EffectiveParams(Some(q1)), EffectiveParams(Some(q2));
    EffectiveParamsShape(q1);
    EffectiveParamsShape(q2);
    assert e1[1..] == Without(q1, TypeName);
    assert e2[1..] == Without(q2, TypeName);
    var path := ObjectPath(rawPath);
    CacheKeyInjective(path, e1, path, e2);
  }

  /** Swapping `width` and `height` in the query string changes the key. */
  lemma SwappedParametersDifferentKey(rawPath: string)
    ensures RequestKey(Event(rawPath, Some([("width", "100"), ("height", "50")])))
         != RequestKey(Event(rawPath, Some([("height", "50"), ("width", "100")])))
  {
    var q1 := [("width", "100"), ("height", "50")];
    var q2 := [("height", "50"), ("width", "100")];
    assert Without(q1, TypeName) == q1;
    assert Without(q2, TypeName) == q2;
    KeyFollowsParameterOrder(rawPath, q1, q2);
  }

  /** The cache key of a request is never the key of its original. */
  lemma KeyIsNotPath(event: Event)
    ensures RequestKey(event) != ObjectPath(event.rawPath)
  {
  }

  // ---------------------------------------------------------------------------
  // Outcomes of one request.

  /** A hit answers 200 with the stored Content-Type and base64 of the stored bytes, reads nothing else and changes nothing. */
  lemma CacheHit(bucket: map<string, StoredObject>, event: Event, transform: Transformer, faults: Faults)
    requires !faults.cacheRead && RequestKey(event) in bucket
    ensures var stored := bucket[RequestKey(event)];
            var run := Handling(bucket, event, transform, faults);
            && run.response.statusCode == 200
            && run.response.headers == map[ContentTypeHeader := stored.contentType]
            && run.response.body == Some(Base64.Encode(stored.body))
            && run.response.isBase64Encoded
            && run.bucket == bucket
            && run.sent == [GetObject(RequestKey(event))]
  {
  }

  /**
   * A failed cache read is handled as a miss: the request goes on exactly as
   * if the cache key were absent, and the bucket ends the same apart from the
   * cache key itself.
   */
  lemma CacheReadFailureIsMiss(bucket: map<string, StoredObject>, event: Event, transform: Transformer, faults: Faults)
    requires faults.cacheRead
    ensures var key := RequestKey(event);
            var failed := Handling(bucket, event, transform, faults);
            var missed := Handling(bucket - {key}, event, transform, faults.(cacheRead := false));
            && failed.response == missed.response
            && failed.sent == missed.sent
            && failed.sent[1] == GetObject(ObjectPath(event.rawPath))
            && (forall k :: k != key ==> (k in failed.bucket <==> k in missed.bucket))
            && (forall k :: k != key && k in failed.bucket ==> failed.bucket[k] == missed.bucket[k])
  {
    KeyIsNotPath(event);
    var path := ObjectPath(event.rawPath);
    var param := EffectiveParams(event.queryStringParameters);
    ServingReadFailureIsMiss(bucket, path, param, ContentTypeFor(param), RequestKey(event), transform, faults);
  }

  /** CacheReadFailureIsMiss for the store part, for any cache key other than the original's. */
  lemma ServingReadFailureIsMiss(bucket: map<string, StoredObject>, path: string, param: Params, contentType: string, key: string,
                                 transform: Transformer, faults: Faults)
    requires faults.cacheRead && key != path
    ensures var failed := Serving(bucket, path, param, contentType, key, transform, faults);
            var missed := Serving(bucket - {key}, path, param, contentType, key, transform, faults.(cacheRead := false));
            && failed.response == missed.response
            && failed.sent == missed.sent
            && failed.sent[1] == GetObject(path)
            && (forall k :: k != key ==> (k in failed.bucket <==> k in missed.bucket))
            && (forall k :: k != key && k in failed.bucket ==> failed.bucket[k] == missed.bucket[k])
  {
  }

  /**
   * A miss whose original is read and transformed sends exactly one write, to
   * the cache key, after the two reads; if the write succeeds the answer is 200
   * with the computed Content-Type and base64 of the very bytes written.
   */
  lemma MissWritesBack(bucket: map<string, StoredObject>, event: Event, transform: Transformer, faults: Faults)
    requires var key := RequestKey(event);
             var path := ObjectPath(event.rawPath);
             var param := EffectiveParams(event.queryStringParameters);
             && (faults.cacheRead || key !in bucket)
             && !faults.originRead && path in bucket
             && transform(Pipeline(bucket[path].body, param, ContentTypeFor(param))).Some?
    ensures var key := RequestKey(event);
            var path := ObjectPath(event.rawPath);
            var param := EffectiveParams(event.queryStringParameters);
            var contentType := ContentTypeFor(param);
            var out := transform(Pipeline(bucket[path].body, param, contentType)).value;
            var run := Handling(bucket, event, transform, faults);
            && run.sent == [GetObject(key), GetObject(path), PutObject(key, StoredObject(out, contentType))]
            && (!faults.cacheWrite ==>
                  run.response == Ok(contentType, out)
                  && run.response.body == Some(Base64.Encode(out))
                  && run.bucket == bucket[key := StoredObject(out, contentType)])
            && (faults.cacheWrite ==> run.response == NotFound && run.bucket == bucket)
  {
  }

  /**
   * On a miss, a missing or unreadable original, or a failed transform, gives
   * 404 with no headers and no body, and nothing is written.
   */
  lemma MissFailureIsNotFound(bucket: map<string, StoredObject>, event: Event, transform: Transformer, faults: Faults)
    requires var key := RequestKey(event);
             var path := ObjectPath(event.rawPath);
             var param := EffectiveParams(event.queryStringParameters);
             && (faults.cacheRead || key !in bucket)
             && (faults.originRead || path !in bucket
                 || transform(Pipeline(bucket[path].body, param, ContentTypeFor(param))).None?)
    ensures var run := Handling(bucket, event, transform, faults);
            && run.response == NotFound
            && run.response.statusCode == 404 && run.response.headers == map[] && run.response.body.None?
            && run.bucket == bucket
            && run.sent == [GetObject(RequestKey(event)), GetObject(ObjectPath(event.rawPath))]
  {
  }

  /**
   * Whatever happens, the answer is 200 or 404; at most the cache key is
   * written, and only as the last command; a 200 leaves under the cache key
   * the bytes and Content-Type it answers with.
   */
  lemma OnlyCacheKeyWritten(bucket: map<string, StoredObject>, event: Event, transform: Transformer, faults: Faults)
    ensures var key := RequestKey(event);
            var run := Handling(bucket, event, transform, faults);
            && (run.response.statusCode == 200 || run.response.statusCode == 404)
            && (forall k :: k != key ==> (k in run.bucket <==> k in bucket))
            && (forall k :: k != key && k in bucket ==> run.bucket[k] == bucket[k])
            && (forall i :: 0 <= i < |run.sent| && run.sent[i].PutObject? ==> run.sent[i].key == key && i == |run.sent| - 1)
            && (run.response.statusCode == 200 ==>
                  key in run.bucket && run.response == Ok(run.bucket[key].contentType, run.bucket[key].body))
  {
    var path := ObjectPath(event.rawPath);
    var param := EffectiveParams(event.queryStringParameters);
    ServingOnlyKeyWritten(bucket, path, param, ContentTypeFor(param), RequestKey(event), transform, faults);
  }

  /** OnlyCacheKeyWritten for the store part, whatever the key. */
  lemma ServingOnlyKeyWritten(bucket: map<string, StoredObject>, path: string, param: Params, contentType: string, key: string,
                              transform: Transformer, faults: Faults)
    ensures var run := Serving(bucket, path, param, contentType, key, transform, faults);
            && (forall k :: k != key ==> (k in run.bucket <==> k in bucket))
            && (forall k :: k != key && k in bucket ==> run.bucket[k] == bucket[k])
            && (forall i :: 0 <= i < |run.sent| && run.sent[i].PutObject? ==> run.sent[i].key == key && i == |run.sent| - 1)
            && (run.response.statusCode == 200 ==>
                  key in run.bucket && run.response == Ok(run.bucket[key].contentType, run.bucket[key].body))
  {
  }

  /**
   * After any 200, the same request is a hit (unless that cache read fails):
   * same response, with only the cache key read and the bucket unchanged,
   * whatever the transformer and whatever the origin or write faults.
   */
  lemma HitAfterMiss(bucket: map<string, StoredObject>, event: Event, transform: Transformer, faults: Faults,
                     transform': Transformer, faults': Faults)
    requires Handling(bucket, event, transform, faults).response.statusCode == 200
    requires !faults'.cacheRead
    ensures var first := Handling(bucket, event, transform, faults);
            var second := Handling(first.bucket, event, transform', faults');
            && second.response == first.response
            && second.bucket == first.bucket
            && second.sent == [GetObject(RequestKey(event))]
  {
    OnlyCacheKeyWritten(bucket, event, transform, faults);
  }

  /** The WebP encoder is chosen exactly when the content type is `image/webp`, that is, when `type` is "webp". */
  lemma PipelineOptions(source: seq<byte>, param: Params)
    ensures var image := Pipeline(source, param, ContentTypeFor(param));
            && (image.encoding.Webp? <==> ContentTypeFor(param) == WebpType)
            && (image.encoding.Webp? <==> Get(param, TypeName) == Some("webp"))
            && (image.encoding.Jpeg? <==> ContentTypeFor(param) == JpegType)
            && (image.resize.width.Some? <==> Truthy(Get(param, "width")))
            && (image.resize.height.Some? <==> Truthy(Get(param, "height")))
            && (!Truthy(Get(param, "fit")) ==> image.resize.fit == DefaultFit)
            && (Truthy(Get(param, "fit")) ==> image.resize.fit == Get(param, "fit").value)
            && (!Truthy(Get(param, "quality")) ==> image.encoding.quality == Literal(DefaultQuality))
            && (Truthy(Get(param, "quality")) ==> image.encoding.quality == ParseIntOf(Get(param, "quality").value))
  {
  }
}

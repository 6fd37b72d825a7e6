/**
 * The `POST /api/v1/ocr` route of `server/src/routes/ocr.ts`: results are
 * cached for 24 hours under a key made from the image URL or the start of the
 * base64 payload. Fetching, base64 decoding and the recognition engine are
 * given functions; the clock is passed in.
 */
module Ocr {
  import opened Common
  import opened JsText

  const DefaultTtlMs := 24 * 60 * 60 * 1000

  /** How many payload characters go into a base64 key. */
  const KeyPrefixLength := 200

  /** `!!s` for an optional string. */
  predicate Given(s: Option<string>) { s.Some? && s.value != [] }

  /** `makeCacheKey({imageBase64, imageUrl})` */
  function MakeCacheKey(imageBase64: Option<string>, imageUrl: Option<string>): (r: string)
    ensures Given(imageUrl) ==> r == "url:" + imageUrl.value
    ensures !Given(imageUrl) && Given(imageBase64) ==>
      r == "b64:" + imageBase64.value[..Min(KeyPrefixLength, |imageBase64.value|)]
    ensures !Given(imageUrl) && !Given(imageBase64) ==> r == "empty"
  {
    if Given(imageUrl) then "url:" + imageUrl.value
    else if Given(imageBase64) then
      var b := imageBase64.value;
      "b64:" + (if |b| <= KeyPrefixLength then b else b[..KeyPrefixLength])
    else "empty"
  }

  // ---------------------------------------------------------------- data: prefix

  /** A JavaScript line terminator, which `.` does not match. */
  predicate LineBreak(c: char) { c == '\n' || c == '\r' || c == '\U{2028}' || c == '\U{2029}' }

  /** `/^data:.*;base64,/` matches `s[..j]`. */
  predicate PrefixEnd(s: string, j: int) {
    13 <= j <= |s| && s[..5] == "data:" && s[j - 8..j] == ";base64," &&
    forall i :: 5 <= i < j - 8 ==> !LineBreak(s[i])
  }

  /** The longest match of the prefix that ends at or before `j`: the regex's `.*` is greedy. */
  function LongestPrefixEnd(s: string, j: nat): (r: Option<nat>)
    requires j <= |s|
    ensures r.Some? ==> r.value <= j && PrefixEnd(s, r.value)
    ensures r.Some? ==> forall k :: r.value < k <= j ==> !PrefixEnd(s, k)
    ensures r.None? ==> forall k :: 0 <= k <= j ==> !PrefixEnd(s, k)
    decreases j
  {
    if j < 13 then None
    else if PrefixEnd(s, j) then Some(j)
    else LongestPrefixEnd(s, j - 1)
  }

  /** `String(imageBase64).replace(/^data:.*;base64,/, '')` */
  function StripDataPrefix(s: string): (r: string)
    ensures |r| <= |s| && r == s[|s| - |r|..]
  {
    match LongestPrefixEnd(s, |s|)
    case Some(j) => s[j..]
    case None => s
  }

  // ---------------------------------------------------------------- the route

  /** `{ text, confidence, expiresAt }` */
  datatype Entry = Entry(text: string, confidence: Option<real>, expiresAt: int)

  /** What the image handed to the engine stands for. */
  datatype Image = Fetched(url: string) | Decoded(base64: string)

  datatype Recognition = Recognition(text: string, confidence: Option<real>)

  /** The route's answer: an error for the error middleware, or the JSON `data`. */
  datatype Reply =
    | Failure(status: int, message: string)
    | Served(text: string, confidence: Option<real>, cached: bool)
    | Fallback(error: string)

  const MissingPayload := "Missing image payload"
  const ProcessingFailed := "Image processing failed"

  /** The image the engine is given: the fetched URL, else the payload without its header. */
  function ImageOf(imageBase64: Option<string>, imageUrl: Option<string>): Image
    requires Given(imageBase64) || Given(imageUrl)
  {
    if Given(imageUrl) then Fetched(imageUrl.value) else Decoded(StripDataPrefix(imageBase64.value))
  }

  /** Whether `cache` answers for `key` at time `now`: only strictly before the expiry. */
  predicate Hit(cache: map<string, Entry>, key: string, now: int) {
    key in cache && cache[key].expiresAt > now
  }

  class OcrRoute {
    var cache: map<string, Entry>

    constructor ()
      ensures cache == map[]
    {
      cache := map[];
    }

    /**
     * One request. `now` and `doneAt` are the two clock readings, `fetchOk(url)`
     * whether fetching the URL succeeds, and `recognize(image)` the engine.
     */
    method Post(imageBase64: Option<string>, imageUrl: Option<string>, now: int, doneAt: int,
                fetchOk: string -> bool, recognize: Image -> Result<Recognition, string>)
      returns (reply: Reply)
      modifies this
      ensures !Given(imageBase64) && !Given(imageUrl) ==>
        reply == Failure(400, MissingPayload) && cache == old(cache)
      ensures var key := MakeCacheKey(imageBase64, imageUrl);
        (Given(imageBase64) || Given(imageUrl)) && Hit(old(cache), key, now) ==>
        reply == Served(old(cache)[key].text, old(cache)[key].confidence, true) && cache == old(cache)
      ensures (Given(imageBase64) || Given(imageUrl)) && !Hit(old(cache), MakeCacheKey(imageBase64, imageUrl), now) ==>
        if Given(imageUrl) && !fetchOk(imageUrl.value) then reply == Failure(400, ProcessingFailed)
        else
          var result := recognize(ImageOf(imageBase64, imageUrl));
          reply == if result.Ok? then Served(Trim(result.value.text), result.value.confidence, false)
                   else Fallback(result.error)
      ensures reply.Served? && !reply.cached ==>
        var key := MakeCacheKey(imageBase64, imageUrl);
        cache == old(cache)[key := Entry(reply.text, reply.confidence, doneAt + DefaultTtlMs)]
      ensures !(reply.Served? && !reply.cached) ==> cache == old(cache)
      ensures reply.Served? && !reply.cached ==> IsTrimmed(reply.text)
    {
      if !Given(imageBase64) && !Given(imageUrl) {
        return Failure(400, MissingPayload);
      }
      var key := MakeCacheKey(imageBase64, imageUrl);
      if Hit(cache, key, now) {
        var hit := cache[key];
        return Served(hit.text, hit.confidence, true);
      }
      var image: Image;
      if Given(imageUrl) {
        if !fetchOk(imageUrl.value) {
          return Failure(400, ProcessingFailed);
        }
        image := Fetched(imageUrl.value);
      } else {
        image := Decoded(StripDataPrefix(imageBase64.value));
      }
      var result := recognize(image);
      if result.Err? {
        return Fallback(result.error);
      }
      var text := Trim(result.value.text);
      cache := cache[key := Entry(text, result.value.confidence, doneAt + DefaultTtlMs)];
      reply := Served(text, result.value.confidence, false);
    }
  }

  // ---------------------------------------------------------------- properties

  /** Two payloads that agree on their first 200 characters share a cache entry. */
  lemma SharedPrefixSameKey(a: string, b: string)
    requires |a| >= KeyPrefixLength && |b| >= KeyPrefixLength
    requires a[..KeyPrefixLength] == b[..KeyPrefixLength]
    ensures MakeCacheKey(Some(a), None) == MakeCacheKey(Some(b), None)
  {
  }

  /** A URL key and a base64 key never collide, and neither is "empty". */
  lemma KeyKindsDistinct(b64: string, url: string)
    requires b64 != [] && url != []
    ensures MakeCacheKey(Some(b64), None) != MakeCacheKey(None, Some(url))
    ensures MakeCacheKey(Some(b64), None) != "empty" && MakeCacheKey(None, Some(url)) != "empty"
  {
    assert MakeCacheKey(Some(b64), None)[0] == 'b';
    assert MakeCacheKey(None, Some(url))[0] == 'u';
  }

  /** A `data:<type>;base64,` header is removed, leaving the payload, when the payload has no ';' or ','. */
  lemma StripsDataHeader(mime: string, payload: string)
    requires forall i :: 0 <= i < |mime| ==> !LineBreak(mime[i])
    requires ',' !in payload
    ensures StripDataPrefix("data:" + mime + ";base64," + payload) == payload
  {
    var s := "data:" + mime + ";base64," + payload;
    var j := |s| - |payload|;
    assert s[..5] == "data:";
    assert s[j - 8..j] == ";base64,";
    assert s[j..] == payload;
    forall i | 5 <= i < j - 8
      ensures !LineBreak(s[i])
    {
      assert s[i] == mime[i - 5];
    }
    assert PrefixEnd(s, j);
    forall k | j < k <= |s|
      ensures !PrefixEnd(s, k)
    {
      assert s[k - 1] == payload[k - 1 - j];
    }
    LongestFrom(s, j, |s|);
  }

  lemma {:induction false} LongestFrom(s: string, j: nat, top: nat)
    requires j <= top <= |s| && PrefixEnd(s, j)
    requires forall k :: j < k <= top ==> !PrefixEnd(s, k)
    ensures LongestPrefixEnd(s, top) == Some(j)
    decreases top
  {
    if top > j {
      LongestFrom(s, j, top - 1);
    }
  }

  /** A payload without the header is decoded as it is. */
  lemma PlainPayloadKept(s: string)
    requires |s| < 5 || s[..5] != "data:"
    ensures StripDataPrefix(s) == s
  {
  }

  /**
   * A result stored at `doneAt` is served from the cache by a request for the
   * same payload at any time before the 24 hours are up, but not at that instant.
   */
  method CachedForADay(b64: string, doneAt: int, later: int, recognize: Image -> Result<Recognition, string>)
    returns (second: Reply, third: Reply)
    requires b64 != [] && recognize(Decoded(StripDataPrefix(b64))).Ok?
    requires later < doneAt + DefaultTtlMs
    ensures second == Served(Trim(recognize(Decoded(StripDataPrefix(b64))).value.text),
      recognize(Decoded(StripDataPrefix(b64))).value.confidence, true)
    ensures third.Served? && !third.cached
  {
    var route := new OcrRoute();
    var first := route.Post(Some(b64), None, doneAt, doneAt, _ => true, recognize);
    second := route.Post(Some(b64), None, later, later, _ => true, recognize);
    third := route.Post(Some(b64), None, doneAt + DefaultTtlMs, doneAt + DefaultTtlMs, _ => true, recognize);
  }
}

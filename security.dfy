/**
 * The request guards of `server/src/middleware/security.ts`: redaction of
 * sensitive fields before logging, the CORS origin decision, the JSON
 * content-type gate, the suspicious-URL logger and the request id.
 */
module Security {
  import opened Common
  import opened Json
  import opened JsText

  // ---------------------------------------------------------------- sanitizeForLogging

  const SensitiveFields: seq<string> :=
    ["password", "token", "secret", "apiKey", "authorization", "accessToken", "refreshToken"]

  const RedactedMark := "[REDACTED]"

  /** The log record with the listed fields among the first `i` overwritten. */
  function RedactedUpTo(data: map<string, Json>, i: nat): (r: map<string, Json>)
    requires i <= |SensitiveFields|
    ensures r.Keys == data.Keys
  {
    map k | k in data :: if k in SensitiveFields[..i] then JStr(RedactedMark) else data[k]
  }

  /** What `sanitizeForLogging(data)` returns. */
  function Redacted(data: map<string, Json>): (r: map<string, Json>)
    ensures r.Keys == data.Keys
  {
    RedactedUpTo(data, |SensitiveFields|)
  }

  /** `sanitizeForLogging(data)`: a copy in which every present sensitive key is overwritten. */
  method SanitizeForLogging(data: map<string, Json>) returns (sanitized: map<string, Json>)
    ensures sanitized == Redacted(data)
  {
    sanitized := data;
    var i := 0;
    while i < |SensitiveFields|
      invariant 0 <= i <= |SensitiveFields|
      invariant sanitized == RedactedUpTo(data, i)
    {
      var field := SensitiveFields[i];
      if field in sanitized {
        sanitized := sanitized[field := JStr(RedactedMark)];
      }
      assert SensitiveFields[..i + 1] == SensitiveFields[..i] + [field];
      i := i + 1;
    }
    assert SensitiveFields[..i] == SensitiveFields;
  }

  /**
   * Redaction adds no key, blanks exactly the sensitive ones present, and keeps
   * every other value.
   */
  lemma RedactedSpec(data: map<string, Json>, k: string)
    ensures k in Redacted(data) <==> k in data
    ensures k in data && k in SensitiveFields ==> Redacted(data)[k] == JStr(RedactedMark)
    ensures k in data && k !in SensitiveFields ==> Redacted(data)[k] == data[k]
  {
    assert SensitiveFields[..|SensitiveFields|] == SensitiveFields;
  }

  /** Redacting twice is redacting once. */
  lemma RedactedIdempotent(data: map<string, Json>)
    ensures Redacted(Redacted(data)) == Redacted(data)
  {
    forall k | k in data
      ensures Redacted(Redacted(data))[k] == Redacted(data)[k]
    {
      RedactedSpec(data, k);
      RedactedSpec(Redacted(data), k);
    }
  }

  /** Matching is exact: other spellings such as "Password" or "api_key" are logged as they are. */
  lemma OtherSpellingsKept(data: map<string, Json>)
    ensures "Password" in data ==> Redacted(data)["Password"] == data["Password"]
    ensures "api_key" in data ==> Redacted(data)["api_key"] == data["api_key"]
  {
    RedactedSpec(data, "Password");
    RedactedSpec(data, "api_key");
  }

  // ---------------------------------------------------------------- CORS

  const CorsRejection := "Not allowed by CORS"

  /** `(process.env.CORS_ORIGIN || '').split(',').map(o => o.trim())` */
  function AllowedOrigins(corsEnv: Option<string>): (r: seq<string>)
    ensures |r| >= 1
  {
    var parts := Split(corsEnv.GetOr(""), ',');
    seq(|parts|, i requires 0 <= i < |parts| => Trim(parts[i]))
  }

  /** `corsOptions.origin`: `Ok(true)` allows the request, `Err` rejects it. */
  function CorsDecision(origin: Option<string>, corsEnv: Option<string>): (r: Result<bool, string>)
    ensures r.Ok? ==> r.value
    ensures r.Err? ==> r.error == CorsRejection
    ensures r.Ok? <==> origin.None? || origin.value == [] || origin.value in AllowedOrigins(corsEnv)
  {
    if origin.None? || origin.value == [] then Ok(true)
    else if origin.value in AllowedOrigins(corsEnv) then Ok(true)
    else Err(CorsRejection)
  }

  /** With `CORS_ORIGIN` unset, only requests without an origin get through. */
  lemma CorsUnsetAllowsNoOrigin(origin: Option<string>)
    ensures CorsDecision(origin, None).Ok? <==> origin.None? || origin.value == []
  {
    assert Split("", ',') == [[]];
    assert Trim([]) == [];
    assert AllowedOrigins(None) == [""];
  }

  /** Spaces after the commas do not matter: an origin listed with them is still allowed. */
  lemma CorsTrimsEntries(a: string, b: string)
    requires b != [] && ',' !in a && ',' !in b && IsTrimmed(b)
    ensures CorsDecision(Some(b), Some(a + ",  " + b)).Ok?
  {
    var env := a + ",  " + b;
    SplitJoin(env, ',');
    SplitOfTwo(a, "  " + b);
    assert env == a + "," + ("  " + b);
    TrimPadded("  ", b, "");
    assert "  " + b + "" == "  " + b;
    assert AllowedOrigins(Some(env))[1] == b;
  }

  /** `a + "," + b` for comma-free `a` and `b` splits into exactly those two. */
  lemma SplitOfTwo(a: string, b: string)
    requires ',' !in a && ',' !in b
    ensures Split(a + "," + b, ',') == [a, b]
  {
    SplitNoSep(b);
    SplitPrefix(a, "," + b);
    assert a + "," + b == a + ("," + b);
    assert ("," + b)[1..] == b;
  }

  lemma {:induction false} SplitNoSep(s: string)
    requires ',' !in s
    ensures Split(s, ',') == [s]
    decreases |s|
  {
    if s != [] {
      SplitNoSep(s[1..]);
      assert [s[0]] + s[1..] == s;
    }
  }

  lemma {:induction false} SplitPrefix(a: string, rest: string)
    requires ',' !in a && rest != [] && rest[0] == ','
    ensures Split(a + rest, ',') == [a] + Split(rest[1..], ',')
    decreases |a|
  {
    if a == [] {
      assert a + rest == rest;
    } else {
      assert (a + rest)[1..] == a[1..] + rest;
      SplitPrefix(a[1..], rest);
      assert [a[0]] + a[1..] == a;
    }
  }

  // ---------------------------------------------------------------- content type

  const ContentTypeError := "Content-Type must be application/json"

  /** `validateContentType`: the error passed to `next`, if any. */
  function ContentTypeCheck(verb: string, contentType: Option<string>): (r: Option<string>)
    ensures r.Some? ==> r.value == ContentTypeError
    ensures r.Some? <==>
      (verb in ["POST", "PUT", "PATCH"] && (contentType.None? || !Contains(contentType.value, "application/json")))
  {
    if verb in ["POST", "PUT", "PATCH"] then
      match contentType
      case None => Some(ContentTypeError)
      case Some(ct) => if ct == [] || !Contains(ct, "application/json") then Some(ContentTypeError) else None
    else None
  }

  /** GET, DELETE, OPTIONS and any other method pass whatever their content type. */
  lemma OtherMethodsPass(verb: string, contentType: Option<string>)
    requires verb !in ["POST", "PUT", "PATCH"]
    ensures ContentTypeCheck(verb, contentType).None?
  {
  }

  /** A JSON content type with a charset suffix is accepted. */
  lemma JsonCharsetAccepted(verb: string)
    ensures ContentTypeCheck(verb, Some("application/json; charset=utf-8")).None?
  {
    ContainsAt("application/json; charset=utf-8", "application/json", 0);
  }

  // ---------------------------------------------------------------- securityLogging

  /** How many suspicious-URL patterns there are: traversal, sensitive files, script tag, SQL union, alert call. */
  const PatternCount := 5

  /**
   * `securityLogging`: `test(i, url)` is pattern `i`'s test. Returns the indices
   * of the patterns a security event was logged for.
   */
  method SecurityLogging(url: string, test: (nat, string) -> bool) returns (logged: seq<nat>)
    ensures |logged| <= 1
    ensures logged == [] <==> forall i :: 0 <= i < PatternCount ==> !test(i, url)
    ensures forall p :: p in logged ==> p < PatternCount && test(p, url) && forall j :: 0 <= j < p ==> !test(j, url)
  {
    logged := [];
    var i := 0;
    while i < PatternCount
      invariant 0 <= i <= PatternCount
      invariant logged == []
      invariant forall j :: 0 <= j < i ==> !test(j, url)
    {
      if test(i, url) {
        logged := [i];
        return;
      }
      i := i + 1;
    }
  }

  // ---------------------------------------------------------------- request id

  /**
   * `requestIdMiddleware`: the id stored on the request and sent back in the
   * `X-Request-ID` header. `generated` stands for `generateRequestId()`.
   */
  function RequestId(incoming: Option<string>, generated: string): (r: (string, string))
    ensures r.0 == r.1
    ensures incoming.Some? && incoming.value != [] ==> r.0 == incoming.value
    ensures incoming.None? || incoming.value == [] ==> r.0 == generated
  {
    var id := if incoming.Some? && incoming.value != [] then incoming.value else generated;
    (id, id)
  }
}

/**
 * Job persistence of `src/store/persist.ts`: the stored job list is parsed and
 * every record normalised defensively (defaults for missing fields, a known risk,
 * a numeric creation time); a JSON backup is exported as `{version: 1, jobs}` and
 * imported from either that envelope or a bare array.
 */
module Persist {
  import opened Common
  import opened Json
  import opened JsText
  import Scoring

  type Risk = Scoring.Severity

  /** A job after normalisation; `url` and `notes` keep whatever JSON value was stored. */
  datatype StoredJob = StoredJob(
    id: string,
    title: string,
    company: string,
    risk: Risk,
    url: Json,
    notes: Json,
    createdAt: int)

  /** Why `importJobs` throws: unparsable text, no job array, or a `null` record (`j.id` on `null`). */
  datatype ImportError = BadJson | NoJobArray | NullRecord

  const NoJobArrayMessage := "Import JSON must contain an array of jobs"

  /** `v ?? d` */
  function OrElse(v: Option<Json>, d: Json): (r: Json)
    ensures (v.None? || v.value.JNull?) ==> r == d
    ensures v.Some? && !v.value.JNull? ==> r == v.value
  {
    if v.None? || v.value.JNull? then d else v.value
  }

  /** `String(v)`: an array joins its elements with commas, `null` elements as "". */
  function JsString(v: Json): string
    decreases v
  {
    match v
    case JNull => "null"
    case JBool(b) => if b then "true" else "false"
    case JNum(n) => IntToString(n)
    case JStr(s) => s
    case JArr(elems) =>
      if elems == [] then ""
      else Join(seq(|elems|, i requires 0 <= i < |elems| => if elems[i].JNull? then "" else JsString(elems[i])), ',')
    case JObj(_) => "[object Object]"
  }

  /** `Number(v)` on integer values; `None` is NaN (also for `undefined`). */
  function ToNumber(v: Option<Json>): Option<int> {
    match v
    case None => None
    case Some(JNull) => Some(0)
    case Some(JBool(b)) => Some(if b then 1 else 0)
    case Some(JNum(n)) => Some(n)
    case Some(JStr(s)) => NumberOf(s)
    case Some(x) => NumberOf(JsString(x))
  }

  /** `j.risk === "high" || … ? j.risk : "low"` */
  function RiskOf(v: Option<Json>): (r: Risk)
    ensures r == Scoring.High <==> v == Some(JStr("high"))
    ensures r == Scoring.Medium <==> v == Some(JStr("medium"))
    ensures r == Scoring.Low <==> v != Some(JStr("high")) && v != Some(JStr("medium"))
  {
    if v == Some(JStr("high")) then Scoring.High
    else if v == Some(JStr("medium")) then Scoring.Medium
    else Scoring.Low
  }

  /** `typeof c === "number" ? c : Number(c) || Date.now()` */
  function CreatedAtOf(v: Option<Json>, now: int): (r: int)
    ensures IsNum(v) ==> r == v.value.n
    ensures !IsNum(v) && ToNumber(v).Some? && ToNumber(v).value != 0 ==> r == ToNumber(v).value
    ensures !IsNum(v) && (ToNumber(v).None? || ToNumber(v).value == 0) ==> r == now
  {
    if IsNum(v) then v.value.n
    else match ToNumber(v)
      case Some(n) => if n != 0 then n else now
      case None => now
  }

  /** The id given to a record without one: `` `${prefix}-${i}-${Date.now()}` ``. */
  function FallbackId(prefix: string, i: nat, now: int): string {
    prefix + "-" + NatToString(i) + "-" + IntToString(now)
  }

  /** The normalising `map` callback for record `j` at index `i`. */
  function Normalize(j: Json, prefix: string, i: nat, now: int): StoredJob
    requires !j.JNull?
  {
    StoredJob(
      JsString(OrElse(Get(j, "id"), JStr(FallbackId(prefix, i, now)))),
      JsString(OrElse(Get(j, "title"), JStr("Untitled"))),
      JsString(OrElse(Get(j, "company"), JStr("Unknown"))),
      RiskOf(Get(j, "risk")),
      OrElse(Get(j, "url"), JNull),
      OrElse(Get(j, "notes"), JNull),
      CreatedAtOf(Get(j, "createdAt"), now))
  }

  /**
   * `arr.map(normalize)`: `None` when some record is `null`, since reading a
   * property of `null` throws; otherwise one job per record, in order.
   */
  function NormalizeAll(arr: seq<Json>, prefix: string, now: int): (r: Option<seq<StoredJob>>)
    ensures r.None? <==> JNull in arr
    ensures r.Some? ==> |r.value| == |arr|
    ensures r.Some? ==> forall i :: 0 <= i < |arr| ==> r.value[i] == Normalize(arr[i], prefix, i, now)
  {
    if JNull in arr then None
    else Some(seq(|arr|, i requires 0 <= i < |arr| => Normalize(arr[i], prefix, i, now)))
  }

  /**
   * `loadJobs()`: `raw` is what storage holds under `@jobs.v1` and `parse` is
   * `JSON.parse` (`None` when it throws); every failure yields the empty list.
   */
  function LoadJobs(raw: Option<string>, parse: string -> Option<Json>, now: int): (r: seq<StoredJob>)
    ensures raw.None? || raw.value == "" ==> r == []
    ensures raw.Some? && raw.value != "" && !IsArr(parse(raw.value)) ==> r == []
    ensures r != [] ==> raw.Some? && IsArr(parse(raw.value)) && |r| == |parse(raw.value).value.elems|
    ensures raw.Some? && raw.value != "" && IsArr(parse(raw.value)) ==>
      var records := parse(raw.value).value.elems;
      (JNull in records ==> r == []) &&
      (JNull !in records ==>
        (|r| == |records| && forall i :: 0 <= i < |records| ==> r[i] == Normalize(records[i], "m", i, now)))
  {
    if raw.None? || raw.value == "" then []
    else
      var parsed := parse(raw.value);
      if !IsArr(parsed) then []
      else NormalizeAll(parsed.value.elems, "m", now).GetOr([])
  }

  /** The JSON object `JSON.stringify` writes for a normalised job. */
  function JobJson(job: StoredJob): Json {
    JObj(map[
      "id" := JStr(job.id),
      "title" := JStr(job.title),
      "company" := JStr(job.company),
      "risk" := JStr(Scoring.SeverityName(job.risk)),
      "url" := job.url,
      "notes" := job.notes,
      "createdAt" := JNum(job.createdAt)])
  }

  function JobsJson(jobs: seq<StoredJob>): (r: seq<Json>)
    ensures |r| == |jobs|
    ensures forall i :: 0 <= i < |jobs| ==> r[i] == JobJson(jobs[i])
  {
    seq(|jobs|, i requires 0 <= i < |jobs| => JobJson(jobs[i]))
  }

  /** The `{version: 1, jobs}` envelope. */
  function Envelope(jobs: seq<StoredJob>): (r: Json)
    ensures Get(r, "version") == Some(JNum(1))
    ensures Get(r, "jobs") == Some(JArr(JobsJson(jobs)))
    ensures r.JObj? && r.fields.Keys == {"version", "jobs"}
  {
    JObj(map["version" := JNum(1), "jobs" := JArr(JobsJson(jobs))])
  }

  /** `exportJobs()`: the envelope around what `loadJobs` returns. */
  function ExportJobs(raw: Option<string>, parse: string -> Option<Json>, now: int): (r: Json)
    ensures Get(r, "version") == Some(JNum(1))
    ensures Get(r, "jobs") == Some(JArr(JobsJson(LoadJobs(raw, parse, now))))
  {
    Envelope(LoadJobs(raw, parse, now))
  }

  /** `Array.isArray(parsed) ? parsed : parsed.jobs`, when that is an array. */
  function JobArray(p: Json): (a: Option<seq<Json>>)
    ensures p.JArr? ==> a == Some(p.elems)
    ensures !p.JArr? && IsArr(Get(p, "jobs")) ==> a == Some(Get(p, "jobs").value.elems)
    ensures a.None? <==> !p.JArr? && !IsArr(Get(p, "jobs"))
  {
    if p.JArr? then Some(p.elems)
    else if IsArr(Get(p, "jobs")) then Some(Get(p, "jobs").value.elems)
    else None
  }

  /**
   * `importJobs(json)`: `parsed` is `JSON.parse(json)`. The records come from a
   * top-level array or from its `jobs` property; the result is the list written
   * back to storage.
   */
  function ImportJobs(parsed: Option<Json>, now: int): (r: Result<seq<StoredJob>, ImportError>)
    ensures parsed.None? ==> r == Err(BadJson)
    ensures r == Err(NoJobArray) <==> parsed.Some? && !parsed.value.JArr? && !IsArr(Get(parsed.value, "jobs"))
    ensures r.Ok? && parsed.value.JArr? ==> |r.value| == |parsed.value.elems|
    ensures r.Ok? && !parsed.value.JArr? ==> |r.value| == |parsed.value.fields["jobs"].elems|
    ensures r == Err(NullRecord) <==> parsed.Some? && JobArray(parsed.value).Some? && JNull in JobArray(parsed.value).value
    ensures r.Ok? ==> parsed.Some? && JobArray(parsed.value).Some?
    ensures r.Ok? ==> var records := JobArray(parsed.value).value;
      |r.value| == |records| && forall i :: 0 <= i < |records| ==> r.value[i] == Normalize(records[i], "im", i, now)
  {
    match parsed
    case None => Err(BadJson)
    case Some(p) =>
      match JobArray(p)
      case None => Err(NoJobArray)
      case Some(a) =>
        match NormalizeAll(a, "im", now)
        case None => Err(NullRecord)
        case Some(jobs) => Ok(jobs)
  }

  function ErrorMessage(e: ImportError): Option<string> {
    if e == NoJobArray then Some(NoJobArrayMessage) else None
  }

  // ---------------------------------------------------------------- properties

  /** Missing or `null` title and company become "Untitled" and "Unknown"; strings are kept. */
  lemma NormalizeDefaults(j: Json, prefix: string, i: nat, now: int)
    requires !j.JNull?
    ensures var t := Get(j, "title"); var job := Normalize(j, prefix, i, now);
      (t.None? || t.value.JNull? ==> job.title == "Untitled") &&
      (IsStr(t) ==> job.title == t.value.s)
    ensures var c := Get(j, "company"); var job := Normalize(j, prefix, i, now);
      (c.None? || c.value.JNull? ==> job.company == "Unknown") &&
      (IsStr(c) ==> job.company == c.value.s)
    ensures var u := Get(j, "url"); var job := Normalize(j, prefix, i, now);
      (u.None? ==> job.url == JNull) && (u.Some? ==> job.url == u.value)
    ensures var n := Get(j, "notes"); var job := Normalize(j, prefix, i, now);
      (n.None? ==> job.notes == JNull) && (n.Some? ==> job.notes == n.value)
    ensures Get(j, "id").None? ==> Normalize(j, prefix, i, now).id == FallbackId(prefix, i, now)
  {
  }

  /** A creation time stored as a decimal string is read back as that number, unless it is 0. */
  lemma CreatedAtFromString(n: int, now: int)
    ensures CreatedAtOf(Some(JStr(IntToString(n))), now) == if n != 0 then n else now
  {
    NumberOfIntToString(n);
  }

  /** A numeric id is turned into its decimal string. */
  lemma NumericId(j: Json, prefix: string, i: nat, now: int, n: int)
    requires !j.JNull? && Get(j, "id") == Some(JNum(n))
    ensures Normalize(j, prefix, i, now).id == IntToString(n)
    ensures ParseInt(Normalize(j, prefix, i, now).id) == Some(n)
  {
    ParseIntOfIntToString(n);
  }

  /** Every risk name is read back as itself. */
  lemma RiskNames(r: Risk)
    ensures RiskOf(Some(JStr(Scoring.SeverityName(r)))) == r
  {
  }

  /** Normalising a normalised job's JSON gives the job back, whatever its index and the clock. */
  lemma NormalizeJobJson(job: StoredJob, prefix: string, i: nat, now: int)
    ensures Normalize(JobJson(job), prefix, i, now) == job
  {
    var j := JobJson(job);
    assert Get(j, "id") == Some(JStr(job.id));
    assert Get(j, "title") == Some(JStr(job.title));
    assert Get(j, "company") == Some(JStr(job.company));
    assert Get(j, "risk") == Some(JStr(Scoring.SeverityName(job.risk)));
    RiskNames(job.risk);
    assert Get(j, "url") == Some(job.url);
    assert Get(j, "notes") == Some(job.notes);
    assert Get(j, "createdAt") == Some(JNum(job.createdAt));
  }

  lemma NormalizeAllJson(jobs: seq<StoredJob>, prefix: string, now: int)
    ensures NormalizeAll(JobsJson(jobs), prefix, now) == Some(jobs)
  {
    var js := JobsJson(jobs);
    forall k | 0 <= k < |js|
      ensures js[k] != JNull
    {
      assert js[k].JObj?;
    }
    assert JNull !in js;
    var r := NormalizeAll(js, prefix, now);
    forall k | 0 <= k < |jobs|
      ensures r.value[k] == jobs[k]
    {
      NormalizeJobJson(jobs[k], prefix, k, now);
    }
    assert r.value == jobs;
  }

  /** Importing an exported backup restores the exported jobs exactly. */
  lemma ExportThenImport(raw: Option<string>, parse: string -> Option<Json>, now: int, later: int)
    ensures ImportJobs(Some(ExportJobs(raw, parse, now)), later) == Ok(LoadJobs(raw, parse, now))
  {
    NormalizeAllJson(LoadJobs(raw, parse, now), "im", later);
  }

  /** Reading back a saved list (`JSON.stringify` undone by `JSON.parse`) gives that list. */
  lemma SaveThenLoad(jobs: seq<StoredJob>, text: string, parse: string -> Option<Json>, now: int)
    requires text != "" && parse(text) == Some(JArr(JobsJson(jobs)))
    ensures LoadJobs(Some(text), parse, now) == jobs
  {
    NormalizeAllJson(jobs, "m", now);
  }

  /** A bare array and the same array under `jobs` import alike. */
  lemma ImportEitherShape(arr: seq<Json>, extra: map<string, Json>, now: int)
    ensures ImportJobs(Some(JArr(arr)), now) == ImportJobs(Some(JObj(extra["jobs" := JArr(arr)])), now)
  {
  }
}

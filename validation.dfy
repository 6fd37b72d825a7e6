/**
 * The request schemas of `server/src/utils/validation.ts`, with the parts of
 * Zod's semantics they rely on: every field is checked and all issues are
 * collected; a failed length or format check leaves the result "dirty" (its
 * value still computed), a wrong type aborts it; `.or(z.literal(''))` accepts
 * the empty string whatever the first branch says; a `.refine` runs unless the
 * object was aborted. Email and URL formats are given predicates.
 */
module Validation {
  import opened Common
  import opened Json
  import opened JsText
  import Scoring

  type Risk = Scoring.Severity

  datatype Issue = Issue(path: string, message: string)

  /** Zod's parse status: valid, dirty (checks failed, value kept) or aborted (wrong type). */
  datatype Outcome<+T> = Valid(value: T) | Dirty(value: T, issues: seq<Issue>) | Aborted(issues: seq<Issue>)

  datatype Status = Clean | Flagged | Broken

  function StatusOf<T>(o: Outcome<T>): Status {
    match o
    case Valid(_) => Clean
    case Dirty(_, _) => Flagged
    case Aborted(_) => Broken
  }

  function IssuesOf<T>(o: Outcome<T>): seq<Issue> {
    match o
    case Valid(_) => []
    case Dirty(_, issues) => issues
    case Aborted(issues) => issues
  }

  function ValueOr<T>(o: Outcome<T>, d: T): T {
    match o
    case Valid(v) => v
    case Dirty(v, _) => v
    case Aborted(_) => d
  }

  function Fail(failed: bool, path: string, message: string): (r: seq<Issue>)
    ensures r == [] <==> !failed
  {
    if failed then [Issue(path, message)] else []
  }

  /** A value after its checks: valid exactly when no check failed. */
  function Checked<T>(value: T, issues: seq<Issue>): (o: Outcome<T>)
    ensures o.Valid? <==> issues == []
    ensures !o.Aborted? && IssuesOf(o) == issues && ValueOr(o, value) == value
  {
    if issues == [] then Valid(value) else Dirty(value, issues)
  }

  /** An object's status: aborted if a field aborted, else dirty if one is dirty, else valid. */
  function Merge<T>(value: T, statuses: seq<Status>, issues: seq<Issue>): (o: Outcome<T>)
    ensures o.Valid? <==> Flagged !in statuses && Broken !in statuses
    ensures o.Aborted? <==> Broken in statuses
    ensures IssuesOf(o) == (if o.Valid? then [] else issues)
    ensures ValueOr(o, value) == value
  {
    if Broken in statuses then Aborted(issues)
    else if Flagged in statuses then Dirty(value, issues)
    else Valid(value)
  }

  /** `.refine(ok, {message, path})`: skipped when aborted, otherwise a failure makes the result dirty. */
  function Refine<T>(o: Outcome<T>, ok: T -> bool, path: string, message: string): (r: Outcome<T>)
    ensures r.Valid? <==> o.Valid? && ok(o.value)
    ensures o.Aborted? ==> r == o
  {
    match o
    case Aborted(_) => o
    case Valid(v) => if ok(v) then o else Dirty(v, [Issue(path, message)])
    case Dirty(v, issues) => Dirty(v, issues + Fail(!ok(v), path, message))
  }

  /** `validateInput(schema, data)`: success with the data, or failure with the issues. */
  function ValidateInput<T>(o: Outcome<T>): (r: Result<T, seq<Issue>>)
    ensures r.Ok? <==> o.Valid?
    ensures r.Ok? ==> r.value == o.value
    ensures r.Err? ==> r.error == IssuesOf(o)
  {
    match o
    case Valid(v) => Ok(v)
    case _ => Err(IssuesOf(o))
  }

  // ---------------------------------------------------------------- field schemas

  const RequiredMessage := "Required"
  const TypeMessage := "Expected string"
  const UnionMessage := "Invalid input"
  const EnumMessage := "Invalid enum value"

  /** `z.string().min(min, minMsg).max(max, maxMsg).trim()`: lengths are checked on the raw string, then it is trimmed. */
  function Text(v: Option<Json>, path: string, min: nat, minMsg: string, max: nat, maxMsg: string): (o: Outcome<string>)
    ensures o.Valid? <==> IsStr(v) && min <= |v.value.s| <= max
    ensures IsStr(v) ==> !o.Aborted? && ValueOr(o, "") == Trim(v.value.s)
  {
    match v
    case None => Aborted([Issue(path, RequiredMessage)])
    case Some(JStr(s)) => Checked(Trim(s), Fail(|s| < min, path, minMsg) + Fail(|s| > max, path, maxMsg))
    case Some(_) => Aborted([Issue(path, TypeMessage)])
  }

  /** The same with `.optional()`: a missing value is accepted as absent. */
  function OptionalText(v: Option<Json>, path: string, min: nat, minMsg: string, max: nat, maxMsg: string)
    : (o: Outcome<Option<string>>)
    ensures v.None? ==> o == Valid(None)
    ensures o.Valid? <==> v.None? || (IsStr(v) && min <= |v.value.s| <= max)
    ensures IsStr(v) ==> !o.Aborted? && ValueOr(o, None) == Some(Trim(v.value.s))
  {
    if v.None? then Valid(None)
    else match Text(v, path, min, minMsg, max, maxMsg)
      case Valid(s) => Valid(Some(s))
      case Dirty(s, issues) => Dirty(Some(s), issues)
      case Aborted(issues) => Aborted(issues)
  }

  /** A format check (`.email()`, `.url()`) that may be absent. */
  datatype Format = NoFormat | Format(accepts: string -> bool, message: string)

  function FormatIssues(f: Format, s: string, path: string): seq<Issue> {
    match f
    case NoFormat => []
    case Format(accepts, message) => Fail(!accepts(s), path, message)
  }

  /**
   * `z.string()[.email()|.url()].max(max, maxMsg).optional().nullable().or(z.literal(''))`:
   * missing, `null`, a string passing its checks, or exactly the empty string.
   */
  function Loose(v: Option<Json>, path: string, f: Format, max: nat, maxMsg: string): (o: Outcome<Option<Json>>)
    ensures o.Valid? <==> (v.None? || v == Some(JNull) || v == Some(JStr("")) ||
      (IsStr(v) && |v.value.s| <= max && FormatIssues(f, v.value.s, path) == []))
    ensures o.Valid? ==> o.value == v
  {
    match v
    case None => Valid(None)
    case Some(JNull) => Valid(v)
    case Some(JStr(s)) =>
      var issues := FormatIssues(f, s, path) + Fail(|s| > max, path, maxMsg);
      if issues == [] || s == [] then Valid(v) else Dirty(v, issues)
    case Some(_) => Aborted([Issue(path, UnionMessage)])
  }

  /** `z.enum(['low', 'medium', 'high'])` with a default for a missing value. */
  function RiskField(v: Option<Json>, default: Option<Risk>): (o: Outcome<Option<Risk>>)
    ensures v.None? ==> o == Valid(default)
    ensures o.Valid? <==> v.None? || v == Some(JStr("low")) || v == Some(JStr("medium")) || v == Some(JStr("high"))
    ensures o.Valid? && v.Some? ==> o.value.Some? && v == Some(JStr(Scoring.SeverityName(o.value.value)))
  {
    if v.None? then Valid(default)
    else if v == Some(JStr("low")) then Valid(Some(Scoring.Low))
    else if v == Some(JStr("medium")) then Valid(Some(Scoring.Medium))
    else if v == Some(JStr("high")) then Valid(Some(Scoring.High))
    else Aborted([Issue("risk", EnumMessage)])
  }

  // ---------------------------------------------------------------- job schemas

  const EmailMessage := "Invalid email format"
  const UrlMessage := "Invalid URL format"

  datatype Formats = Formats(isEmail: string -> bool, isUrl: string -> bool)

  datatype JobCreateInput = JobCreateInput(
    title: string,
    company: string,
    location: Option<Json>,
    recruiterEmail: Option<Json>,
    url: Option<Json>,
    risk: Risk,
    notes: Option<Json>)

  /** `jobCreateSchema.safeParse(body)` as an outcome. */
  function JobCreate(body: Json, fm: Formats): Outcome<JobCreateInput> {
    if !body.JObj? then Aborted([Issue("", "Expected object")])
    else
      var title := Text(Get(body, "title"), "title", 1, "Title is required", 200, "Title must be less than 200 characters");
      var company := Text(Get(body, "company"), "company", 1, "Company name is required", 200, "Company name must be less than 200 characters");
      var location := Loose(Get(body, "location"), "location", NoFormat, 200, "Location must be less than 200 characters");
      var email := Loose(Get(body, "recruiterEmail"), "recruiterEmail", Format(fm.isEmail, EmailMessage), 320, "Email must be less than 320 characters");
      var url := Loose(Get(body, "url"), "url", Format(fm.isUrl, UrlMessage), 2000, "URL must be less than 2000 characters");
      var risk := RiskField(Get(body, "risk"), Some(Scoring.Low));
      var notes := Loose(Get(body, "notes"), "notes", NoFormat, 10000, "Notes must be less than 10000 characters");
      Merge(
        JobCreateInput(ValueOr(title, ""), ValueOr(company, ""), ValueOr(location, None), ValueOr(email, None),
          ValueOr(url, None), ValueOr(risk, None).GetOr(Scoring.Low), ValueOr(notes, None)),
        [StatusOf(title), StatusOf(company), StatusOf(location), StatusOf(email), StatusOf(url), StatusOf(risk), StatusOf(notes)],
        IssuesOf(title) + IssuesOf(company) + IssuesOf(location) + IssuesOf(email) + IssuesOf(url) + IssuesOf(risk) + IssuesOf(notes))
  }

  datatype JobUpdateInput = JobUpdateInput(
    title: Option<string>,
    company: Option<string>,
    location: Option<Json>,
    recruiterEmail: Option<Json>,
    url: Option<Json>,
    risk: Option<Risk>,
    notes: Option<Json>)

  /** `jobUpdateSchema.safeParse(body)`: the same fields, all optional, and no default risk. */
  function JobUpdate(body: Json, fm: Formats): Outcome<JobUpdateInput> {
    if !body.JObj? then Aborted([Issue("", "Expected object")])
    else
      var title := OptionalText(Get(body, "title"), "title", 1, "Title is required", 200, "Title must be less than 200 characters");
      var company := OptionalText(Get(body, "company"), "company", 1, "Company name is required", 200, "Company name must be less than 200 characters");
      var location := Loose(Get(body, "location"), "location", NoFormat, 200, "Location must be less than 200 characters");
      var email := Loose(Get(body, "recruiterEmail"), "recruiterEmail", Format(fm.isEmail, EmailMessage), 320, "Email must be less than 320 characters");
      var url := Loose(Get(body, "url"), "url", Format(fm.isUrl, UrlMessage), 2000, "URL must be less than 2000 characters");
      var risk := RiskField(Get(body, "risk"), None);
      var notes := Loose(Get(body, "notes"), "notes", NoFormat, 10000, "Notes must be less than 10000 characters");
      Merge(
        JobUpdateInput(ValueOr(title, None), ValueOr(company, None), ValueOr(location, None), ValueOr(email, None),
          ValueOr(url, None), ValueOr(risk, None), ValueOr(notes, None)),
        [StatusOf(title), StatusOf(company), StatusOf(location), StatusOf(email), StatusOf(url), StatusOf(risk), StatusOf(notes)],
        IssuesOf(title) + IssuesOf(company) + IssuesOf(location) + IssuesOf(email) + IssuesOf(url) + IssuesOf(risk) + IssuesOf(notes))
  }

  // ---------------------------------------------------------------- query schemas

  /** `!!s` on an optional string. */
  predicate Filled(s: Option<string>) { s.Some? && s.value != [] }

  datatype VerifyQuery = VerifyQuery(company: Option<string>, url: Option<string>, target: Option<string>)

  /** `z.string()[.url()].max(max, maxMsg).optional()`, not trimmed. */
  function PlainText(v: Option<Json>, path: string, f: Format, max: nat, maxMsg: string): (o: Outcome<Option<string>>)
    ensures v.None? ==> o == Valid(None)
    ensures IsStr(v) ==> !o.Aborted? && ValueOr(o, None) == Some(v.value.s)
  {
    match v
    case None => Valid(None)
    case Some(JStr(s)) => Checked(Some(s), FormatIssues(f, s, path) + Fail(|s| > max, path, maxMsg))
    case Some(_) => Aborted([Issue(path, TypeMessage)])
  }

  predicate VerifyHasOne(q: VerifyQuery) { Filled(q.company) || Filled(q.url) || Filled(q.target) }

  function VerifyQueryOf(query: Json, fm: Formats): Outcome<VerifyQuery> {
    if !query.JObj? then Aborted([Issue("", "Expected object")])
    else
      var company := OptionalText(Get(query, "company"), "company", 0, "", 200, "Company name must be less than 200 characters");
      var url := PlainText(Get(query, "url"), "url", Format(fm.isUrl, UrlMessage), 2000, "URL must be less than 2000 characters");
      var target := OptionalText(Get(query, "target"), "target", 0, "", 500, "Target must be less than 500 characters");
      var merged := Merge(
        VerifyQuery(ValueOr(company, None), ValueOr(url, None), ValueOr(target, None)),
        [StatusOf(company), StatusOf(url), StatusOf(target)],
        IssuesOf(company) + IssuesOf(url) + IssuesOf(target));
      Refine(merged, VerifyHasOne, "target", "At least one of company, url, or target is required")
  }

  datatype PatternsQuery = PatternsQuery(company: Option<string>, url: Option<string>, recruiterEmail: Option<string>)

  predicate PatternsHasOne(q: PatternsQuery) { Filled(q.company) || Filled(q.url) || Filled(q.recruiterEmail) }

  function PatternsQueryOf(query: Json, fm: Formats): Outcome<PatternsQuery> {
    if !query.JObj? then Aborted([Issue("", "Expected object")])
    else
      var company := OptionalText(Get(query, "company"), "company", 0, "", 200, "Company name must be less than 200 characters");
      var url := PlainText(Get(query, "url"), "url", Format(fm.isUrl, UrlMessage), 2000, "URL must be less than 2000 characters");
      var email := PlainText(Get(query, "recruiterEmail"), "recruiterEmail", Format(fm.isEmail, EmailMessage), 320, "Email must be less than 320 characters");
      var merged := Merge(
        PatternsQuery(ValueOr(company, None), ValueOr(url, None), ValueOr(email, None)),
        [StatusOf(company), StatusOf(url), StatusOf(email)],
        IssuesOf(company) + IssuesOf(url) + IssuesOf(email));
      Refine(merged, PatternsHasOne, "company", "At least one of company, url, or recruiterEmail is required")
  }

  // ---------------------------------------------------------------- pagination and filters

  /** `parseInt(val || fallback, 10)`; `None` is NaN, which `Math.max`/`Math.min` pass on. */
  function ParsedOr(v: Option<string>, fallback: string): Option<int> {
    ParseInt(if v.Some? && v.value != [] then v.value else fallback)
  }

  /** `Math.max(1, parseInt(val || '1', 10))` */
  function Page(v: Option<string>): (r: Option<int>)
    ensures r.Some? ==> r.value >= 1
  {
    match ParsedOr(v, "1")
    case None => None
    case Some(n) => Some(Max(1, n))
  }

  /** `Math.min(100, Math.max(1, parseInt(val || '20', 10)))` */
  function Limit(v: Option<string>): (r: Option<int>)
    ensures r.Some? ==> 1 <= r.value <= 100
  {
    match ParsedOr(v, "20")
    case None => None
    case Some(n) => Some(Min(100, Max(1, n)))
  }

  datatype RiskFilter = AllRisks | OnlyRisk(risk: Risk)
  datatype SortBy = ByScore | ByDate | ByTitle | ByCompany
  datatype SortOrder = Asc | Desc

  datatype JobFilter = JobFilter(
    page: Option<int>,
    limit: Option<int>,
    risk: RiskFilter,
    search: Option<string>,
    sortBy: SortBy,
    sortOrder: SortOrder)

  function RiskFilterField(v: Option<Json>): Outcome<RiskFilter> {
    if v.None? || v == Some(JStr("all")) then Valid(AllRisks)
    else match RiskField(v, None)
      case Valid(Some(r)) => Valid(OnlyRisk(r))
      case _ => Aborted([Issue("risk", EnumMessage)])
  }

  function SortByField(v: Option<Json>): Outcome<SortBy> {
    if v.None? || v == Some(JStr("date")) then Valid(ByDate)
    else if v == Some(JStr("score")) then Valid(ByScore)
    else if v == Some(JStr("title")) then Valid(ByTitle)
    else if v == Some(JStr("company")) then Valid(ByCompany)
    else Aborted([Issue("sortBy", EnumMessage)])
  }

  function SortOrderField(v: Option<Json>): Outcome<SortOrder> {
    if v.None? || v == Some(JStr("desc")) then Valid(Desc)
    else if v == Some(JStr("asc")) then Valid(Asc)
    else Aborted([Issue("sortOrder", EnumMessage)])
  }

  /** `z.string().optional().transform(...)` for the two page fields. */
  function PageField(v: Option<Json>, path: string, transform: Option<string> -> Option<int>): Outcome<Option<int>> {
    match v
    case None => Valid(transform(None))
    case Some(JStr(s)) => Valid(transform(Some(s)))
    case Some(_) => Aborted([Issue(path, TypeMessage)])
  }

  /** `z.string().trim().max(200).optional()`: here the length is checked after trimming. */
  function SearchField(v: Option<Json>): (o: Outcome<Option<string>>)
    ensures IsStr(v) ==> (o.Valid? <==> |Trim(v.value.s)| <= 200)
  {
    match v
    case None => Valid(None)
    case Some(JStr(s)) => Checked(Some(Trim(s)), Fail(|Trim(s)| > 200, "search", "Search term must be less than 200 characters"))
    case Some(_) => Aborted([Issue("search", TypeMessage)])
  }

  function JobFilterOf(query: Json): Outcome<JobFilter> {
    if !query.JObj? then Aborted([Issue("", "Expected object")])
    else
      var page := PageField(Get(query, "page"), "page", Page);
      var limit := PageField(Get(query, "limit"), "limit", Limit);
      var risk := RiskFilterField(Get(query, "risk"));
      var search := SearchField(Get(query, "search"));
      var sortBy := SortByField(Get(query, "sortBy"));
      var sortOrder := SortOrderField(Get(query, "sortOrder"));
      Merge(
        JobFilter(ValueOr(page, None), ValueOr(limit, None), ValueOr(risk, AllRisks), ValueOr(search, None),
          ValueOr(sortBy, ByDate), ValueOr(sortOrder, Desc)),
        [StatusOf(page), StatusOf(limit), StatusOf(risk), StatusOf(search), StatusOf(sortBy), StatusOf(sortOrder)],
        IssuesOf(page) + IssuesOf(limit) + IssuesOf(risk) + IssuesOf(search) + IssuesOf(sortBy) + IssuesOf(sortOrder))
  }

  /** `healthCheckSchema`'s `includeDetails`: true only for the exact string "true". */
  function IncludeDetails(v: Option<string>): (r: bool)
    ensures r <==> v == Some("true")
  {
    v == Some("true")
  }

  // ---------------------------------------------------------------- sanitizeInput

  /** What `sanitizeInput(input)` returns. */
  function Sanitized(input: map<string, Json>): (r: map<string, Json>)
    ensures forall k :: k in r <==> k in input && input[k] != JStr("")
  {
    map k | k in input && input[k] != JStr("") :: if input[k].JStr? then JStr(Trim(input[k].s)) else input[k]
  }

  /** `sanitizeInput(input)`: visit each key of a copy, deleting empty strings and trimming other strings. */
  method SanitizeInput(input: map<string, Json>) returns (sanitized: map<string, Json>)
    ensures sanitized == Sanitized(input)
  {
    sanitized := input;
    var keys := input.Keys;
    PartialStart(input);
    while keys != {}
      invariant keys <= input.Keys
      invariant sanitized == Partial(input, keys)
      decreases |keys|
    {
      var k :| k in keys;
      var value := sanitized[k];
      PartialStep(input, keys, k);
      if value == JStr("") {
        sanitized := sanitized - {k};
      } else if value.JStr? {
        sanitized := sanitized[k := JStr(Trim(value.s))];
      }
      keys := keys - {k};
    }
    PartialDone(input);
  }

  /** The copy while the keys in `pending` are still unvisited. */
  function Partial(input: map<string, Json>, pending: set<string>): map<string, Json> {
    Visited(input, pending, IsEmptyString, TrimmedValue)
  }

  predicate IsEmptyString(v: Json) { v == JStr("") }

  /** What the visit writes for a value it keeps. */
  function TrimmedValue(v: Json): Json {
    if v.JStr? then JStr(Trim(v.s)) else v
  }

  /** A map whose visited keys were dropped (by `drop`) or rewritten (by `f`). */
  function Visited<K, V>(input: map<K, V>, pending: set<K>, drop: V -> bool, f: V -> V): map<K, V> {
    map k | k in input && (k in pending || !drop(input[k])) :: if k in pending then input[k] else f(input[k])
  }

  lemma PartialStart(input: map<string, Json>)
    ensures Partial(input, input.Keys) == input
  {
  }

  lemma PartialDone(input: map<string, Json>)
    ensures Partial(input, {}) == Sanitized(input)
  {
  }

  /** Visiting one pending key deletes it when empty, trims it when a string, and keeps it otherwise. */
  lemma PartialStep(input: map<string, Json>, pending: set<string>, k: string)
    requires k in pending && pending <= input.Keys
    ensures var p := Partial(input, pending);
      k in p && p[k] == input[k] &&
      Partial(input, pending - {k}) ==
        if input[k] == JStr("") then p - {k}
        else if input[k].JStr? then p[k := JStr(Trim(input[k].s))]
        else p
  {
    var p := Partial(input, pending);
    if input[k] == JStr("") {
      VisitDrop(input, pending, IsEmptyString, TrimmedValue, k);
    } else {
      VisitKeep(input, pending, IsEmptyString, TrimmedValue, k);
      if !input[k].JStr? {
        assert p[k := input[k]] == p;
      }
    }
  }

  lemma VisitDrop<K, V>(input: map<K, V>, pending: set<K>, drop: V -> bool, f: V -> V, k: K)
    requires k in pending && pending <= input.Keys && drop(input[k])
    ensures k in Visited(input, pending, drop, f) && Visited(input, pending, drop, f)[k] == input[k]
    ensures Visited(input, pending - {k}, drop, f) == Visited(input, pending, drop, f) - {k}
  {
  }

  lemma VisitKeep<K, V>(input: map<K, V>, pending: set<K>, drop: V -> bool, f: V -> V, k: K)
    requires k in pending && pending <= input.Keys && !drop(input[k])
    ensures k in Visited(input, pending, drop, f) && Visited(input, pending, drop, f)[k] == input[k]
    ensures Visited(input, pending - {k}, drop, f) == Visited(input, pending, drop, f)[k := f(input[k])]
  {
  }

  // ---------------------------------------------------------------- properties

  /** A created job has a title and company of 1 to 200 characters as sent, stored trimmed. */
  lemma CreateTitleCompany(body: Json, fm: Formats)
    requires JobCreate(body, fm).Valid?
    ensures IsStr(Get(body, "title")) && 1 <= |Get(body, "title").value.s| <= 200
    ensures IsStr(Get(body, "company")) && 1 <= |Get(body, "company").value.s| <= 200
    ensures JobCreate(body, fm).value.title == Trim(Get(body, "title").value.s)
    ensures JobCreate(body, fm).value.company == Trim(Get(body, "company").value.s)
  {
  }

  /** A created job without a risk gets "low"; one with a risk keeps it. */
  lemma CreateRiskDefault(body: Json, fm: Formats)
    requires JobCreate(body, fm).Valid?
    ensures Get(body, "risk").None? ==> JobCreate(body, fm).value.risk == Scoring.Low
    ensures Get(body, "risk").Some? ==>
      Get(body, "risk") == Some(JStr(Scoring.SeverityName(JobCreate(body, fm).value.risk)))
  {
  }

  /** `value` is missing, `null`, or a string of at most `max` characters. */
  predicate WithinBound(v: Option<Json>, max: nat) {
    v.None? || v == Some(JNull) || (IsStr(v) && |v.value.s| <= max)
  }

  /** The optional fields of a valid job respect their upper bounds and are passed on as sent. */
  lemma CreateOptionalBounds(body: Json, fm: Formats)
    requires JobCreate(body, fm).Valid?
    ensures var j := JobCreate(body, fm).value;
      WithinBound(j.location, 200) && WithinBound(j.recruiterEmail, 320) &&
      WithinBound(j.url, 2000) && WithinBound(j.notes, 10000) &&
      j.location == Get(body, "location") && j.notes == Get(body, "notes")
  {
  }

  /** An empty title is reported as required. */
  lemma CreateTitleRequired(body: Json, fm: Formats)
    requires body.JObj? && Get(body, "title") == Some(JStr(""))
    ensures Issue("title", "Title is required") in IssuesOf(JobCreate(body, fm))
  {
    TextIssues(Get(body, "title"), "title", 1, "Title is required", 200, "Title must be less than 200 characters");
    TitleIssueReported(body, fm, Issue("title", "Title is required"));
  }

  /** A title longer than 200 characters is reported as too long. */
  lemma CreateTitleTooLong(body: Json, fm: Formats)
    requires body.JObj? && IsStr(Get(body, "title")) && |Get(body, "title").value.s| > 200
    ensures Issue("title", "Title must be less than 200 characters") in IssuesOf(JobCreate(body, fm))
  {
    TextIssues(Get(body, "title"), "title", 1, "Title is required", 200, "Title must be less than 200 characters");
    TitleIssueReported(body, fm, Issue("title", "Title must be less than 200 characters"));
  }

  /** Each of the title's issues is among those of the creation. */
  lemma TitleIssueReported(body: Json, fm: Formats, x: Issue)
    requires body.JObj?
    requires x in IssuesOf(Text(Get(body, "title"), "title", 1, "Title is required", 200, "Title must be less than 200 characters"))
    ensures x in IssuesOf(JobCreate(body, fm))
  {
    var t := Text(Get(body, "title"), "title", 1, "Title is required", 200, "Title must be less than 200 characters");
    CreateIssuesStart(body, fm);
    InPrefix(x, IssuesOf(t), IssuesOf(JobCreate(body, fm)));
  }

  lemma InPrefix<T>(x: T, p: seq<T>, s: seq<T>)
    requires |p| <= |s| && s[..|p|] == p && x in p
    ensures x in s
  {
    var i :| 0 <= i < |p| && p[i] == x;
    assert s[i] == x;
  }

  /** A string that breaks a bound is reported with that bound's message. */
  lemma TextIssues(v: Option<Json>, path: string, min: nat, minMsg: string, max: nat, maxMsg: string)
    requires IsStr(v)
    ensures |v.value.s| < min ==> Issue(path, minMsg) in IssuesOf(Text(v, path, min, minMsg, max, maxMsg))
    ensures |v.value.s| > max ==> Issue(path, maxMsg) in IssuesOf(Text(v, path, min, minMsg, max, maxMsg))
  {
    var s := v.value.s;
    var issues := Fail(|s| < min, path, minMsg) + Fail(|s| > max, path, maxMsg);
    assert IssuesOf(Text(v, path, min, minMsg, max, maxMsg)) == issues;
    if |s| > max {
      assert issues[|issues| - 1] == Issue(path, maxMsg);
    }
  }

  /** The title's issues come first among those of a rejected creation. */
  lemma CreateIssuesStart(body: Json, fm: Formats)
    requires body.JObj?
    ensures var t := Text(Get(body, "title"), "title", 1, "Title is required", 200, "Title must be less than 200 characters");
      !t.Valid? ==> (|IssuesOf(t)| <= |IssuesOf(JobCreate(body, fm))| &&
        IssuesOf(JobCreate(body, fm))[..|IssuesOf(t)|] == IssuesOf(t))
  {
  }

  /** The empty string is always an accepted value of a loose field, whatever its format check says. */
  lemma EmptyStringAccepted(path: string, f: Format, max: nat, maxMsg: string)
    ensures Loose(Some(JStr("")), path, f, max, maxMsg) == Valid(Some(JStr("")))
  {
  }

  /** An update may leave out every field; then nothing is set, not even the risk. */
  lemma UpdateEmpty(fm: Formats)
    ensures JobUpdate(JObj(map[]), fm) == Valid(JobUpdateInput(None, None, None, None, None, None, None))
  {
  }

  /** A valid verify query names at least one of company, url or target. */
  lemma VerifyNeedsOne(query: Json, fm: Formats)
    ensures VerifyQueryOf(query, fm).Valid? ==> VerifyHasOne(VerifyQueryOf(query, fm).value)
    ensures query.JObj? && query.fields == map[] ==>
      VerifyQueryOf(query, fm) == Dirty(VerifyQuery(None, None, None),
        [Issue("target", "At least one of company, url, or target is required")])
  {
  }

  /** A company of only spaces is trimmed to nothing and does not satisfy the rule. */
  lemma VerifyBlankCompany(fm: Formats)
    ensures !VerifyQueryOf(JObj(map["company" := JStr("   ")]), fm).Valid?
  {
    var q := JObj(map["company" := JStr("   ")]);
    assert Get(q, "company") == Some(JStr("   "));
    assert Get(q, "url") == None && Get(q, "target") == None;
    assert Trim("   ") == [] by {
      TrimEmptyIffBlank("   ");
    }
    BlankCompanyOnly(q, fm, "   ");
  }

  /** A query whose only field is a company that trims to nothing fails the at-least-one rule. */
  lemma BlankCompanyOnly(query: Json, fm: Formats, s: string)
    requires Get(query, "company") == Some(JStr(s)) && Trim(s) == []
    requires Get(query, "url") == None && Get(query, "target") == None
    ensures !VerifyQueryOf(query, fm).Valid?
  {
    VerifyNeedsOne(query, fm);
    VerifyQueryFields(query, fm);
  }

  /** A valid verify query holds the trimmed company and the url and target as given, none where absent. */
  lemma VerifyQueryFields(query: Json, fm: Formats)
    ensures VerifyQueryOf(query, fm).Valid? ==> var v := VerifyQueryOf(query, fm).value;
      (Get(query, "company") == None ==> v.company == None) &&
      (IsStr(Get(query, "company")) ==> v.company == Some(Trim(Get(query, "company").value.s))) &&
      (Get(query, "url") == None ==> v.url == None) &&
      (IsStr(Get(query, "url")) ==> v.url == Some(Get(query, "url").value.s)) &&
      (Get(query, "target") == None ==> v.target == None) &&
      (IsStr(Get(query, "target")) ==> v.target == Some(Trim(Get(query, "target").value.s)))
  {
  }

  /** A valid patterns query names at least one of company, url or recruiter email. */
  lemma PatternsNeedsOne(query: Json, fm: Formats)
    ensures PatternsQueryOf(query, fm).Valid? ==> PatternsHasOne(PatternsQueryOf(query, fm).value)
    ensures query.JObj? && query.fields == map[] ==>
      PatternsQueryOf(query, fm) == Dirty(PatternsQuery(None, None, None),
        [Issue("company", "At least one of company, url, or recruiterEmail is required")])
  {
  }

  /** `parseInt` reads back the decimal text of an integer. */
  lemma ParsedNumber(n: int, fallback: string)
    ensures ParsedOr(Some(IntToString(n)), fallback) == Some(n)
  {
    IntToStringShape(n);
    ParseIntOfIntToString(n);
  }

  /** Numeric pages are raised to 1. */
  lemma PageOfNumber(n: int)
    ensures Page(Some(IntToString(n))) == Some(Max(1, n))
  {
    ParsedNumber(n, "1");
  }

  /** Numeric limits are clamped to 1..100. */
  lemma LimitOfNumber(n: int)
    ensures Limit(Some(IntToString(n))) == Some(Min(100, Max(1, n)))
  {
    ParsedNumber(n, "20");
  }

  lemma ParseOne()
    ensures ParseInt("1") == Some(1)
  {
    ParseIntOfDigits("1");
    DigitsValueOne('1');
  }

  lemma ParseTwenty()
    ensures ParseInt("20") == Some(20)
  {
    ParseIntOfDigits("20");
    DigitsValueTwo('2', '0');
  }

  /** A missing or empty page is page 1, a missing or empty limit is 20. */
  lemma PageDefaults()
    ensures Page(None) == Some(1) && Page(Some("")) == Some(1)
    ensures Limit(None) == Some(20) && Limit(Some("")) == Some(20)
  {
    ParseOne();
    ParseTwenty();
  }

  /** An empty filter query gets page 1, limit 20, risk "all", sort by date, descending. */
  lemma FilterDefaults()
    ensures JobFilterOf(JObj(map[])) == Valid(JobFilter(Some(1), Some(20), AllRisks, None, ByDate, Desc))
  {
    var q := JObj(map[]);
    DefaultFields(q);
    var statuses := [Clean, Clean, Clean, Clean, Clean, Clean];
    assert Flagged !in statuses && Broken !in statuses;
    assert IssuesOf(PageField(Get(q, "page"), "page", Page)) == [];
  }

  lemma DefaultFields(q: Json)
    requires q == JObj(map[])
    ensures PageField(Get(q, "page"), "page", Page) == Valid(Some(1))
    ensures PageField(Get(q, "limit"), "limit", Limit) == Valid(Some(20))
    ensures RiskFilterField(Get(q, "risk")) == Valid(AllRisks)
    ensures SearchField(Get(q, "search")) == Valid(None)
    ensures SortByField(Get(q, "sortBy")) == Valid(ByDate)
    ensures SortOrderField(Get(q, "sortOrder")) == Valid(Desc)
  {
    PageDefaults();
  }

  /**
   * Sanitising deletes exactly the empty strings, trims the other strings and
   * keeps everything else; a string of spaces stays, as "".
   */
  lemma SanitizedSpec(input: map<string, Json>, k: string)
    requires k in input
    ensures input[k] == JStr("") ==> k !in Sanitized(input)
    ensures input[k].JStr? && input[k] != JStr("") ==> Sanitized(input)[k] == JStr(Trim(input[k].s))
    ensures !input[k].JStr? ==> Sanitized(input)[k] == input[k]
    ensures input[k].JStr? && input[k] != JStr("") && AllSpace(input[k].s) ==> Sanitized(input)[k] == JStr("")
  {
    if input[k].JStr? && AllSpace(input[k].s) {
      TrimEmptyIffBlank(input[k].s);
    }
  }

  /** Hence sanitising is not idempotent: a second pass deletes what the first blanked. */
  lemma SanitizeTwice()
    ensures "k" in Sanitized(map["k" := JStr(" ")])
    ensures "k" !in Sanitized(Sanitized(map["k" := JStr(" ")]))
  {
    var m := map["k" := JStr(" ")];
    SanitizedSpec(m, "k");
    assert AllSpace(" ");
  }
}

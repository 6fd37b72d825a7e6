/**
 * The event service of `src/lib/analytics.ts`. Events tracked before
 * `initialize` wait in `pendingEvents`; `initialize` sends them in order and
 * from then on events go straight out. `emitted` stands for what reaches the
 * analytics backend (the log line that the service writes today).
 */
module Analytics {
  import opened JsText
  import Scoring

  /** A parameter value: `string | number | boolean | undefined`, and `null`. */
  datatype ParamValue = PStr(s: string) | PNum(n: int) | PBool(b: bool) | PUndefined | PNull

  type Params = map<string, ParamValue>

  datatype Event = Event(name: string, params: Params)

  const JobAnalysisCompleted := "job_analysis_completed"
  const HighRiskDetected := "high_risk_detected"
  const MediumRiskDetected := "medium_risk_detected"
  const LowRiskDetected := "low_risk_detected"
  const SearchPerformed := "search_performed"

  /** Longest string value sent as it is. */
  const MaxParamLength := 100

  /** `String(value)` */
  function StringOf(v: ParamValue): string
    requires v.PStr? || v.PNum? || v.PBool?
  {
    match v
    case PStr(s) => s
    case PNum(n) => IntToString(n)
    case PBool(b) => if b then "true" else "false"
  }

  /** `s.length > 100 ? s.substring(0, 100) + '...' : s` */
  function Truncate(s: string): (r: string)
    ensures |r| <= MaxParamLength + 3
    ensures |s| <= MaxParamLength ==> r == s
    ensures |s| > MaxParamLength ==> r == s[..MaxParamLength] + "..."
  {
    if |s| > MaxParamLength then s[..MaxParamLength] + "..." else s
  }

  predicate Present(v: ParamValue) { !v.PUndefined? && !v.PNull? }

  /** What `sanitizeParams(params)` returns. */
  function Sanitized(params: Params): (r: Params)
    ensures forall k :: k in r <==> k in params && Present(params[k])
  {
    map k | k in params && Present(params[k]) :: PStr(Truncate(StringOf(params[k])))
  }

  /** Parameters as `sanitizeParams` leaves them: strings of at most 103 characters. */
  ghost predicate IsSanitized(params: Params) {
    forall k :: k in params ==> params[k].PStr? && Truncate(params[k].s) == params[k].s
  }

  /** `sanitizeParams(params)`: copy every present value, as a possibly truncated string. */
  method SanitizeParams(params: Params) returns (sanitized: Params)
    ensures sanitized == Sanitized(params)
  {
    sanitized := map[];
    var keys := params.Keys;
    while keys != {}
      invariant keys <= params.Keys
      invariant forall k :: k in sanitized <==> k in params && k !in keys && Present(params[k])
      invariant forall k :: k in sanitized ==> sanitized[k] == PStr(Truncate(StringOf(params[k])))
      decreases |keys|
    {
      var k :| k in keys;
      var value := params[k];
      if value != PUndefined && value != PNull {
        sanitized := sanitized[k := PStr(Truncate(StringOf(value)))];
      }
      keys := keys - {k};
    }
    assert sanitized == Sanitized(params);
  }

  /** Every queued or replayed event carries sanitised parameters. */
  function Replayed(events: seq<Event>): (r: seq<Event>)
    ensures |r| == |events|
    ensures forall i :: 0 <= i < |events| ==> r[i] == Event(events[i].name, Sanitized(events[i].params))
  {
    seq(|events|, i requires 0 <= i < |events| => Event(events[i].name, Sanitized(events[i].params)))
  }

  ghost predicate AllSanitized(events: seq<Event>) {
    forall i :: 0 <= i < |events| ==> IsSanitized(events[i].params)
  }

  /** The two events of `trackJobAnalysis`, as sent. */
  function JobAnalysisEvents(risk: Scoring.Severity, score: int, hasUrl: bool, hasNotes: bool, platform: string)
    : seq<Event>
  {
    var completed := map[
      "risk_level" := PStr(Scoring.SeverityName(risk)),
      "risk_score" := PNum(score),
      "has_url" := PBool(hasUrl),
      "has_notes" := PBool(hasNotes),
      "platform" := PStr(platform)];
    var follow := match risk
      case High => Event(HighRiskDetected, map["risk_score" := PNum(score), "has_url" := PBool(hasUrl)])
      case Medium => Event(MediumRiskDetected, map["score" := PNum(score)])
      case Low => Event(LowRiskDetected, map["score" := PNum(score)]);
    [Event(JobAnalysisCompleted, Sanitized(completed)), Event(follow.name, Sanitized(follow.params))]
  }

  /** The parameters of `trackSearchPerformed`, before sanitising. */
  function SearchParams(query: string, resultsCount: int, platform: string): Params {
    map[
      "query_length" := PNum(|query|),
      "results_count" := PNum(resultsCount),
      "has_results" := PBool(resultsCount > 0),
      "platform" := PStr(platform)]
  }

  class AnalyticsService {
    var isInitialized: bool
    var pendingEvents: seq<Event>
    var emitted: seq<Event>
    /** `Platform.OS` */
    const platform: string

    /**
     * Nothing waits once the service is up, nothing is sent before, and every
     * queued event is already sanitised.
     */
    ghost predicate Valid()
      reads this
    {
      (isInitialized ==> pendingEvents == []) &&
      (!isInitialized ==> emitted == []) &&
      AllSanitized(pendingEvents)
    }

    /** Every event tracked so far, in order: sent, then waiting. */
    function History(): seq<Event>
      reads this
    {
      emitted + pendingEvents
    }

    constructor (platform: string)
      ensures Valid() && !isInitialized && pendingEvents == [] && emitted == []
      ensures this.platform == platform
    {
      isInitialized := false;
      pendingEvents := [];
      emitted := [];
      this.platform := platform;
    }

    /** `trackEvent(name, params)`: queue before initialisation, send after. */
    method TrackEvent(name: string, params: Params)
      requires Valid()
      modifies this
      ensures Valid()
      ensures isInitialized == old(isInitialized)
      ensures old(isInitialized) ==>
        emitted == old(emitted) + [Event(name, Sanitized(params))] && pendingEvents == old(pendingEvents)
      ensures !old(isInitialized) ==>
        pendingEvents == old(pendingEvents) + [Event(name, Sanitized(params))] && emitted == old(emitted)
      ensures History() == old(History()) + [Event(name, Sanitized(params))]
    {
      var sanitized := SanitizeParams(params);
      SanitizedIsSanitized(params);
      if !isInitialized {
        pendingEvents := pendingEvents + [Event(name, sanitized)];
        return;
      }
      emitted := emitted + [Event(name, sanitized)];
    }

    /** `initialize()`: once only; replays the queue in order, then empties it. */
    method Initialize()
      requires Valid()
      modifies this
      ensures Valid() && isInitialized
      ensures old(isInitialized) ==> emitted == old(emitted) && pendingEvents == old(pendingEvents)
      ensures !old(isInitialized) ==> emitted == old(emitted) + Replayed(old(pendingEvents)) && pendingEvents == []
      ensures History() == old(History())
    {
      if isInitialized {
        return;
      }
      isInitialized := true;
      var queue := pendingEvents;
      pendingEvents := [];
      ghost var before := emitted;
      var i := 0;
      while i < |queue|
        invariant 0 <= i <= |queue|
        invariant isInitialized && pendingEvents == []
        invariant emitted == before + Replayed(queue[..i])
        invariant queue == old(pendingEvents) && before == old(emitted)
      {
        TrackEvent(queue[i].name, queue[i].params);
        assert Replayed(queue[..i + 1]) == Replayed(queue[..i]) + [Event(queue[i].name, Sanitized(queue[i].params))];
        i := i + 1;
      }
      assert queue[..i] == queue;
      ReplayedSanitized(queue);
    }

    /** `trackJobAnalysis(risk, score, hasUrl, hasNotes)` */
    method TrackJobAnalysis(risk: Scoring.Severity, score: int, hasUrl: bool, hasNotes: bool)
      requires Valid()
      modifies this
      ensures Valid() && isInitialized == old(isInitialized)
      ensures History() == old(History()) + JobAnalysisEvents(risk, score, hasUrl, hasNotes, platform)
    {
      TrackEvent(JobAnalysisCompleted, map[
        "risk_level" := PStr(Scoring.SeverityName(risk)),
        "risk_score" := PNum(score),
        "has_url" := PBool(hasUrl),
        "has_notes" := PBool(hasNotes),
        "platform" := PStr(platform)]);
      if risk == Scoring.High {
        TrackEvent(HighRiskDetected, map["risk_score" := PNum(score), "has_url" := PBool(hasUrl)]);
      } else if risk == Scoring.Medium {
        TrackEvent(MediumRiskDetected, map["score" := PNum(score)]);
      } else {
        TrackEvent(LowRiskDetected, map["score" := PNum(score)]);
      }
    }

    /** `trackSearchPerformed(query, resultsCount)` */
    method TrackSearchPerformed(query: string, resultsCount: int)
      requires Valid()
      modifies this
      ensures Valid() && isInitialized == old(isInitialized)
      ensures History() == old(History()) + [Event(SearchPerformed, Sanitized(SearchParams(query, resultsCount, platform)))]
    {
      TrackEvent(SearchPerformed, map[
        "query_length" := PNum(|query|),
        "results_count" := PNum(resultsCount),
        "has_results" := PBool(resultsCount > 0),
        "platform" := PStr(platform)]);
    }

    /** `isEnabled()` */
    method IsEnabled() returns (r: bool)
      ensures r == isInitialized
    {
      r := isInitialized;
    }
  }

  // ---------------------------------------------------------------- properties

  /** Truncating a truncated string changes nothing. */
  lemma TruncateIdempotent(s: string)
    ensures Truncate(Truncate(s)) == Truncate(s)
  {
    if |s| > MaxParamLength {
      assert (s[..MaxParamLength] + "...")[..MaxParamLength] == s[..MaxParamLength];
    }
  }

  lemma SanitizedIsSanitized(params: Params)
    ensures IsSanitized(Sanitized(params))
  {
    forall k | k in Sanitized(params)
      ensures Truncate(Sanitized(params)[k].s) == Sanitized(params)[k].s
    {
      TruncateIdempotent(StringOf(params[k]));
    }
  }

  /** Sanitising sanitised parameters changes nothing, so a replayed event is sent as it was queued. */
  lemma SanitizedIdempotent(params: Params)
    requires IsSanitized(params)
    ensures Sanitized(params) == params
  {
  }

  lemma ReplayedSanitized(events: seq<Event>)
    requires AllSanitized(events)
    ensures Replayed(events) == events
  {
    forall i | 0 <= i < |events|
      ensures Replayed(events)[i] == events[i]
    {
      SanitizedIdempotent(events[i].params);
    }
  }

  /** Sanitising drops exactly the missing values and caps every string at 103 characters. */
  lemma SanitizedSpec(params: Params, k: string)
    requires k in params
    ensures k in Sanitized(params) <==> Present(params[k])
    ensures Present(params[k]) ==> Sanitized(params)[k].PStr? && |Sanitized(params)[k].s| <= MaxParamLength + 3
    ensures params[k].PStr? && |params[k].s| <= MaxParamLength ==> Sanitized(params)[k] == params[k]
    ensures params[k].PStr? && |params[k].s| > MaxParamLength ==>
      Sanitized(params)[k] == PStr(params[k].s[..MaxParamLength] + "...")
  {
  }

  /** A job analysis sends the completion event, then exactly the risk event that matches the risk. */
  lemma JobAnalysisEventsSpec(risk: Scoring.Severity, score: int, hasUrl: bool, hasNotes: bool, platform: string)
    ensures var evs := JobAnalysisEvents(risk, score, hasUrl, hasNotes, platform);
      |evs| == 2 && evs[0].name == JobAnalysisCompleted &&
      (evs[1].name == HighRiskDetected <==> risk == Scoring.High) &&
      (evs[1].name == MediumRiskDetected <==> risk == Scoring.Medium) &&
      (evs[1].name == LowRiskDetected <==> risk == Scoring.Low) &&
      evs[0].params["risk_level"] == PStr(Scoring.SeverityName(risk))
  {
  }

  /** `has_results` is sent as "true" exactly when there are results. */
  lemma HasResults(query: string, resultsCount: int, platform: string)
    ensures var p := Sanitized(SearchParams(query, resultsCount, platform));
      "has_results" in p && (p["has_results"] == PStr("true") <==> resultsCount > 0)
  {
  }

  /** Before initialisation nothing is sent; initialising sends the queue in order, and a second call does nothing. */
  method InitializeDrains(platform: string) returns (s: AnalyticsService)
    ensures s.isInitialized && s.pendingEvents == []
    ensures s.emitted == [Event("a", map[]), Event("b", map["x" := PStr("1")])]
  {
    assert IntToString(1) == "1" by {
      assert NatToString(1) == [DigitChar(1)];
    }
    assert Sanitized(map["x" := PNum(1)]) == map["x" := PStr("1")];
    assert Sanitized(map[]) == map[];
    s := new AnalyticsService(platform);
    s.TrackEvent("a", map[]);
    s.TrackEvent("b", map["x" := PNum(1)]);
    assert s.emitted == [];
    s.Initialize();
    s.Initialize();
  }
}

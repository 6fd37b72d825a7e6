/**
 * The keyword analyser of `src/lib/analyzer.ts`: sixteen weighted patterns, each
 * counted once, 12 points per link with a suspicious host, a sensitivity shift,
 * a clamp to 0..100, a three-level verdict and de-duplicated flags.
 */
module Analyzer {
  import opened Common
  import opened JsText
  import opened Unique
  import opened Verdicts

  datatype Pattern = Pattern(points: nat, flag: string)

  /** The sixteen core patterns, in the order the source tests them. */
  const Patterns: seq<Pattern> := [
    Pattern(25, "chat-app contact"),
    Pattern(15, "text/SMS contact"),
    Pattern(15, "phone number"),
    Pattern(40, "gift card payment"),
    Pattern(30, "crypto payment"),
    Pattern(20, "daily payout"),
    Pattern(25, "guaranteed income"),
    Pattern(30, "very high day-rate"),
    Pattern(20, "unrealistic pay"),
    Pattern(20, "short training"),
    Pattern(15, "too-easy workload"),
    Pattern(20, "chat-app interview"),
    Pattern(15, "OTP via chat"),
    Pattern(8, "choose part/full-time"),
    Pattern(6, "age requirement"),
    Pattern(10, "non-corp email")
  ]

  const SuspiciousFlag := "suspicious domain"

  /**
   * The regular-expression engine and the URL parser, as given functions:
   * `test(i, text)` is pattern `i`'s test, `links(text)` the `https?://` matches,
   * `hostOf(url)` the hostname (`None` when `new URL` throws) and `oddHost(h)`
   * the two hostname tests.
   */
  datatype Oracles = Oracles(
    test: (nat, string) -> bool,
    links: string -> seq<string>,
    hostOf: string -> Option<string>,
    oddHost: string -> bool)

  datatype AnalysisResult = AnalysisResult(score: int, verdict: Verdict, flags: seq<string>)

  /** Points of the patterns among the first `k` that match. */
  function CorePoints(text: string, o: Oracles, k: nat): nat
    requires k <= |Patterns|
  {
    if k == 0 then 0
    else CorePoints(text, o, k - 1) + (if o.test(k - 1, text) then Patterns[k - 1].points else 0)
  }

  function CoreFlags(text: string, o: Oracles, k: nat): seq<string>
    requires k <= |Patterns|
  {
    if k == 0 then []
    else CoreFlags(text, o, k - 1) + (if o.test(k - 1, text) then [Patterns[k - 1].flag] else [])
  }

  predicate Suspicious(o: Oracles, url: string) {
    match o.hostOf(url)
    case None => false
    case Some(h) => o.oddHost(h)
  }

  /** How many of the links have a suspicious host. */
  function SuspiciousCount(urls: seq<string>, o: Oracles): nat {
    if urls == [] then 0
    else SuspiciousCount(urls[..|urls| - 1], o) + (if Suspicious(o, urls[|urls| - 1]) then 1 else 0)
  }

  function Repeat(s: string, n: nat): (r: seq<string>)
    ensures |r| == n && forall i :: 0 <= i < n ==> r[i] == s
  {
    if n == 0 then [] else Repeat(s, n - 1) + [s]
  }

  /** `Math.round((sensitivity - 50) / 2)`: halves round up. */
  function SensShift(sensitivity: int): (r: int)
    ensures sensitivity - 50 <= 2 * r <= sensitivity - 49
    ensures sensitivity == 50 ==> r == 0
    ensures 0 <= sensitivity <= 100 ==> -25 <= r <= 25
  {
    (sensitivity - 49) / 2
  }

  function VerdictOf(score: int): (v: Verdict)
    ensures v == High <==> score >= 70
    ensures v == Medium <==> 40 <= score < 70
    ensures v == Low <==> score < 40
  {
    if score >= 70 then High else if score >= 40 then Medium else Low
  }

  /** The score before the sensitivity shift and the clamp. */
  function RawScore(text: string, o: Oracles): nat {
    CorePoints(text, o, |Patterns|) + 12 * SuspiciousCount(o.links(text), o)
  }

  function RawFlags(text: string, o: Oracles): seq<string> {
    CoreFlags(text, o, |Patterns|) + Repeat(SuspiciousFlag, SuspiciousCount(o.links(text), o))
  }

  /** What `analyzeTextLocal` returns. */
  function AnalysisOf(raw: string, sensitivity: int, o: Oracles): (r: AnalysisResult)
    ensures 0 <= r.score <= 100
    ensures r.verdict == High <==> r.score >= 70
    ensures r.verdict == Medium <==> 40 <= r.score < 70
    ensures r.verdict == Low <==> r.score < 40
  {
    var text := ToLower(raw);
    var score := Clamp(0, 100, RawScore(text, o) + SensShift(sensitivity));
    AnalysisResult(score, VerdictOf(score), Dedupe(RawFlags(text, o)))
  }

  method AnalyzeTextLocal(raw: string, sensitivity: int, o: Oracles) returns (r: AnalysisResult)
    ensures r == AnalysisOf(raw, sensitivity, o)
  {
    var text := ToLower(raw);
    var score, flags := ScanPatterns(text, o);
    score, flags := ScanLinks(text, o, score, flags);
    var shift := (sensitivity - 49) / 2;
    score := Max(0, Min(100, score + shift));
    var verdict := if score >= 70 then High else if score >= 40 then Medium else Low;
    r := AnalysisResult(score, verdict, Dedupe(flags));
  }

  /** The loop over the pattern table. */
  method ScanPatterns(text: string, o: Oracles) returns (score: int, flags: seq<string>)
    ensures score == CorePoints(text, o, |Patterns|) && flags == CoreFlags(text, o, |Patterns|)
  {
    score, flags := 0, [];
    var i := 0;
    while i < |Patterns|
      invariant 0 <= i <= |Patterns|
      invariant score == CorePoints(text, o, i)
      invariant flags == CoreFlags(text, o, i)
    {
      if o.test(i, text) {
        score := score + Patterns[i].points;
        flags := flags + [Patterns[i].flag];
      }
      i := i + 1;
    }
  }

  /** The loop over the links: 12 points and a flag for each suspicious host. */
  method ScanLinks(text: string, o: Oracles, score0: int, flags0: seq<string>) returns (score: int, flags: seq<string>)
    ensures score == score0 + 12 * SuspiciousCount(o.links(text), o)
    ensures flags == flags0 + Repeat(SuspiciousFlag, SuspiciousCount(o.links(text), o))
  {
    score, flags := score0, flags0;
    var urls := o.links(text);
    var j := 0;
    while j < |urls|
      invariant 0 <= j <= |urls|
      invariant score == score0 + 12 * SuspiciousCount(urls[..j], o)
      invariant flags == flags0 + Repeat(SuspiciousFlag, SuspiciousCount(urls[..j], o))
    {
      assert urls[..j + 1][..j] == urls[..j];
      match o.hostOf(urls[j]) {
        case None =>
        case Some(h) =>
          if o.oddHost(h) {
            score := score + 12;
            flags := flags + [SuspiciousFlag];
          }
      }
      j := j + 1;
    }
    assert urls[..j] == urls;
  }

  /** However often a pattern occurs, it adds its points once: at most 314 in all. */
  lemma {:induction false} CorePointsBound(text: string, o: Oracles, k: nat)
    requires k <= |Patterns|
    ensures CorePoints(text, o, k) <= TablePoints(k)
    decreases k
  {
    if k > 0 {
      CorePointsBound(text, o, k - 1);
    }
  }

  function TablePoints(k: nat): nat
    requires k <= |Patterns|
  {
    if k == 0 then 0 else TablePoints(k - 1) + Patterns[k - 1].points
  }

  lemma TablePointsTotal()
    ensures TablePoints(|Patterns|) == 314
  {
    assert TablePoints(4) == 95;
    assert TablePoints(8) == 200;
    assert TablePoints(12) == 275;
  }

  /** The raw score is at most the whole table's 314 points plus 12 per suspicious link. */
  lemma RawScoreBound(text: string, o: Oracles)
    ensures RawScore(text, o) <= 314 + 12 * SuspiciousCount(o.links(text), o)
  {
    CorePointsBound(text, o, |Patterns|);
    TablePointsTotal();
  }

  /** When every one of the first `k` tests succeeds, all their points are counted. */
  lemma {:induction false} CorePointsAll(text: string, o: Oracles, k: nat)
    requires k <= |Patterns|
    requires forall i :: 0 <= i < k ==> o.test(i, text)
    ensures CorePoints(text, o, k) == TablePoints(k)
    decreases k
  {
    if k > 0 {
      CorePointsAll(text, o, k - 1);
    }
  }

  /**
   * The bound of 314 is reached when every pattern matches, and then the clamp to 100
   * decides: the score is 100 and the verdict high at every sensitivity from 0 up.
   */
  lemma AllPatternsMatch(raw: string, sensitivity: int, o: Oracles)
    requires forall i :: 0 <= i < |Patterns| ==> o.test(i, ToLower(raw))
    requires sensitivity >= 0
    ensures CorePoints(ToLower(raw), o, |Patterns|) == 314
    ensures AnalysisOf(raw, sensitivity, o).score == 100 && AnalysisOf(raw, sensitivity, o).verdict == High
  {
    CorePointsAll(ToLower(raw), o, |Patterns|);
    TablePointsTotal();
  }

  /** A pattern's flag is raised exactly when its test succeeds (labels are distinct). */
  lemma {:induction false} CoreFlagsExact(text: string, o: Oracles, k: nat, i: nat)
    requires i < k <= |Patterns|
    ensures Patterns[i].flag in CoreFlags(text, o, k) <==> o.test(i, text)
    decreases k
  {
    PatternFlagsDistinct();
    if i < k - 1 {
      CoreFlagsExact(text, o, k - 1, i);
    } else {
      CoreFlagsOnlyTable(text, o, k - 1);
    }
  }

  /** No two patterns share a flag. */
  lemma PatternFlagsDistinct()
    ensures forall i, j :: 0 <= i < j < |Patterns| ==> Patterns[i].flag != Patterns[j].flag
  {
  }

  lemma {:induction false} CoreFlagsOnlyTable(text: string, o: Oracles, k: nat)
    requires k <= |Patterns|
    ensures forall f :: f in CoreFlags(text, o, k) ==> exists j :: 0 <= j < k && Patterns[j].flag == f
    decreases k
  {
    if k > 0 {
      CoreFlagsOnlyTable(text, o, k - 1);
    }
  }

  /**
   * The flags are duplicate-free and in first-occurrence order; a pattern's flag is
   * present iff its test succeeds, and "suspicious domain" iff some link is suspicious.
   */
  lemma FlagsSpec(raw: string, sensitivity: int, o: Oracles)
    ensures var r := AnalysisOf(raw, sensitivity, o);
      NoDuplicates(r.flags) &&
      (forall i :: 0 <= i < |Patterns| ==> (Patterns[i].flag in r.flags <==> o.test(i, ToLower(raw)))) &&
      (SuspiciousFlag in r.flags <==> SuspiciousCount(o.links(ToLower(raw)), o) > 0)
  {
    var text := ToLower(raw);
    var flags := RawFlags(text, o);
    DedupeSpec(flags);
    var n := SuspiciousCount(o.links(text), o);
    forall i | 0 <= i < |Patterns|
      ensures Patterns[i].flag in flags <==> o.test(i, text)
    {
      CoreFlagsExact(text, o, |Patterns|, i);
      assert Patterns[i].flag != SuspiciousFlag;
    }
    CoreFlagsOnlyTable(text, o, |Patterns|);
    assert SuspiciousFlag !in CoreFlags(text, o, |Patterns|);
    if n > 0 {
      assert flags[|CoreFlags(text, o, |Patterns|)|] == SuspiciousFlag;
    }
  }

  /** Raising the sensitivity never lowers the score. */
  lemma SensitivityMonotone(raw: string, s1: int, s2: int, o: Oracles)
    requires s1 <= s2
    ensures AnalysisOf(raw, s1, o).score <= AnalysisOf(raw, s2, o).score
  {
  }

  /** At the default sensitivity 50 the score is the raw score, clamped. */
  lemma DefaultSensitivity(raw: string, o: Oracles)
    ensures AnalysisOf(raw, 50, o).score == Min(100, RawScore(ToLower(raw), o))
  {
  }
}

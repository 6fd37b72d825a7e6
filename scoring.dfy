/**
 * The heuristic job score of `src/lib/scoring.ts`: up to five reasons found in
 * the job's text, one per key, weighted by severity, capped at 100 and nudged
 * by the user's own risk hint.
 */
module Scoring {
  import opened Common
  import opened JsText
  import opened Unique

  datatype Severity = Low | Medium | High

  function Rank(s: Severity): nat {
    match s
    case Low => 0
    case Medium => 1
    case High => 2
  }

  function SeverityName(s: Severity): string {
    match s
    case Low => "low"
    case Medium => "medium"
    case High => "high"
  }

  /** The severity band a score falls in. */
  function Bucket(score: int): (r: Severity)
    ensures r == High <==> score >= 67
    ensures r == Medium <==> 34 <= score < 67
    ensures r == Low <==> score < 34
  {
    if score >= 67 then High
    else if score >= 34 then Medium
    else Low
  }

  /** A higher score never lands in a lower band. */
  lemma BucketMonotone(a: int, b: int)
    requires a <= b
    ensures Rank(Bucket(a)) <= Rank(Bucket(b))
  {
  }

  /** The chip label: the severity's name in capitals. */
  function BucketLabel(s: Severity): (r: string)
    ensures |r| == |SeverityName(s)|
    ensures ToLower(r) == SeverityName(s)
    ensures s == Low ==> r == "LOW"
    ensures s == Medium ==> r == "MEDIUM"
    ensures s == High ==> r == "HIGH"
  {
    ToUpper(SeverityName(s))
  }

  datatype Reason = Reason(key: string, caption: string, severity: Severity, explain: string)

  /** The job as the scorer sees it; `None` is an absent optional field. */
  datatype ScoreInput = ScoreInput(
    title: string,
    company: string,
    url: Option<string>,
    notes: Option<string>,
    risk: Option<Severity>)

  datatype ScoreResult = ScoreResult(score: int, reasons: seq<Reason>)

  /**
   * The outcome of each regular-expression test, as a predicate on the text it is
   * applied to. `oddTld` is applied to the raw url, the others to the lower-cased text.
   */
  datatype Detectors = Detectors(
    giftOrWire: string -> bool,
    chatApp: string -> bool,
    flashyPay: string -> bool,
    oddTld: string -> bool,
    freeMailHost: string -> bool,
    ownMailDomain: string -> bool)

  const UnusualPayment := Reason("unusual-payment", "Unusual payment", High,
    "Requests for gift cards, Zelle, or wire transfers are classic scam tells.")
  const ImContact := Reason("im-contact", "IM contact", High,
    "Moving to Telegram/WhatsApp hides identities and evades platforms.")
  const HighPay := Reason("high-pay", "High pay mention", Medium,
    "Excessive or flashy pay claims are commonly used as bait.")
  const SuspiciousDomain := Reason("suspicious-domain", "Suspicious domain", Medium,
    "Odd/throwaway TLDs (e.g., .top, .xyz) are common in scams.")
  const FreeEmail := Reason("free-email", "Free email domain", Medium,
    "Uses a free email domain instead of a corporate domain.")

  function Weight(s: Severity): nat {
    match s
    case High => 28
    case Medium => 18
    case Low => 8
  }

  /** Title, company, url and notes joined by spaces and lower-cased. */
  function JobText(job: ScoreInput): string {
    ToLower(Join([job.title, job.company, job.url.GetOr(""), job.notes.GetOr("")], ' '))
  }

  /** `job.url && ...`: the empty string counts as no url. */
  predicate HasUrl(job: ScoreInput) {
    job.url.Some? && job.url.value != ""
  }

  /** The five rules, in the order the source tests them. */
  const Rules := [UnusualPayment, ImContact, HighPay, SuspiciousDomain, FreeEmail]

  /** Which of the five tests succeed; the domain test only runs when there is a url. */
  function Fired(job: ScoreInput, d: Detectors): (f: seq<bool>)
    ensures |f| == |Rules|
    ensures f[3] ==> HasUrl(job)
  {
    var t := JobText(job);
    [d.giftOrWire(t), d.chatApp(t), d.flashyPay(t),
     HasUrl(job) && d.oddTld(job.url.value),
     d.freeMailHost(t) && !d.ownMailDomain(t)]
  }

  /** The rules whose test succeeded, in order. */
  function Select(rs: seq<Reason>, f: seq<bool>): (r: seq<Reason>)
    requires |rs| == |f|
    ensures |r| <= |rs|
  {
    if rs == [] then [] else (if f[0] then [rs[0]] else []) + Select(rs[1..], f[1..])
  }

  /** Every selected reason is a rule whose test succeeded. */
  lemma {:induction false} SelectFrom(rs: seq<Reason>, f: seq<bool>, j: nat) returns (i: nat)
    requires |rs| == |f| && j < |Select(rs, f)|
    ensures i < |rs| && f[i] && rs[i] == Select(rs, f)[j]
    decreases |rs|
  {
    var rest := Select(rs[1..], f[1..]);
    if f[0] && j == 0 {
      i := 0;
    } else {
      var k := if f[0] then j - 1 else j;
      assert Select(rs, f)[j] == rest[k];
      var i' := SelectFrom(rs[1..], f[1..], k);
      i := i' + 1;
    }
  }

  /** Every rule whose test succeeded is selected. */
  lemma {:induction false} SelectComplete(rs: seq<Reason>, f: seq<bool>, i: nat)
    requires |rs| == |f| && i < |rs| && f[i]
    ensures rs[i] in Select(rs, f)
    decreases |rs|
  {
    if i > 0 {
      SelectComplete(rs[1..], f[1..], i - 1);
      assert rs[1..][i - 1] == rs[i];
    }
  }

  /** A key that no selected rule carries is not in the selection. */
  lemma SelectKeys(rs: seq<Reason>, f: seq<bool>, k: string)
    requires |rs| == |f|
    requires forall i :: 0 <= i < |rs| && f[i] ==> rs[i].key != k
    ensures forall j :: 0 <= j < |Select(rs, f)| ==> Select(rs, f)[j].key != k
  {
    forall j | 0 <= j < |Select(rs, f)| ensures Select(rs, f)[j].key != k {
      var i := SelectFrom(rs, f, j);
    }
  }

  /** The reasons pushed by the five tests, in test order. */
  function CollectReasons(job: ScoreInput, d: Detectors): seq<Reason> {
    Select(Rules, Fired(job, d))
  }

  function KeyOf(r: Reason): string { r.key }

  /** `reduce((sum, r) => sum + weights[r.severity], 0)` */
  function SumWeights(rs: seq<Reason>): nat {
    if rs == [] then 0 else Weight(rs[0].severity) + SumWeights(rs[1..])
  }

  function Nudge(score: int, risk: Option<Severity>): int {
    match risk
    case Some(High) => Min(100, score + 10)
    case Some(Medium) => Min(100, score + 5)
    case _ => score
  }

  /** What `scoreJob` returns. */
  function ScoreOf(job: ScoreInput, d: Detectors): ScoreResult {
    var unique := KeepFirst(CollectReasons(job, d), KeyOf);
    ScoreResult(Nudge(Min(100, SumWeights(unique)), job.risk), unique)
  }

  /** The `uniq` map loop: the first reason for each key, in insertion order. */
  method UniqueReasons(reasons: seq<Reason>) returns (unique: seq<Reason>)
    ensures unique == KeepFirst(reasons, KeyOf)
  {
    unique := [];
    var seen: set<string> := {};
    var i := 0;
    while i < |reasons|
      invariant 0 <= i <= |reasons|
      invariant unique == KeepFirst(reasons[..i], KeyOf)
      invariant forall k :: k in seen <==> KeyIn(unique, KeyOf, k)
    {
      var r := reasons[i];
      assert reasons[..i + 1][..i] == reasons[..i];
      if r.key !in seen {
        seen := seen + {r.key};
        unique := unique + [r];
        assert unique[|unique| - 1] == r;
        assert forall j :: 0 <= j < |unique| - 1 ==> unique[j] == KeepFirst(reasons[..i], KeyOf)[j];
      }
      i := i + 1;
    }
    assert reasons[..i] == reasons;
  }

  method ScoreJob(job: ScoreInput, d: Detectors) returns (r: ScoreResult)
    ensures r == ScoreOf(job, d)
  {
    var reasons := CollectReasons(job, d);
    var unique := UniqueReasons(reasons);
    var raw := SumWeights(unique);
    var score := Min(100, raw);
    if job.risk == Some(High) {
      score := Min(100, score + 10);
    } else if job.risk == Some(Medium) {
      score := Min(100, score + 5);
    }
    r := ScoreResult(score, unique);
  }

  /** The reasons of a score have pairwise distinct keys, and the first reason per key wins. */
  lemma ScoreReasonsUnique(job: ScoreInput, d: Detectors)
    ensures var rs := ScoreOf(job, d).reasons;
      DistinctKeys(rs, KeyOf) &&
      (forall k :: KeyIn(rs, KeyOf, k) <==> KeyIn(CollectReasons(job, d), KeyOf, k)) &&
      forall i :: 0 <= i < |rs| ==>
        (KeyIn(CollectReasons(job, d), KeyOf, rs[i].key) &&
         rs[i] == CollectReasons(job, d)[FirstWith(CollectReasons(job, d), KeyOf, rs[i].key)])
  {
    KeepFirstSpec(CollectReasons(job, d), KeyOf);
  }

  /** The score is the capped weight sum, plus the hint's nudge, and always within 0..100. */
  lemma ScoreBounds(job: ScoreInput, d: Detectors)
    ensures var r := ScoreOf(job, d);
      var raw := SumWeights(r.reasons);
      0 <= r.score <= 100 &&
      (job.risk.None? || job.risk == Some(Low) ==> r.score == Min(100, raw)) &&
      (job.risk == Some(Medium) ==> r.score == Min(100, raw + 5)) &&
      (job.risk == Some(High) ==> r.score == Min(100, raw + 10))
  {
  }

  /** No reason and no hint: the score is zero. */
  lemma NoReasonsScoreZero(job: ScoreInput, d: Detectors)
    requires CollectReasons(job, d) == [] && (job.risk.None? || job.risk == Some(Low))
    ensures ScoreOf(job, d) == ScoreResult(0, [])
  {
  }

  lemma {:induction false} SelectDistinct(rs: seq<Reason>, f: seq<bool>)
    requires |rs| == |f| && DistinctKeys(rs, KeyOf)
    ensures DistinctKeys(Select(rs, f), KeyOf)
    decreases |rs|
  {
    if rs != [] {
      assert DistinctKeys(rs[1..], KeyOf) by {
        forall i, j | 0 <= i < j < |rs[1..]| ensures rs[1..][i].key != rs[1..][j].key {
          assert rs[1..][i] == rs[i + 1] && rs[1..][j] == rs[j + 1];
        }
      }
      SelectDistinct(rs[1..], f[1..]);
      var rest := Select(rs[1..], f[1..]);
      if f[0] {
        SelectKeys(rs[1..], f[1..], rs[0].key);
        var r := [rs[0]] + rest;
        forall i, j | 0 <= i < j < |r| ensures r[i].key != r[j].key {
          assert r[j] == rest[j - 1];
          if i > 0 { assert r[i] == rest[i - 1]; }
        }
      }
    }
  }

  lemma {:induction false} SelectWeight(rs: seq<Reason>, f: seq<bool>)
    requires |rs| == |f|
    ensures SumWeights(Select(rs, f)) <= SumWeights(rs)
    decreases |rs|
  {
    if rs != [] {
      SelectWeight(rs[1..], f[1..]);
      var rest := Select(rs[1..], f[1..]);
      if f[0] {
        assert ([rs[0]] + rest)[1..] == rest;
      } else {
        assert [] + rest == rest;
      }
    }
  }

  /** The five rules' keys are distinct, so no reason is ever dropped as a duplicate. */
  lemma KeepFirstNoop(job: ScoreInput, d: Detectors)
    ensures ScoreOf(job, d).reasons == CollectReasons(job, d)
  {
    SelectDistinct(Rules, Fired(job, d));
    KeepFirstOfDistinct(CollectReasons(job, d), KeyOf);
  }

  /** Before capping, the weight sum is at most 28 + 28 + 18 + 18 + 18 = 110. */
  lemma RawWeightBound(job: ScoreInput, d: Detectors)
    ensures SumWeights(ScoreOf(job, d).reasons) <= 110
  {
    KeepFirstNoop(job, d);
    SelectWeight(Rules, Fired(job, d));
    assert SumWeights(Rules[4..]) == 18;
    assert SumWeights(Rules[3..]) == 36;
    assert SumWeights(Rules[2..]) == 54;
    assert SumWeights(Rules[1..]) == 82;
  }

  /** With distinct keys, a rule is selected exactly when its test succeeded. */
  lemma SelectExact(rs: seq<Reason>, f: seq<bool>, i: nat)
    requires |rs| == |f| && DistinctKeys(rs, KeyOf) && i < |rs|
    ensures rs[i] in Select(rs, f) <==> f[i]
  {
    if f[i] {
      SelectComplete(rs, f, i);
    }
    if rs[i] in Select(rs, f) {
      var j :| 0 <= j < |Select(rs, f)| && Select(rs, f)[j] == rs[i];
      var i' := SelectFrom(rs, f, j);
      assert KeyOf(rs[i']) == KeyOf(rs[i]);
    }
  }

  /** `scoreJob` reports a rule's reason exactly when that rule's test succeeded. */
  lemma ScoreReportsFired(job: ScoreInput, d: Detectors, i: nat)
    requires i < |Rules|
    ensures Rules[i] in ScoreOf(job, d).reasons <==> Fired(job, d)[i]
  {
    KeepFirstNoop(job, d);
    RulesDistinct();
    SelectExact(Rules, Fired(job, d), i);
  }

  lemma RulesDistinct()
    ensures DistinctKeys(Rules, KeyOf)
  {
  }

  /** The suspicious-domain reason needs a non-empty url. */
  lemma SuspiciousDomainNeedsUrl(job: ScoreInput, d: Detectors, j: nat)
    requires j < |ScoreOf(job, d).reasons| && ScoreOf(job, d).reasons[j].key == "suspicious-domain"
    ensures HasUrl(job)
  {
    KeepFirstNoop(job, d);
    var f := Fired(job, d);
    var i := SelectFrom(Rules, f, j);
    assert Rules[i].key == "suspicious-domain";
    assert i == 3;
  }
}

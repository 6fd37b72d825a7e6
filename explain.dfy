/**
 * The narrative built from a rule-engine analysis (`src/lib/explain.ts`): each
 * match is put into the first category whose keywords its label mentions, the
 * categories are counted and listed most frequent first, and a summary line,
 * the first three pieces of evidence and level-dependent advice are added.
 */
module Explain {
  import opened Common
  import opened JsText
  import opened Unique
  import opened Sorting
  import opened Verdicts
  import opened RiskRules

  /** A category and the keywords of its case-insensitive alternation. */
  datatype Category = Category(caption: string, words: seq<string>)

  /** The categories in the order `explainDrivers` tries them. */
  const Categories: seq<Category> := [
    Category("Upfront fees", ["fee", "deposit", "pay to apply"]),
    Category("Unusual payment methods",
      ["gift", "crypto", "cashapp", "venmo", "zelle", "paypal", "moneygram", "western"]),
    Category("Chat-only interview", ["telegram", "whatsapp", "signal", "messenger", "chat"]),
    Category("Fake check / equipment scheme", ["check", "equipment", "buy", "purchase"]),
    Category("Sensitive data request", ["ssn", "routing", "account", "id", "license", "passport"]),
    Category("Free email domain", ["gmail", "yahoo", "hotmail", "outlook"]),
    Category("Urgency / no interview", ["immediate", "urgent", "no interview"]),
    Category("Too-good-to-be-true pay", ["pay", "data entry", "typist", "assistant"])
  ]

  const OtherCategory := "Other"
  const NoPhrases := "No obvious risk phrases were detected in the text you provided."
  const NoDrivers := "No obvious risk drivers identified."

  /** The alternation's test on a label: some keyword occurs in it, ignoring case. */
  predicate Mentions(ruleLabel: string, words: seq<string>) {
    exists i :: 0 <= i < |words| && Contains(ToLower(ruleLabel), words[i])
  }

  /** The first category from `k` on whose keywords the ruleLabel mentions. */
  function CategoryFrom(ruleLabel: string, k: nat): string
    requires k <= |Categories|
    decreases |Categories| - k
  {
    if k == |Categories| then OtherCategory
    else if Mentions(ruleLabel, Categories[k].words) then Categories[k].caption
    else CategoryFrom(ruleLabel, k + 1)
  }

  function CategoryOf(ruleLabel: string): string {
    CategoryFrom(ruleLabel, 0)
  }

  /** The first category whose test succeeds is the one chosen. */
  lemma {:induction false} CategoryFirstMatch(ruleLabel: string, i: nat, k: nat)
    requires k <= i < |Categories|
    requires Mentions(ruleLabel, Categories[i].words)
    requires forall j :: k <= j < i ==> !Mentions(ruleLabel, Categories[j].words)
    ensures CategoryFrom(ruleLabel, k) == Categories[i].caption
    decreases i - k
  {
    if k < i {
      CategoryFirstMatch(ruleLabel, i, k + 1);
    }
  }

  /** A ruleLabel no category mentions is "Other". */
  lemma {:induction false} CategoryNone(ruleLabel: string, k: nat)
    requires k <= |Categories|
    requires forall j :: k <= j < |Categories| ==> !Mentions(ruleLabel, Categories[j].words)
    ensures CategoryFrom(ruleLabel, k) == OtherCategory
    decreases |Categories| - k
  {
    if k < |Categories| {
      CategoryNone(ruleLabel, k + 1);
    }
  }

  /** "deposit" is caught by the fee test before the check/equipment test is tried. */
  lemma DepositIsUpfrontFee(ruleLabel: string)
    requires Contains(ToLower(ruleLabel), "deposit")
    ensures CategoryOf(ruleLabel) == "Upfront fees"
  {
    assert Categories[0].words[1] == "deposit";
    CategoryFirstMatch(ruleLabel, 0, 0);
  }

  /** A category and how many matches fell into it. */
  datatype Bucket = Bucket(key: string, count: nat)

  function KeyOfBucket(b: Bucket): string { b.key }
  function CountOf(b: Bucket): int { b.count }

  /** `buckets.set(key, (buckets.get(key) || 0) + 1)` on an insertion-ordered map. */
  function Bump(bs: seq<Bucket>, key: string): seq<Bucket> {
    if bs == [] then [Bucket(key, 1)]
    else if bs[0].key == key then [Bucket(key, bs[0].count + 1)] + bs[1..]
    else [bs[0]] + Bump(bs[1..], key)
  }

  function BucketsOf(cats: seq<string>): seq<Bucket> {
    if cats == [] then [] else Bump(BucketsOf(cats[..|cats| - 1]), cats[|cats| - 1])
  }

  function Cats(matches: seq<RiskMatch>): (r: seq<string>)
    ensures |r| == |matches| && forall i :: 0 <= i < |r| ==> r[i] == CategoryOf(matches[i].ruleLabel)
  {
    seq(|matches|, i requires 0 <= i < |matches| => CategoryOf(matches[i].ruleLabel))
  }

  function Keys(bs: seq<Bucket>): (r: seq<string>)
    ensures |r| == |bs| && forall i :: 0 <= i < |r| ==> r[i] == bs[i].key
  {
    seq(|bs|, i requires 0 <= i < |bs| => bs[i].key)
  }

  /** The category names, most frequent first; ties keep their first-seen order. */
  function Parts(matches: seq<RiskMatch>): seq<string> {
    Keys(SortDesc(BucketsOf(Cats(matches)), CountOf))
  }

  function DriverSentence(parts: seq<string>): string {
    if |parts| == 0 then NoDrivers
    else if |parts| == 1 then "Primary risk driver: " + parts[0] + "."
    else if |parts| == 2 then "Primary risk drivers: " + parts[0] + " and " + parts[1] + "."
    else "Primary risk drivers: " + parts[0] + ", " + parts[1] + ", " + parts[2] + "."
  }

  /** What `explainDrivers` returns. */
  function DriversOf(matches: seq<RiskMatch>): string {
    if matches == [] then NoPhrases else DriverSentence(Parts(matches))
  }

  /** `explainDrivers`, with its counting loop. */
  method ExplainDrivers(matches: seq<RiskMatch>) returns (r: string)
    ensures r == DriversOf(matches)
  {
    if |matches| == 0 {
      return NoPhrases;
    }
    var buckets: seq<Bucket> := [];
    var i := 0;
    while i < |matches|
      invariant 0 <= i <= |matches|
      invariant buckets == BucketsOf(Cats(matches)[..i])
    {
      assert Cats(matches)[..i + 1][..i] == Cats(matches)[..i];
      buckets := Bump(buckets, CategoryOf(matches[i].ruleLabel));
      i := i + 1;
    }
    assert Cats(matches)[..i] == Cats(matches);
    var parts := Keys(SortDesc(buckets, CountOf));
    r := DriverSentence(parts);
  }

  function SumCounts(bs: seq<Bucket>): nat {
    if bs == [] then 0 else bs[0].count + SumCounts(bs[1..])
  }

  /** The count held for a key, 0 when it has no bucket. */
  function CountFor(bs: seq<Bucket>, key: string): nat {
    if bs == [] then 0 else (if bs[0].key == key then bs[0].count else 0) + CountFor(bs[1..], key)
  }

  lemma BumpFacts(bs: seq<Bucket>, key: string, k: string)
    ensures SumCounts(Bump(bs, key)) == SumCounts(bs) + 1
    ensures CountFor(Bump(bs, key), k) == CountFor(bs, k) + (if k == key then 1 else 0)
    ensures DistinctKeys(bs, KeyOfBucket) ==> DistinctKeys(Bump(bs, key), KeyOfBucket)
    ensures forall j :: 0 <= j < |Bump(bs, key)| ==> Bump(bs, key)[j].key == key || KeyIn(bs, KeyOfBucket, Bump(bs, key)[j].key)
  {
    BumpCounts(bs, key, k);
    BumpKeys(bs, key);
    if DistinctKeys(bs, KeyOfBucket) {
      BumpDistinct(bs, key);
    }
  }

  lemma {:induction false} BumpCounts(bs: seq<Bucket>, key: string, k: string)
    ensures SumCounts(Bump(bs, key)) == SumCounts(bs) + 1
    ensures CountFor(Bump(bs, key), k) == CountFor(bs, k) + (if k == key then 1 else 0)
    decreases |bs|
  {
    if bs != [] && bs[0].key != key {
      BumpCounts(bs[1..], key, k);
      assert ([bs[0]] + Bump(bs[1..], key))[1..] == Bump(bs[1..], key);
    } else if bs != [] {
      assert ([Bucket(key, bs[0].count + 1)] + bs[1..])[1..] == bs[1..];
    }
  }

  lemma {:induction false} BumpKeys(bs: seq<Bucket>, key: string)
    ensures forall j :: 0 <= j < |Bump(bs, key)| ==> Bump(bs, key)[j].key == key || KeyIn(bs, KeyOfBucket, Bump(bs, key)[j].key)
    decreases |bs|
  {
    var r := Bump(bs, key);
    if bs != [] && bs[0].key == key {
      forall j | 0 <= j < |r| ensures r[j].key == key || KeyIn(bs, KeyOfBucket, r[j].key) {
        if j > 0 { assert r[j] == bs[j]; }
      }
    } else if bs != [] {
      BumpKeys(bs[1..], key);
      var t := Bump(bs[1..], key);
      assert r == [bs[0]] + t;
      forall j | 0 < j < |r| ensures r[j].key == key || KeyIn(bs, KeyOfBucket, r[j].key) {
        assert r[j] == t[j - 1];
        if t[j - 1].key != key {
          var m :| 0 <= m < |bs[1..]| && KeyOfBucket(bs[1..][m]) == t[j - 1].key;
          assert bs[m + 1] == bs[1..][m];
        }
      }
    }
  }

  lemma {:induction false} BumpDistinct(bs: seq<Bucket>, key: string)
    requires DistinctKeys(bs, KeyOfBucket)
    ensures DistinctKeys(Bump(bs, key), KeyOfBucket)
    decreases |bs|
  {
    var r := Bump(bs, key);
    if bs != [] && bs[0].key == key {
      forall i, j | 0 <= i < j < |r| ensures r[i].key != r[j].key {
        assert r[j] == bs[j];
        if i > 0 { assert r[i] == bs[i]; }
        assert KeyOfBucket(bs[i]) != KeyOfBucket(bs[j]);
      }
    } else if bs != [] {
      var t := Bump(bs[1..], key);
      assert DistinctKeys(bs[1..], KeyOfBucket) by {
        forall i, j | 0 <= i < j < |bs[1..]| ensures KeyOfBucket(bs[1..][i]) != KeyOfBucket(bs[1..][j]) {
          assert bs[1..][i] == bs[i + 1] && bs[1..][j] == bs[j + 1];
        }
      }
      BumpDistinct(bs[1..], key);
      BumpKeys(bs[1..], key);
      assert r == [bs[0]] + t;
      forall i, j | 0 <= i < j < |r| ensures r[i].key != r[j].key {
        assert r[j] == t[j - 1];
        if i > 0 {
          assert r[i] == t[i - 1];
        } else if t[j - 1].key != key {
          var m :| 0 <= m < |bs[1..]| && KeyOfBucket(bs[1..][m]) == t[j - 1].key;
          assert bs[m + 1] == bs[1..][m];
          assert KeyOfBucket(bs[0]) != KeyOfBucket(bs[m + 1]);
        }
      }
    }
  }

  /**
   * Each match is counted exactly once, in its category: every category's bucket
   * holds the number of matches in it, the buckets are distinct, and the counts
   * add up to the number of matches.
   */
  lemma {:induction false} BucketsCount(cats: seq<string>, k: string)
    ensures SumCounts(BucketsOf(cats)) == |cats|
    ensures CountFor(BucketsOf(cats), k) == multiset(cats)[k]
    ensures DistinctKeys(BucketsOf(cats), KeyOfBucket)
    decreases |cats|
  {
    if cats != [] {
      var n := |cats| - 1;
      BucketsCount(cats[..n], k);
      BumpFacts(BucketsOf(cats[..n]), cats[n], k);
      assert cats == cats[..n] + [cats[n]];
      assert multiset(cats) == multiset(cats[..n]) + multiset{cats[n]};
    }
  }

  /** The categories are listed by non-increasing count, once each, and the counts cover every match. */
  lemma PartsOrdered(matches: seq<RiskMatch>)
    ensures SortedDesc(SortDesc(BucketsOf(Cats(matches)), CountOf), CountOf)
    ensures NoDuplicates(Parts(matches))
    ensures |Parts(matches)| == |BucketsOf(Cats(matches))|
  {
    var bs := BucketsOf(Cats(matches));
    SortDescSorted(bs, CountOf);
    BucketsCount(Cats(matches), "");
    SortDescDistinct(bs, CountOf, KeyOfBucket);
    var s := SortDesc(bs, CountOf);
    forall i, j | 0 <= i < j < |s| ensures Parts(matches)[i] != Parts(matches)[j] {
      assert KeyOfBucket(s[i]) != KeyOfBucket(s[j]);
    }
  }

  /** With at least one match there is at least one category, so the no-driver sentence is never produced. */
  lemma DriversNamed(matches: seq<RiskMatch>)
    requires matches != []
    ensures |Parts(matches)| >= 1
    ensures DriversOf(matches) != NoDrivers
  {
    var cats := Cats(matches);
    BucketsCount(cats, "");
    assert SumCounts(BucketsOf(cats)) >= 1;
    PartsOrdered(matches);
  }

  /** Only the three most frequent categories are named. */
  lemma DriverSentenceTop3(parts: seq<string>)
    requires |parts| >= 3
    ensures DriverSentence(parts) == DriverSentence(parts[..3])
  {
  }

  /** The output of `extractFacts`, whose regular expressions stay abstract. */
  datatype Facts = Facts(role: Option<string>, remote: bool, onSite: bool, hybrid: bool,
                         pay: Option<string>, urgent: bool)

  /** The modality, by priority hybrid, remote, on-site. */
  function Modality(f: Facts): (r: string)
    ensures r == "hybrid" <==> f.hybrid
    ensures r == "remote" <==> !f.hybrid && f.remote
    ensures r == "on-site" <==> !f.hybrid && !f.remote && f.onSite
    ensures r == "modality not specified" <==> !f.hybrid && !f.remote && !f.onSite
  {
    if f.hybrid then "hybrid" else if f.remote then "remote" else if f.onSite then "on-site"
    else "modality not specified"
  }

  function Truthy(v: Option<string>): bool { v.Some? && v.value != [] }

  function RoleText(f: Facts): string {
    if Truthy(f.role) then f.role.value else "role not clearly specified"
  }

  function PayLine(f: Facts): (r: string)
    ensures r != [] && r[|r| - 1] == '.'
  {
    if Truthy(f.pay) then "Pay mention: " + f.pay.value + "." else "No explicit pay figure was found."
  }

  const UrgencyLine := "There is language indicating urgency or immediate start."

  function Urgency(f: Facts): (r: string)
    ensures r != [] ==> r[|r| - 1] == '.'
  {
    if f.urgent then UrgencyLine else ""
  }

  /** "This appears to be a <modality> <role>. " */
  function SummaryHead(f: Facts): (r: string)
    ensures r != [] && r[0] == 'T'
  {
    "This appears to be a " + Modality(f) + " " + RoleText(f) + ". "
  }

  function Summary(f: Facts): string {
    Trim(SummaryHead(f) + PayLine(f) + " " + Urgency(f))
  }

  lemma SummaryUnfold(f: Facts)
    ensures Summary(f) == Trim(SummaryHead(f) + PayLine(f) + " " + Urgency(f))
  {
  }

  lemma SummaryUrgent(f: Facts)
    requires f.urgent
    ensures Summary(f) == SummaryHead(f) + PayLine(f) + " " + UrgencyLine
  {
    SummaryUnfold(f);
    assert Urgency(f) == UrgencyLine;
    var s := SummaryHead(f) + PayLine(f) + " " + UrgencyLine;
    assert s[0] == 'T';
    assert s[|s| - 1] == '.';
    TrimOfTrimmed(s);
  }

  lemma HeadPayTrimmed(f: Facts)
    ensures IsTrimmed(SummaryHead(f) + PayLine(f))
  {
    var head := SummaryHead(f);
    var pay := PayLine(f);
    var s := head + pay;
    assert s[0] == 'T';
    assert s[|s| - 1] == '.';
  }

  lemma TrimBlank(a: string)
    requires IsTrimmed(a)
    ensures Trim(a + " ") == a
  {
    assert a + " " == [] + a + " ";
    TrimPadded([], a, " ");
    TrimOfTrimmed(a);
  }

  lemma SummaryCalm(f: Facts)
    requires !f.urgent
    ensures Summary(f) == SummaryHead(f) + PayLine(f)
  {
    SummaryUnfold(f);
    assert Urgency(f) == [];
    assert SummaryHead(f) + PayLine(f) + " " + Urgency(f) == SummaryHead(f) + PayLine(f) + " ";
    HeadPayTrimmed(f);
    TrimBlank(SummaryHead(f) + PayLine(f));
  }

  /** The final `trim()` only drops the blank left where no urgency sentence follows. */
  lemma SummaryShape(f: Facts)
    ensures Summary(f) == SummaryHead(f) + PayLine(f) + (if f.urgent then " " + UrgencyLine else "")
  {
    if f.urgent { SummaryUrgent(f); } else { SummaryCalm(f); }
  }

  function EvidenceLine(m: RiskMatch): string {
    "• " + m.ruleLabel + ": “" + m.hit + "”"
  }

  /** `matches.slice(0, 3).map(...)`: at most three lines, the first matches in order. */
  function TopEvidence(matches: seq<RiskMatch>): (r: seq<string>)
    ensures |r| == Min(3, |matches|) && |r| <= 3
    ensures forall i :: 0 <= i < |r| ==> r[i] == EvidenceLine(matches[i])
  {
    var front := if |matches| <= 3 then matches else matches[..3];
    seq(|front|, i requires 0 <= i < |front| => EvidenceLine(front[i]))
  }

  function Recommendations(level: Verdict): seq<string> {
    match level
    case High => [
      "Do not send money or personal documents.",
      "Verify the company’s official domain and email (avoid free email providers).",
      "Search the company on LinkedIn and cross-check employees."]
    case Medium => [
      "Verify the company domain and email formatting.",
      "Ask for a video interview and official offer letter.",
      "Be cautious with any request for fees or equipment purchases."]
    case Low => [
      "Confirm interview process and official email domain.",
      "Avoid sharing sensitive information until an offer is verified."]
  }

  /** Three steps for a high or medium risk, two for a low one. */
  lemma RecommendationsCount(level: Verdict)
    ensures |Recommendations(level)| == if level == Low then 2 else 3
  {
    match level
    case High => HighRiskSteps();
    case Medium => MediumRiskSteps();
    case Low => LowRiskSteps();
  }

  lemma HighRiskSteps()
    ensures |Recommendations(High)| == 3
  {
  }

  lemma MediumRiskSteps()
    ensures |Recommendations(Medium)| == 3
  {
  }

  lemma LowRiskSteps()
    ensures |Recommendations(Low)| == 2
  {
  }

  datatype Explanation = Explanation(summary: string, why: string, topEvidence: seq<string>,
                                     recommendations: seq<string>)

  /** `buildExplanation`; `facts` is what `extractFacts` finds in the raw text. */
  function BuildExplanation(analysis: Analysis, facts: Facts): (e: Explanation)
    ensures e.why == DriversOf(analysis.matches)
    ensures |e.topEvidence| <= 3 && |e.recommendations| == (if analysis.level == Low then 2 else 3)
    ensures analysis.matches == [] ==> e.why == NoPhrases && e.topEvidence == []
  {
    RecommendationsCount(analysis.level);
    Explanation(Summary(facts), DriversOf(analysis.matches), TopEvidence(analysis.matches),
      Recommendations(analysis.level))
  }
}

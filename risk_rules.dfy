/**
 * The weighted rule engine of `src/lib/riskRules.ts`: nine rules, each a label, a
 * weight, an optional piece of advice and a list of patterns. Every occurrence of
 * every pattern in the normalised text adds one match and the rule's weight; the
 * sum is softened to 70 %, capped at 100 and banded into a level.
 */
module RiskRules {
  import opened Common
  import opened Verdicts

  datatype RiskMatch = RiskMatch(
    ruleLabel: string,
    weight: nat,
    hit: string,
    snippet: string,
    advice: Option<string>)

  datatype Analysis = Analysis(score: int, level: Verdict, matches: seq<RiskMatch>)

  /** One result of `findAll`. */
  datatype Found = Found(hit: string, snippet: string, index: nat)

  /** Where `exec` found a match: its index and the length of the matched text. */
  datatype Span = Span(index: nat, length: nat)

  /**
   * `g.exec(text)` with `g.lastIndex == from`: the leftmost match starting at or after
   * `from`, or `None` (null).
   */
  type Matcher = (string, nat) -> Option<Span>

  /**
   * What every pattern of the rule table guarantees: a match lies inside the text,
   * starts at or after `lastIndex` and is not empty (each pattern holds a literal).
   */
  ghost predicate ValidMatcher(m: Matcher, text: string) {
    forall from: nat :: m(text, from).Some? ==>
      from <= m(text, from).value.index &&
      m(text, from).value.index + m(text, from).value.length <= |text| &&
      m(text, from).value.length > 0
  }

  datatype Rule = Rule(ruleLabel: string, weight: nat, advice: Option<string>, patternCount: nat)

  /** The rule table: labels, weights, advice and how many patterns each rule has. */
  const Table: seq<Rule> := [
    Rule("Upfront fee / pay to apply", 25,
      Some("Legit employers don’t charge you to apply, onboard, or run background checks."), 6),
    Rule("Unusual payment method (gift cards / crypto / P2P apps)", 20,
      Some("Avoid employers asking for money via gift cards, crypto, or P2P apps."), 4),
    Rule("Interview exclusively on chat apps", 15,
      Some("Legit orgs rarely do the entire interview only on chat apps."), 1),
    Rule("Check deposit / buy equipment scheme", 24,
      Some("“We’ll send a cashier’s check, then buy equipment” is a classic scam."), 4),
    Rule("Requests for SSN/bank/ID images", 20,
      Some("Never share bank details or ID images before an official offer."), 3),
    Rule("Contact via free email domain", 18,
      Some("Legit companies use official domains, not free email providers."), 2),
    Rule("Immediate start / no interview", 12, None, 1),
    Rule("Very high pay for simple work", 16,
      Some("Inflated pay for data entry/typist roles is a strong red flag."), 2),
    Rule("Work-from-home package purchase", 12,
      Some("Asking you to buy gear up front is commonly fraudulent."), 1)
  ]

  const Pad: nat := 48

  /** `text.slice(max(0, idx - pad), min(text.length, idx + len + pad))` */
  function SnippetAround(text: string, idx: nat, len: nat, pad: nat): string {
    var s := Max(0, idx - pad);
    var e := Min(|text|, idx + len + pad);
    if s >= e then [] else text[s..e]
  }

  /**
   * The snippet is a slice of the text, at most the hit plus the padding on
   * both sides, and holds the whole hit at its offset.
   */
  lemma SnippetAroundSpec(text: string, idx: nat, len: nat, pad: nat)
    ensures var r := SnippetAround(text, idx, len, pad);
      |r| <= len + 2 * pad && |r| <= |text|
    ensures var r := SnippetAround(text, idx, len, pad);
      idx + len <= |text| ==>
      var s := Max(0, idx - pad);
      s + |r| == Min(|text|, idx + len + pad) && r == text[s..s + |r|] &&
      s <= idx && idx + len <= s + |r| && r[idx - s..idx - s + len] == text[idx..idx + len]
  {
    var r := SnippetAround(text, idx, len, pad);
    var s := Max(0, idx - pad);
    if idx + len <= |text| && len > 0 {
      forall q | idx <= q < idx + len ensures r[q - s] == text[q] { }
    }
  }

  /** The hits of `findAll(text, rx)` from `lastIndex == from` on. */
  function AllHits(text: string, m: Matcher, from: nat): seq<Found>
    requires ValidMatcher(m, text)
    decreases |text| - from
  {
    match m(text, from)
    case None => []
    case Some(sp) =>
      [Found(text[sp.index..sp.index + sp.length], SnippetAround(text, sp.index, sp.length, Pad), sp.index)] +
      AllHits(text, m, sp.index + sp.length)
  }

  /** `findAll`: exec with the global flag until no match is left. */
  method FindAll(text: string, m: Matcher) returns (out: seq<Found>)
    requires ValidMatcher(m, text)
    ensures out == AllHits(text, m, 0)
  {
    out := [];
    var last: nat := 0;
    while m(text, last).Some?
      invariant last <= |text|
      invariant out + AllHits(text, m, last) == AllHits(text, m, 0)
      decreases |text| - last
    {
      var sp := m(text, last).value;
      var found := Found(text[sp.index..sp.index + sp.length], SnippetAround(text, sp.index, sp.length, Pad), sp.index);
      assert AllHits(text, m, last) == [found] + AllHits(text, m, sp.index + sp.length);
      out := out + [found];
      last := sp.index + sp.length;
    }
  }

  /**
   * Hits in strictly increasing, non-overlapping order, at or after `from`, each the
   * non-empty text at its index.
   */
  predicate HitsOrdered(hs: seq<Found>, text: string, from: nat) {
    (forall i :: 0 <= i < |hs| ==>
      from <= hs[i].index && hs[i].hit != [] && hs[i].index + |hs[i].hit| <= |text| &&
      hs[i].hit == text[hs[i].index..hs[i].index + |hs[i].hit|]) &&
    (forall i :: 0 <= i < |hs| - 1 ==> hs[i].index + |hs[i].hit| <= hs[i + 1].index)
  }

  /** `findAll` returns its hits in text order, without overlap. */
  lemma {:induction false} AllHitsOrdered(text: string, m: Matcher, from: nat)
    requires ValidMatcher(m, text)
    ensures HitsOrdered(AllHits(text, m, from), text, from)
    decreases |text| - from
  {
    match m(text, from)
    case None =>
    case Some(sp) =>
      assert from <= sp.index && sp.index + sp.length <= |text| && sp.length > 0;
      var next := sp.index + sp.length;
      AllHitsOrdered(text, m, next);
      var f := Found(text[sp.index..next], SnippetAround(text, sp.index, sp.length, Pad), sp.index);
      assert AllHits(text, m, from) == [f] + AllHits(text, m, next);
      HitsOrderedCons(f, AllHits(text, m, next), text, from);
  }

  /** A hit in place before hits that start after it keeps the order. */
  lemma HitsOrderedCons(f: Found, rest: seq<Found>, text: string, from: nat)
    requires from <= f.index && f.hit != [] && f.index + |f.hit| <= |text|
    requires f.hit == text[f.index..f.index + |f.hit|]
    requires HitsOrdered(rest, text, f.index + |f.hit|)
    ensures HitsOrdered([f] + rest, text, from)
  {
    var hs := [f] + rest;
    forall i | 0 <= i < |hs|
      ensures from <= hs[i].index && hs[i].hit != [] && hs[i].index + |hs[i].hit| <= |text|
      ensures hs[i].hit == text[hs[i].index..hs[i].index + |hs[i].hit|]
    {
      if i > 0 {
        assert hs[i] == rest[i - 1];
      }
    }
    forall i | 0 <= i < |hs| - 1 ensures hs[i].index + |hs[i].hit| <= hs[i + 1].index {
      assert hs[i + 1] == rest[i];
      if i > 0 { assert hs[i] == rest[i - 1]; }
    }
  }

  /** A match carries its rule's label, weight and advice. */
  predicate Carries(m: RiskMatch, rule: Rule) {
    m.ruleLabel == rule.ruleLabel && m.weight == rule.weight && m.advice == rule.advice
  }

  function HitMatches(rule: Rule, hits: seq<Found>): (r: seq<RiskMatch>)
    ensures |r| == |hits|
    ensures forall i :: 0 <= i < |r| ==> Carries(r[i], rule) && r[i].hit == hits[i].hit && r[i].snippet == hits[i].snippet
  {
    if hits == [] then []
    else
      var h := hits[|hits| - 1];
      HitMatches(rule, hits[..|hits| - 1]) + [RiskMatch(rule.ruleLabel, rule.weight, h.hit, h.snippet, rule.advice)]
  }

  ghost predicate AllValid(ms: seq<Matcher>, text: string) {
    forall j :: 0 <= j < |ms| ==> ValidMatcher(ms[j], text)
  }

  /** The hits of each of a rule's patterns, in pattern order. */
  function HitsOf(text: string, ms: seq<Matcher>): (r: seq<seq<Found>>)
    requires AllValid(ms, text)
    ensures |r| == |ms| && forall k :: 0 <= k < |ms| ==> r[k] == AllHits(text, ms[k], 0)
  {
    seq(|ms|, k requires 0 <= k < |ms| => AllHits(text, ms[k], 0))
  }

  /** The matches one rule contributes: pattern by pattern (`hits[k]` holds pattern k's hits), hit by hit. */
  function RuleMatches(rule: Rule, hits: seq<seq<Found>>): (r: seq<RiskMatch>)
    ensures forall i :: 0 <= i < |r| ==> Carries(r[i], rule)
  {
    if hits == [] then []
    else RuleMatches(rule, hits[..|hits| - 1]) + HitMatches(rule, hits[|hits| - 1])
  }

  /** The patterns of every rule, shaped like the table. */
  ghost predicate Shaped(rules: seq<Rule>, pats: seq<seq<Matcher>>, text: string) {
    |pats| == |rules| &&
    forall r :: 0 <= r < |rules| ==> |pats[r]| == rules[r].patternCount && AllValid(pats[r], text)
  }

  function AllMatches(rules: seq<Rule>, text: string, pats: seq<seq<Matcher>>): seq<RiskMatch>
    requires Shaped(rules, pats, text)
  {
    if rules == [] then []
    else
      var n := |rules| - 1;
      assert Shaped(rules[..n], pats[..n], text);
      AllMatches(rules[..n], text, pats[..n]) + RuleMatches(rules[n], HitsOf(text, pats[n]))
  }

  function TotalWeight(ms: seq<RiskMatch>): nat {
    if ms == [] then 0 else TotalWeight(ms[..|ms| - 1]) + ms[|ms| - 1].weight
  }

  /**
   * `Math.min(100, Math.round(score * 0.7))` on a non-negative integer sum, in double
   * arithmetic. The double nearest 0.7 lies just below 7/10, so the products 45 * 0.7 and
   * 85 * 0.7 come out as 31.499999999999996 and 59.49999999999999 and round down. Every
   * other sum below 143 rounds as its exact value does, and from 143 on both are at
   * least 100, so the cap decides.
   */
  function SoftCap(raw: nat): (r: int)
    ensures 0 <= r <= 100
  {
    if raw == 45 || raw == 85 then 7 * raw / 10 else Min(100, (7 * raw + 5) / 10)
  }

  /** The double product rounds as the exact one does at every sum except 45 and 85. */
  lemma SoftCapExactElsewhere(raw: nat)
    ensures SoftCap(raw) == Min(100, (7 * raw + 5) / 10) <==> raw != 45 && raw != 85
    ensures SoftCap(raw) == Min(100, (7 * raw + 5) / 10) - (if raw == 45 || raw == 85 then 1 else 0)
  {
  }

  /** A larger sum never scores lower, the two rounded-down sums included. */
  lemma SoftCapMonotone(a: nat, b: nat)
    requires a <= b
    ensures SoftCap(a) <= SoftCap(b)
  {
    assert (7 * a + 5) / 10 <= (7 * b + 5) / 10;
    if a == 45 || a == 85 {
      assert b == a || b >= a + 1;
    }
  }

  /** The sum 85 scores 59, a Medium level, where the exact product would give 60 and High. */
  lemma SoftCapLevelAt85()
    ensures SoftCap(85) == 59 && LevelOf(SoftCap(85)) == Medium
    ensures LevelOf(Min(100, (7 * 85 + 5) / 10)) == High
  {
  }

  function LevelOf(score: int): (v: Verdict)
    ensures v == High <==> score >= 60
    ensures v == Medium <==> 30 <= score < 60
    ensures v == Low <==> score < 30
  {
    if score >= 60 then High else if score >= 30 then Medium else Low
  }

  /** What `analyzeText` returns for the normalised text. */
  function AnalysisOf(text: string, pats: seq<seq<Matcher>>): (a: Analysis)
    requires Shaped(Table, pats, text)
    ensures 0 <= a.score <= 100
    ensures TotalWeight(a.matches) != 45 && TotalWeight(a.matches) != 85 ==>
      a.score == Min(100, (7 * TotalWeight(a.matches) + 5) / 10)
    ensures TotalWeight(a.matches) == 45 || TotalWeight(a.matches) == 85 ==>
      a.score == 7 * TotalWeight(a.matches) / 10
    ensures a.level == High <==> a.score >= 60
    ensures a.level == Medium <==> 30 <= a.score < 60
    ensures a.level == Low <==> a.score < 30
  {
    var ms := AllMatches(Table, text, pats);
    var score := SoftCap(TotalWeight(ms));
    Analysis(score, LevelOf(score), ms)
  }

  /** The innermost loop: one match and one weight per hit. */
  method PushHits(rule: Rule, hits: seq<Found>, matches0: seq<RiskMatch>, score0: nat)
    returns (matches: seq<RiskMatch>, score: nat)
    requires score0 == TotalWeight(matches0)
    ensures matches == matches0 + HitMatches(rule, hits)
    ensures score == TotalWeight(matches)
  {
    matches, score := matches0, score0;
    var k := 0;
    while k < |hits|
      invariant 0 <= k <= |hits|
      invariant matches == matches0 + HitMatches(rule, hits[..k])
      invariant score == TotalWeight(matches)
    {
      score := score + rule.weight;
      matches := matches + [RiskMatch(rule.ruleLabel, rule.weight, hits[k].hit, hits[k].snippet, rule.advice)];
      assert hits[..k + 1][..k] == hits[..k];
      k := k + 1;
    }
    assert hits[..k] == hits;
  }

  /** The middle loop: every pattern of one rule, in order. */
  method ScanRule(rule: Rule, text: string, ms: seq<Matcher>, ghost hs: seq<seq<Found>>, matches0: seq<RiskMatch>, score0: nat)
    returns (matches: seq<RiskMatch>, score: nat)
    requires AllValid(ms, text) && hs == HitsOf(text, ms)
    requires score0 == TotalWeight(matches0)
    ensures matches == matches0 + RuleMatches(rule, hs)
    ensures score == TotalWeight(matches)
  {
    matches, score := matches0, score0;
    var j := 0;
    while j < |ms|
      invariant 0 <= j <= |ms|
      invariant matches == matches0 + RuleMatches(rule, hs[..j])
      invariant score == TotalWeight(matches)
    {
      HitsOfAt(text, ms, j);
      ghost var before := matches;
      matches, score := ScanPattern(rule, text, ms[j], hs[j], matches, score);
      ScanStep(rule, hs, j, matches0, before, matches);
      j := j + 1;
    }
    assert hs[..j] == hs;
  }

  /** The inner loop: every hit of one pattern. */
  method ScanPattern(rule: Rule, text: string, m: Matcher, ghost hits: seq<Found>, matches0: seq<RiskMatch>, score0: nat)
    returns (matches: seq<RiskMatch>, score: nat)
    requires ValidMatcher(m, text) && hits == AllHits(text, m, 0)
    requires score0 == TotalWeight(matches0)
    ensures matches == matches0 + HitMatches(rule, hits)
    ensures score == TotalWeight(matches)
  {
    var hits := FindAll(text, m);
    matches, score := PushHits(rule, hits, matches0, score0);
  }

  lemma HitsOfAt(text: string, ms: seq<Matcher>, j: nat)
    requires AllValid(ms, text) && j < |ms|
    ensures ValidMatcher(ms[j], text) && HitsOf(text, ms)[j] == AllHits(text, ms[j], 0)
  {
  }

  /** One more pattern appends its hits to the rule's matches. */
  lemma ScanStep(rule: Rule, hits: seq<seq<Found>>, j: nat, matches0: seq<RiskMatch>, before: seq<RiskMatch>, after: seq<RiskMatch>)
    requires j < |hits|
    requires before == matches0 + RuleMatches(rule, hits[..j])
    requires after == before + HitMatches(rule, hits[j])
    ensures after == matches0 + RuleMatches(rule, hits[..j + 1])
  {
    assert hits[..j + 1][..j] == hits[..j];
    assert after == matches0 + (RuleMatches(rule, hits[..j]) + HitMatches(rule, hits[j]));
  }

  method ScanRules(rules: seq<Rule>, text: string, pats: seq<seq<Matcher>>)
    returns (matches: seq<RiskMatch>, score: nat)
    requires Shaped(rules, pats, text)
    ensures matches == AllMatches(rules, text, pats)
    ensures score == TotalWeight(matches)
  {
    matches, score := [], 0;
    var i := 0;
    while i < |rules|
      invariant 0 <= i <= |rules|
      invariant Shaped(rules[..i], pats[..i], text)
      invariant matches == AllMatches(rules[..i], text, pats[..i])
      invariant score == TotalWeight(matches)
    {
      matches, score := ScanRule(rules[i], text, pats[i], HitsOf(text, pats[i]), matches, score);
      assert rules[..i + 1][..i] == rules[..i];
      assert pats[..i + 1][..i] == pats[..i];
      i := i + 1;
    }
    assert rules[..i] == rules;
    assert pats[..i] == pats;
  }

  /**
   * `analyzeText`: `normalize` (Unicode folding, lower-casing, typo fixes) is given,
   * and so are the rule patterns.
   */
  method AnalyzeText(rawText: string, normalize: string -> string, pats: seq<seq<Matcher>>)
    returns (a: Analysis)
    requires Shaped(Table, pats, normalize(rawText))
    ensures a == AnalysisOf(normalize(rawText), pats)
  {
    var text := normalize(rawText);
    var matches, total := ScanRules(Table, text, pats);
    var score := SoftCap(total);
    a := Analysis(score, LevelOf(score), matches);
  }

  /** The number of hits of a rule's patterns. */
  function PatternHits(hits: seq<seq<Found>>): nat {
    if hits == [] then 0 else PatternHits(hits[..|hits| - 1]) + |hits[|hits| - 1]|
  }

  /** Hits over all rules, and hits weighted by their rule's weight. */
  function HitCount(rules: seq<Rule>, text: string, pats: seq<seq<Matcher>>): nat
    requires Shaped(rules, pats, text)
  {
    if rules == [] then 0
    else
      var n := |rules| - 1;
      assert Shaped(rules[..n], pats[..n], text);
      HitCount(rules[..n], text, pats[..n]) + PatternHits(HitsOf(text, pats[n]))
  }

  function WeightedHits(rules: seq<Rule>, text: string, pats: seq<seq<Matcher>>): nat
    requires Shaped(rules, pats, text)
  {
    if rules == [] then 0
    else
      var n := |rules| - 1;
      assert Shaped(rules[..n], pats[..n], text);
      WeightedHits(rules[..n], text, pats[..n]) + rules[n].weight * PatternHits(HitsOf(text, pats[n]))
  }

  lemma {:induction false} TotalWeightAppend(a: seq<RiskMatch>, b: seq<RiskMatch>)
    ensures TotalWeight(a + b) == TotalWeight(a) + TotalWeight(b)
    decreases |b|
  {
    if b == [] {
      assert a + b == a;
    } else {
      var n := |b| - 1;
      assert (a + b)[..|a + b| - 1] == a + b[..n];
      TotalWeightAppend(a, b[..n]);
    }
  }

  lemma {:induction false} HitMatchesWeight(rule: Rule, hits: seq<Found>)
    ensures TotalWeight(HitMatches(rule, hits)) == rule.weight * |hits|
    decreases |hits|
  {
    if hits != [] {
      var n := |hits| - 1;
      HitMatchesWeight(rule, hits[..n]);
      var h := hits[n];
      TotalWeightAppend(HitMatches(rule, hits[..n]), [RiskMatch(rule.ruleLabel, rule.weight, h.hit, h.snippet, rule.advice)]);
      assert TotalWeight([RiskMatch(rule.ruleLabel, rule.weight, h.hit, h.snippet, rule.advice)]) == rule.weight;
    }
  }

  lemma MulAdd(a: int, b: int, c: int)
    ensures a * (b + c) == a * b + a * c
  {
  }

  lemma {:induction false} RuleMatchesCount(rule: Rule, hits: seq<seq<Found>>)
    ensures |RuleMatches(rule, hits)| == PatternHits(hits)
    decreases |hits|
  {
    if hits != [] {
      RuleMatchesCount(rule, hits[..|hits| - 1]);
    }
  }

  lemma {:induction false} RuleMatchesWeight(rule: Rule, hits: seq<seq<Found>>)
    ensures TotalWeight(RuleMatches(rule, hits)) == rule.weight * PatternHits(hits)
    decreases |hits|
  {
    if hits != [] {
      var n := |hits| - 1;
      RuleMatchesWeight(rule, hits[..n]);
      HitMatchesWeight(rule, hits[n]);
      TotalWeightAppend(RuleMatches(rule, hits[..n]), HitMatches(rule, hits[n]));
      MulAdd(rule.weight, PatternHits(hits[..n]), |hits[n]|);
    }
  }

  /**
   * Every occurrence counts: one match per hit, and the raw score is the sum over the
   * rules of weight times the rule's number of hits.
   */
  lemma {:induction false} MatchesPerHit(rules: seq<Rule>, text: string, pats: seq<seq<Matcher>>)
    requires Shaped(rules, pats, text)
    ensures |AllMatches(rules, text, pats)| == HitCount(rules, text, pats)
    ensures TotalWeight(AllMatches(rules, text, pats)) == WeightedHits(rules, text, pats)
    decreases |rules|
  {
    if rules != [] {
      var n := |rules| - 1;
      assert Shaped(rules[..n], pats[..n], text);
      MatchesPerHit(rules[..n], text, pats[..n]);
      var hs := HitsOf(text, pats[n]);
      RuleMatchesCount(rules[n], hs);
      RuleMatchesWeight(rules[n], hs);
      TotalWeightAppend(AllMatches(rules[..n], text, pats[..n]), RuleMatches(rules[n], hs));
    }
  }

  /** Without a single hit the analysis is score 0, level Low and no matches. */
  lemma NoHitsAnalysis(text: string, pats: seq<seq<Matcher>>)
    requires Shaped(Table, pats, text)
    requires HitCount(Table, text, pats) == 0
    ensures AnalysisOf(text, pats) == Analysis(0, Low, [])
  {
    MatchesPerHit(Table, text, pats);
  }

  /** The position of the first rule with the given label. */
  function RuleIndex(rules: seq<Rule>, l: string): nat {
    if rules == [] || rules[0].ruleLabel == l then 0 else 1 + RuleIndex(rules[1..], l)
  }

  predicate DistinctLabels(rules: seq<Rule>) {
    forall i, j :: 0 <= i < j < |rules| ==> rules[i].ruleLabel != rules[j].ruleLabel
  }

  lemma {:induction false} RuleIndexAt(rules: seq<Rule>, k: nat)
    requires DistinctLabels(rules) && k < |rules|
    ensures RuleIndex(rules, rules[k].ruleLabel) == k
    decreases k
  {
    if k > 0 {
      assert rules[0].ruleLabel != rules[k].ruleLabel;
      assert rules[1..][k - 1] == rules[k];
      RuleIndexAt(rules[1..], k - 1);
    }
  }

  /**
   * Every match carries the label, weight and advice of a rule, and the matches come
   * rule by rule in table order.
   */
  predicate ByRule(rules: seq<Rule>, ms: seq<RiskMatch>) {
    (forall i :: 0 <= i < |ms| ==>
      RuleIndex(rules, ms[i].ruleLabel) < |rules| && Carries(ms[i], rules[RuleIndex(rules, ms[i].ruleLabel)])) &&
    (forall i, j :: 0 <= i < j < |ms| ==>
      RuleIndex(rules, ms[i].ruleLabel) <= RuleIndex(rules, ms[j].ruleLabel))
  }

  lemma {:induction false} MatchesByRule(rules: seq<Rule>, text: string, pats: seq<seq<Matcher>>)
    requires Shaped(rules, pats, text) && DistinctLabels(rules)
    ensures ByRule(rules, AllMatches(rules, text, pats))
    decreases |rules|
  {
    if rules != [] {
      var n := |rules| - 1;
      var pre := rules[..n];
      assert Shaped(pre, pats[..n], text);
      assert DistinctLabels(pre);
      MatchesByRule(pre, text, pats[..n]);
      var a := AllMatches(pre, text, pats[..n]);
      var b := RuleMatches(rules[n], HitsOf(text, pats[n]));
      var ms := a + b;
      assert ms == AllMatches(rules, text, pats);
      RuleIndexAt(rules, n);
      forall i | 0 <= i < |a|
        ensures RuleIndex(rules, a[i].ruleLabel) == RuleIndex(pre, a[i].ruleLabel) < n
        ensures Carries(a[i], rules[RuleIndex(pre, a[i].ruleLabel)])
      {
        var k := RuleIndex(pre, a[i].ruleLabel);
        assert k < |pre|;
        RuleIndexAt(pre, k);
        RuleIndexAt(rules, k);
        assert pre[k] == rules[k];
      }
      forall i | 0 <= i < |ms|
        ensures RuleIndex(rules, ms[i].ruleLabel) < |rules| && Carries(ms[i], rules[RuleIndex(rules, ms[i].ruleLabel)])
        ensures i < |a| ==> RuleIndex(rules, ms[i].ruleLabel) < n
        ensures i >= |a| ==> RuleIndex(rules, ms[i].ruleLabel) == n
      {
        if i < |a| {
          assert ms[i] == a[i];
        } else {
          assert ms[i] == b[i - |a|];
        }
      }
    }
  }

  lemma TableLabelsDistinct()
    ensures DistinctLabels(Table)
  {
  }
}

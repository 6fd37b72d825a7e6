/**
 * The pure helpers of the add-content screen (`src/screens/AddContentScreen.tsx`):
 * its own three-rule text analyser, the whitespace-normalised preview, the guard
 * on empty input, and the record `saveEntry` builds.
 */
module AddContent {
  import opened Common
  import opened JsText
  import opened Unique
  import opened Verdicts
  import SavedItemsProvider
  import SavedItemsHook
  import RiskRules

  datatype Rule = Rule(points: nat, flag: string)

  /** The three rules, in the order the screen tests them. */
  const Rules: seq<Rule> := [
    Rule(25, "chat app contact"),
    Rule(35, "gift card payment"),
    Rule(25, "unrealistic pay")
  ]

  datatype AnalysisResult = AnalysisResult(score: int, verdict: Verdict, flags: seq<string>)

  /** Points of the matching rules among the first `k`; `test(i, text)` is rule `i`'s regular expression. */
  function RulePoints(text: string, test: (nat, string) -> bool, k: nat): (p: nat)
    requires k <= |Rules|
  {
    if k == 0 then 0
    else RulePoints(text, test, k - 1) + (if test(k - 1, text) then Rules[k - 1].points else 0)
  }

  /** Flags of the matching rules among the first `k`, in rule order. */
  function RuleFlags(text: string, test: (nat, string) -> bool, k: nat): seq<string>
    requires k <= |Rules|
  {
    if k == 0 then []
    else RuleFlags(text, test, k - 1) + (if test(k - 1, text) then [Rules[k - 1].flag] else [])
  }

  function VerdictOf(score: int): (v: Verdict)
    ensures v == High <==> score >= 60
    ensures v == Medium <==> 30 <= score < 60
    ensures v == Low <==> score < 30
  {
    if score >= 60 then High else if score >= 30 then Medium else Low
  }

  /** The screen's verdict thresholds are the rule engine's levels, so the two never disagree. */
  lemma VerdictIsRiskLevel(score: int)
    ensures VerdictOf(score) == RiskRules.LevelOf(score)
  {
  }

  /** What the screen's `analyzeTextLocal` returns. */
  function AnalysisOf(raw: string, test: (nat, string) -> bool): (r: AnalysisResult)
    ensures 0 <= r.score <= 100
    ensures r.verdict == VerdictOf(r.score)
  {
    var text := ToLower(raw);
    var score := Clamp(0, 100, RulePoints(text, test, |Rules|));
    AnalysisResult(score, VerdictOf(score), Dedupe(RuleFlags(text, test, |Rules|)))
  }

  method AnalyzeTextLocal(raw: string, test: (nat, string) -> bool) returns (r: AnalysisResult)
    ensures r == AnalysisOf(raw, test)
  {
    var text := ToLower(raw);
    var score := 0;
    var flags: seq<string> := [];
    var i := 0;
    while i < |Rules|
      invariant 0 <= i <= |Rules|
      invariant score == RulePoints(text, test, i)
      invariant flags == RuleFlags(text, test, i)
    {
      if test(i, text) {
        score := score + Rules[i].points;
        flags := flags + [Rules[i].flag];
      }
      i := i + 1;
    }
    score := Min(100, Max(0, score));
    var verdict := if score >= 60 then High else if score >= 30 then Medium else Low;
    r := AnalysisResult(score, verdict, Dedupe(flags));
  }

  /** The rule points never reach the clamp: at most 85. */
  lemma {:induction false} RulePointsBound(text: string, test: (nat, string) -> bool, k: nat)
    requires k <= |Rules|
    ensures RulePoints(text, test, k) <= [0, 25, 60, 85][k]
    decreases k
  {
    if k > 0 {
      RulePointsBound(text, test, k - 1);
    }
  }

  /** A rule's flag is present exactly when its test succeeds. */
  lemma FlagPresent(text: string, test: (nat, string) -> bool, i: nat)
    requires i < |Rules|
    ensures Rules[i].flag in RuleFlags(text, test, |Rules|) <==> test(i, text)
  {
    var f := RuleFlags(text, test, |Rules|);
    assert f == RuleFlags(text, test, 2) + (if test(2, text) then ["unrealistic pay"] else []);
    assert RuleFlags(text, test, 2) == RuleFlags(text, test, 1) + (if test(1, text) then ["gift card payment"] else []);
    assert RuleFlags(text, test, 1) == (if test(0, text) then ["chat app contact"] else []);
  }

  /** The three labels differ, so the rule flags never repeat. */
  lemma {:induction false} RuleFlagsDistinct(text: string, test: (nat, string) -> bool, k: nat)
    requires k <= |Rules|
    ensures NoDuplicates(RuleFlags(text, test, k))
    ensures forall f :: f in RuleFlags(text, test, k) ==> exists i :: 0 <= i < k && f == Rules[i].flag
    decreases k
  {
    if k > 0 {
      RuleFlagsDistinct(text, test, k - 1);
      var p := RuleFlags(text, test, k - 1);
      var f := RuleFlags(text, test, k);
      if test(k - 1, text) {
        assert Rules[k - 1].flag !in p by {
          assert forall i :: 0 <= i < k - 1 ==> Rules[i].flag != Rules[k - 1].flag;
        }
        forall i, j | 0 <= i < j < |f| ensures f[i] != f[j] {
          if j == |f| - 1 { assert f[i] in p; }
        }
      }
      forall x | x in f ensures exists i :: 0 <= i < k && x == Rules[i].flag {
        if x in p {
          var i :| 0 <= i < k - 1 && x == Rules[i].flag;
        } else {
          assert x == Rules[k - 1].flag;
        }
      }
    }
  }

  /**
   * The score is exactly the sum of the matched rules' points (the clamp never bites),
   * and the flags are the matched rules' labels in rule order, each once.
   */
  lemma AnalysisSpec(raw: string, test: (nat, string) -> bool)
    ensures AnalysisOf(raw, test).score == RulePoints(ToLower(raw), test, |Rules|)
    ensures AnalysisOf(raw, test).flags == RuleFlags(ToLower(raw), test, |Rules|)
    ensures NoDuplicates(AnalysisOf(raw, test).flags)
    ensures forall i :: 0 <= i < |Rules| ==>
      (Rules[i].flag in AnalysisOf(raw, test).flags <==> test(i, ToLower(raw)))
  {
    var text := ToLower(raw);
    RulePointsBound(text, test, |Rules|);
    RuleFlagsDistinct(text, test, |Rules|);
    DedupeSpec(RuleFlags(text, test, |Rules|));
    DedupeOfDistinct(RuleFlags(text, test, |Rules|));
    forall i | 0 <= i < |Rules| ensures Rules[i].flag in RuleFlags(text, test, |Rules|) <==> test(i, text) {
      FlagPresent(text, test, i);
    }
  }

  /** `previewOf(s, n)`: the trimmed, whitespace-collapsed text, cut at `n` characters with an ellipsis. */
  function PreviewOf(s: string, n: nat): (r: string)
    ensures |r| <= n + 1
    ensures |CollapseSpaces(Trim(s))| <= n ==> r == CollapseSpaces(Trim(s))
    ensures |CollapseSpaces(Trim(s))| > n ==> |r| == n + 1 && r[n] == '…'
    ensures r[..Min(n, |r|)] == CollapseSpaces(Trim(s))[..Min(n, |CollapseSpaces(Trim(s))|)]
  {
    var t := CollapseSpaces(Trim(s));
    if |t| > n then t[..n] + "…" else t
  }

  /** Text that is already a short, normalised preview comes back unchanged. */
  lemma PreviewOfNormalised(s: string, n: nat)
    requires IsTrimmed(s) && SpacesCollapsed(s) && |s| <= n
    ensures PreviewOf(s, n) == s
  {
    TrimOfTrimmed(s);
    CollapseOfCollapsed(s);
  }

  /** A preview that was not cut is a fixed point of `previewOf`. */
  lemma PreviewStable(s: string, n: nat)
    requires |CollapseSpaces(Trim(s))| <= n
    ensures PreviewOf(PreviewOf(s, n), n) == PreviewOf(s, n)
  {
    var t := Trim(s);
    CollapseTrimmed(t);
    PreviewOfNormalised(CollapseSpaces(t), n);
  }

  const PreviewLength: nat := 120

  datatype Alert = Alert(caption: string, message: string)

  const NothingToAnalyze := Alert("Nothing to analyze", "Paste a job post or link first.")

  /** `onAnalyzeText`: the input is trimmed; blank input raises an alert and sets no result. */
  function OnAnalyzeText(input: string, test: (nat, string) -> bool): (r: Result<AnalysisResult, Alert>)
    ensures r.Err? <==> AllSpace(input)
    ensures r.Err? ==> r.error == NothingToAnalyze
    ensures r.Ok? ==> r.value == AnalysisOf(Trim(input), test)
  {
    TrimEmptyIffBlank(input);
    var raw := Trim(input);
    if raw == [] then Err(NothingToAnalyze) else Ok(AnalysisOf(raw, test))
  }

  predicate TruthyUri(imageUri: SavedItemsProvider.Nullable) {
    imageUri.Str? && imageUri.s != []
  }

  /** The title rule of `saveEntry`: never empty. */
  function SavedTitle(input: string, imageUri: SavedItemsProvider.Nullable): (r: string)
    ensures r != []
    ensures TruthyUri(imageUri) ==> r == "Screenshot analysis"
    ensures !TruthyUri(imageUri) && PreviewOf(input, PreviewLength) != [] ==> r == PreviewOf(input, PreviewLength)
    ensures !TruthyUri(imageUri) && AllSpace(input) ==> r == "Text analysis"
  {
    TrimEmptyIffBlank(input);
    if TruthyUri(imageUri) then "Screenshot analysis"
    else if PreviewOf(input, PreviewLength) != [] then PreviewOf(input, PreviewLength)
    else "Text analysis"
  }

  /** The record `saveEntry` adds; the id and the clock reading are parameters. */
  function NewEntry(a: AnalysisResult, input: string, imageUri: SavedItemsProvider.Nullable, id: string, now: int)
    : (e: SavedItemsHook.Entry)
    ensures e.title == SavedTitle(input, imageUri)
    ensures e.source == Some(if TruthyUri(imageUri) then SavedItemsProvider.ImageSource else SavedItemsProvider.TextSource)
    ensures e.inputPreview == Some(PreviewOf(input, PreviewLength))
    ensures e.score == a.score && e.verdict == a.verdict && e.flags == a.flags
    ensures e.imageUri == imageUri && e.id == id && e.createdAt == now
  {
    SavedItemsHook.Entry(
      id, SavedTitle(input, imageUri),
      Some(if TruthyUri(imageUri) then SavedItemsProvider.ImageSource else SavedItemsProvider.TextSource),
      Some(PreviewOf(input, PreviewLength)), imageUri, a.score, a.verdict, a.flags, now)
  }
}

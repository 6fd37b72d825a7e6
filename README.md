# Job scam detector — a verified model of its core

This project models the core of a job-scam detector made of two parts. One is
a React Native app that scores job posts and keeps a list of saved jobs. The
other is an Express API server that guards the app's requests.

The app side covers:

- the three scam analysers: the five-rule `scoreJob` scorer, the
  pattern-table rule engine `analyzeText`, and the keyword analyser
  `analyzeTextLocal`;
- the narrative `explain` builds from a rule-engine result;
- the saved-items store, in both its variants: the context provider with
  AsyncStorage hydration and import/export, and the hook;
- the persisted job store (`persist.ts`) and the `useJobs` hook over it;
- the database screen's filter and sort;
- the add-content screen's helpers and the edit modal's form logic;
- the URL helpers, the HTML-to-text converter and the RDAP domain-age lookup;
- the analytics event queue, the settings provider and the CSV seed mapper.

The server side covers the in-memory rate limiter, the error middleware, the
security middleware (log redaction, the CORS origin decision, the
content-type gate, suspicious-URL logging and request ids), the Zod
validation schemas, and the OCR route's cache
and answers.

Everything is plain Dafny.

- An object whose methods update fields in place is a `class` with
  `modifies` and `reads` frames: the providers, the job store, the analytics
  service, the rate limiter and the OCR route.
- Code that is expressions and calls is made of functions, with lemmas
  beside them.
- Loops in the source are `while` loops with invariants, each proved
  against a specification function.
- Regular expressions are given as oracle functions, except where the
  pattern's behaviour is the point:
  - the URL test of `urlTools.ts`;
  - every pass of `htmlToText`;
  - the keyword alternations of `explain.ts`.
- Clocks, random numbers, `JSON`, `URL` and `Date` parsing, and the network
  are parameters or datatypes.

## Model

| member | source | states |
|---|---|---|
| Scoring.Bucket | src/lib/scoring.ts:25-29 | a score of 67 or more is high, 34 to 66 medium, below 34 low, each band stated as an if-and-only-if |
| Scoring.BucketMonotone | src/lib/scoring.ts:25-29 | a higher score never falls into a lower band |
| Scoring.BucketLabel | src/lib/scoring.ts:30-32 | the label is the severity name in capitals: same length, and lower-casing it gives the name back |
| Scoring.Fired | src/lib/scoring.ts:47-86 | one outcome per rule; the suspicious-domain rule can only fire when the job has a non-empty url |
| Scoring.SelectFrom | src/lib/scoring.ts:47-86 | every pushed reason is a rule whose test succeeded |
| Scoring.SelectKeys | src/lib/scoring.ts:47-86 | a key carried by no firing rule is never among the reasons |
| Scoring.SelectComplete | src/lib/scoring.ts:47-86 | every rule whose test succeeded is pushed |
| Scoring.SelectExact | src/lib/scoring.ts:47-86 | when the rules' keys are distinct, a rule is pushed iff its test succeeded |
| Scoring.ScoreReportsFired | src/lib/scoring.ts:47-99 | `scoreJob` reports each of the five rules' reasons exactly when that rule's test succeeded |
| Scoring.UniqueReasons | src/lib/scoring.ts:90-92 | the `uniq` map loop keeps the first reason for each key, in insertion order |
| Scoring.ScoreJob | src/lib/scoring.ts:36-101 | `scoreJob` returns the score and reasons of the specification `ScoreOf` |
| Scoring.ScoreReasonsUnique | src/lib/scoring.ts:88-100 | returned reasons have pairwise distinct keys, the same key set as the pushed reasons, and each is the first pushed under its key |
| Scoring.ScoreBounds | src/lib/scoring.ts:93-99 | the score lies in 0..100: the weight sum capped at 100, plus 5 for a medium hint and 10 for a high hint, capped again |
| Scoring.NoReasonsScoreZero | src/lib/scoring.ts:93-100 | with no reason and no medium or high hint the result is score 0 and no reasons |
| Scoring.SelectDistinct | src/lib/scoring.ts:47-86 | selecting rules keeps their keys distinct |
| Scoring.SelectWeight | src/lib/scoring.ts:89-93 | the weight of the selected reasons is at most the weight of all rules |
| Scoring.KeepFirstNoop | src/lib/scoring.ts:90-92 | the five rule keys are distinct, so de-duplication never drops a reason |
| Scoring.RawWeightBound | src/lib/scoring.ts:89-93 | before capping, the weight sum is at most 28+28+18+18+18 = 110 |
| Scoring.SuspiciousDomainNeedsUrl | src/lib/scoring.ts:71-78 | a suspicious-domain reason implies a non-empty url |
| RiskRules.SnippetAroundSpec | src/lib/riskRules.ts:71-75 | the snippet is at most `len + 2*pad` long, is a slice of the text, and contains the whole hit at its offset |
| RiskRules.FindAll | src/lib/riskRules.ts:78-86 | the exec loop collects exactly the hits of the specification `AllHits` |
| RiskRules.AllHitsOrdered | src/lib/riskRules.ts:78-86 | the hits come in text order and do not overlap |
| RiskRules.HitMatches | src/lib/riskRules.ts:229-238 | one match per hit, carrying the rule's label, weight and advice and the hit's text and snippet |
| RiskRules.RuleMatches | src/lib/riskRules.ts:227-239 | every match of a rule carries that rule's label, weight and advice |
| RiskRules.LevelOf | src/lib/riskRules.ts:246 | High iff the score is 60 or more, Medium iff 30..59, Low iff below 30 |
| RiskRules.SoftCapExactElsewhere | src/lib/riskRules.ts:244 | the double product `score * 0.7` rounds as its exact value does at every sum except 45 and 85, where it rounds one lower |
| RiskRules.SoftCapMonotone | src/lib/riskRules.ts:244 | a larger sum of weights never gives a lower capped score |
| RiskRules.SoftCapLevelAt85 | src/lib/riskRules.ts:244-246 | the sum 85 scores 59 and is Medium, where exact rounding would give 60 and High |
| RiskRules.AnalysisOf | src/lib/riskRules.ts:220-248 | the score lies in 0..100, is `min(100, round(0.7 × the sum of the matches' weights))` except at sums 45 and 85, which score 31 and 59, and fixes the level |
| RiskRules.PushHits | src/lib/riskRules.ts:229-238 | the inner loop appends one match per hit and keeps the score equal to the matches' total weight |
| RiskRules.ScanPattern | src/lib/riskRules.ts:228-238 | one pattern: `findAll` then one match and one weight per hit, so the matches grow by exactly that pattern's hits and the score stays their total weight |
| RiskRules.ScanRule | src/lib/riskRules.ts:227-239 | the pattern loop appends the rule's matches, pattern by pattern, and keeps the score equal to the total weight |
| RiskRules.ScanRules | src/lib/riskRules.ts:225-241 | the rule loop produces every rule's matches in table order, and a score equal to their total weight |
| RiskRules.AnalyzeText | src/lib/riskRules.ts:220-248 | `analyzeText` returns the specification `AnalysisOf` of the normalised text |
| RiskRules.TotalWeightAppend | src/lib/riskRules.ts:230 | weights add up over concatenated match lists |
| RiskRules.HitMatchesWeight | src/lib/riskRules.ts:229-231 | every occurrence counts: `n` hits of a rule add `n` times its weight |
| RiskRules.RuleMatchesCount | src/lib/riskRules.ts:227-239 | a rule contributes exactly as many matches as its patterns have hits |
| RiskRules.RuleMatchesWeight | src/lib/riskRules.ts:227-239 | a rule contributes its weight times its number of hits |
| RiskRules.MatchesPerHit | src/lib/riskRules.ts:225-241 | over the whole table, one match per hit, and the raw score is the weighted hit count |
| RiskRules.NoHitsAnalysis | src/lib/riskRules.ts:243-247 | text with no hit at all gets score 0, level Low and no matches |
| RiskRules.RuleIndexAt | src/lib/riskRules.ts:101-212 | with distinct labels, a rule is found again by its label at its own position |
| RiskRules.MatchesByRule | src/lib/riskRules.ts:225-241 | the matches are grouped by rule in table order: a later match never belongs to an earlier rule |
| RiskRules.TableLabelsDistinct | src/lib/riskRules.ts:101-212 | the nine rule labels are pairwise distinct |
| Analyzer.Repeat | src/lib/analyzer.ts:60-69 | `n` copies of the suspicious-domain flag, one per suspicious link |
| Analyzer.SensShift | src/lib/analyzer.ts:76 | the shift is `(sensitivity - 50) / 2` rounded half up: 0 at 50 and within -25..25 for sensitivities in 0..100 |
| Analyzer.VerdictOf | src/lib/analyzer.ts:80-81 | High iff the score is 70 or more, Medium iff 40..69, Low iff below 40 |
| Analyzer.AnalysisOf | src/lib/analyzer.ts:10-84 | the score lies in 0..100 and fixes the verdict |
| Analyzer.AnalyzeTextLocal | src/lib/analyzer.ts:10-84 | the pattern loop and the link loop compute the specification `AnalysisOf` |
| Analyzer.ScanPatterns | src/lib/analyzer.ts:48-56 | the pattern loop sums the points and collects the flags of exactly the patterns whose test succeeds, in table order |
| Analyzer.ScanLinks | src/lib/analyzer.ts:58-73 | the link loop adds 12 points and one suspicious-domain flag per link with a suspicious host |
| Analyzer.CorePointsBound | src/lib/analyzer.ts:48-56 | each pattern adds its points at most once, however often it occurs |
| Analyzer.TablePointsTotal | src/lib/analyzer.ts:16-46 | the sixteen patterns are worth 314 points together |
| Analyzer.RawScoreBound | src/lib/analyzer.ts:48-73 | before the shift and the clamp the score is at most 314 plus 12 per suspicious link |
| Analyzer.CorePointsAll | src/lib/analyzer.ts:48-56 | when every test succeeds, every pattern's points are counted |
| Analyzer.AllPatternsMatch | src/lib/analyzer.ts:48-77 | the bound of 314 is reached when every pattern matches, and then the clamp decides: score 100 and verdict high at every sensitivity from 0 up |
| Analyzer.CoreFlagsExact | src/lib/analyzer.ts:51-56 | a pattern's flag is raised iff its test succeeds |
| Analyzer.CoreFlagsOnlyTable | src/lib/analyzer.ts:51-56 | every core flag is some pattern's label |
| Analyzer.FlagsSpec | src/lib/analyzer.ts:51-83 | the flags have no repeats; each pattern flag is present iff its test succeeds; the suspicious-domain flag is present iff some link has a suspicious host |
| Analyzer.SensitivityMonotone | src/lib/analyzer.ts:75-77 | raising the sensitivity never lowers the score |
| Analyzer.DefaultSensitivity | src/lib/analyzer.ts:75-77 | at the default sensitivity 50 the score is the raw score capped at 100 |
| Unique.KeepFirstSpec | src/lib/scoring.ts:90-92 | keeping the first element per key gives distinct keys, exactly the input's keys, each key's first element, and the keys in first-appearance order |
| Unique.KeepFirstOfDistinct | src/lib/scoring.ts:90-92 | keeping the first per key changes nothing when the keys are already distinct |
| Unique.DedupeSpec | src/lib/analyzer.ts:83 | `Array.from(new Set(xs))` has no repeats, the same elements, and first-occurrence order |
| Unique.DedupeOfDistinct | src/lib/analyzer.ts:83 | a list without repeats is its own de-duplication |
| Sorting.SortDescSorted | src/screens/DatabaseScreen.tsx:62 | the descending sort is ordered by key and is a permutation of its input |
| Sorting.SortDescStable | src/screens/DatabaseScreen.tsx:62 | the sort is stable: elements with equal keys keep their relative order |
| Sorting.SortDescDistinct | src/store/savedItems.tsx:115 | sorting keeps distinct ids distinct |
| Keyed.RemoveKey | src/store/savedItems.tsx:56 | the filter keeps exactly the elements whose id differs from the key, and adds nothing |
| Keyed.RemoveKeyAppend | src/store/savedItems.tsx:56 | removal works element by element, so it distributes over concatenation and keeps order |
| Keyed.RemoveKeyAbsent | src/store/savedItems.tsx:56 | removing an absent id leaves the list as it is |
| Keyed.RemoveKeyIdempotent | src/store/savedItems.tsx:56 | removing an id twice is removing it once |
| Keyed.FindAfterRemove | src/store/savedItems.tsx:56 | after removal, nothing is found under the removed id |
| Explain.CategoryFirstMatch | src/lib/explain.ts:35-44 | a match goes into the first category, in the source's order, whose keywords its label mentions, ignoring case |
| Explain.CategoryNone | src/lib/explain.ts:35-44 | a label that mentions no category's keywords goes into "Other" |
| Explain.DepositIsUpfrontFee | src/lib/explain.ts:36-39 | a label mentioning "deposit" counts as an upfront fee, although "check" would also match a later category |
| Explain.ExplainDrivers | src/lib/explain.ts:30-56 | the counting loop, the sort and the sentence give the specification `DriversOf` |
| Explain.BumpFacts | src/lib/explain.ts:45 | one `set(key, get(key) + 1)` adds one to that key's count only, keeps the keys distinct, and adds a key only at the end |
| Explain.BucketsCount | src/lib/explain.ts:32-46 | the buckets have distinct keys; each key's count is the number of matches in that category; the counts sum to the number of matches |
| Explain.PartsOrdered | src/lib/explain.ts:48-50 | the categories are listed by non-increasing count, once each |
| Explain.DriversNamed | src/lib/explain.ts:30-56 | with at least one match there is a category, so the "no drivers" sentence is never produced |
| Explain.DriverSentenceTop3 | src/lib/explain.ts:53-55 | only the three most frequent categories are named |
| Explain.Modality | src/lib/explain.ts:65 | hybrid takes priority over remote, and remote over on-site; each outcome is stated as an if-and-only-if |
| Explain.PayLine | src/lib/explain.ts:66 | the pay sentence is never empty and ends with a full stop |
| Explain.Urgency | src/lib/explain.ts:67 | the urgency sentence is empty or ends with a full stop |
| Explain.SummaryHead | src/lib/explain.ts:69 | the summary starts "This appears to be a ..." |
| Explain.SummaryUrgent | src/lib/explain.ts:67-69 | with urgency, the summary is head, pay line, a blank and the urgency sentence |
| Explain.SummaryCalm | src/lib/explain.ts:67-69 | without urgency, the final trim removes only the trailing blank |
| Explain.SummaryShape | src/lib/explain.ts:64-69 | the summary is head plus pay line, followed by the urgency sentence exactly when urgency was found |
| Explain.TopEvidence | src/lib/explain.ts:75 | at most three evidence lines: one for each of the first matches, in order |
| Explain.RecommendationsCount | src/lib/explain.ts:78-94 | three steps for High and Medium, two for Low |
| Explain.BuildExplanation | src/lib/explain.ts:59-97 | `why` is the drivers sentence; at most three evidence lines; the number of steps follows the level; no matches give the "no risk phrases" sentence and no evidence |
| AddContent.VerdictOf | src/screens/AddContentScreen.tsx:202 | High iff the score is 60 or more, Medium iff 30..59, Low iff below 30 |
| AddContent.VerdictIsRiskLevel | src/screens/AddContentScreen.tsx:202 | the screen's thresholds give the same verdict as the rule engine's levels (src/lib/riskRules.ts:246) for every score |
| AddContent.AnalysisOf | src/screens/AddContentScreen.tsx:186-204 | the score lies in 0..100 and fixes the verdict |
| AddContent.AnalyzeTextLocal | src/screens/AddContentScreen.tsx:186-204 | the rule loop computes the specification `AnalysisOf` |
| AddContent.RulePointsBound | src/screens/AddContentScreen.tsx:188-200 | the first k rules give at most 0, 25, 60 or 85 points |
| AddContent.FlagPresent | src/screens/AddContentScreen.tsx:195-200 | a rule's flag is present iff its pattern matches |
| AddContent.RuleFlagsDistinct | src/screens/AddContentScreen.tsx:195-203 | the flags have no repeats and each is some rule's label |
| AddContent.AnalysisSpec | src/screens/AddContentScreen.tsx:186-204 | the score is the matched rules' points; the flags are the matched rules' labels in rule order, without repeats, each present iff its rule matches |
| AddContent.PreviewOf | src/screens/AddContentScreen.tsx:206-209 | trimmed and whitespace-collapsed text up to n characters is returned whole; longer text is cut to n characters and "…" is added; never more than n+1 characters |
| AddContent.PreviewOfNormalised | src/screens/AddContentScreen.tsx:206-209 | text that is already trimmed, collapsed and short enough is its own preview |
| AddContent.PreviewStable | src/screens/AddContentScreen.tsx:206-209 | an untruncated preview previews to itself |
| AddContent.OnAnalyzeText | src/screens/AddContentScreen.tsx:64-69 | blank input (and only blank input) raises the "Nothing to analyze" alert; otherwise the result is the analysis of the trimmed text |
| AddContent.SavedTitle | src/screens/AddContentScreen.tsx:88 | the title is never empty: "Screenshot analysis" with an image, else the preview, else "Text analysis" for blank text |
| AddContent.NewEntry | src/screens/AddContentScreen.tsx:85-96 | the saved record has that title, source image or text, the preview, the analysis' score, verdict and flags, and the given id and time |
| SavedItemsProvider.Apply | src/store/savedItems.tsx:58-59 | `{ ...x, ...partial }`: a field given in the patch wins, any other is kept, and an empty patch changes nothing |
| SavedItemsProvider.StringsOfStrs | src/store/savedItems.tsx:62-97 | flags written as JSON read back as the same list |
| SavedItemsProvider.ToJsonFields | src/store/savedItems.tsx:69 | the JSON form of a record holds each of its required fields under its own key |
| SavedItemsProvider.ToJsonNullables | src/store/savedItems.tsx:69 | the optional preview and image fields read back from the JSON form as they were: absent, null or a string |
| SavedItemsProvider.OptionalKey | src/store/savedItems.tsx:9-10 | an optional nullable field is written only when present, with null kept apart from absent, and is read back as it was |
| SavedItemsProvider.ParseSourceName | src/store/savedItems.tsx:92 | a written source name passes the `"text" / "image"` test and reads back as itself |
| SavedItemsProvider.ParseVerdictName | src/store/savedItems.tsx:94 | a written verdict name passes the `Low / Medium / High` test and reads back as itself |
| SavedItemsProvider.JsonRoundTrip | src/store/savedItems.tsx:62-97 | every record, once serialised, passes the import validation and reads back as the same record |
| SavedItemsProvider.ValidItems | src/store/savedItems.tsx:87-97 | the validation filter keeps at most as many records as it is given; what it keeps is stated by ValidItemsComplete, ValidItemsSound and ValidItemsSkipped |
| SavedItemsProvider.ValidItemsComplete | src/store/savedItems.tsx:87-97 | every record that passes the validation test is kept, converted |
| SavedItemsProvider.ValidItemsSound | src/store/savedItems.tsx:87-97 | every kept item is a record that passes the test, converted |
| SavedItemsProvider.ValidItemsSkipped | src/store/savedItems.tsx:87-101 | the number of records dropped is the number that fail the test |
| SavedItemsProvider.ReplaceSkipsInvalid | src/store/savedItems.tsx:87-102 | a replace import keeps exactly the valid records, reports the old list's length as replaced, and reports the invalid records as skipped |
| SavedItemsProvider.MapSetSpec | src/store/savedItems.tsx:106 | `map.set(id, x)` on an insertion-ordered map with distinct ids replaces the entry in place or appends it, keeping the ids distinct |
| SavedItemsProvider.MapOf | src/store/savedItems.tsx:105-106 | the map built from the current items has distinct ids, exactly the items' ids, and only items as values |
| SavedItemsProvider.MapSetAbsent | src/store/savedItems.tsx:110-112 | setting an id the map lacks appends the record at the end |
| SavedItemsProvider.AddNew | src/store/savedItems.tsx:108-114 | the merge loop keeps the current entries in front and appends at most one entry per record, counting each in `added` |
| SavedItemsProvider.AddNewKeys | src/store/savedItems.tsx:108-114 | every appended entry is an incoming record whose id the current entries lack; the result holds exactly the ids of both lists, distinct when the current ids were |
| SavedItemsProvider.AddNewStep | src/store/savedItems.tsx:109-113 | one iteration: a record whose id is known is skipped, any other is appended and counted |
| SavedItemsProvider.Payload | src/store/savedItems.tsx:62-69 | the export carries the schema "job-scam-detector/v1" and the number of items |
| SavedItemsProvider.ValidItemsOfExport | src/store/savedItems.tsx:62-97 | every exported record passes the validation, so nothing is lost in a round trip |
| SavedItemsProvider.ExportThenReplace | src/store/savedItems.tsx:62-101 | importing an export in replace mode restores exactly the exported items and reports them all as added, the current ones as replaced, and none skipped |
| SavedItemsProvider.MapOfDistinct | src/store/savedItems.tsx:105-106 | items with distinct ids go through the map unchanged |
| SavedItemsProvider.MergeIsSorted | src/store/savedItems.tsx:105-116 | merging sorts the map's values by `createdAt`, newest first, and reports the merge loop's count as added |
| SavedItemsProvider.MergeSortedDistinct | src/store/savedItems.tsx:105-116 | after a merge the items are newest first and have distinct ids |
| SavedItemsProvider.SortKeys | src/store/savedItems.tsx:115 | sorting neither adds nor loses an id |
| SavedItemsProvider.MergeKeys | src/store/savedItems.tsx:104-115 | after a merge an id is present iff it was present before or in a valid imported record |
| SavedItemsProvider.MergeKeepsCurrent | src/store/savedItems.tsx:104-115 | existing entries win: a merged record whose id was present before is one of the existing items |
| SavedItemsProvider.MergeCounts | src/store/savedItems.tsx:108-116 | merging replaces nothing; added plus skipped is the number of incoming records; the result grows by exactly the number added |
| SavedItemsProvider.MergeOwnExport | src/store/savedItems.tsx:62-116 | merging the store's own export adds nothing and skips every record |
| SavedItemsProvider.AddNothingKnown | src/store/savedItems.tsx:108-114 | records whose ids are all known add nothing |
| SavedItemsProvider.SavedItemsStore.constructor | src/store/savedItems.tsx:37-38 | the store starts empty and not hydrated, with nothing written |
| SavedItemsProvider.SavedItemsStore.Persist | src/store/savedItems.tsx:50-53 | the items are written to storage after every change, but only once hydrated |
| SavedItemsProvider.SavedItemsStore.Hydrate | src/store/savedItems.tsx:40-48 | the stored list, when there is one, replaces the items; the store is then hydrated and writes them back once |
| SavedItemsProvider.SavedItemsStore.Add | src/store/savedItems.tsx:55 | the new item goes in front of the existing ones |
| SavedItemsProvider.SavedItemsStore.Remove | src/store/savedItems.tsx:56 | exactly the items with that id are removed, the rest keep their order |
| SavedItemsProvider.SavedItemsStore.ClearAll | src/store/savedItems.tsx:57 | the list becomes empty |
| SavedItemsProvider.SavedItemsStore.Update | src/store/savedItems.tsx:58-59 | items with that id get the patch applied; every other item is unchanged |
| SavedItemsProvider.SavedItemsStore.ExportJSON | src/store/savedItems.tsx:62-70 | the export carries the schema tag and the item count, and importing it in replace mode over any list restores exactly the current items, all counted as added |
| SavedItemsProvider.SavedItemsStore.ImportJSON | src/store/savedItems.tsx:72-117 | unparsable text fails with "Invalid JSON file." and changes nothing; otherwise the items and counts are those of the specification `ImportOf` |
| SavedItemsProvider.ImportItems | src/store/savedItems.tsx:80-116 | the import body gives the specification `ImportOf`'s items and counts |
| SavedItemsProvider.ValidRecords | src/store/savedItems.tsx:87-97 | the filter loop keeps the records of the specification `ValidItems` |
| SavedItemsProvider.BuildMap | src/store/savedItems.tsx:105-106 | the map loop builds the specification `MapOf` |
| SavedItemsProvider.MergeNew | src/store/savedItems.tsx:108-114 | the merge loop computes the specification `AddNew`, entries and count |
| SavedItemsHook.SavedItems.constructor | src/store/savedItems.ts:19-20 | the hook starts with no items, not hydrated, with nothing written |
| SavedItemsHook.SavedItems.Persist | src/store/savedItems.ts:33-36 | the items are written after every change once hydrated, and not before |
| SavedItemsHook.SavedItems.Hydrate | src/store/savedItems.ts:22-31 | a stored list replaces the items; a missing one or a failed read leaves them; either way the hook becomes hydrated and writes once |
| SavedItemsHook.SavedItems.Add | src/store/savedItems.ts:38 | the entry goes in front |
| SavedItemsHook.SavedItems.Remove | src/store/savedItems.ts:39 | exactly the entries with that id are removed, in order |
| SavedItemsHook.SavedItems.ClearAll | src/store/savedItems.ts:40 | the list becomes empty |
| SavedItemsHook.AddThenRemove | src/store/savedItems.ts:38-39 | removing the id of an entry just added leaves what removing it from the old list would have left |
| Persist.OrElse | src/store/persist.ts:23-31 | `v ?? d`: the default exactly when the value is missing or null |
| Persist.RiskOf | src/store/persist.ts:26-29 | "high" and "medium" are kept; anything else, "low" included, becomes low |
| Persist.CreatedAtOf | src/store/persist.ts:33-36 | a number is kept; otherwise its numeric reading if that is neither NaN nor 0; otherwise the clock |
| Persist.NormalizeAll | src/store/persist.ts:22-37 | a `null` record makes the whole map throw; otherwise one normalised job per record, in order |
| Persist.LoadJobs | src/store/persist.ts:13-41 | no stored text or an empty string gives []; text that is not a JSON array gives []; an array holding a `null` record gives [], since the map throws and the catch returns []; otherwise job i is record i normalised with the "m" fallback prefix |
| Persist.Envelope | src/store/persist.ts:58 | the backup is an object with exactly the keys `version` (1) and `jobs` |
| Persist.ExportJobs | src/store/persist.ts:56-59 | the backup holds version 1 and the jobs `loadJobs` returns |
| Persist.ImportJobs | src/store/persist.ts:61-85 | unparsable text fails; a value that is neither an array nor an object with a `jobs` array fails with "Import JSON must contain an array of jobs"; the import fails on a `null` record iff the job array holds one; otherwise job i is record i normalised with the "im" fallback prefix |
| Persist.JobArray | src/store/persist.ts:63-64 | the records are the top-level array, else the `jobs` array, and there are none iff neither is an array |
| Persist.NormalizeDefaults | src/store/persist.ts:68-82 | a missing or null title becomes "Untitled" and a company "Unknown"; string values are kept |
| Persist.CreatedAtFromString | src/store/persist.ts:78-81 | a creation time stored as a decimal string is read back as that number, unless it is 0 |
| Persist.NumericId | src/store/persist.ts:69 | a numeric id becomes its decimal string, which parses back to the number |
| Persist.RiskNames | src/store/persist.ts:72-75 | each risk name is read back as itself |
| Persist.NormalizeJobJson | src/store/persist.ts:68-82 | normalising a normalised job's JSON gives the same job, whatever its index and the clock |
| Persist.NormalizeAllJson | src/store/persist.ts:68-82 | normalising a saved list gives the list back |
| Persist.ExportThenImport | src/store/persist.ts:56-85 | importing an exported backup restores exactly the exported jobs |
| Persist.SaveThenLoad | src/store/persist.ts:13-46 | loading what was saved gives the saved list back |
| Persist.ImportEitherShape | src/store/persist.ts:62-63 | a bare array and the same array under `jobs` import alike |
| Keyed.MapKey | src/hooks/useJobs.tsx:58-60 | the map keeps the length; elements with another id are unchanged; elements with the id are transformed |
| Keyed.FindKey | src/hooks/useJobs.tsx:70 | `find` gives nothing iff no element has the id, otherwise the first element that has it |
| UseJobs.NewJob | src/hooks/useJobs.tsx:46-50 | a created job has the given id and creation time, no update time, and exactly the draft's fields |
| UseJobs.Revise | src/hooks/useJobs.tsx:58-60 | a revised job keeps its id and creation time, gets the update time, and takes each given change, keeping the other fields |
| UseJobs.JobsProvider.constructor | src/hooks/useJobs.tsx:28 | the provider starts with no jobs and nothing written |
| UseJobs.JobsProvider.Load | src/hooks/useJobs.tsx:31-38 | the initial load installs the loaded list |
| UseJobs.JobsProvider.Persist | src/hooks/useJobs.tsx:40-43 | the next list is installed and that same list is saved |
| UseJobs.JobsProvider.Create | src/hooks/useJobs.tsx:45-54 | the new job goes in front and is returned; the new list is saved |
| UseJobs.JobsProvider.Update | src/hooks/useJobs.tsx:57-62 | jobs with that id are revised, all others are unchanged; the new list is saved |
| UseJobs.JobsProvider.Remove | src/hooks/useJobs.tsx:64-67 | exactly the jobs with that id are removed, the rest keep their order; the new list is saved |
| UseJobs.JobsProvider.GetById | src/hooks/useJobs.tsx:70 | nothing iff no job has the id; otherwise the first job of the list with that id |
| UseJobs.CreateThenGet | src/hooks/useJobs.tsx:45-70 | a job just created is the one found under its id |
| UseJobs.CreateThenRemove | src/hooks/useJobs.tsx:45-67 | removing a freshly created job whose id was unused gives the old list back |
| UseJobs.UpdateKeepsIds | src/hooks/useJobs.tsx:57-62 | update keeps the length, every id, every creation time and the order; only jobs with the id change |
| UseJobs.UpdateThenGet | src/hooks/useJobs.tsx:57-70 | after an update, the job found under the id is the first old one with that id, revised |
| DatabaseScreen.OrUndefined | src/screens/DatabaseScreen.tsx:38-39 | `v ?? undefined`: a string is kept; null and missing both become absent |
| DatabaseScreen.ToScoreInput | src/screens/DatabaseScreen.tsx:35-41 | the scorer gets the job's title, company and risk hint, and its url and notes exactly when they are strings |
| DatabaseScreen.Filter | src/screens/DatabaseScreen.tsx:57-60 | a filter never grows the list and keeps only elements that pass |
| DatabaseScreen.FilterCount | src/screens/DatabaseScreen.tsx:57-60 | a filter keeps every copy of an element that passes and drops every copy of one that fails |
| DatabaseScreen.DataSpec | src/screens/DatabaseScreen.tsx:52-63 | the rows are sorted by score, riskiest first, and are exactly the scored rows that pass the risk filter and the search, counting duplicates |
| DatabaseScreen.DataRows | src/screens/DatabaseScreen.tsx:52-63 | every listed row is a stored job with its own score, passing both filters |
| DatabaseScreen.NoFilterKeepsAll | src/screens/DatabaseScreen.tsx:53-60 | with the filter "all" and a blank search, every job is listed |
| DatabaseScreen.FilterAll | src/screens/DatabaseScreen.tsx:57-60 | a filter that everything passes keeps the list as it is |
| RateLimiter.Check | server/src/middleware/rateLimiter.ts:112-133 | other keys are untouched; a new or expired key opens a window of count 1 until `now + windowMs` and is allowed with `max - 1` left; a full window refuses with 0 left; otherwise the count goes up by one and `max - count` are left |
| RateLimiter.Unexpired | server/src/middleware/rateLimiter.ts:138-145 | cleanup keeps exactly the windows that have not expired, unchanged |
| RateLimiter.RateLimitStore.constructor | server/src/middleware/rateLimiter.ts:107 | the store starts empty |
| RateLimiter.RateLimitStore.CheckRateLimit | server/src/middleware/rateLimiter.ts:112-133 | the new store and the decision are those of the specification `Check` |
| RateLimiter.RateLimitStore.Cleanup | server/src/middleware/rateLimiter.ts:138-145 | the delete loop leaves the specification `Unexpired` of the old store |
| RateLimiter.CheckBounded | server/src/middleware/rateLimiter.ts:120-132 | with `max >= 1`, no window's count ever exceeds `max` |
| RateLimiter.RefusedOnlyWhenFull | server/src/middleware/rateLimiter.ts:120-129 | a request is refused iff its key has an open window already at `max`; a refusal changes nothing and reports 0 left |
| RateLimiter.ResetTimeStillOpen | server/src/middleware/rateLimiter.ts:120 | at exactly the reset time the window is still open (`now > resetTime` is strict) |
| RateLimiter.BurstWithinWindow | server/src/middleware/rateLimiter.ts:112-133 | `n` requests from a new key at one instant share one window; its count is `min(n, max)`; the last is allowed iff `n <= max` |
| RateLimiter.CleanupTransparent | server/src/middleware/rateLimiter.ts:138-145 | an earlier cleanup never changes a later decision |
| ErrorHandler.NewOperationalError | server/src/middleware/errorHandler.ts:13-25 | an `OperationalError` is operational, carries its message and details, and has status 500 unless one is given |
| ErrorHandler.StripErrorSuffix | server/src/middleware/errorHandler.ts:57 | `replace(/ERROR$/, '')` removes one trailing "ERROR" and leaves any other text alone |
| ErrorHandler.OperationalCode | server/src/middleware/errorHandler.ts:56-58 | the class name `OperationalError`, in capitals and without its suffix, is "OPERATIONAL" |
| ErrorHandler.StatusOf | server/src/middleware/errorHandler.ts:114 | the error's own status unless it is missing or 0 |
| ErrorHandler.LevelOf | server/src/middleware/errorHandler.ts:105-111 | an error is logged as a warning iff it carries a non-zero status below 500 |
| ErrorHandler.CodeFirstMatch | server/src/middleware/errorHandler.ts:61-69 | the first message test that succeeds, in the source's order, gives the code |
| ErrorHandler.CodeInternal | server/src/middleware/errorHandler.ts:61-71 | the code is INTERNAL_ERROR iff no message test succeeds |
| ErrorHandler.CodeFromTable | server/src/middleware/errorHandler.ts:61-71 | every code is INTERNAL_ERROR or one of the table's codes |
| ErrorHandler.OperationalErrorCode | server/src/middleware/errorHandler.ts:55-58 | every `OperationalError` gets the code "OPERATIONAL", whatever its message |
| ErrorHandler.ValidationFirst | server/src/middleware/errorHandler.ts:61-62 | a plain error whose message mentions "validation", in any case, is VALIDATION_ERROR even if other words also match |
| ErrorHandler.ProductionHidesServerErrors | server/src/middleware/errorHandler.ts:113-131 | in production a server error keeps its status, but the body says only OPERATIONAL and "An unexpected error occurred", with no details and no stack |
| ErrorHandler.OtherwiseShown | server/src/middleware/errorHandler.ts:40-53 | otherwise the body carries the error's code, its message (or the default for an empty one) and its details when they are truthy |
| ErrorHandler.RequestIdAlwaysSent | server/src/middleware/errorHandler.ts:94-122 | the body always has a non-empty request id: the request's own, or "unknown" |
| ErrorHandler.NotFoundResponse | server/src/middleware/errorHandler.ts:137-139 | an unknown route answers 404 with code OPERATIONAL and "Route <method> <url> not found", logged as a warning |
| Security.RedactedUpTo | server/src/middleware/security.ts:197-203 | after any number of loop rounds the record has the same keys as the input |
| Security.Redacted | server/src/middleware/security.ts:186-206 | the sanitised record has exactly the input's keys |
| Security.SanitizeForLogging | server/src/middleware/security.ts:186-206 | the loop over the sensitive field names gives the specification `Redacted` |
| Security.RedactedSpec | server/src/middleware/security.ts:186-206 | a key is kept iff it was present; a present sensitive key reads "[REDACTED]"; every other value is unchanged |
| Security.RedactedIdempotent | server/src/middleware/security.ts:186-206 | redacting twice is redacting once |
| Security.OtherSpellingsKept | server/src/middleware/security.ts:187-201 | matching is exact: "Password" or "api_key" are logged as they are |
| Security.AllowedOrigins | server/src/middleware/security.ts:73 | the allowed list always has at least one entry, the empty string when `CORS_ORIGIN` is unset |
| Security.CorsDecision | server/src/middleware/security.ts:72-92 | a request is allowed iff it has no origin or its origin is in the trimmed list; otherwise it fails with "Not allowed by CORS" |
| Security.CorsUnsetAllowsNoOrigin | server/src/middleware/security.ts:73-91 | with `CORS_ORIGIN` unset, only requests without an origin get through |
| Security.CorsTrimsEntries | server/src/middleware/security.ts:73-83 | blanks after a comma do not matter: an origin listed that way is still allowed |
| Security.SplitOfTwo | server/src/middleware/security.ts:73 | two comma-free parts joined by a comma split back into those two |
| Security.ContentTypeCheck | server/src/middleware/security.ts:172-181 | POST, PUT and PATCH fail with "Content-Type must be application/json" iff the content type is missing or lacks "application/json"; nothing else fails |
| Security.OtherMethodsPass | server/src/middleware/security.ts:172-181 | GET, DELETE and any other method pass whatever their content type |
| Security.JsonCharsetAccepted | server/src/middleware/security.ts:176 | "application/json; charset=utf-8" is accepted |
| Security.SecurityLogging | server/src/middleware/security.ts:140-167 | at most one event is logged, none iff no pattern matches, and the logged one is the first pattern that matches |
| Security.RequestId | server/src/middleware/security.ts:107-115 | a non-empty incoming `x-request-id` is kept, otherwise a generated id is used; the request and the response header get the same id |
| Validation.Fail | server/src/utils/validation.ts:9-10 | a check reports an issue iff it fails |
| Validation.Checked | server/src/utils/validation.ts:7-16 | a value is valid iff none of its checks failed; the failed checks are its issues and the value is kept |
| Validation.Merge | server/src/utils/validation.ts:6-46 | an object is aborted iff a field aborted, valid iff no field is dirty or aborted, and carries its fields' issues |
| Validation.Refine | server/src/utils/validation.ts:105-108 | `.refine` keeps a valid object valid iff the rule holds, and is skipped on an aborted one |
| Validation.ValidateInput | server/src/utils/validation.ts:201-212 | success with the parsed data iff the parse is valid, otherwise failure with its issues |
| Validation.Text | server/src/utils/validation.ts:7-16 | a required text field is valid iff it is a string whose raw length is within bounds; its value is the trimmed string |
| Validation.OptionalText | server/src/utils/validation.ts:101-103 | an optional text field accepts a missing value as absent, and otherwise behaves as a required one |
| Validation.Loose | server/src/utils/validation.ts:17-45 | an optional, nullable field accepts missing, null, the empty string, or a string within its length bound that passes its format check, and passes the value on unchanged |
| Validation.RiskField | server/src/utils/validation.ts:37-39 | the risk is valid iff missing or one of low, medium and high; a missing risk takes the default; a given one is kept |
| Validation.PlainText | server/src/utils/validation.ts:102 | an untrimmed optional string field keeps the string as sent, and a missing one is absent |
| Validation.Page | server/src/utils/validation.ts:138-141 | a page that parses is at least 1 |
| Validation.Limit | server/src/utils/validation.ts:142-145 | a limit that parses lies in 1..100 |
| Validation.SearchField | server/src/utils/validation.ts:157-161 | a search string is valid iff it is at most 200 characters after trimming |
| Validation.IncludeDetails | server/src/utils/validation.ts:175-180 | details are included iff the parameter is exactly "true" |
| Validation.Sanitized | server/src/utils/validation.ts:217-231 | exactly the keys whose value is not the empty string are kept |
| Validation.SanitizeInput | server/src/utils/validation.ts:217-231 | the loop over the keys gives the specification `Sanitized` |
| Validation.CreateTitleCompany | server/src/utils/validation.ts:7-16 | a valid job has a title and company of 1 to 200 characters as sent, stored trimmed |
| Validation.CreateRiskDefault | server/src/utils/validation.ts:37-39 | a created job without a risk gets low; one with a risk keeps it |
| Validation.CreateOptionalBounds | server/src/utils/validation.ts:17-45 | a valid job's location, email, url and notes are within 200, 320, 2000 and 10000 characters, and location and notes are passed on as sent |
| Validation.CreateTitleRequired | server/src/utils/validation.ts:7-11 | an empty title is rejected with "Title is required" |
| Validation.CreateTitleTooLong | server/src/utils/validation.ts:7-11 | a title over 200 characters is rejected with "Title must be less than 200 characters" |
| Validation.EmptyStringAccepted | server/src/utils/validation.ts:22-36 | the empty string is accepted by every loose field, whatever its format check says |
| Validation.UpdateEmpty | server/src/utils/validation.ts:48-90 | an update may leave out every field, and then sets nothing, not even the risk |
| Validation.VerifyNeedsOne | server/src/utils/validation.ts:99-108 | a valid verify query has a non-empty company, url or target; an empty one fails with the rule's message on `target` |
| Validation.VerifyQueryFields | server/src/utils/validation.ts:98-103 | a valid verify query holds the company and target trimmed and the url as given, and nothing for a field the input leaves out |
| Validation.BlankCompanyOnly | server/src/utils/validation.ts:100-107 | a query whose only field is a company of blanks fails the at-least-one rule |
| Validation.VerifyBlankCompany | server/src/utils/validation.ts:101-105 | a company of blanks is trimmed to nothing and does not satisfy the rule |
| Validation.PatternsNeedsOne | server/src/utils/validation.ts:123-132 | a valid patterns query has a non-empty company, url or recruiter email; an empty one fails with the rule's message on `company` |
| Validation.ParsedNumber | server/src/utils/validation.ts:141 | `parseInt` reads back the decimal text of an integer |
| Validation.PageOfNumber | server/src/utils/validation.ts:141 | a numeric page is raised to at least 1 |
| Validation.LimitOfNumber | server/src/utils/validation.ts:145 | a numeric limit is clamped to 1..100 |
| Validation.PageDefaults | server/src/utils/validation.ts:137-146 | a missing or empty page is 1; a missing or empty limit is 20 |
| Validation.FilterDefaults | server/src/utils/validation.ts:151-170 | an empty filter query gets page 1, limit 20, risk "all", no search, sort by date, descending |
| Validation.DefaultFields | server/src/utils/validation.ts:151-170 | each filter field of an empty query takes its default |
| Validation.SanitizedSpec | server/src/utils/validation.ts:217-231 | an empty string is deleted; another string is trimmed; a non-string is kept; a string of blanks becomes the empty string |
| Validation.SanitizeTwice | server/src/utils/validation.ts:217-231 | sanitising is not idempotent: a second pass deletes what the first turned into the empty string |
| Analytics.Truncate | src/lib/analytics.ts:238-239 | a value of at most 100 characters is kept as is; a longer one becomes its first 100 characters followed by "..." so at most 103 characters |
| Analytics.Sanitized | src/lib/analytics.ts:232-244 | a key survives exactly when its value is neither undefined nor null |
| Analytics.SanitizeParams | src/lib/analytics.ts:232-244 | the loop over the entries builds the sanitised parameters |
| Analytics.AnalyticsService.constructor | src/lib/analytics.ts:46-48 | a new service is not initialised and has nothing queued or sent |
| Analytics.AnalyticsService.TrackEvent | src/lib/analytics.ts:78-95 | before initialisation the sanitised event is queued; afterwards it is sent; the initialised flag does not change |
| Analytics.AnalyticsService.Initialize | src/lib/analytics.ts:53-73 | a second call does nothing; the first sends the queued events in order, empties the queue and leaves the full history unchanged |
| Analytics.AnalyticsService.TrackJobAnalysis | src/lib/analytics.ts:111-136 | the history grows by the completion event and one risk event for the given level |
| Analytics.AnalyticsService.TrackSearchPerformed | src/lib/analytics.ts:208-215 | the history grows by one search event with the query length, the count and whether there were results |
| Analytics.AnalyticsService.IsEnabled | src/lib/analytics.ts:249-251 | the service is enabled exactly when it was initialised |
| Analytics.TruncateIdempotent | src/lib/analytics.ts:238-239 | truncating a truncated value changes nothing |
| Analytics.SanitizedIsSanitized | src/lib/analytics.ts:232-244 | sanitised parameters hold only strings of at most 103 characters |
| Analytics.SanitizedIdempotent | src/lib/analytics.ts:232-244 | sanitising sanitised parameters gives them back |
| Analytics.ReplayedSanitized | src/lib/analytics.ts:64-66 | replaying a queue of sanitised events sends exactly those events |
| Analytics.SanitizedSpec | src/lib/analytics.ts:235-240 | per key: kept iff present; every kept value is a string of at most 103 characters; short strings are kept unchanged and long ones truncated |
| Analytics.JobAnalysisEventsSpec | src/lib/analytics.ts:111-136 | a job analysis sends two events: the completion event and then the high, medium or low risk event matching the level |
| Analytics.HasResults | src/lib/analytics.ts:208-215 | the search event records "true" for has_results exactly when the count is positive |
| Analytics.InitializeDrains | src/lib/analytics.ts:53-95 | two events tracked before initialisation are sent in order by the initialisation, sanitised |
| Ocr.MakeCacheKey | server/src/routes/ocr.ts:16-20 | a URL keys by "url:" and the URL; otherwise base64 keys by "b64:" and its first 200 characters; with neither the key is "empty" |
| Ocr.LongestPrefixEnd | server/src/routes/ocr.ts:86 | finds the end of the longest "data:…;base64," header at the start of the payload, as the greedy pattern does |
| Ocr.StripDataPrefix | server/src/routes/ocr.ts:86 | the stripped payload is a suffix of the original |
| Ocr.OcrRoute.constructor | server/src/routes/ocr.ts:13 | the cache starts empty |
| Ocr.OcrRoute.Post | server/src/routes/ocr.ts:59-129 | no payload is a 400; a live cache entry is served as cached; a failed fetch is a 400; otherwise the recognised text is trimmed, cached for a day from completion and served, or the engine's error becomes the empty fallback; the cache changes only on a fresh success |
| Ocr.SharedPrefixSameKey | server/src/routes/ocr.ts:18 | two base64 payloads that agree on their first 200 characters share a cache entry |
| Ocr.KeyKindsDistinct | server/src/routes/ocr.ts:16-20 | URL keys, base64 keys and the empty key never collide |
| Ocr.StripsDataHeader | server/src/routes/ocr.ts:86 | a data URL header is removed and the payload after it is kept |
| Ocr.LongestFrom | server/src/routes/ocr.ts:86 | the greedy match ends at the last header end in the searched range |
| Ocr.PlainPayloadKept | server/src/routes/ocr.ts:86 | a payload not starting with "data:" is left unchanged |
| Ocr.CachedForADay | server/src/routes/ocr.ts:66-73 | a second request with the same payload within a day is served from the cache with the first answer's text |
| SettingsProvider.ThemeOf | src/SettingsProvider.tsx:87 | only the exact strings "light" and "dark" change the theme; anything else keeps the current one |
| SettingsProvider.AutoSaveOf | src/SettingsProvider.tsx:88 | a stored value turns auto-save on exactly when it is "1"; a missing one keeps the current setting |
| SettingsProvider.SensitivityOf | src/SettingsProvider.tsx:89 | a stored number is clamped into 0..100 and an in-range one is taken as is; a missing or non-numeric one keeps the current value |
| SettingsProvider.RiskOf | src/SettingsProvider.tsx:92 | a stored risk filter is taken exactly when it names one of the four filters |
| SettingsProvider.SortOf | src/SettingsProvider.tsx:93-94 | a stored sort mode is taken exactly when it names one of the four modes |
| SettingsProvider.Settings.constructor | src/SettingsProvider.tsx:57-65 | a new provider holds the defaults and is not hydrated |
| SettingsProvider.Settings.Hydrate | src/SettingsProvider.tsx:68-99 | the stored strings are applied by the rules above, the provider is hydrated even when reading fails, and storage then holds the encoded values |
| SettingsProvider.Settings.Set | src/SettingsProvider.tsx:101-120 | a changed value is held and written back as text |
| SettingsProvider.Settings.Reset | src/SettingsProvider.tsx:122-129 | every value returns to its default, which is written back |
| SettingsProvider.DecodeInRange | src/SettingsProvider.tsx:89 | hydration keeps the sensitivity within 0..100 |
| SettingsProvider.DecodeNothing | src/SettingsProvider.tsx:87-94 | with nothing stored, hydration changes nothing |
| SettingsProvider.EncodeThenDecode | src/SettingsProvider.tsx:87-120 | what the persist effects write reads back as the same preferences on the next start |
| SettingsProvider.RiskNameRead | src/SettingsProvider.tsx:92 | each risk filter's name reads back as that filter |
| SettingsProvider.SortNameRead | src/SettingsProvider.tsx:93-94 | each sort mode's name reads back as that mode |
| SettingsProvider.CaseMatters | src/SettingsProvider.tsx:87-94 | "Dark", "High" and "NEWEST" are not recognised: the comparison is case-sensitive |
| SettingsProvider.SensitivityClamped | src/SettingsProvider.tsx:89 | a stored integer n reads back as n clamped into 0..100, and the empty string as 0 |
| Seed.RiskNamed | server/src/seed/seed.ts:24 | a risk is named exactly by "low", "medium" or "high" |
| Seed.CoerceRisk | server/src/seed/seed.ts:22-29 | the risk is the one named by the trimmed, lower-cased input, and "low" otherwise |
| Seed.RegexBranchesDead | server/src/seed/seed.ts:25-27 | an input equal to "high" or "medium" ignoring case is already accepted by the trimmed comparison, so those regular-expression tests never decide |
| Seed.RegexImpliesTrimmed | server/src/seed/seed.ts:25-27 | an input the case-insensitive patterns accept is already accepted by the trimmed comparison |
| Seed.BlankToNull | server/src/seed/seed.ts:62-63 | a missing or blank url or notes field is null; otherwise it is trimmed and non-empty |
| Seed.Seeded | server/src/seed/seed.ts:50-69 | at most one job per row is created |
| Seed.Seed | server/src/seed/seed.ts:31-72 | without a CSV file nothing is created; otherwise the loop creates exactly the seeded jobs and counts them |
| Seed.SeededSnoc | server/src/seed/seed.ts:50-69 | each row adds its job when it has a title and a company, and nothing otherwise |
| Seed.SeededShape | server/src/seed/seed.ts:51-64 | every created job has a non-blank trimmed title and company and a url and notes that are null or non-blank and trimmed |
| Seed.SeededComplete | server/src/seed/seed.ts:50-69 | every row with a title and a company yields its job |
| Seed.SeededSound | server/src/seed/seed.ts:50-69 | every created job comes from a row with a title and a company |
| Seed.SeededAllKept | server/src/seed/seed.ts:50-69 | the count equals the number of rows exactly when no row is skipped |
| Seed.RiskNamedOf | server/src/seed/seed.ts:24 | each risk's name reads back as that risk |
| Seed.CoerceIgnoresCaseAndSpace | server/src/seed/seed.ts:23-24 | a risk name in any case with surrounding whitespace is read as that risk |
| Seed.PaddedWordRead | server/src/seed/seed.ts:23 | trimming and lower-casing a padded risk name gives the name |
| Seed.NameEnds | server/src/seed/seed.ts:24 | the risk names are non-empty and neither start nor end with whitespace |
| Seed.CoerceDefault | server/src/seed/seed.ts:28 | a missing risk, or text that cannot be a risk name, becomes "low" |
| Seed.UnnamedLength | server/src/seed/seed.ts:24 | a word whose length is not 3, 4 or 6 names no risk |
| Html.FirstMatch | src/lib/html.ts:6-8 | finds the first place at or after a position where a literal matches, ignoring case, as the lazy `[\s\S]*?` does |
| Html.ElementEnd | src/lib/html.ts:6-8 | a script, style or noscript element, when it starts the text, ends within it |
| Html.CloseTagIn | src/lib/html.ts:11 | a closing block tag at the start of the text is one of the listed names, in any case, and is measured exactly |
| Html.TagEnd | src/lib/html.ts:14 | a tag at the start of the text holds at least one character between its angle brackets |
| Html.HtmlToText | src/lib/html.ts:3-28 | the extracted text is trimmed and has no run of whitespace longer than one space |
| Html.ElementRemoved | src/lib/html.ts:6-8 | an element from its opening tag, with any attributes, to the first matching closing tag in any case becomes one space |
| Html.BlockCloseBreaks | src/lib/html.ts:11 | a closing block-level tag, in any case, becomes a line break |
| Html.TagReplaced | src/lib/html.ts:14 | any other tag becomes one space |
| Html.StripTagsNoClose | src/lib/html.ts:14 | text without a closing angle bracket passes tag stripping unchanged |
| Html.StripTagsNoOpen | src/lib/html.ts:14 | text without an opening angle bracket passes tag stripping unchanged |
| Html.NoTagLeft | src/lib/html.ts:14 | after stripping no tag is left anywhere in the text |
| Html.DecodeNoAmp | src/lib/html.ts:17-23 | text without an ampersand passes entity decoding unchanged |
| Html.AmpDecodedFirst | src/lib/html.ts:18-22 | as "&amp;" is decoded before "&lt;", the escaped text "&amp;lt;" decodes twice, to "<" |
| Html.PlainTextKept | src/lib/html.ts:3-28 | trimmed plain text with single spaces and no markup or entities is returned unchanged |
| UrlTools.NormalizeUrl | src/lib/urlTools.ts:10-14 | the result is trimmed and starts with http:// or https://; a trimmed input that already does is kept, any other gets https:// in front |
| UrlTools.GetDomain | src/lib/urlTools.ts:16-22 | the domain is the lower-cased host name of the normalised URL, and missing exactly when the URL cannot be parsed |
| UrlTools.LikelyUrlShape | src/lib/urlTools.ts:2-8 | the empty input is never a URL, and an accepted input trims to text without whitespace |
| UrlTools.LikelyUrlIgnoresPadding | src/lib/urlTools.ts:2-8 | surrounding whitespace does not change the verdict |
| UrlTools.BareHostIsUrl | src/lib/urlTools.ts:2-8 | any bare host, one label of letters, digits and hyphens, a dot and a top-level label of two or more letters, is accepted |
| UrlTools.UrlHasDot | src/lib/urlTools.ts:2-8 | every accepted input holds a dot followed by two letters, so any name without a dot is refused |
| UrlTools.MatchHasNoSpace | src/lib/urlTools.ts:7 | nothing the pattern accepts holds whitespace |
| UrlTools.NormalizeIdempotent | src/lib/urlTools.ts:10-14 | normalising twice is normalising once |
| UrlTools.DomainOfNormalized | src/lib/urlTools.ts:16-22 | the domain of a URL is the same whether or not it was normalised first |
| DomainAge.FirstRegistration | src/lib/domainAge.ts:15-20 | finds the first event whose action is "registration" in any case and that has a date |
| DomainAge.Dates | src/lib/domainAge.ts:22-24 | the dates are exactly the non-empty dates of the events |
| DomainAge.Earliest | src/lib/domainAge.ts:25-26 | no date only for no candidates; otherwise a candidate no other is earlier than, the first such, as the stable sort keeps |
| DomainAge.ParseCreated | src/lib/domainAge.ts:11-29 | the loop returns the first registration date, else the earliest date, and nothing for a non-array |
| DomainAge.AgeDays | src/lib/domainAge.ts:52 | the age is the number of whole days elapsed, rounded down |
| DomainAge.GetDomainAge | src/lib/domainAge.ts:31-66 | the domain is trimmed and lower-cased; a failed or non-OK request, no creation date or an unparseable one gives the domain alone; otherwise the ISO creation date, the age in days and a non-empty registry |
| DomainAge.CreatedNotEmpty | src/lib/domainAge.ts:11-29 | a chosen creation date is never empty |
| DomainAge.RegistrationWins | src/lib/domainAge.ts:15-20 | the first dated registration event decides, whatever the case of its action |
| DomainAge.EarliestFallback | src/lib/domainAge.ts:21-27 | without a registration event the date is one of the given dates and no dated event is earlier; there is none exactly when no event has a date |
| DomainAge.NoEvents | src/lib/domainAge.ts:12 | a non-array or empty event list gives no date |
| DomainAge.DomainNormalised | src/lib/domainAge.ts:32 | the domain in every answer is trimmed and has no upper-case letter |
| DomainAge.AgeRoundsDown | src/lib/domainAge.ts:52 | a creation one millisecond ahead of the clock is day -1; the age turns 1 at exactly one day |
| EditJobModal.Optional | src/components/EditJobModal.tsx:77-80 | a blank field is null; any other is trimmed and non-empty |
| EditJobModal.Save | src/components/EditJobModal.tsx:69-81 | pressing Save yields nothing exactly when the button is disabled, and the payload otherwise |
| EditJobModal.SavedShape | src/components/EditJobModal.tsx:72-81 | a saved payload has a non-blank trimmed title and company, the form's risk, and optional fields null or non-blank and trimmed |
| EditJobModal.DisabledIffBlank | src/components/EditJobModal.tsx:69 | Save is disabled exactly when the title or the company is blank |
| EditJobModal.ScoreRead | src/components/EditJobModal.tsx:76 | an integer score reads back as itself; text that is not a number is read as 0 |
| EditJobModal.ReopenAndSave | src/components/EditJobModal.tsx:47-81 | opening a saved payload for editing and saving it unchanged gives the same payload |
| EditJobModal.OptionalOfNormal | src/components/EditJobModal.tsx:59-66 | a field in saved form reads back as itself |
| EditJobModal.NewFormDisabled | src/components/EditJobModal.tsx:47-54 | a new job starts from an empty form whose Save is disabled |

## Left out

Library and platform behaviour:

- Regular expressions of the rule tables (`riskRules.ts`, `analyzer.ts`, `AddContentScreen.tsx`, `scoring.ts`, `security.ts`) are oracle parameters: the JavaScript regex engine is not modelled, only what each pattern is guaranteed to match.
- RiskRules.FindAll: requires a matcher whose matches lie inside the text, start at or after the search position and are non-empty; every pattern of the table holds a literal, and the `exec` loop would not end on an empty match.
- `normalize` and `stripDiacritics` in `riskRules.ts` are left abstract: Unicode normalisation is outside Dafny's strings.
- Strings are sequences of Unicode characters, and `|s|` counts characters. JavaScript's `.length`, `.slice`, `.substring` and Zod's `.min(n)`/`.max(n)` count UTF-16 code units, and a character outside the Basic Multilingual Plane (an emoji, say) is two code units. For text made only of such characters, each bound below is reached at half the length the source allows, so the model accepts text the source refuses and never splits a surrogate pair. The members affected:
- Validation.Text: the min and max bounds (for example the 200 of the title) count characters, not UTF-16 code units.
- Validation.Loose: the max bound counts characters, not UTF-16 code units.
- Validation.SearchField: the 200 bound after trimming counts characters, not UTF-16 code units.
- Analytics.Truncate: `substring(0, 100)` keeps 100 characters here, where the source keeps 100 code units and may cut a surrogate pair in half.
- AddContent.PreviewOf: `slice(0, n)` cuts at `n` characters here, not `n` code units.
- Ocr.MakeCacheKey: the `slice(0, 200)` of the base64 payload takes 200 characters. Base64 text is ASCII, so this agrees with the source on every valid payload.
- RiskRules.SnippetAroundSpec: the window of `snippetAround`, `pad` positions on either side of a hit, is measured in characters, not code units.
- Case mapping is ASCII only: `toLowerCase` and `toUpperCase` on other letters are the identity here, where JavaScript maps all of Unicode.
- Numbers are integers. `Number(s)` is read only on integer text; decimals, exponents, hexadecimal and `Infinity` read as not-a-number. `Math.round((s - 50) / 2)` is the exact integer form `(s - 49) / 2`, since halves are exact doubles. `Math.round(r * 0.7)` is written out for integer sums: the exact form `(7r + 5) / 10`, except at 45 and 85, where the double product lies just below the half and rounds down; above 142 the cap of 100 decides.
- `JSON.parse` and `JSON.stringify` are a JSON value datatype: text, whitespace and key order of the serialised form are not modelled.
- The `URL` constructor, `Date` parsing, `toISOString` and `Date.now` are parameters of the operations that use them.
- Zod's internals are not modelled: email, url, cuid and domain format checks are oracles.
- The `parseInt` not-a-number edge of `paginationSchema` is left out: page and limit are stated for numeric strings only.
- `Object.entries` order in `sanitizeParams` and `sanitizeForLogging` is not modelled: parameters are maps.

Effects, time and concurrency:

- Storage, HTTP and database calls are I/O: AsyncStorage reads are given as their outcome, and writes are the stored value the state holds afterwards.
- `saveJobs`, `clearJobs` and the `usePersistedState` hook of `persist.ts` are plain storage writes with nothing to state beyond the value written.
- `updatedAt`, random ids and the `Date.now()` fallback of `createdAt` are parameters: the clock and the random source are not modelled.
- Asynchrony is left out: every `await` runs to completion before the next call, and React effects run in the order the state changes.
- SettingsProvider.Settings.constructor: the persist effects' first write of the defaults on mount, before hydration finishes, is not modelled.
- The `setInterval` that schedules `cleanupRateLimitStore`, and the `express-rate-limit` limiter configurations, are scheduling and library glue.
- `asyncHandler` and the `unhandledRejection`/`uncaughtException` process handlers of `errorHandler.ts` are runtime wiring.
- The helmet configuration, `trustProxy` and the random part of `generateRequestId` in `security.ts` are library glue and randomness; the request id is a parameter.
- `whoisQuerySchema` and `jobIdSchema` in `validation.ts` are format checks only (a domain regex and a cuid) with no rule beyond the oracle.
- Ocr.OcrRoute.Post: the average word confidence (a float rounded to two decimals) is given by the engine, non-string payload fields are not modelled, and the `ensureWorker` spin-wait is concurrency.
- Analytics.AnalyticsService.Initialize: replayed events go through `trackEvent` before the queue is cleared; as initialisation has already set the flag they are sent, not queued again, so the model sends them and empties the queue in one step.
- The other `track*` wrappers of `analytics.ts` (screen view, screenshot analysis, job saved or deleted, setting and theme changes, database filter) only pass fixed parameters to `trackEvent`; `setUserProperties` only logs. `Platform.OS` is a parameter.
- Seed.Seed: CSV parsing, file access and the Prisma insert are I/O; rows come in already split into fields.
- DomainAge.GetDomainAge: the registrar name taken from the RDAP `entities` vCard is given with the response; a timeout is one of the thrown outcomes; the comparator of the date sort is a total order, while `new Date` of invalid text yields NaN, which JavaScript's sort treats inconsistently.
- Non-string event dates: an RDAP event's `eventDate` is kept only when it is a string; the source also takes a truthy non-string `eventDate` as a date and hands it to `new Date`, which the model does not represent.
- EditJobModal.ScoreOf: a fractional, exponent or hexadecimal score is read as 0, where `Number` would read it; the reset effect that refills the form is the form built from the initial values.
- `analyzeScreenshot` in `AddContentScreen.tsx` calls the stub OCR and is not modelled.
- SavedItemsProvider.ValidRecords: a valid record is stored as its typed fields, so a `flags` array holding non-strings loses those entries, where the source stores the raw object.
- The Android Flipper initializer, the UI components, the API client, the Prisma routes, `verify.ts` (float weights), the logger and the crash reporter are outside this model.

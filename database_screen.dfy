/**
 * The list pipeline of `src/screens/DatabaseScreen.tsx`: every job is scored,
 * the rows are filtered by risk and by a search query, and the rest are sorted
 * riskiest first.
 */
module DatabaseScreen {
  import opened Common
  import opened JsText
  import opened Sorting
  import Scoring
  import SavedItemsProvider
  import opened UseJobs

  /** One list row: a job and its score. */
  datatype Row = Row(j: Job, s: Scoring.ScoreResult)

  function RowScore(r: Row): int { r.s.score }

  /** `j.url ?? undefined`: both `null` and a missing value become absent. */
  function OrUndefined(v: Nullable): (r: Option<string>)
    ensures r.Some? <==> v.Str?
    ensures v.Str? ==> r.value == v.s
  {
    match v
    case Str(s) => Some(s)
    case _ => None
  }

  /** `toScoreInput(j)` */
  function ToScoreInput(j: Job): (r: Scoring.ScoreInput)
    ensures r.title == j.title && r.company == j.company && r.risk == Some(j.risk)
    ensures (r.url.None? <==> !j.url.Str?) && (r.notes.None? <==> !j.notes.Str?)
    ensures j.url.Str? ==> r.url == Some(j.url.s)
    ensures j.notes.Str? ==> r.notes == Some(j.notes.s)
  {
    Scoring.ScoreInput(j.title, j.company, OrUndefined(j.url), OrUndefined(j.notes), Some(j.risk))
  }

  /** `xs.filter(p)` */
  function Filter<T>(xs: seq<T>, p: T -> bool): (r: seq<T>)
    ensures |r| <= |xs|
    ensures forall i :: 0 <= i < |r| ==> p(r[i])
  {
    if xs == [] then [] else (if p(xs[0]) then [xs[0]] else []) + Filter(xs[1..], p)
  }

  /** Filtering keeps every element that passes, as often as it occurs, and nothing else. */
  lemma {:induction false} FilterCount<T>(xs: seq<T>, p: T -> bool, x: T)
    ensures multiset(Filter(xs, p))[x] == if p(x) then multiset(xs)[x] else 0
    decreases |xs|
  {
    if xs != [] {
      FilterCount(xs[1..], p, x);
      assert xs == [xs[0]] + xs[1..];
    }
  }

  /** `filter === "all" ? true : j.risk === filter`; `None` is "all". */
  predicate RiskPasses(filter: Option<Scoring.Severity>, r: Row) {
    filter.None? || r.j.risk == filter.value
  }

  /** The query as used: `search.trim().toLowerCase()`. */
  function Query(search: string): string {
    ToLower(Trim(search))
  }

  /** `q ? `${title} ${company}`.toLowerCase().includes(q) : true` */
  predicate SearchPasses(q: string, r: Row) {
    q == [] || Contains(ToLower(r.j.title + " " + r.j.company), q)
  }

  function ScoredRows(items: seq<Job>, d: Scoring.Detectors): (r: seq<Row>)
    ensures |r| == |items|
    ensures forall i :: 0 <= i < |items| ==> r[i] == Row(items[i], Scoring.ScoreOf(ToScoreInput(items[i]), d))
  {
    seq(|items|, i requires 0 <= i < |items| => Row(items[i], Scoring.ScoreOf(ToScoreInput(items[i]), d)))
  }

  /** The `data` memo: map, filter by risk, filter by search, sort by score descending. */
  function Data(items: seq<Job>, search: string, filter: Option<Scoring.Severity>, d: Scoring.Detectors): seq<Row> {
    var q := Query(search);
    var rows := Filter(Filter(ScoredRows(items, d), r => RiskPasses(filter, r)), r => SearchPasses(q, r));
    SortDesc(rows, RowScore)
  }

  // ---------------------------------------------------------------- properties

  /**
   * The rows come riskiest first; a row appears exactly as often as its job's
   * scored row passes both filters, so every row is an input job with its own
   * score and none is repeated or lost.
   */
  lemma DataSpec(items: seq<Job>, search: string, filter: Option<Scoring.Severity>, d: Scoring.Detectors, x: Row)
    ensures SortedDesc(Data(items, search, filter, d), RowScore)
    ensures multiset(Data(items, search, filter, d))[x] ==
      if RiskPasses(filter, x) && SearchPasses(Query(search), x) then multiset(ScoredRows(items, d))[x] else 0
  {
    var q := Query(search);
    var rows0 := ScoredRows(items, d);
    var rows1 := Filter(rows0, r => RiskPasses(filter, r));
    var rows2 := Filter(rows1, r => SearchPasses(q, r));
    SortDescSorted(rows2, RowScore);
    FilterCount(rows0, r => RiskPasses(filter, r), x);
    FilterCount(rows1, r => SearchPasses(q, r), x);
  }

  /** Every row shown pairs a listed job with that job's score. */
  lemma DataRows(items: seq<Job>, search: string, filter: Option<Scoring.Severity>, d: Scoring.Detectors, i: nat)
    requires i < |Data(items, search, filter, d)|
    ensures var x := Data(items, search, filter, d)[i];
      x.j in items && x.s == Scoring.ScoreOf(ToScoreInput(x.j), d) &&
      RiskPasses(filter, x) && SearchPasses(Query(search), x)
  {
    var x := Data(items, search, filter, d)[i];
    assert x in multiset(Data(items, search, filter, d));
    DataSpec(items, search, filter, d, x);
    assert x in ScoredRows(items, d);
  }

  /** With filter "all" and a blank query, every job is listed. */
  lemma {:induction false} NoFilterKeepsAll(items: seq<Job>, search: string, d: Scoring.Detectors)
    requires AllSpace(search)
    ensures |Data(items, search, None, d)| == |items|
  {
    TrimEmptyIffBlank(search);
    var rows0 := ScoredRows(items, d);
    FilterAll(rows0, r => RiskPasses(None, r));
    FilterAll(rows0, r => SearchPasses(Query(search), r));
  }

  lemma {:induction false} FilterAll<T>(xs: seq<T>, p: T -> bool)
    requires forall x :: x in xs ==> p(x)
    ensures Filter(xs, p) == xs
    decreases |xs|
  {
    if xs != [] {
      FilterAll(xs[1..], p);
    }
  }
}

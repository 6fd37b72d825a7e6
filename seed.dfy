/**
 * The CSV seeding script `server/src/seed/seed.ts`: each parsed row becomes a
 * job unless its title or company is blank, blank url/notes become null, and
 * the risk column is coerced to low/medium/high. The CSV parser and the
 * database are left to their libraries; the rows and the created records are
 * values here.
 */
module Seed {
  import opened Common
  import opened JsText
  import Scoring

  type Risk = Scoring.Severity

  /** A parsed CSV row; the ignored legacy columns are not kept. */
  datatype Row = Row(title: Option<string>, company: Option<string>, url: Option<string>,
                     notes: Option<string>, risk: Option<string>)

  /** The `data` of one `prisma.job.create` call. */
  datatype JobData = JobData(title: string, company: string, url: Option<string>, notes: Option<string>, risk: Risk)

  /** `/^word$/i.test(s)` for a lower-case ASCII word. */
  predicate IsWordIgnoringCase(s: string, word: string) {
    ToLower(s) == word
  }

  /** The risk a lower-case word names, if any. */
  function RiskNamed(v: string): (r: Option<Risk>)
    ensures r.Some? ==> Scoring.SeverityName(r.value) == v
    ensures r.None? ==> forall s :: Scoring.SeverityName(s) != v
  {
    if v == "high" then Some(Scoring.High)
    else if v == "medium" then Some(Scoring.Medium)
    else if v == "low" then Some(Scoring.Low)
    else None
  }

  /** `coerceRisk(input)`: the named risk of the trimmed, lower-cased input, else "low". */
  function CoerceRisk(input: Option<string>): (r: Risk)
    ensures r == RiskNamed(ToLower(Trim(input.GetOr("")))).GetOr(Scoring.Low)
  {
    var raw := input.GetOr("");
    var v := ToLower(Trim(raw));
    RegexBranchesDead(raw);
    if v == "high" then Scoring.High
    else if v == "medium" then Scoring.Medium
    else if v == "low" then Scoring.Low
    else if IsWordIgnoringCase(raw, "high") then Scoring.High
    else if IsWordIgnoringCase(raw, "medium") then Scoring.Medium
    else Scoring.Low
  }

  /**
   * The regex tests after the first test are dead: a string equal to a word
   * ignoring case has no whitespace at its ends, so the trimmed comparison
   * has already accepted it.
   */
  lemma RegexBranchesDead(raw: string)
    ensures IsWordIgnoringCase(raw, "high") ==> ToLower(Trim(raw)) == "high"
    ensures IsWordIgnoringCase(raw, "medium") ==> ToLower(Trim(raw)) == "medium"
  {
    if IsWordIgnoringCase(raw, "high") {
      NameEnds(Scoring.High);
      RegexImpliesTrimmed(raw, Scoring.SeverityName(Scoring.High));
    }
    if IsWordIgnoringCase(raw, "medium") {
      NameEnds(Scoring.Medium);
      RegexImpliesTrimmed(raw, Scoring.SeverityName(Scoring.Medium));
    }
  }

  /** A string equal to a word ignoring case is trimmed when the word is. */
  lemma RegexImpliesTrimmed(raw: string, word: string)
    requires ToLower(raw) == word && word != [] && !IsSpace(word[0]) && !IsSpace(word[|word| - 1])
    ensures ToLower(Trim(raw)) == word
  {
    assert LowerChar(raw[0]) == word[0];
    assert LowerChar(raw[|raw| - 1]) == word[|word| - 1];
    TrimOfTrimmed(raw);
  }

  /** `s?.trim() || null` */
  function BlankToNull(s: Option<string>): (r: Option<string>)
    ensures r.None? <==> s.None? || AllSpace(s.value)
    ensures r.Some? ==> r.value == Trim(s.value) && r.value != []
  {
    if s.None? then None
    else
      TrimEmptyIffBlank(s.value);
      if Trim(s.value) == [] then None else Some(Trim(s.value))
  }

  /** A row is skipped when its title or company is blank after trimming. */
  predicate Kept(row: Row) {
    Trim(row.title.GetOr("")) != [] && Trim(row.company.GetOr("")) != []
  }

  function JobOf(row: Row): JobData {
    JobData(Trim(row.title.GetOr("")), Trim(row.company.GetOr("")), BlankToNull(row.url), BlankToNull(row.notes),
      CoerceRisk(row.risk))
  }

  /** `xs.filter(keep).map(f)`: the loop's shape, for any row test and record builder. */
  function FilterMap<T, U>(xs: seq<T>, keep: T -> bool, f: T -> U): (r: seq<U>)
    ensures |r| <= |xs|
  {
    if xs == [] then []
    else (if keep(xs[0]) then [f(xs[0])] else []) + FilterMap(xs[1..], keep, f)
  }

  /** The records created for `rows`, in order. */
  function Seeded(rows: seq<Row>): (r: seq<JobData>)
    ensures |r| <= |rows|
  {
    FilterMap(rows, Kept, JobOf)
  }

  /**
   * The loop of `main`: blank rows are skipped, each other row creates a job
   * and is counted. `rows` is `None` when there is no seed file.
   */
  method Seed(rows: Option<seq<Row>>) returns (created: seq<JobData>, count: nat)
    ensures rows.None? ==> created == [] && count == 0
    ensures rows.Some? ==> created == Seeded(rows.value)
    ensures count == |created|
  {
    created := [];
    count := 0;
    if rows.None? {
      return;
    }
    var rs := rows.value;
    var i := 0;
    while i < |rs|
      invariant 0 <= i <= |rs|
      invariant created == Seeded(rs[..i])
      invariant count == |created|
    {
      var row := rs[i];
      var title := Trim(row.title.GetOr(""));
      var company := Trim(row.company.GetOr(""));
      SeededSnoc(rs, i);
      if title == [] || company == [] {
        i := i + 1;
        continue;
      }
      var job := JobData(title, company, BlankToNull(row.url), BlankToNull(row.notes), CoerceRisk(row.risk));
      assert Kept(row) && job == JobOf(row);
      created := created + [job];
      count := count + 1;
      i := i + 1;
    }
    assert rs[..i] == rs;
  }

  /** The records of a longer prefix are those of the shorter one and then the next row's. */
  lemma SeededSnoc(rs: seq<Row>, i: nat)
    requires i < |rs|
    ensures Seeded(rs[..i + 1]) == Seeded(rs[..i]) + (if Kept(rs[i]) then [JobOf(rs[i])] else [])
  {
    var x := [rs[i]];
    assert rs[..i + 1] == rs[..i] + x;
    FilterMapAppend(rs[..i], x, Kept, JobOf);
    assert x[0] == rs[i] && x[1..] == [];
    assert FilterMap(x, Kept, JobOf) == (if Kept(rs[i]) then [JobOf(rs[i])] else []) + FilterMap(x[1..], Kept, JobOf);
  }

  lemma {:induction false} FilterMapAppend<T, U>(a: seq<T>, b: seq<T>, keep: T -> bool, f: T -> U)
    ensures FilterMap(a + b, keep, f) == FilterMap(a, keep, f) + FilterMap(b, keep, f)
    decreases |a|
  {
    if a == [] {
      assert a + b == b;
    } else {
      var h := if keep(a[0]) then [f(a[0])] else [];
      var ab := a + b;
      assert ab[0] == a[0] && ab[1..] == a[1..] + b;
      assert FilterMap(ab, keep, f) == h + FilterMap(a[1..] + b, keep, f);
      FilterMapAppend(a[1..], b, keep, f);
      assert FilterMap(a, keep, f) == h + FilterMap(a[1..], keep, f);
      assert h + (FilterMap(a[1..], keep, f) + FilterMap(b, keep, f))
          == (h + FilterMap(a[1..], keep, f)) + FilterMap(b, keep, f);
    }
  }

  lemma {:induction false} FilterMapComplete<T, U>(xs: seq<T>, keep: T -> bool, f: T -> U, i: nat)
    requires i < |xs| && keep(xs[i])
    ensures f(xs[i]) in FilterMap(xs, keep, f)
    decreases |xs|
  {
    if i > 0 {
      FilterMapComplete(xs[1..], keep, f, i - 1);
      assert xs[1..][i - 1] == xs[i];
    }
  }

  lemma {:induction false} FilterMapSound<T, U>(xs: seq<T>, keep: T -> bool, f: T -> U, y: U)
    requires y in FilterMap(xs, keep, f)
    ensures exists i :: 0 <= i < |xs| && keep(xs[i]) && y == f(xs[i])
    decreases |xs|
  {
    if !(keep(xs[0]) && y == f(xs[0])) {
      FilterMapSound(xs[1..], keep, f, y);
      var i :| 0 <= i < |xs| - 1 && keep(xs[1..][i]) && y == f(xs[1..][i]);
      assert xs[i + 1] == xs[1..][i];
    }
  }

  lemma {:induction false} FilterMapAllKept<T, U>(xs: seq<T>, keep: T -> bool, f: T -> U)
    ensures |FilterMap(xs, keep, f)| == |xs| <==> forall i :: 0 <= i < |xs| ==> keep(xs[i])
    decreases |xs|
  {
    if xs != [] {
      var tail := xs[1..];
      FilterMapAllKept(tail, keep, f);
      if |FilterMap(xs, keep, f)| == |xs| {
        forall i | 1 <= i < |xs|
          ensures keep(xs[i])
        {
          assert xs[i] == tail[i - 1];
        }
      } else if keep(xs[0]) {
        var i :| 0 <= i < |tail| && !keep(tail[i]);
        assert xs[i + 1] == tail[i];
      }
    }
  }

  // ---------------------------------------------------------------- properties

  /** Every created job has a non-blank, trimmed title and company and a null or non-blank url and notes. */
  lemma SeededShape(rows: seq<Row>, j: JobData)
    requires j in Seeded(rows)
    ensures j.title != [] && IsTrimmed(j.title) && j.company != [] && IsTrimmed(j.company)
    ensures j.url.None? || (j.url.value != [] && IsTrimmed(j.url.value))
    ensures j.notes.None? || (j.notes.value != [] && IsTrimmed(j.notes.value))
  {
    SeededSound(rows, j);
    var i :| 0 <= i < |rows| && Kept(rows[i]) && j == JobOf(rows[i]);
    JobOfShape(rows[i]);
  }

  lemma JobOfShape(row: Row)
    requires Kept(row)
    ensures var j := JobOf(row);
      j.title != [] && IsTrimmed(j.title) && j.company != [] && IsTrimmed(j.company) &&
      (j.url.None? || (j.url.value != [] && IsTrimmed(j.url.value))) &&
      (j.notes.None? || (j.notes.value != [] && IsTrimmed(j.notes.value)))
  {
  }

  /** Every row with a title and a company yields its job. */
  lemma SeededComplete(rows: seq<Row>, i: nat)
    requires i < |rows| && Kept(rows[i])
    ensures JobOf(rows[i]) in Seeded(rows)
  {
    FilterMapComplete(rows, Kept, JobOf, i);
  }

  /** Every job comes from a row with a title and a company. */
  lemma SeededSound(rows: seq<Row>, j: JobData)
    requires j in Seeded(rows)
    ensures exists i :: 0 <= i < |rows| && Kept(rows[i]) && j == JobOf(rows[i])
  {
    FilterMapSound(rows, Kept, JobOf, j);
  }

  /** The count falls short of the number of rows exactly when some row is skipped. */
  lemma SeededAllKept(rows: seq<Row>)
    ensures |Seeded(rows)| == |rows| <==> forall i :: 0 <= i < |rows| ==> Kept(rows[i])
  {
    FilterMapAllKept(rows, Kept, JobOf);
  }

  lemma RiskNamedOf(r: Risk)
    ensures RiskNamed(Scoring.SeverityName(r)) == Some(r)
  {
    match r {
      case Low => assert |Scoring.SeverityName(r)| == 3;
      case Medium => assert |Scoring.SeverityName(r)| == 6;
      case High =>
    }
  }

  /** The risk column is read ignoring case and surrounding whitespace. */
  lemma CoerceIgnoresCaseAndSpace(pre: string, word: string, post: string, r: Risk)
    requires AllSpace(pre) && AllSpace(post) && ToLower(word) == Scoring.SeverityName(r)
    ensures CoerceRisk(Some(pre + word + post)) == r
  {
    PaddedWordRead(pre, word, post, r);
    RiskNamedOf(r);
  }

  lemma PaddedWordRead(pre: string, word: string, post: string, r: Risk)
    requires AllSpace(pre) && AllSpace(post) && ToLower(word) == Scoring.SeverityName(r)
    ensures ToLower(Trim(pre + word + post)) == Scoring.SeverityName(r)
  {
    TrimPadded(pre, word, post);
    NameEnds(r);
    RegexImpliesTrimmed(word, Scoring.SeverityName(r));
  }

  lemma NameEnds(r: Risk)
    ensures var name := Scoring.SeverityName(r); name != [] && !IsSpace(name[0]) && !IsSpace(name[|name| - 1])
  {
  }

  /** A missing risk, or a trimmed word of another length than the three names, is "low". */
  lemma CoerceDefault(v: string)
    requires IsTrimmed(v) && |v| != 3 && |v| != 4 && |v| != 6
    ensures CoerceRisk(None) == Scoring.Low
    ensures CoerceRisk(Some(v)) == Scoring.Low
  {
    assert ToLower(Trim("")) == "";
    TrimOfTrimmed(v);
    UnnamedLength(ToLower(Trim(v)));
  }

  lemma UnnamedLength(w: string)
    requires |w| != 3 && |w| != 4 && |w| != 6
    ensures RiskNamed(w) == None
  {
  }
}

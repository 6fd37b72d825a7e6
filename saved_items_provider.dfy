/**
 * The saved-analysis store of `src/store/savedItems.tsx`: a list of analyses held
 * as provider state, written to storage once hydration is over, with add, remove,
 * update, clear, and a JSON backup that can be exported and imported again,
 * replacing or merging.
 */
module SavedItemsProvider {
  import opened Common
  import opened Json
  import opened Keyed
  import opened Sorting
  import opened Verdicts
  import opened Unique

  datatype Source = TextSource | ImageSource

  /** An optional `string | null` field: absent, `null`, or a string. */
  datatype Nullable = Absent | Null | Str(s: string)

  datatype SavedAnalysis = SavedAnalysis(
    id: string,
    title: string,
    source: Source,
    inputPreview: Nullable,
    imageUri: Nullable,
    score: int,
    verdict: Verdict,
    flags: seq<string>,
    createdAt: int)

  /** `Partial<SavedAnalysis>`: the fields to overwrite. */
  datatype Patch = Patch(
    id: Option<string>,
    title: Option<string>,
    source: Option<Source>,
    inputPreview: Option<Nullable>,
    imageUri: Option<Nullable>,
    score: Option<int>,
    verdict: Option<Verdict>,
    flags: Option<seq<string>>,
    createdAt: Option<int>)

  function IdOf(x: SavedAnalysis): string { x.id }
  function CreatedAt(x: SavedAnalysis): int { x.createdAt }

  /** `{ ...x, ...partial }` */
  function Apply(x: SavedAnalysis, p: Patch): (r: SavedAnalysis)
    ensures p.title.None? ==> r.title == x.title
    ensures p.title.Some? ==> r.title == p.title.value
    ensures p.id.None? ==> r.id == x.id
    ensures p == Patch(None, None, None, None, None, None, None, None, None) ==> r == x
  {
    SavedAnalysis(
      p.id.GetOr(x.id), p.title.GetOr(x.title), p.source.GetOr(x.source),
      p.inputPreview.GetOr(x.inputPreview), p.imageUri.GetOr(x.imageUri),
      p.score.GetOr(x.score), p.verdict.GetOr(x.verdict), p.flags.GetOr(x.flags),
      p.createdAt.GetOr(x.createdAt))
  }

  // ---------------------------------------------------------------- JSON form

  function SourceName(s: Source): string {
    match s
    case TextSource => "text"
    case ImageSource => "image"
  }

  function NullableJson(m: map<string, Json>, key: string, v: Nullable): map<string, Json> {
    match v
    case Absent => m
    case Null => m[key := JNull]
    case Str(s) => m[key := JStr(s)]
  }

  function StrsJson(xs: seq<string>): (r: seq<Json>)
    ensures |r| == |xs| && forall i :: 0 <= i < |xs| ==> r[i] == JStr(xs[i])
  {
    seq(|xs|, i requires 0 <= i < |xs| => JStr(xs[i]))
  }

  /** The fields every analysis has. */
  function BaseFields(x: SavedAnalysis): map<string, Json> {
    map[
      "id" := JStr(x.id), "title" := JStr(x.title), "source" := JStr(SourceName(x.source)),
      "score" := JNum(x.score), "verdict" := JStr(VerdictName(x.verdict)),
      "flags" := JArr(StrsJson(x.flags)), "createdAt" := JNum(x.createdAt)]
  }

  /** An analysis as `JSON.stringify` writes it (an absent field has no key). */
  function ToJson(x: SavedAnalysis): Json {
    JObj(NullableJson(NullableJson(BaseFields(x), "inputPreview", x.inputPreview), "imageUri", x.imageUri))
  }

  function ParseVerdict(v: Option<Json>): Option<Verdict> {
    if v == Some(JStr("Low")) then Some(Low)
    else if v == Some(JStr("Medium")) then Some(Medium)
    else if v == Some(JStr("High")) then Some(High)
    else None
  }

  function ParseSource(v: Option<Json>): Option<Source> {
    if v == Some(JStr("text")) then Some(TextSource)
    else if v == Some(JStr("image")) then Some(ImageSource)
    else None
  }

  /** The quick validation `importJSON` applies to each incoming record. */
  predicate ValidRecord(x: Json) {
    Truthy(x) &&
    IsStr(Get(x, "id")) && IsStr(Get(x, "title")) &&
    ParseSource(Get(x, "source")).Some? &&
    IsNum(Get(x, "score")) &&
    ParseVerdict(Get(x, "verdict")).Some? &&
    IsArr(Get(x, "flags")) &&
    IsNum(Get(x, "createdAt"))
  }

  function ReadNullable(v: Option<Json>): Nullable {
    match v
    case Some(JNull) => Null
    case Some(JStr(s)) => Str(s)
    case _ => Absent
  }

  function Strings(es: seq<Json>): seq<string> {
    if es == [] then []
    else (if es[0].JStr? then [es[0].s] else []) + Strings(es[1..])
  }

  /** The record as the store holds it, once it has passed validation. */
  function FromJson(x: Json): SavedAnalysis
    requires ValidRecord(x)
  {
    SavedAnalysis(
      Get(x, "id").value.s, Get(x, "title").value.s,
      ParseSource(Get(x, "source")).value,
      ReadNullable(Get(x, "inputPreview")), ReadNullable(Get(x, "imageUri")),
      Get(x, "score").value.n, ParseVerdict(Get(x, "verdict")).value,
      Strings(Get(x, "flags").value.elems), Get(x, "createdAt").value.n)
  }

  lemma {:induction false} StringsOfStrs(xs: seq<string>)
    ensures Strings(StrsJson(xs)) == xs
    decreases |xs|
  {
    if xs != [] {
      assert StrsJson(xs)[1..] == StrsJson(xs[1..]);
      StringsOfStrs(xs[1..]);
    }
  }

  /** Where each field of an analysis lands in its JSON form. */
  lemma ToJsonFields(x: SavedAnalysis)
    ensures Get(ToJson(x), "id") == Some(JStr(x.id))
    ensures Get(ToJson(x), "title") == Some(JStr(x.title))
    ensures Get(ToJson(x), "source") == Some(JStr(SourceName(x.source)))
    ensures Get(ToJson(x), "score") == Some(JNum(x.score))
    ensures Get(ToJson(x), "verdict") == Some(JStr(VerdictName(x.verdict)))
    ensures Get(ToJson(x), "flags") == Some(JArr(StrsJson(x.flags)))
    ensures Get(ToJson(x), "createdAt") == Some(JNum(x.createdAt))
  {
    BaseFieldsHeld(x);
    BaseFieldsKept(x);
  }

  lemma BaseFieldsHeld(x: SavedAnalysis)
    ensures var m := BaseFields(x);
      "id" in m && m["id"] == JStr(x.id) && "title" in m && m["title"] == JStr(x.title) &&
      "source" in m && m["source"] == JStr(SourceName(x.source)) && "score" in m && m["score"] == JNum(x.score) &&
      "verdict" in m && m["verdict"] == JStr(VerdictName(x.verdict)) &&
      "flags" in m && m["flags"] == JArr(StrsJson(x.flags)) && "createdAt" in m && m["createdAt"] == JNum(x.createdAt)
  {
  }

  /** The optional fields are added under keys of their own, so every base field survives them. */
  lemma BaseFieldsKept(x: SavedAnalysis)
    ensures forall k :: k in BaseFields(x) ==> Get(ToJson(x), k) == Some(BaseFields(x)[k])
  {
    var m := BaseFields(x);
    var m1 := NullableJson(m, "inputPreview", x.inputPreview);
    assert "inputPreview" !in m && "imageUri" !in m1;
    OptionalKey(m, "inputPreview", x.inputPreview);
    OptionalKey(m1, "imageUri", x.imageUri);
  }

  /** The two optional fields read back as they were: absent, null or a string. */
  lemma ToJsonNullables(x: SavedAnalysis)
    ensures ReadNullable(Get(ToJson(x), "inputPreview")) == x.inputPreview
    ensures ReadNullable(Get(ToJson(x), "imageUri")) == x.imageUri
  {
    var m := BaseFields(x);
    var m1 := NullableJson(m, "inputPreview", x.inputPreview);
    var m2 := NullableJson(m1, "imageUri", x.imageUri);
    assert ToJson(x).fields == m2;
    OptionalKey(m, "inputPreview", x.inputPreview);
    OptionalKey(m1, "imageUri", x.imageUri);
  }

  /** Adding an optional field keeps the others and reads back as itself. */
  lemma OptionalKey(m: map<string, Json>, key: string, v: Nullable)
    requires key !in m
    ensures forall k :: k in m ==> k in NullableJson(m, key, v) && NullableJson(m, key, v)[k] == m[k]
    ensures forall k :: k in NullableJson(m, key, v) ==> k in m || k == key
    ensures ReadNullable(Get(JObj(NullableJson(m, key, v)), key)) == v
  {
  }

  lemma ParseSourceName(s: Source)
    ensures ParseSource(Some(JStr(SourceName(s)))) == Some(s)
  {
  }

  lemma ParseVerdictName(v: Verdict)
    ensures ParseVerdict(Some(JStr(VerdictName(v)))) == Some(v)
  {
  }

  /** Every analysis passes the import validation and reads back unchanged. */
  lemma JsonRoundTrip(x: SavedAnalysis)
    ensures ValidRecord(ToJson(x)) && FromJson(ToJson(x)) == x
  {
    ToJsonFields(x);
    ToJsonNullables(x);
    StringsOfStrs(x.flags);
    ParseSourceName(x.source);
    ParseVerdictName(x.verdict);
    var j := ToJson(x);
    assert Truthy(j);
    assert ValidRecord(j);
    var y := FromJson(j);
    assert y.id == x.id && y.title == x.title && y.source == x.source;
    assert y.inputPreview == x.inputPreview && y.imageUri == x.imageUri;
    assert y.score == x.score && y.verdict == x.verdict;
    assert y.flags == x.flags && y.createdAt == x.createdAt;
  }

  /** The records `importJSON` looks at: `.items` if that is an array, else the array itself. */
  function Incoming(parsed: Json): seq<Json> {
    if IsArr(Get(parsed, "items")) then Get(parsed, "items").value.elems
    else if parsed.JArr? then parsed.elems
    else []
  }

  function ValidItems(xs: seq<Json>): (r: seq<SavedAnalysis>)
    ensures |r| <= |xs|
  {
    if xs == [] then []
    else
      var n := |xs| - 1;
      ValidItems(xs[..n]) + (if ValidRecord(xs[n]) then [FromJson(xs[n])] else [])
  }

  /** Every record that passes the test is kept, converted. */
  lemma {:induction false} ValidItemsComplete(xs: seq<Json>, i: nat)
    requires i < |xs| && ValidRecord(xs[i])
    ensures FromJson(xs[i]) in ValidItems(xs)
    decreases |xs|
  {
    var n := |xs| - 1;
    if i < n {
      ValidItemsComplete(xs[..n], i);
      assert xs[..n][i] == xs[i];
    }
  }

  /** Every kept item is some record that passes the test, converted. */
  lemma {:induction false} ValidItemsSound(xs: seq<Json>, y: SavedAnalysis)
    requires y in ValidItems(xs)
    ensures exists i :: 0 <= i < |xs| && ValidRecord(xs[i]) && y == FromJson(xs[i])
    decreases |xs|
  {
    var n := |xs| - 1;
    if !(ValidRecord(xs[n]) && y == FromJson(xs[n])) {
      ValidItemsSound(xs[..n], y);
      var i :| 0 <= i < n && ValidRecord(xs[..n][i]) && y == FromJson(xs[..n][i]);
      assert xs[i] == xs[..n][i];
    }
  }

  /** How many records fail the test. */
  function InvalidCount(xs: seq<Json>): nat {
    if xs == [] then 0 else (if ValidRecord(xs[0]) then 0 else 1) + InvalidCount(xs[1..])
  }

  /** The records the filter drops are exactly the ones failing the test. */
  lemma {:induction false} ValidItemsSkipped(xs: seq<Json>)
    ensures |xs| - |ValidItems(xs)| == InvalidCount(xs)
    decreases |xs|
  {
    if xs != [] {
      var n := |xs| - 1;
      ValidItemsSkipped(xs[..n]);
      InvalidCountSnoc(xs[..n], xs[n]);
      assert xs[..n] + [xs[n]] == xs;
    }
  }

  lemma {:induction false} InvalidCountSnoc(xs: seq<Json>, x: Json)
    ensures InvalidCount(xs + [x]) == InvalidCount(xs) + (if ValidRecord(x) then 0 else 1)
    decreases |xs|
  {
    if xs != [] {
      InvalidCountSnoc(xs[1..], x);
      assert (xs + [x])[1..] == xs[1..] + [x];
    }
  }

  /** `map.set(x.id, x)`: overwrite the entry with that id in place, or append. */
  function MapSet(entries: seq<SavedAnalysis>, x: SavedAnalysis): seq<SavedAnalysis> {
    if entries == [] then [x]
    else if entries[0].id == x.id then [x] + entries[1..]
    else [entries[0]] + MapSet(entries[1..], x)
  }

  /** The entries of a map with distinct ids after `set`: one more key at most, still distinct. */
  ghost predicate SetOutcome(entries: seq<SavedAnalysis>, x: SavedAnalysis, r: seq<SavedAnalysis>) {
    (|r| == if KeyIn(entries, IdOf, x.id) then |entries| else |entries| + 1) &&
    (forall k :: KeyIn(r, IdOf, k) <==> KeyIn(entries, IdOf, k) || k == x.id) &&
    (forall i :: 0 <= i < |r| ==> r[i] == x || (r[i] in entries && r[i].id != x.id)) &&
    DistinctKeys(r, IdOf)
  }

  lemma DistinctTail(xs: seq<SavedAnalysis>)
    requires xs != [] && DistinctKeys(xs, IdOf)
    ensures DistinctKeys(xs[1..], IdOf) && !KeyIn(xs[1..], IdOf, xs[0].id)
  {
    forall i, j | 0 <= i < j < |xs[1..]| ensures IdOf(xs[1..][i]) != IdOf(xs[1..][j]) {
      assert xs[1..][i] == xs[i + 1] && xs[1..][j] == xs[j + 1];
    }
    forall i | 0 <= i < |xs[1..]| ensures IdOf(xs[1..][i]) != xs[0].id {
      assert xs[1..][i] == xs[i + 1];
    }
  }

  /** The ids of `[y] + t` are `y`'s and those of `t`. */
  lemma KeysOfCons(y: SavedAnalysis, t: seq<SavedAnalysis>)
    ensures forall k :: KeyIn([y] + t, IdOf, k) <==> y.id == k || KeyIn(t, IdOf, k)
  {
    var r := [y] + t;
    forall k | KeyIn(r, IdOf, k) && y.id != k ensures KeyIn(t, IdOf, k) {
      var i :| 0 <= i < |r| && IdOf(r[i]) == k;
      assert t[i - 1] == r[i];
    }
    forall k | KeyIn(t, IdOf, k) ensures KeyIn(r, IdOf, k) {
      var i :| 0 <= i < |t| && IdOf(t[i]) == k;
      assert r[i + 1] == t[i];
    }
    assert IdOf(r[0]) == y.id;
  }

  lemma SetHead(entries: seq<SavedAnalysis>, x: SavedAnalysis)
    requires DistinctKeys(entries, IdOf) && entries != [] && entries[0].id == x.id
    ensures SetOutcome(entries, x, MapSet(entries, x))
  {
    var r := MapSet(entries, x);
    assert r == [x] + entries[1..];
    DistinctTail(entries);
    KeysOfCons(x, entries[1..]);
    KeysOfCons(entries[0], entries[1..]);
    assert entries == [entries[0]] + entries[1..];
    assert KeyIn(entries, IdOf, x.id) by { assert IdOf(entries[0]) == x.id; }
    forall i | 0 < i < |r| ensures r[i] in entries && r[i].id != x.id {
      assert r[i] == entries[i];
      assert IdOf(entries[0]) != IdOf(entries[i]);
    }
    forall i, j | 0 <= i < j < |r| ensures IdOf(r[i]) != IdOf(r[j]) {
      assert IdOf(entries[i]) != IdOf(entries[j]);
    }
  }

  lemma {:induction false} MapSetSpec(entries: seq<SavedAnalysis>, x: SavedAnalysis)
    requires DistinctKeys(entries, IdOf)
    ensures SetOutcome(entries, x, MapSet(entries, x))
    decreases |entries|
  {
    if entries == [] {
      assert IdOf([x][0]) == x.id;
    } else if entries[0].id == x.id {
      SetHead(entries, x);
    } else {
      DistinctTail(entries);
      MapSetSpec(entries[1..], x);
      SetCons(entries, x, MapSet(entries[1..], x));
    }
  }

  /** Setting a key the head lacks: the head stays in front of the updated tail. */
  lemma SetCons(entries: seq<SavedAnalysis>, x: SavedAnalysis, t: seq<SavedAnalysis>)
    requires entries != [] && entries[0].id != x.id
    requires DistinctKeys(entries, IdOf) && !KeyIn(entries[1..], IdOf, entries[0].id)
    requires SetOutcome(entries[1..], x, t)
    ensures SetOutcome(entries, x, [entries[0]] + t)
  {
    var r := [entries[0]] + t;
    KeysOfCons(entries[0], t);
    KeysOfCons(entries[0], entries[1..]);
    assert entries == [entries[0]] + entries[1..];
    forall i | 0 < i < |r| ensures r[i] == x || (r[i] in entries && r[i].id != x.id) {
      assert r[i] == t[i - 1];
      assert forall y :: y in entries[1..] ==> y in entries;
    }
    forall i, j | 0 <= i < j < |r| ensures IdOf(r[i]) != IdOf(r[j]) {
      assert r[j] == t[j - 1];
      if i == 0 {
        assert KeyIn(t, IdOf, IdOf(r[j])) by { assert IdOf(t[j - 1]) == IdOf(r[j]); }
      } else {
        assert r[i] == t[i - 1];
      }
    }
  }

  /** The `Map` built from the current items: one entry per id, the last item with that id. */
  function MapOf(xs: seq<SavedAnalysis>): (r: seq<SavedAnalysis>)
    ensures DistinctKeys(r, IdOf)
    ensures forall k :: KeyIn(r, IdOf, k) <==> KeyIn(xs, IdOf, k)
    ensures forall i :: 0 <= i < |r| ==> r[i] in xs
  {
    if xs == [] then []
    else
      var n := |xs| - 1;
      var p := MapOf(xs[..n]);
      KeysOfSnoc(xs);
      assert forall y :: y in xs[..n] ==> y in xs;
      MapSetSpec(p, xs[n]);
      MapSet(p, xs[n])
  }

  lemma {:induction false} MapSetAbsent(entries: seq<SavedAnalysis>, x: SavedAnalysis)
    requires DistinctKeys(entries, IdOf) && !KeyIn(entries, IdOf, x.id)
    ensures MapSet(entries, x) == entries + [x]
    decreases |entries|
  {
    if entries != [] {
      assert IdOf(entries[0]) != x.id;
      assert !KeyIn(entries[1..], IdOf, x.id) by {
        forall i | 0 <= i < |entries[1..]| ensures IdOf(entries[1..][i]) != x.id {
          assert entries[1..][i] == entries[i + 1];
        }
      }
      assert DistinctKeys(entries[1..], IdOf) by {
        forall i, j | 0 <= i < j < |entries[1..]| ensures IdOf(entries[1..][i]) != IdOf(entries[1..][j]) {
          assert entries[1..][i] == entries[i + 1] && entries[1..][j] == entries[j + 1];
        }
      }
      MapSetAbsent(entries[1..], x);
      assert MapSet(entries, x) == [entries[0]] + MapSet(entries[1..], x);
    }
  }

  /** The merge loop: the entries after adding the new-id records, and how many it added. */
  function AddNew(entries: seq<SavedAnalysis>, valid: seq<SavedAnalysis>): (r: (seq<SavedAnalysis>, nat))
    ensures r.1 <= |valid| && |r.0| == |entries| + r.1
    ensures r.0[..|entries|] == entries
  {
    if valid == [] then (entries, 0)
    else
      var n := |valid| - 1;
      var r := AddNew(entries, valid[..n]);
      if KeyIn(r.0, IdOf, valid[n].id) then r
      else
        assert (r.0 + [valid[n]])[..|entries|] == r.0[..|entries|];
        (r.0 + [valid[n]], r.1 + 1)
  }

  /**
   * The merge appends only records with an id new to the entries, and ends with the
   * ids of both lists, distinct when the entries' ids were.
   */
  lemma {:induction false} AddNewKeys(entries: seq<SavedAnalysis>, valid: seq<SavedAnalysis>)
    ensures var r := AddNew(entries, valid);
      (forall i :: |entries| <= i < |r.0| ==> r.0[i] in valid && !KeyIn(entries, IdOf, r.0[i].id)) &&
      (forall k :: KeyIn(r.0, IdOf, k) <==> KeyIn(entries, IdOf, k) || KeyIn(valid, IdOf, k)) &&
      (DistinctKeys(entries, IdOf) ==> DistinctKeys(r.0, IdOf))
    decreases |valid|
  {
    if valid != [] {
      var n := |valid| - 1;
      AddNewKeys(entries, valid[..n]);
      AddNewUnfold(entries, valid);
      var r := AddNew(entries, valid[..n]);
      assert forall y :: y in valid[..n] ==> y in valid;
      KeysOfSnoc(valid);
      if !KeyIn(r.0, IdOf, valid[n].id) {
        AddNewPush(entries, r.0, valid[n]);
        var e' := r.0 + [valid[n]];
        assert e'[|r.0|] == valid[n];
        assert forall i :: |entries| <= i < |r.0| ==> e'[i] == r.0[i];
      }
    }
  }

  /** Appending a record whose id is new keeps the merge loop's invariants. */
  lemma AddNewPush(entries: seq<SavedAnalysis>, e: seq<SavedAnalysis>, x: SavedAnalysis)
    requires |entries| <= |e| && e[..|entries|] == entries
    requires forall i :: |entries| <= i < |e| ==> !KeyIn(entries, IdOf, e[i].id)
    requires DistinctKeys(entries, IdOf) ==> DistinctKeys(e, IdOf)
    requires !KeyIn(e, IdOf, x.id)
    ensures forall k :: KeyIn(e + [x], IdOf, k) <==> KeyIn(e, IdOf, k) || x.id == k
    ensures DistinctKeys(entries, IdOf) ==> DistinctKeys(e + [x], IdOf)
  {
    var e' := e + [x];
    assert e'[..|e|] == e;
    KeysOfSnoc(e');
  }

  lemma AddNewStep(entries: seq<SavedAnalysis>, valid: seq<SavedAnalysis>, i: nat)
    requires i < |valid|
    ensures var r := AddNew(entries, valid[..i]);
      AddNew(entries, valid[..i + 1]) ==
        if KeyIn(r.0, IdOf, valid[i].id) then r else (r.0 + [valid[i]], r.1 + 1)
  {
    var v := valid[..i + 1];
    assert v[..i] == valid[..i] && v[i] == valid[i];
    AddNewUnfold(entries, v);
  }

  lemma AddNewUnfold(entries: seq<SavedAnalysis>, v: seq<SavedAnalysis>)
    requires v != []
    ensures var r := AddNew(entries, v[..|v| - 1]);
      AddNew(entries, v) ==
        if KeyIn(r.0, IdOf, v[|v| - 1].id) then r else (r.0 + [v[|v| - 1]], r.1 + 1)
  {
  }

  /** The ids of a list are those of its front and its last element. */
  lemma KeysOfSnoc(xs: seq<SavedAnalysis>)
    requires xs != []
    ensures forall k :: KeyIn(xs, IdOf, k) <==> KeyIn(xs[..|xs| - 1], IdOf, k) || xs[|xs| - 1].id == k
  {
    var n := |xs| - 1;
    forall k | KeyIn(xs, IdOf, k) && xs[n].id != k ensures KeyIn(xs[..n], IdOf, k) {
      var i :| 0 <= i < |xs| && IdOf(xs[i]) == k;
      assert xs[..n][i] == xs[i];
    }
    forall k | KeyIn(xs[..n], IdOf, k) ensures KeyIn(xs, IdOf, k) {
      var i :| 0 <= i < n && IdOf(xs[..n][i]) == k;
      assert xs[..n][i] == xs[i];
    }
    assert IdOf(xs[n]) == xs[n].id;
  }

  datatype ImportMode = Merge | Replace

  datatype Counts = Counts(added: nat, replaced: nat, skipped: int)

  const InvalidJson := "Invalid JSON file."
  const Schema := "job-scam-detector/v1"

  /** The items after a merge import, and its counters. */
  function MergeOf(items: seq<SavedAnalysis>, parsed: Json): (seq<SavedAnalysis>, Counts) {
    var incoming := Incoming(parsed);
    var valid := ValidItems(incoming);
    var r := AddNew(MapOf(items), valid);
    (SortDesc(r.0, CreatedAt), Counts(r.1, 0, |incoming| - |valid| + (|valid| - r.1)))
  }

  /** The items and counters of an import of a parsed backup. */
  function ImportOf(items: seq<SavedAnalysis>, parsed: Json, mode: ImportMode): (seq<SavedAnalysis>, Counts) {
    var incoming := Incoming(parsed);
    match mode
    case Replace =>
      (ValidItems(incoming), Counts(|ValidItems(incoming)|, |items|, |incoming| - |ValidItems(incoming)|))
    case Merge => MergeOf(items, parsed)
  }

  /** A replace import keeps exactly the valid records and counts the others as skipped. */
  lemma ReplaceSkipsInvalid(items: seq<SavedAnalysis>, parsed: Json)
    ensures var (r, c) := ImportOf(items, parsed, Replace);
      c.skipped == InvalidCount(Incoming(parsed)) && c.replaced == |items| &&
      forall y :: y in r <==>
        exists i :: 0 <= i < |Incoming(parsed)| && ValidRecord(Incoming(parsed)[i]) && y == FromJson(Incoming(parsed)[i])
  {
    var xs := Incoming(parsed);
    ValidItemsSkipped(xs);
    forall y ensures y in ValidItems(xs) <==> exists i :: 0 <= i < |xs| && ValidRecord(xs[i]) && y == FromJson(xs[i]) {
      if y in ValidItems(xs) {
        ValidItemsSound(xs, y);
      } else if exists i :: 0 <= i < |xs| && ValidRecord(xs[i]) && y == FromJson(xs[i]) {
        var i :| 0 <= i < |xs| && ValidRecord(xs[i]) && y == FromJson(xs[i]);
        ValidItemsComplete(xs, i);
      }
    }
  }

  /** The export payload before `JSON.stringify`. */
  function Payload(items: seq<SavedAnalysis>, exportedAt: int): (j: Json)
    ensures Get(j, "count") == Some(JNum(|items|))
    ensures Get(j, "schema") == Some(JStr(Schema))
  {
    JObj(map[
      "schema" := JStr(Schema), "exportedAt" := JNum(exportedAt), "count" := JNum(|items|),
      "items" := JArr(ItemsJson(items))])
  }

  function ItemsJson(items: seq<SavedAnalysis>): (r: seq<Json>)
    ensures |r| == |items| && forall i :: 0 <= i < |items| ==> r[i] == ToJson(items[i])
  {
    seq(|items|, i requires 0 <= i < |items| => ToJson(items[i]))
  }

  lemma {:induction false} ValidItemsOfExport(items: seq<SavedAnalysis>)
    ensures ValidItems(ItemsJson(items)) == items
    decreases |items|
  {
    if items != [] {
      var n := |items| - 1;
      var js := ItemsJson(items);
      assert js[..n] == ItemsJson(items[..n]);
      ValidItemsOfExport(items[..n]);
      JsonRoundTrip(items[n]);
      ValidItemsPush(js, items);
    }
  }

  /** A last record that passes validation is read back after the ones before it. */
  lemma ValidItemsPush(js: seq<Json>, items: seq<SavedAnalysis>)
    requires items != [] && |js| == |items|
    requires ValidItems(js[..|js| - 1]) == items[..|items| - 1]
    requires ValidRecord(js[|js| - 1]) && FromJson(js[|js| - 1]) == items[|items| - 1]
    ensures ValidItems(js) == items
  {
    assert items == items[..|items| - 1] + [items[|items| - 1]];
  }

  /** Restoring an export in replace mode gives back exactly the exported list, skipping nothing. */
  lemma ExportThenReplace(items: seq<SavedAnalysis>, current: seq<SavedAnalysis>, exportedAt: int)
    ensures ImportOf(current, Payload(items, exportedAt), Replace) ==
      (items, Counts(|items|, |current|, 0))
  {
    var p := Payload(items, exportedAt);
    assert Get(p, "items") == Some(JArr(ItemsJson(items)));
    assert Incoming(p) == ItemsJson(items);
    ValidItemsOfExport(items);
  }

  /** Whatever the list it replaces, an export imported in replace mode restores its items. */
  lemma ExportRestores(items: seq<SavedAnalysis>, exportedAt: int)
    ensures forall current ::
      ImportOf(current, Payload(items, exportedAt), Replace) == (items, Counts(|items|, |current|, 0))
  {
    forall current {
      ExportThenReplace(items, current, exportedAt);
    }
  }

  /** A map built from items whose ids are already distinct is the items themselves. */
  lemma {:induction false} MapOfDistinct(xs: seq<SavedAnalysis>)
    requires DistinctKeys(xs, IdOf)
    ensures MapOf(xs) == xs
    decreases |xs|
  {
    if xs != [] {
      var n := |xs| - 1;
      assert DistinctKeys(xs[..n], IdOf) by {
        forall i, j | 0 <= i < j < n ensures IdOf(xs[..n][i]) != IdOf(xs[..n][j]) {
          assert xs[..n][i] == xs[i] && xs[..n][j] == xs[j];
        }
      }
      MapOfDistinct(xs[..n]);
      assert !KeyIn(xs[..n], IdOf, xs[n].id) by {
        forall i | 0 <= i < n ensures IdOf(xs[..n][i]) != xs[n].id {
          assert xs[..n][i] == xs[i];
        }
      }
      MapSetAbsent(xs[..n], xs[n]);
      assert xs == xs[..n] + [xs[n]];
    }
  }

  /** The merge before sorting: the map of the current items, then the new-id records. */
  function MergeEntries(items: seq<SavedAnalysis>, parsed: Json): (seq<SavedAnalysis>, nat) {
    AddNew(MapOf(items), ValidItems(Incoming(parsed)))
  }

  lemma MergeIsSorted(items: seq<SavedAnalysis>, parsed: Json)
    ensures ImportOf(items, parsed, Merge).0 == SortDesc(MergeEntries(items, parsed).0, CreatedAt)
    ensures ImportOf(items, parsed, Merge).1.added == MergeEntries(items, parsed).1
  {
  }

  /** A merge import is sorted newest first and has one item per id. */
  lemma MergeSortedDistinct(items: seq<SavedAnalysis>, parsed: Json)
    ensures SortedDesc(ImportOf(items, parsed, Merge).0, CreatedAt)
    ensures DistinctKeys(ImportOf(items, parsed, Merge).0, IdOf)
  {
    MergeIsSorted(items, parsed);
    AddNewKeys(MapOf(items), ValidItems(Incoming(parsed)));
    var entries := MergeEntries(items, parsed).0;
    SortDescSorted(entries, CreatedAt);
    SortDescDistinct(entries, CreatedAt, IdOf);
  }

  lemma SortKeys(xs: seq<SavedAnalysis>)
    ensures forall k :: KeyIn(SortDesc(xs, CreatedAt), IdOf, k) <==> KeyIn(xs, IdOf, k)
  {
    var r := SortDesc(xs, CreatedAt);
    forall k ensures KeyIn(r, IdOf, k) <==> KeyIn(xs, IdOf, k) {
      if KeyIn(r, IdOf, k) { KeysIncluded(xs, r, IdOf, k); }
      if KeyIn(xs, IdOf, k) { KeysIncluded(r, xs, IdOf, k); }
    }
  }

  /** A merge import holds exactly the ids of the current items and of the valid records. */
  lemma MergeKeys(items: seq<SavedAnalysis>, parsed: Json, k: string)
    ensures KeyIn(ImportOf(items, parsed, Merge).0, IdOf, k) <==>
      KeyIn(items, IdOf, k) || KeyIn(ValidItems(Incoming(parsed)), IdOf, k)
  {
    MergeIsSorted(items, parsed);
    AddNewKeys(MapOf(items), ValidItems(Incoming(parsed)));
    SortKeys(MergeEntries(items, parsed).0);
  }

  /** Where an id was already present, the merge keeps the current item, not the incoming one. */
  lemma MergeKeepsCurrent(items: seq<SavedAnalysis>, parsed: Json, i: nat)
    requires i < |ImportOf(items, parsed, Merge).0|
    requires KeyIn(items, IdOf, ImportOf(items, parsed, Merge).0[i].id)
    ensures ImportOf(items, parsed, Merge).0[i] in items
  {
    MergeIsSorted(items, parsed);
    AddNewKeys(MapOf(items), ValidItems(Incoming(parsed)));
    var m := MapOf(items);
    var entries := MergeEntries(items, parsed).0;
    var res := SortDesc(entries, CreatedAt);
    InSortDesc(entries, CreatedAt, i);
    var j :| 0 <= j < |entries| && entries[j] == res[i];
    assert KeyIn(m, IdOf, entries[j].id);
    assert j < |m|;
    assert entries[j] == entries[..|m|][j] == m[j];
  }

  /** Every incoming record is counted once, as added or skipped, and each added one grows the list. */
  lemma MergeCounts(items: seq<SavedAnalysis>, parsed: Json)
    ensures ImportOf(items, parsed, Merge).1.replaced == 0
    ensures ImportOf(items, parsed, Merge).1.added + ImportOf(items, parsed, Merge).1.skipped == |Incoming(parsed)|
    ensures |ImportOf(items, parsed, Merge).0| == |MapOf(items)| + ImportOf(items, parsed, Merge).1.added
    ensures DistinctKeys(items, IdOf) ==>
      |ImportOf(items, parsed, Merge).0| == |items| + ImportOf(items, parsed, Merge).1.added
  {
    MergeIsSorted(items, parsed);
    if DistinctKeys(items, IdOf) {
      MapOfDistinct(items);
    }
  }

  /** Merging a backup of the current list adds nothing and counts every record as skipped. */
  lemma MergeOwnExport(items: seq<SavedAnalysis>, exportedAt: int)
    ensures ImportOf(items, Payload(items, exportedAt), Merge).1 == Counts(0, 0, |items|)
  {
    var p := Payload(items, exportedAt);
    assert Get(p, "items") == Some(JArr(ItemsJson(items)));
    assert Incoming(p) == ItemsJson(items);
    ValidItemsOfExport(items);
    AddNothingKnown(MapOf(items), items);
  }

  lemma {:induction false} AddNothingKnown(entries: seq<SavedAnalysis>, valid: seq<SavedAnalysis>)
    requires forall i :: 0 <= i < |valid| ==> KeyIn(entries, IdOf, valid[i].id)
    ensures AddNew(entries, valid) == (entries, 0)
    decreases |valid|
  {
    if valid != [] {
      var n := |valid| - 1;
      AddNothingKnown(entries, valid[..n]);
    }
  }

  class SavedItemsStore {
    var items: seq<SavedAnalysis>
    var hydrated: bool
    /** Every list written to storage, oldest first. */
    var writes: seq<seq<SavedAnalysis>>

    /** Storage is untouched before hydration and mirrors the list after it. */
    ghost predicate Valid()
      reads this
    {
      (!hydrated ==> writes == []) &&
      (hydrated ==> writes != [] && writes[|writes| - 1] == items)
    }

    constructor ()
      ensures Valid() && items == [] && !hydrated && writes == []
    {
      items, hydrated, writes := [], false, [];
    }

    /** The persistence effect: runs after each change, writes only once hydrated. */
    method Persist()
      modifies this`writes
      ensures writes == if hydrated then old(writes) + [items] else old(writes)
    {
      if hydrated {
        writes := writes + [items];
      }
    }

    /**
     * The mount effect: `loaded` is the parsed stored list, `None` when nothing (or an
     * empty string) was stored or reading or parsing failed. Hydration completes either way.
     */
    method Hydrate(loaded: Option<seq<SavedAnalysis>>)
      requires Valid() && !hydrated
      modifies this
      ensures Valid() && hydrated
      ensures items == if loaded.Some? then loaded.value else old(items)
      ensures writes == [items]
    {
      if loaded.Some? {
        items := loaded.value;
      }
      hydrated := true;
      Persist();
    }

    method Add(item: SavedAnalysis)
      requires Valid()
      modifies this`items, this`writes
      ensures Valid() && items == [item] + old(items)
      ensures writes == if hydrated then old(writes) + [items] else old(writes)
    {
      items := [item] + items;
      Persist();
    }

    method Remove(id: string)
      requires Valid()
      modifies this`items, this`writes
      ensures Valid() && items == RemoveKey(old(items), IdOf, id)
      ensures writes == if hydrated then old(writes) + [items] else old(writes)
    {
      items := RemoveKey(items, IdOf, id);
      Persist();
    }

    method ClearAll()
      requires Valid()
      modifies this`items, this`writes
      ensures Valid() && items == []
      ensures writes == if hydrated then old(writes) + [[]] else old(writes)
    {
      items := [];
      Persist();
    }

    method Update(id: string, partial: Patch)
      requires Valid()
      modifies this`items, this`writes
      ensures Valid() && items == MapKey(old(items), IdOf, id, x => Apply(x, partial))
      ensures writes == if hydrated then old(writes) + [items] else old(writes)
    {
      items := MapKey(items, IdOf, id, x => Apply(x, partial));
      Persist();
    }

    /** `exportJSON`, before stringification; the clock reading is a parameter. */
    function ExportJSON(now: int): (j: Json)
      reads this
      ensures Get(j, "schema") == Some(JStr(Schema)) && Get(j, "count") == Some(JNum(|items|))
      ensures forall current :: ImportOf(current, j, Replace) == (items, Counts(|items|, |current|, 0))
    {
      ExportRestores(items, now);
      Payload(items, now)
    }

    /** `importJSON`: `parsed` is `JSON.parse(raw)`, `None` when it throws. */
    method ImportJSON(parsed: Option<Json>, mode: ImportMode) returns (r: Result<Counts, string>)
      requires Valid()
      modifies this`items, this`writes
      ensures Valid()
      ensures parsed.None? ==> r == Err(InvalidJson) && items == old(items) && writes == old(writes)
      ensures parsed.Some? ==>
        items == ImportOf(old(items), parsed.value, mode).0 &&
        r == Ok(ImportOf(old(items), parsed.value, mode).1) &&
        writes == if hydrated then old(writes) + [items] else old(writes)
    {
      if parsed.None? {
        return Err(InvalidJson);
      }
      var next, counts := ImportItems(items, parsed.value, mode);
      items := next;
      Persist();
      r := Ok(counts);
    }
  }

  /** The body of `importJSON` once the text has parsed. */
  method ImportItems(items: seq<SavedAnalysis>, parsed: Json, mode: ImportMode)
    returns (next: seq<SavedAnalysis>, counts: Counts)
    ensures (next, counts) == ImportOf(items, parsed, mode)
  {
    var incoming := Incoming(parsed);
    var valid := ValidRecords(incoming);
    if mode == Replace {
      return valid, Counts(|valid|, |items|, |incoming| - |valid|);
    }
    var entries := BuildMap(items);
    var added;
    entries, added := MergeNew(entries, valid);
    next := SortDesc(entries, CreatedAt);
    counts := Counts(added, 0, |incoming| - |valid| + (|valid| - added));
    MergeOfIs(items, parsed, entries, added);
    assert ImportOf(items, parsed, mode) == (next, counts);
  }

  lemma MergeOfIs(items: seq<SavedAnalysis>, parsed: Json, entries: seq<SavedAnalysis>, added: nat)
    requires (entries, added) == MergeEntries(items, parsed)
    ensures ImportOf(items, parsed, Merge).0 == SortDesc(entries, CreatedAt)
    ensures ImportOf(items, parsed, Merge).1 ==
      Counts(added, 0, |Incoming(parsed)| - |ValidItems(Incoming(parsed))| + (|ValidItems(Incoming(parsed))| - added))
  {
    MergeIsSorted(items, parsed);
  }

  /** The `incoming.filter(...)` validation, as a loop over the records. */
  method ValidRecords(incoming: seq<Json>) returns (valid: seq<SavedAnalysis>)
    ensures valid == ValidItems(incoming)
  {
    valid := [];
    var i := 0;
    while i < |incoming|
      invariant 0 <= i <= |incoming|
      invariant valid == ValidItems(incoming[..i])
    {
      assert incoming[..i + 1][..i] == incoming[..i];
      if ValidRecord(incoming[i]) {
        valid := valid + [FromJson(incoming[i])];
      }
      i := i + 1;
    }
    assert incoming[..i] == incoming;
  }

  /** `for (const i of items) map.set(i.id, i)` */
  method BuildMap(items: seq<SavedAnalysis>) returns (entries: seq<SavedAnalysis>)
    ensures entries == MapOf(items)
  {
    entries := [];
    var i := 0;
    while i < |items|
      invariant 0 <= i <= |items|
      invariant entries == MapOf(items[..i])
    {
      assert items[..i + 1][..i] == items[..i];
      MapSetSpec(entries, items[i]);
      entries := MapSet(entries, items[i]);
      i := i + 1;
    }
    assert items[..i] == items;
  }

  /** `for (const i of valid) if (!map.has(i.id)) { map.set(i.id, i); added++; }` */
  method MergeNew(entries0: seq<SavedAnalysis>, valid: seq<SavedAnalysis>)
    returns (entries: seq<SavedAnalysis>, added: nat)
    requires DistinctKeys(entries0, IdOf)
    ensures (entries, added) == AddNew(entries0, valid)
  {
    entries, added := entries0, 0;
    var i := 0;
    while i < |valid|
      invariant 0 <= i <= |valid|
      invariant (entries, added) == AddNew(entries0, valid[..i])
      invariant DistinctKeys(entries, IdOf)
    {
      AddNewStep(entries0, valid, i);
      if FindKey(entries, IdOf, valid[i].id).None? {
        MapSetAbsent(entries, valid[i]);
        entries := MapSet(entries, valid[i]);
        added := added + 1;
      }
      i := i + 1;
    }
    assert valid[..i] == valid;
  }
}

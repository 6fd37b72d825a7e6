/**
 * The preferences held by `src/SettingsProvider.tsx`: six values with
 * defaults, read back from storage once at start-up (each applied only when
 * the stored text is acceptable), written back as text whenever they change,
 * and reset to the defaults on request.
 */
module SettingsProvider {
  import opened Common
  import opened JsText

  datatype Theme = Light | Dark
  datatype RiskFilter = AllRisks | HighRisk | MediumRisk | LowRisk
  datatype SortMode = Newest | Oldest | ScoreHigh | ScoreLow

  datatype Prefs = Prefs(
    theme: Theme,
    autoSave: bool,
    sensitivity: int,
    dbSearch: string,
    dbRisk: RiskFilter,
    dbSort: SortMode)

  /** `DEFAULTS` */
  const Defaults := Prefs(Light, false, 50, "", AllRisks, Newest)

  function ThemeName(t: Theme): string {
    match t
    case Light => "light"
    case Dark => "dark"
  }

  function RiskName(r: RiskFilter): string {
    match r
    case AllRisks => "all"
    case HighRisk => "high"
    case MediumRisk => "medium"
    case LowRisk => "low"
  }

  function SortName(s: SortMode): string {
    match s
    case Newest => "newest"
    case Oldest => "oldest"
    case ScoreHigh => "scoreHigh"
    case ScoreLow => "scoreLow"
  }

  /** The six stored strings, `None` where `getItem` found nothing. */
  datatype Stored = Stored(
    theme: Option<string>,
    autoSave: Option<string>,
    sensitivity: Option<string>,
    dbSearch: Option<string>,
    dbRisk: Option<string>,
    dbSort: Option<string>)

  function ThemeOf(s: Option<string>, current: Theme): (r: Theme)
    ensures s == Some("light") ==> r == Light
    ensures s == Some("dark") ==> r == Dark
    ensures s != Some("light") && s != Some("dark") ==> r == current
  {
    if s == Some("light") then Light else if s == Some("dark") then Dark else current
  }

  function AutoSaveOf(s: Option<string>, current: bool): (r: bool)
    ensures s.Some? ==> (r <==> s.value == "1")
    ensures s.None? ==> r == current
  {
    if s.Some? then s.value == "1" else current
  }

  /** `+sSens`, clamped to 0..100 unless it is NaN. */
  function SensitivityOf(s: Option<string>, current: int): (r: int)
    ensures s.Some? && NumberOf(s.value).Some? ==> 0 <= r <= 100
    ensures s.None? || NumberOf(s.value).None? ==> r == current
    ensures s.Some? && NumberOf(s.value).Some? && 0 <= NumberOf(s.value).value <= 100 ==> r == NumberOf(s.value).value
  {
    if s.Some? && NumberOf(s.value).Some? then Max(0, Min(100, NumberOf(s.value).value)) else current
  }

  function RiskOf(s: Option<string>, current: RiskFilter): (r: RiskFilter)
    ensures s.Some? && (exists f :: s.value == RiskName(f)) ==> RiskName(r) == s.value
    ensures !(s.Some? && (exists f :: s.value == RiskName(f))) ==> r == current
  {
    if s == Some("all") then AllRisks
    else if s == Some("high") then HighRisk
    else if s == Some("medium") then MediumRisk
    else if s == Some("low") then LowRisk
    else current
  }

  function SortOf(s: Option<string>, current: SortMode): (r: SortMode)
    ensures s.Some? && (exists m :: s.value == SortName(m)) ==> SortName(r) == s.value
    ensures !(s.Some? && (exists m :: s.value == SortName(m))) ==> r == current
  {
    if s == Some("newest") then Newest
    else if s == Some("oldest") then Oldest
    else if s == Some("scoreHigh") then ScoreHigh
    else if s == Some("scoreLow") then ScoreLow
    else current
  }

  /** The hydration rules applied to the current values. */
  function Decode(current: Prefs, s: Stored): Prefs {
    Prefs(
      ThemeOf(s.theme, current.theme),
      AutoSaveOf(s.autoSave, current.autoSave),
      SensitivityOf(s.sensitivity, current.sensitivity),
      if s.dbSearch.Some? then s.dbSearch.value else current.dbSearch,
      RiskOf(s.dbRisk, current.dbRisk),
      SortOf(s.dbSort, current.dbSort))
  }

  /** What the persist effects write for each value. */
  function Encode(p: Prefs): Stored {
    Stored(
      Some(ThemeName(p.theme)),
      Some(if p.autoSave then "1" else "0"),
      Some(IntToString(p.sensitivity)),
      Some(p.dbSearch),
      Some(RiskName(p.dbRisk)),
      Some(SortName(p.dbSort)))
  }

  class Settings {
    var prefs: Prefs
    var hydrated: bool
    /** What storage holds, as last written by the persist effects. */
    var storage: Stored

    /** A fresh provider: the defaults, not yet hydrated, over whatever storage holds. */
    constructor (storage: Stored)
      ensures prefs == Defaults && !hydrated && this.storage == storage
    {
      prefs := Defaults;
      hydrated := false;
      this.storage := storage;
    }

    /**
     * The hydration effect. `loaded` is what the six reads returned, or `None`
     * when reading failed; either way the provider ends up hydrated.
     */
    method Hydrate(loaded: Option<Stored>)
      modifies this
      ensures hydrated
      ensures loaded.Some? ==> prefs == Decode(old(prefs), loaded.value)
      ensures loaded.None? ==> prefs == old(prefs)
      ensures storage == Encode(prefs)
    {
      if loaded.Some? {
        prefs := Decode(prefs, loaded.value);
      }
      hydrated := true;
      storage := Encode(prefs);
    }

    /**
     * A setter (`setTheme`, `setAutoSave`, `setSensitivity`, `setDbSearch`,
     * `setDbRisk` or `setDbSort`) with the persist effect it triggers; `p` is
     * the preferences with the one value changed.
     */
    method Set(p: Prefs)
      modifies this
      ensures prefs == p && hydrated == old(hydrated)
      ensures storage == Encode(p)
    {
      prefs := p;
      storage := Encode(prefs);
    }

    /** `reset()`: every value back to its default; the defaults are then written. */
    method Reset()
      modifies this
      ensures prefs == Defaults && hydrated == old(hydrated)
      ensures storage == Encode(Defaults)
    {
      prefs := Defaults;
      storage := Encode(prefs);
    }
  }

  // ---------------------------------------------------------------- properties

  /** Whatever is stored, hydrated settings keep sensitivity in 0..100 if they started there. */
  lemma DecodeInRange(current: Prefs, s: Stored)
    requires 0 <= current.sensitivity <= 100
    ensures 0 <= Decode(current, s).sensitivity <= 100
  {
  }

  /** Nothing stored: nothing changes. */
  lemma DecodeNothing(current: Prefs)
    ensures Decode(current, Stored(None, None, None, None, None, None)) == current
  {
  }

  /** Preferences written by the persist effects are read back unchanged. */
  lemma EncodeThenDecode(p: Prefs, current: Prefs)
    requires 0 <= p.sensitivity <= 100
    ensures Decode(current, Encode(p)) == p
  {
    var e := Encode(p);
    ThemeNameRead(p.theme, current.theme);
    NumberOfIntToString(p.sensitivity);
    assert SensitivityOf(e.sensitivity, current.sensitivity) == p.sensitivity;
    assert AutoSaveOf(e.autoSave, current.autoSave) == p.autoSave;
    RiskNameRead(p.dbRisk, current.dbRisk);
    SortNameRead(p.dbSort, current.dbSort);
  }

  lemma ThemeNameRead(t: Theme, current: Theme)
    ensures ThemeOf(Some(ThemeName(t)), current) == t
  {
    if t == Dark {
      assert ThemeName(t)[0] == 'd';
    }
  }

  lemma RiskNameRead(r: RiskFilter, current: RiskFilter)
    ensures RiskOf(Some(RiskName(r)), current) == r
  {
    match r {
      case AllRisks =>
      case HighRisk => assert RiskName(r)[0] == 'h';
      case MediumRisk => assert RiskName(r)[0] == 'm';
      case LowRisk => assert RiskName(r)[0] == 'l' && RiskName(r) != "high" && RiskName(r) != "medium";
    }
  }

  lemma SortNameRead(m: SortMode, current: SortMode)
    ensures SortOf(Some(SortName(m)), current) == m
  {
    match m {
      case Newest =>
      case Oldest => assert SortName(m)[0] == 'o';
      case ScoreHigh => assert SortName(m)[0] == 's' && SortName(m)[5] == 'H';
      case ScoreLow => assert SortName(m)[5] == 'L' && SortName(m) != "oldest" && SortName(m) != "newest";
    }
  }

  /** Stored text outside the enumerations, such as "Dark" or "NEWEST", is ignored. */
  lemma CaseMatters(current: Prefs)
    ensures var d := Decode(current, Stored(Some("Dark"), None, None, None, Some("High"), Some("NEWEST")));
      d.theme == current.theme && d.dbRisk == current.dbRisk && d.dbSort == current.dbSort
  {
    assert "Dark" != "dark" by { assert "Dark"[0] != "dark"[0]; }
    assert "High"[0] != "high"[0];
    assert "NEWEST"[0] != "newest"[0];
  }

  /** An out-of-range stored sensitivity is clamped, and an empty one reads as 0. */
  lemma SensitivityClamped(current: int, n: int)
    ensures SensitivityOf(Some(IntToString(n)), current) == Max(0, Min(100, n))
    ensures SensitivityOf(Some(""), current) == 0
  {
    NumberOfIntToString(n);
  }
}

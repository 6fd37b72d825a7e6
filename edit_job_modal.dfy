/**
 * The form logic of `src/components/EditJobModal.tsx`: the form is filled
 * from the initial values, Save is enabled only with a title and a company,
 * and the saved payload trims every field, turns blank optional fields into
 * null and reads the score as a number.
 */
module EditJobModal {
  import opened Common
  import opened JsText

  datatype Risk = LOW | MEDIUM | HIGH

  /** `initial`: each field `None` where it is missing or null. */
  datatype Initial = Initial(
    title: Option<string>, company: Option<string>, risk: Option<Risk>, score: Option<int>,
    url: Option<string>, email: Option<string>, source: Option<string>, notes: Option<string>)

  /** The eight form fields as the text inputs hold them. */
  datatype Form = Form(
    title: string, company: string, risk: Risk, score: string,
    url: string, email: string, source: string, notes: string)

  /** `EditPayload` as `handleSave` builds it; `None` is `null`. */
  datatype Payload = Payload(
    title: string, company: string, risk: Risk, score: int,
    url: Option<string>, email: Option<string>, source: Option<string>, notes: Option<string>)

  /** The form as the initial state and the reset effect set it. */
  function FormOf(initial: Option<Initial>): Form {
    match initial
    case None => Form("", "", LOW, "0", "", "", "", "")
    case Some(i) =>
      Form(i.title.GetOr(""), i.company.GetOr(""), i.risk.GetOr(LOW), IntToString(i.score.GetOr(0)),
        i.url.GetOr(""), i.email.GetOr(""), i.source.GetOr(""), i.notes.GetOr(""))
  }

  /** `disabled` */
  predicate Disabled(f: Form) {
    Trim(f.title) == [] || Trim(f.company) == []
  }

  /** `s.trim() ? s.trim() : null` */
  function Optional(s: string): (r: Option<string>)
    ensures r.None? <==> AllSpace(s)
    ensures r.Some? ==> r.value == Trim(s) && r.value != []
  {
    TrimEmptyIffBlank(s);
    if Trim(s) != [] then Some(Trim(s)) else None
  }

  /** `Number.isFinite(Number(score)) ? Number(score) : 0` */
  function ScoreOf(score: string): int {
    NumberOf(score).GetOr(0)
  }

  /** The payload `handleSave` passes to `onSave`. */
  function PayloadOf(f: Form): Payload {
    Payload(Trim(f.title), Trim(f.company), f.risk, ScoreOf(f.score),
      Optional(f.url), Optional(f.email), Optional(f.source), Optional(f.notes))
  }

  /** Pressing Save: nothing while the button is disabled, otherwise the payload. */
  function Save(f: Form): (r: Option<Payload>)
    ensures r.None? <==> Disabled(f)
    ensures r.Some? ==> r.value == PayloadOf(f)
  {
    if Disabled(f) then None else Some(PayloadOf(f))
  }

  /** The initial values an edit of a saved payload starts from. */
  function InitialOf(p: Payload): Initial {
    Initial(Some(p.title), Some(p.company), Some(p.risk), Some(p.score), p.url, p.email, p.source, p.notes)
  }

  /** A field as `handleSave` writes it: trimmed, and null rather than blank. */
  predicate Normal(o: Option<string>) {
    o.None? || (o.value != [] && IsTrimmed(o.value))
  }

  // ---------------------------------------------------------------- properties

  /**
   * Every saved payload has a non-blank trimmed title and company, the
   * form's risk, and optional fields that are null or non-blank and trimmed.
   */
  lemma SavedShape(f: Form)
    requires Save(f).Some?
    ensures var p := Save(f).value;
      p.title != [] && IsTrimmed(p.title) && p.company != [] && IsTrimmed(p.company) && p.risk == f.risk &&
      Normal(p.url) && Normal(p.email) && Normal(p.source) && Normal(p.notes)
  {
  }

  /** Save is enabled exactly when the title and the company hold something other than whitespace. */
  lemma DisabledIffBlank(f: Form)
    ensures Disabled(f) <==> AllSpace(f.title) || AllSpace(f.company)
  {
    TrimEmptyIffBlank(f.title);
    TrimEmptyIffBlank(f.company);
  }

  /** A score typed as an integer is saved as that integer; text that is not a number is saved as 0. */
  lemma ScoreRead(n: int)
    ensures ScoreOf(IntToString(n)) == n
    ensures ScoreOf("") == 0 && ScoreOf("abc") == 0
  {
    NumberOfIntToString(n);
    NumberOfEmpty();
    NumberOfNonNumeric("abc");
  }

  /** Opening a saved payload for editing and saving it unchanged gives the same payload. */
  lemma ReopenAndSave(f: Form)
    requires !Disabled(f)
    ensures Save(FormOf(Some(InitialOf(PayloadOf(f))))) == Some(PayloadOf(f))
  {
    var p := PayloadOf(f);
    var g := FormOf(Some(InitialOf(p)));
    TrimOfTrimmed(p.title);
    TrimOfTrimmed(p.company);
    NumberOfIntToString(p.score);
    OptionalOfNormal(p.url);
    OptionalOfNormal(p.email);
    OptionalOfNormal(p.source);
    OptionalOfNormal(p.notes);
  }

  /** A field that is already normal reads back as itself. */
  lemma OptionalOfNormal(o: Option<string>)
    requires Normal(o)
    ensures Optional(o.GetOr("")) == o
  {
    assert Trim("") == [];
    if o.Some? {
      TrimOfTrimmed(o.value);
    }
  }

  /** A new job starts with an empty form whose Save is disabled. */
  lemma NewFormDisabled()
    ensures Disabled(FormOf(None))
    ensures Save(FormOf(None)).None?
  {
    assert Trim("") == [];
  }
}

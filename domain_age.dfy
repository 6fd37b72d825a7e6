/**
 * The RDAP domain-age lookup of `src/lib/domainAge.ts`: choosing the
 * creation date among the events of an RDAP domain record (section 4.5 of
 * RFC 9083), and shaping the answer. The HTTP exchange is given as its
 * outcome; date parsing, ISO formatting and the clock are parameters.
 */
module DomainAge {
  import opened Common
  import opened JsText

  /** One entry of `events`: its `eventAction` and `eventDate` when they are strings, `None` otherwise. */
  datatype Event = Event(action: Option<string>, date: Option<string>)

  /** `ev?.eventDate` is truthy. */
  predicate Dated(e: Event) {
    e.date.Some? && e.date.value != []
  }

  /** `ev?.eventAction?.toLowerCase?.() === "registration" && ev?.eventDate` */
  predicate IsRegistration(e: Event) {
    e.action.Some? && ToLower(e.action.value) == "registration" && Dated(e)
  }

  /** The first registration event at or after `from`. */
  function FirstRegistration(es: seq<Event>, from: nat): (r: Option<nat>)
    ensures r.Some? ==> (from <= r.value < |es| && IsRegistration(es[r.value]) &&
                         forall j :: from <= j < r.value ==> !IsRegistration(es[j]))
    ensures r.None? ==> forall j :: from <= j < |es| ==> !IsRegistration(es[j])
    decreases |es| - from
  {
    if from >= |es| then None
    else if IsRegistration(es[from]) then Some(from)
    else FirstRegistration(es, from + 1)
  }

  /** `events.map((e) => e?.eventDate).filter(Boolean)` */
  function Dates(es: seq<Event>): (r: seq<string>)
    ensures forall d :: d in r ==> d != [] && exists i :: 0 <= i < |es| && es[i].date == Some(d)
    ensures forall i :: 0 <= i < |es| && Dated(es[i]) ==> es[i].date.value in r
  {
    if es == [] then []
    else
      var rest := Dates(es[1..]);
      assert forall i :: 1 <= i < |es| ==> es[i] == es[1..][i - 1];
      if Dated(es[0]) then [es[0].date.value] + rest else rest
  }

  /**
   * `.sort((a, b) => time(a) - time(b))[0]`: the sort is stable, so this is
   * the first of the dates with the smallest time.
   */
  function Earliest(ds: seq<string>, time: string -> int): (r: Option<string>)
    ensures r.None? <==> ds == []
    ensures r.Some? ==> exists k :: 0 <= k < |ds| && ds[k] == r.value && forall j :: 0 <= j < k ==> time(ds[j]) > time(r.value)
    ensures r.Some? ==> forall d :: d in ds ==> time(r.value) <= time(d)
  {
    if ds == [] then None
    else
      var rest := Earliest(ds[1..], time);
      if rest.None? || time(ds[0]) <= time(rest.value) then Some(ds[0])
      else
        var k :| 0 <= k < |ds[1..]| && ds[1..][k] == rest.value && forall j :: 0 <= j < k ==> time(ds[1..][j]) > time(rest.value);
        assert ds[k + 1] == rest.value;
        assert forall j :: 1 <= j < k + 1 ==> ds[j] == ds[1..][j - 1];
        rest
  }

  /** What `parseCreated` returns; `None` stands for a non-array argument. */
  function CreatedOf(events: Option<seq<Event>>, time: string -> int): Option<string> {
    if events.None? then None
    else
      var es := events.value;
      match FirstRegistration(es, 0)
      case Some(i) => Some(es[i].date.value)
      case None => Earliest(Dates(es), time)
  }

  /** `parseCreated(events)`: `time` is `new Date(d).getTime()`. */
  method ParseCreated(events: Option<seq<Event>>, time: string -> int) returns (created: Option<string>)
    ensures created == CreatedOf(events, time)
  {
    if events.None? {
      return None;
    }
    var es := events.value;
    created := None;
    var i := 0;
    while i < |es|
      invariant 0 <= i <= |es|
      invariant created.None?
      invariant FirstRegistration(es, 0) == FirstRegistration(es, i)
    {
      if IsRegistration(es[i]) {
        created := Some(es[i].date.value);
        break;
      }
      i := i + 1;
    }
    if created.None? || created.value == [] {
      created := Earliest(Dates(es), time);
    }
  }

  // ---------------------------------------------------------------- getDomainAge

  /** How `data?.events || []` looks. */
  datatype EventsField = Absent | NotArray | Listed(events: seq<Event>)

  /** The outcome of the RDAP request: an exception (network, abort, bad JSON), a non-OK status, or the body. */
  datatype Rdap = Threw | NotOk | Body(events: EventsField, registry: Option<string>)

  /** `{ domain, created?, ageDays?, registry? }` */
  datatype DomainAgeInfo = DomainAgeInfo(domain: string, created: Option<string>, ageDays: Option<int>, registry: Option<string>)

  const MsPerDay := 1000 * 60 * 60 * 24

  /** `Math.floor(elapsed / 86400000)`: whole days elapsed, rounded down also before the epoch of creation. */
  function AgeDays(now: int, created: int): (r: int)
    ensures r * MsPerDay <= now - created < (r + 1) * MsPerDay
  {
    (now - created) / MsPerDay
  }

  /** The argument handed to `parseCreated`. */
  function EventsArgument(f: EventsField): Option<seq<Event>> {
    match f
    case Absent => Some([])
    case NotArray => None
    case Listed(es) => Some(es)
  }

  /** The answer carries only the domain. */
  predicate Bare(a: DomainAgeInfo) {
    a.created.None? && a.ageDays.None? && a.registry.None?
  }

  /**
   * `getDomainAge(domainInput)`. `parseDate(s)` is `new Date(s).getTime()`,
   * `None` when that is NaN; `iso(t)` is `toISOString()`; `now` the clock.
   */
  method GetDomainAge(domainInput: string, rdap: Rdap, time: string -> int,
                      parseDate: string -> Option<int>, iso: int -> string, now: int)
    returns (r: DomainAgeInfo)
    ensures r.domain == ToLower(Trim(domainInput))
    ensures (rdap.Threw? || rdap.NotOk?) ==> Bare(r)
    ensures rdap.Body? ==>
      var created := CreatedOf(EventsArgument(rdap.events), time);
      if created.None? || parseDate(created.value).None? then Bare(r)
      else
        var t := parseDate(created.value).value;
        r.created == Some(iso(t)) && r.ageDays == Some(AgeDays(now, t)) &&
        r.registry == (if rdap.registry == Some([]) then None else rdap.registry)
  {
    var domain := ToLower(Trim(domainInput));
    var bare := DomainAgeInfo(domain, None, None, None);
    if !rdap.Body? {
      return bare;
    }
    var created := ParseCreated(EventsArgument(rdap.events), time);
    if created.None? || created.value == [] {
      return bare;
    }
    var createdTime := parseDate(created.value);
    if createdTime.None? {
      return bare;
    }
    var ageDays := AgeDays(now, createdTime.value);
    var registry := if rdap.registry.Some? && rdap.registry.value != [] then rdap.registry else None;
    r := DomainAgeInfo(domain, Some(iso(createdTime.value)), Some(ageDays), registry);
  }

  // ---------------------------------------------------------------- properties

  /** A chosen date is never empty, so `!created` only tests for a missing one. */
  lemma CreatedNotEmpty(events: Option<seq<Event>>, time: string -> int)
    ensures CreatedOf(events, time).Some? ==> CreatedOf(events, time).value != []
  {
    if events.Some? && FirstRegistration(events.value, 0).None? {
      var ds := Dates(events.value);
      var e := Earliest(ds, time);
      if e.Some? {
        var k :| 0 <= k < |ds| && ds[k] == e.value && forall j :: 0 <= j < k ==> time(ds[j]) > time(e.value);
        assert ds[k] in ds;
      }
    }
  }

  /** The first registration event with a date wins, whatever the case of its action. */
  lemma RegistrationWins(es: seq<Event>, i: nat, time: string -> int)
    requires i < |es| && es[i].action.Some? && ToLower(es[i].action.value) == "registration" && Dated(es[i])
    requires forall j :: 0 <= j < i ==> !IsRegistration(es[j])
    ensures CreatedOf(Some(es), time) == Some(es[i].date.value)
  {
    assert IsRegistration(es[i]);
  }

  /**
   * Without a registration event the date is the earliest one given: it
   * belongs to some event, and no dated event is earlier.
   */
  lemma EarliestFallback(es: seq<Event>, time: string -> int)
    requires forall j :: 0 <= j < |es| ==> !IsRegistration(es[j])
    ensures CreatedOf(Some(es), time).None? <==> forall j :: 0 <= j < |es| ==> !Dated(es[j])
    ensures CreatedOf(Some(es), time).Some? ==>
      var d := CreatedOf(Some(es), time).value;
      (exists i :: 0 <= i < |es| && es[i].date == Some(d)) &&
      forall j :: 0 <= j < |es| && Dated(es[j]) ==> time(d) <= time(es[j].date.value)
  {
    var ds := Dates(es);
    var e := Earliest(ds, time);
    if e.Some? {
      var k :| 0 <= k < |ds| && ds[k] == e.value && forall j :: 0 <= j < k ==> time(ds[j]) > time(e.value);
      assert ds[k] in ds;
    } else {
      forall j | 0 <= j < |es|
        ensures !Dated(es[j])
      {
      }
    }
  }

  /** A non-array `events` yields no date; an empty one neither. */
  lemma NoEvents(time: string -> int)
    ensures CreatedOf(None, time).None?
    ensures CreatedOf(Some([]), time).None?
  {
  }

  /** The domain in every answer is trimmed and has no upper-case letter. */
  lemma DomainNormalised(domainInput: string)
    ensures IsTrimmed(ToLower(Trim(domainInput))) && HasNoUpper(ToLower(Trim(domainInput)))
  {
    var t := Trim(domainInput);
    ToLowerHasNoUpper(t);
    ToLowerTrimmed(t);
  }

  /** A creation one millisecond in the future counts as day -1, as `Math.floor` rounds down. */
  lemma AgeRoundsDown(now: int)
    ensures AgeDays(now, now + 1) == -1
    ensures AgeDays(now + MsPerDay - 1, now) == 0
    ensures AgeDays(now + MsPerDay, now) == 1
  {
  }
}

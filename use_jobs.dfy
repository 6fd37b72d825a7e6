/**
 * The job list of `src/hooks/useJobs.tsx`: provider state loaded once from
 * storage, with create, update, remove and lookup by id; every change installs
 * the new list and writes that same list to storage.
 */
module UseJobs {
  import opened Common
  import opened Keyed
  import opened Unique
  import Scoring
  import SavedItemsProvider

  type Risk = Scoring.Severity
  type Nullable = SavedItemsProvider.Nullable

  /** A job; `url` and `notes` may be missing or (as loaded from storage) `null`. */
  datatype Job = Job(
    id: string,
    title: string,
    company: string,
    url: Nullable,
    risk: Risk,
    notes: Nullable,
    createdAt: int,
    updatedAt: Option<int>)

  /** `Omit<Job, "id" | "createdAt" | "updatedAt">`: what `create` is given. */
  datatype Draft = Draft(title: string, company: string, url: Nullable, risk: Risk, notes: Nullable)

  /** `Partial<Omit<Job, "id" | "createdAt">>`: the fields `update` overwrites. */
  datatype Changes = Changes(
    title: Option<string>,
    company: Option<string>,
    url: Option<Nullable>,
    risk: Option<Risk>,
    notes: Option<Nullable>,
    updatedAt: Option<int>)

  function JobId(j: Job): string { j.id }

  /** `{ id, createdAt: Date.now(), ...payload }` */
  function NewJob(d: Draft, id: string, now: int): (j: Job)
    ensures j.id == id && j.createdAt == now && j.updatedAt.None?
    ensures Draft(j.title, j.company, j.url, j.risk, j.notes) == d
  {
    Job(id, d.title, d.company, d.url, d.risk, d.notes, now, None)
  }

  /** `{ ...j, ...changes, updatedAt: Date.now() }` */
  function Revise(j: Job, c: Changes, now: int): (r: Job)
    ensures r.id == j.id && r.createdAt == j.createdAt
    ensures r.updatedAt == Some(now)
    ensures r.title == c.title.GetOr(j.title) && r.company == c.company.GetOr(j.company)
    ensures r.risk == c.risk.GetOr(j.risk)
    ensures r.url == c.url.GetOr(j.url) && r.notes == c.notes.GetOr(j.notes)
  {
    Job(j.id, c.title.GetOr(j.title), c.company.GetOr(j.company), c.url.GetOr(j.url),
      c.risk.GetOr(j.risk), c.notes.GetOr(j.notes), j.createdAt, Some(now))
  }

  class JobsProvider {
    var items: seq<Job>
    /** Every list handed to `saveJobs`, oldest first (write failures are ignored). */
    var writes: seq<seq<Job>>

    /** Whenever something has been written, storage holds the current list. */
    ghost predicate Valid()
      reads this
    {
      writes != [] ==> writes[|writes| - 1] == items
    }

    constructor ()
      ensures Valid() && items == [] && writes == []
    {
      items, writes := [], [];
    }

    /**
     * The mount effect: `loadJobs` never throws and always yields an array, which
     * is truthy even when empty, so the loaded list is installed as it is.
     */
    method Load(loaded: seq<Job>)
      requires writes == []
      modifies this`items
      ensures Valid() && items == loaded
    {
      items := loaded;
    }

    /** `persist(next)`: install the list, then save that same list. */
    method Persist(next: seq<Job>)
      modifies this
      ensures Valid() && items == next && writes == old(writes) + [next]
    {
      items := next;
      writes := writes + [next];
    }

    /** `create(payload)`: `id` is the random base-36 id, `now` the clock. */
    method Create(d: Draft, id: string, now: int) returns (j: Job)
      modifies this
      ensures j == NewJob(d, id, now)
      ensures Valid() && items == [j] + old(items) && writes == old(writes) + [items]
    {
      j := NewJob(d, id, now);
      Persist([j] + items);
    }

    method Update(id: string, c: Changes, now: int)
      modifies this
      ensures Valid() && items == MapKey(old(items), JobId, id, j => Revise(j, c, now))
      ensures writes == old(writes) + [items]
    {
      Persist(MapKey(items, JobId, id, j => Revise(j, c, now)));
    }

    method Remove(id: string)
      modifies this
      ensures Valid() && items == RemoveKey(old(items), JobId, id)
      ensures writes == old(writes) + [items]
    {
      Persist(RemoveKey(items, JobId, id));
    }

    /** `getById(id)`: the first job with that id. */
    function GetById(id: string): (r: Option<Job>)
      reads this
      ensures r.None? <==> !KeyIn(items, JobId, id)
      ensures r.Some? ==> r.value in items && r.value.id == id
      ensures r.Some? ==>
        exists i :: (0 <= i < |items| && items[i] == r.value && forall j :: 0 <= j < i ==> items[j].id != id)
    {
      FindKey(items, JobId, id)
    }
  }

  // ---------------------------------------------------------------- properties

  /** A job just created is the one found under its id. */
  lemma CreateThenGet(items: seq<Job>, d: Draft, id: string, now: int)
    ensures FindKey([NewJob(d, id, now)] + items, JobId, id) == Some(NewJob(d, id, now))
  {
  }

  /** Removing a freshly created job with an unused id gives the old list back. */
  lemma CreateThenRemove(items: seq<Job>, d: Draft, id: string, now: int)
    requires !KeyIn(items, JobId, id)
    ensures RemoveKey([NewJob(d, id, now)] + items, JobId, id) == items
  {
    RemoveKeyAppend([NewJob(d, id, now)], items, JobId, id);
    RemoveKeyAbsent(items, JobId, id);
  }

  /** `update` keeps every id, every creation time, and the order of the list. */
  lemma UpdateKeepsIds(items: seq<Job>, id: string, c: Changes, now: int)
    ensures var r := MapKey(items, JobId, id, j => Revise(j, c, now));
      |r| == |items| &&
      (forall i :: 0 <= i < |r| ==> r[i].id == items[i].id && r[i].createdAt == items[i].createdAt) &&
      (forall i :: 0 <= i < |r| ==> (r[i] != items[i] ==> items[i].id == id))
  {
  }

  /** After `update`, the job found under the id is the first old one, revised. */
  lemma {:induction false} UpdateThenGet(items: seq<Job>, id: string, c: Changes, now: int)
    ensures FindKey(MapKey(items, JobId, id, j => Revise(j, c, now)), JobId, id) ==
      match FindKey(items, JobId, id)
      case None => None
      case Some(j) => Some(Revise(j, c, now))
    decreases |items|
  {
    if items != [] {
      var r := MapKey(items, JobId, id, j => Revise(j, c, now));
      assert r[1..] == MapKey(items[1..], JobId, id, j => Revise(j, c, now));
      UpdateThenGet(items[1..], id, c, now);
    }
  }
}

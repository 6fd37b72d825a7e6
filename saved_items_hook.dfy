/**
 * The `useSavedItems` hook of `src/store/savedItems.ts`: the older saved-analysis
 * list, loaded once on mount and written back to storage after every change once
 * loading has finished, whether or not it succeeded.
 */
module SavedItemsHook {
  import opened Common
  import opened Keyed
  import opened Verdicts
  import SavedItemsProvider

  /** The hook's record: `source` and `inputPreview` may be missing, `imageUri` may also be `null`. */
  datatype Entry = Entry(
    id: string,
    title: string,
    source: Option<SavedItemsProvider.Source>,
    inputPreview: Option<string>,
    imageUri: SavedItemsProvider.Nullable,
    score: int,
    verdict: Verdict,
    flags: seq<string>,
    createdAt: int)

  function EntryId(e: Entry): string { e.id }

  class SavedItems {
    var items: seq<Entry>
    var hydrated: bool
    /** Every list written to storage, oldest first. */
    var writes: seq<seq<Entry>>

    /** Nothing is written before hydration; afterwards storage holds the current list. */
    ghost predicate Valid()
      reads this
    {
      (!hydrated ==> writes == []) &&
      (hydrated ==> writes != [] && writes[|writes| - 1] == items)
    }

    constructor ()
      ensures Valid() && items == [] && !hydrated && writes == []
    {
      items, hydrated, writes := [], false, [];
    }

    /** The storage effect on `[items, hydrated]`: returns early until hydrated. */
    method Persist()
      modifies this`writes
      ensures writes == if hydrated then old(writes) + [items] else old(writes)
    {
      if hydrated {
        writes := writes + [items];
      }
    }

    /**
     * The mount effect. `loaded` is `Err` when reading or parsing throws, `Ok(None)`
     * when nothing (or an empty string) is stored. The `finally` block marks the
     * hook hydrated in every case; the error itself escapes the async function.
     */
    method Hydrate(loaded: Result<Option<seq<Entry>>, string>)
      requires Valid() && !hydrated
      modifies this
      ensures Valid() && hydrated
      ensures items == if loaded.Ok? && loaded.value.Some? then loaded.value.value else old(items)
      ensures writes == [items]
    {
      if loaded.Ok? && loaded.value.Some? {
        items := loaded.value.value;
      }
      hydrated := true;
      Persist();
    }

    method Add(entry: Entry)
      requires Valid()
      modifies this`items, this`writes
      ensures Valid() && items == [entry] + old(items)
      ensures writes == if hydrated then old(writes) + [items] else old(writes)
    {
      items := [entry] + items;
      Persist();
    }

    method Remove(id: string)
      requires Valid()
      modifies this`items, this`writes
      ensures Valid() && items == RemoveKey(old(items), EntryId, id)
      ensures writes == if hydrated then old(writes) + [items] else old(writes)
    {
      items := RemoveKey(items, EntryId, id);
      Persist();
    }

    method ClearAll()
      requires Valid()
      modifies this`items, this`writes
      ensures Valid() && items == []
      ensures writes == if hydrated then old(writes) + [[]] else old(writes)
    {
      items := [];
      Persist();
    }
  }

  /** Removing after adding an entry with that id leaves the list without the id, in order. */
  lemma AddThenRemove(items: seq<Entry>, entry: Entry)
    ensures RemoveKey([entry] + items, EntryId, entry.id) == RemoveKey(items, EntryId, entry.id)
  {
    RemoveKeyAppend([entry], items, EntryId, entry.id);
  }
}

/**
 * What the list-cache slices of the web client share: the records they
 * cache, keyed by `id`, and how unshift, replace-by-id and filter-delete
 * move the cached list against the server's `totalCount`.
 */
module ListCache {
  import opened Outcome
  import Js
  import opened Lists

  /** A cached record: its `id` (compared with ===) and its other properties as the server sent them. */
  datatype Entry = Entry(id: Js.Value, fields: Js.Object)

  function EntryKey(e: Entry): Js.Value { e.id }

  /** No two cached records share an id. */
  predicate IdsUnique(xs: seq<Entry>) {
    UniqueKeys(xs, EntryKey)
  }

  /**
   * Filter-delete of an id that is cached once, among unique ids, takes
   * exactly one record away, so the list shrinks with `totalCount`.
   */
  lemma DeleteCachedOnce(xs: seq<Entry>, id: Js.Value)
    requires IdsUnique(xs) && FindIndex(xs, EntryKey, id).Some?
    ensures |RemoveAll(xs, EntryKey, id)| == |xs| - 1
    ensures IdsUnique(RemoveAll(xs, EntryKey, id))
  {
    UniquePresentOccursOnce(xs, EntryKey, id);
    RemovePreservesUnique(xs, EntryKey, id);
  }

  /** Filter-delete of an id that is not cached leaves the list as it was. */
  lemma DeleteUncached(xs: seq<Entry>, id: Js.Value)
    requires FindIndex(xs, EntryKey, id).None?
    ensures RemoveAll(xs, EntryKey, id) == xs
  {
    RemoveAllAbsent(xs, EntryKey, id);
  }

  /**
   * A record cached more than once leaves the list all at once, while the
   * delete's `totalCount -= 1` takes one: a count that matched the list
   * ends up above it.
   */
  lemma DeleteRepeatedId(xs: seq<Entry>, id: Js.Value, totalCount: int)
    requires totalCount == |xs| && Occurrences(xs, EntryKey, id) >= 2
    ensures |RemoveAll(xs, EntryKey, id)| == totalCount - Occurrences(xs, EntryKey, id)
    ensures |RemoveAll(xs, EntryKey, id)| < totalCount - 1
  {
  }

  /** Replace-by-id and unshift of a new id keep the cached ids unique. */
  lemma CacheWritesKeepIdsUnique(xs: seq<Entry>, x: Entry)
    requires IdsUnique(xs)
    ensures IdsUnique(ReplaceFirst(xs, EntryKey, x.id, x))
    ensures FindIndex(xs, EntryKey, x.id).None? ==> IdsUnique([x] + xs) && IdsUnique(xs + [x])
  {
    ReplaceSameKeyKeepsUnique(xs, EntryKey, x.id, x);
    if FindIndex(xs, EntryKey, x.id).None? {
      AddFreshKeepsUnique(xs, EntryKey, x);
    }
  }
}

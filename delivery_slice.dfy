/**
 * The `deliveries` slice of the web client's store: the cached page of
 * deliveries with the server's `totalCount`, the request flags, and the
 * manifest flags. Each reducer is a method that updates the slice in place;
 * a thunk's result is the method's argument.
 */
module DeliverySlice {
  import opened Outcome
  import Js
  import opened Lists
  import opened ListCache

  /** The slice's fields, in the order of its initial state. */
  datatype DeliveryState = DeliveryState(
    deliveries: seq<Entry>,
    totalCount: int,
    currentPage: Js.Value,
    loading: bool,
    error: Js.Value,
    selectedDelivery: Js.Value,
    manifestGenerating: bool,
    manifestError: Js.Value)

  const InitialState := DeliveryState([], 0, Js.Num(1.0), false, Js.Null, Js.Null, false, Js.Null)

  class Slice {
    var deliveries: seq<Entry>
    var totalCount: int
    var currentPage: Js.Value
    var loading: bool
    var error: Js.Value
    var selectedDelivery: Js.Value
    var manifestGenerating: bool
    var manifestError: Js.Value

    function State(): DeliveryState
      reads this
    {
      DeliveryState(deliveries, totalCount, currentPage, loading, error, selectedDelivery, manifestGenerating, manifestError)
    }

    /** The cached deliveries have distinct ids. */
    ghost predicate Valid()
      reads this
    {
      IdsUnique(deliveries)
    }

    constructor ()
      ensures State() == InitialState && Valid()
    {
      deliveries := [];
      totalCount := 0;
      currentPage := Js.Num(1.0);
      loading := false;
      error := Js.Null;
      selectedDelivery := Js.Null;
      manifestGenerating := false;
      manifestError := Js.Null;
    }

    method SetCurrentPage(page: Js.Value)
      modifies this
      ensures State() == old(State()).(currentPage := page)
    {
      currentPage := page;
    }

    method SetSelectedDelivery(delivery: Js.Value)
      modifies this
      ensures State() == old(State()).(selectedDelivery := delivery)
    {
      selectedDelivery := delivery;
    }

    /** clearError: both error fields, nothing else. */
    method ClearError()
      modifies this
      ensures State() == old(State()).(error := Js.Null, manifestError := Js.Null)
    {
      error := Js.Null;
      manifestError := Js.Null;
    }

    /** The pending case of every list thunk (fetch, create, update, delete, status, assign). */
    method Pending()
      modifies this
      ensures State() == old(State()).(loading := true, error := Js.Null)
    {
      loading := true;
      error := Js.Null;
    }

    /** The rejected case of every list thunk: the thunk's rejection value becomes the error. */
    method Rejected(payload: Js.Value)
      modifies this
      ensures State() == old(State()).(loading := false, error := payload)
    {
      loading := false;
      error := payload;
    }

    /** fetchDeliveries fulfilled: the page and the count are the server's. */
    method FetchFulfilled(page: seq<Entry>, count: int)
      modifies this
      ensures State() == old(State()).(loading := false, deliveries := page, totalCount := count)
    {
      loading := false;
      deliveries := page;
      totalCount := count;
    }

    /** createDelivery fulfilled: the new delivery goes first and the count grows by one. */
    method CreateFulfilled(created: Entry)
      modifies this
      ensures State() == old(State()).(loading := false, deliveries := [created] + old(deliveries), totalCount := old(totalCount) + 1)
      ensures totalCount - |deliveries| == old(totalCount - |deliveries|)
      ensures old(Valid()) && FindIndex(old(deliveries), EntryKey, created.id).None? ==> Valid()
    {
      if IdsUnique(deliveries) {
        CacheWritesKeepIdsUnique(deliveries, created);
      }
      loading := false;
      deliveries := [created] + deliveries;
      totalCount := totalCount + 1;
    }

    /**
     * updateDelivery, updateDeliveryStatus and assignDriver fulfilled: the
     * returned delivery replaces the first cached one with its id; an
     * uncached id changes nothing but the flag.
     */
    method ReplaceFulfilled(updated: Entry)
      modifies this
      ensures State() == old(State()).(loading := false, deliveries := ReplaceFirst(old(deliveries), EntryKey, updated.id, updated))
      ensures |deliveries| == |old(deliveries)|
      ensures old(Valid()) ==> Valid()
    {
      if IdsUnique(deliveries) {
        CacheWritesKeepIdsUnique(deliveries, updated);
      }
      loading := false;
      var index := FindIndex(deliveries, EntryKey, updated.id);
      if index.Some? {
        deliveries := deliveries[index.value := updated];
      }
    }

    /**
     * deleteDelivery fulfilled: every cached delivery with the id goes, and
     * the count drops by one whatever number went.
     */
    method DeleteFulfilled(id: Js.Value)
      modifies this
      ensures State() == old(State()).(loading := false, deliveries := RemoveAll(old(deliveries), EntryKey, id), totalCount := old(totalCount) - 1)
      ensures old(Valid()) ==> Valid()
      ensures old(Valid()) && FindIndex(old(deliveries), EntryKey, id).Some? ==> totalCount - |deliveries| == old(totalCount - |deliveries|)
    {
      if IdsUnique(deliveries) {
        RemovePreservesUnique(deliveries, EntryKey, id);
        if FindIndex(deliveries, EntryKey, id).Some? {
          DeleteCachedOnce(deliveries, id);
        }
      }
      loading := false;
      deliveries := RemoveAll(deliveries, EntryKey, id);
      totalCount := totalCount - 1;
    }

    method ManifestPending()
      modifies this
      ensures State() == old(State()).(manifestGenerating := true, manifestError := Js.Null)
    {
      manifestGenerating := true;
      manifestError := Js.Null;
    }

    method ManifestFulfilled()
      modifies this
      ensures State() == old(State()).(manifestGenerating := false)
    {
      manifestGenerating := false;
    }

    method ManifestRejected(payload: Js.Value)
      modifies this
      ensures State() == old(State()).(manifestGenerating := false, manifestError := payload)
    {
      manifestGenerating := false;
      manifestError := payload;
    }
  }
}

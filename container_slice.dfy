/**
 * The `containers` slice of the web client's store: the cached page of
 * containers with the server's `totalCount`, the request flags, and the
 * history of one container with its own flags.
 */
module ContainerSlice {
  import opened Outcome
  import Js
  import opened Lists
  import opened ListCache

  datatype ContainerState = ContainerState(
    containers: seq<Entry>,
    totalCount: int,
    currentPage: Js.Value,
    loading: bool,
    error: Js.Value,
    selectedContainer: Js.Value,
    containerHistory: Js.Value,
    historyLoading: bool,
    historyError: Js.Value)

  const InitialState := ContainerState([], 0, Js.Num(1.0), false, Js.Null, Js.Null, Js.Arr([]), false, Js.Null)

  class Slice {
    var containers: seq<Entry>
    var totalCount: int
    var currentPage: Js.Value
    var loading: bool
    var error: Js.Value
    var selectedContainer: Js.Value
    var containerHistory: Js.Value
    var historyLoading: bool
    var historyError: Js.Value

    function State(): ContainerState
      reads this
    {
      ContainerState(containers, totalCount, currentPage, loading, error, selectedContainer,
                     containerHistory, historyLoading, historyError)
    }

    /** The cached containers have distinct ids. */
    ghost predicate Valid()
      reads this
    {
      IdsUnique(containers)
    }

    constructor ()
      ensures State() == InitialState && Valid()
    {
      containers := [];
      totalCount := 0;
      currentPage := Js.Num(1.0);
      loading := false;
      error := Js.Null;
      selectedContainer := Js.Null;
      containerHistory := Js.Arr([]);
      historyLoading := false;
      historyError := Js.Null;
    }

    method SetCurrentPage(page: Js.Value)
      modifies this
      ensures State() == old(State()).(currentPage := page)
    {
      currentPage := page;
    }

    method SetSelectedContainer(container: Js.Value)
      modifies this
      ensures State() == old(State()).(selectedContainer := container)
    {
      selectedContainer := container;
    }

    /** clearError: both error fields, nothing else. */
    method ClearError()
      modifies this
      ensures State() == old(State()).(error := Js.Null, historyError := Js.Null)
    {
      error := Js.Null;
      historyError := Js.Null;
    }

    /** The pending case of every list thunk (fetch, create, update, delete, assign). */
    method Pending()
      modifies this
      ensures State() == old(State()).(loading := true, error := Js.Null)
    {
      loading := true;
      error := Js.Null;
    }

    /** The rejected case of every list thunk. */
    method Rejected(payload: Js.Value)
      modifies this
      ensures State() == old(State()).(loading := false, error := payload)
    {
      loading := false;
      error := payload;
    }

    /** fetchContainers fulfilled: the page and the count are the server's. */
    method FetchFulfilled(page: seq<Entry>, count: int)
      modifies this
      ensures State() == old(State()).(loading := false, containers := page, totalCount := count)
    {
      loading := false;
      containers := page;
      totalCount := count;
    }

    /** createContainer fulfilled: the new container goes first and the count grows by one. */
    method CreateFulfilled(created: Entry)
      modifies this
      ensures State() == old(State()).(loading := false, containers := [created] + old(containers), totalCount := old(totalCount) + 1)
      ensures totalCount - |containers| == old(totalCount - |containers|)
      ensures old(Valid()) && FindIndex(old(containers), EntryKey, created.id).None? ==> Valid()
    {
      if IdsUnique(containers) {
        CacheWritesKeepIdsUnique(containers, created);
      }
      loading := false;
      containers := [created] + containers;
      totalCount := totalCount + 1;
    }

    /** updateContainer and assignContainer fulfilled: replace the first cached container with the id. */
    method ReplaceFulfilled(updated: Entry)
      modifies this
      ensures State() == old(State()).(loading := false, containers := ReplaceFirst(old(containers), EntryKey, updated.id, updated))
      ensures |containers| == |old(containers)|
      ensures old(Valid()) ==> Valid()
    {
      if IdsUnique(containers) {
        CacheWritesKeepIdsUnique(containers, updated);
      }
      loading := false;
      var index := FindIndex(containers, EntryKey, updated.id);
      if index.Some? {
        containers := containers[index.value := updated];
      }
    }

    /** deleteContainer fulfilled: filter out the id, count down by one. */
    method DeleteFulfilled(id: Js.Value)
      modifies this
      ensures State() == old(State()).(loading := false, containers := RemoveAll(old(containers), EntryKey, id), totalCount := old(totalCount) - 1)
      ensures old(Valid()) ==> Valid()
      ensures old(Valid()) && FindIndex(old(containers), EntryKey, id).Some? ==> totalCount - |containers| == old(totalCount - |containers|)
    {
      if IdsUnique(containers) {
        RemovePreservesUnique(containers, EntryKey, id);
        if FindIndex(containers, EntryKey, id).Some? {
          DeleteCachedOnce(containers, id);
        }
      }
      loading := false;
      containers := RemoveAll(containers, EntryKey, id);
      totalCount := totalCount - 1;
    }

    /** The history thunk touches only the history fields. */
    method HistoryPending()
      modifies this
      ensures State() == old(State()).(historyLoading := true, historyError := Js.Null)
    {
      historyLoading := true;
      historyError := Js.Null;
    }

    method HistoryFulfilled(history: Js.Value)
      modifies this
      ensures State() == old(State()).(historyLoading := false, containerHistory := history)
    {
      historyLoading := false;
      containerHistory := history;
    }

    method HistoryRejected(payload: Js.Value)
      modifies this
      ensures State() == old(State()).(historyLoading := false, historyError := payload)
    {
      historyLoading := false;
      historyError := payload;
    }
  }
}

/**
 * The `customers` slice of the web client's store: the cached page of
 * customers with the server's `totalCount` and the request flags.
 */
module CustomerSlice {
  import opened Outcome
  import Js
  import opened Lists
  import opened ListCache

  datatype CustomerState = CustomerState(
    customers: seq<Entry>,
    totalCount: int,
    currentPage: Js.Value,
    loading: bool,
    error: Js.Value,
    selectedCustomer: Js.Value)

  const InitialState := CustomerState([], 0, Js.Num(1.0), false, Js.Null, Js.Null)

  class Slice {
    var customers: seq<Entry>
    var totalCount: int
    var currentPage: Js.Value
    var loading: bool
    var error: Js.Value
    var selectedCustomer: Js.Value

    function State(): CustomerState
      reads this
    {
      CustomerState(customers, totalCount, currentPage, loading, error, selectedCustomer)
    }

    /** The cached customers have distinct ids. */
    ghost predicate Valid()
      reads this
    {
      IdsUnique(customers)
    }

    constructor ()
      ensures State() == InitialState && Valid()
    {
      customers := [];
      totalCount := 0;
      currentPage := Js.Num(1.0);
      loading := false;
      error := Js.Null;
      selectedCustomer := Js.Null;
    }

    method SetCurrentPage(page: Js.Value)
      modifies this
      ensures State() == old(State()).(currentPage := page)
    {
      currentPage := page;
    }

    method SetSelectedCustomer(customer: Js.Value)
      modifies this
      ensures State() == old(State()).(selectedCustomer := customer)
    {
      selectedCustomer := customer;
    }

    /** clearError: only `error`. */
    method ClearError()
      modifies this
      ensures State() == old(State()).(error := Js.Null)
    {
      error := Js.Null;
    }

    /** The pending case of every thunk (fetch, create, update, delete). */
    method Pending()
      modifies this
      ensures State() == old(State()).(loading := true, error := Js.Null)
    {
      loading := true;
      error := Js.Null;
    }

    /** The rejected case of every thunk. */
    method Rejected(payload: Js.Value)
      modifies this
      ensures State() == old(State()).(loading := false, error := payload)
    {
      loading := false;
      error := payload;
    }

    /** fetchCustomers fulfilled: the page and the count are the server's. */
    method FetchFulfilled(page: seq<Entry>, count: int)
      modifies this
      ensures State() == old(State()).(loading := false, customers := page, totalCount := count)
    {
      loading := false;
      customers := page;
      totalCount := count;
    }

    /** createCustomer fulfilled: the new customer goes first and the count grows by one. */
    method CreateFulfilled(created: Entry)
      modifies this
      ensures State() == old(State()).(loading := false, customers := [created] + old(customers), totalCount := old(totalCount) + 1)
      ensures totalCount - |customers| == old(totalCount - |customers|)
      ensures old(Valid()) && FindIndex(old(customers), EntryKey, created.id).None? ==> Valid()
    {
      if IdsUnique(customers) {
        CacheWritesKeepIdsUnique(customers, created);
      }
      loading := false;
      customers := [created] + customers;
      totalCount := totalCount + 1;
    }

    /** updateCustomer fulfilled: replace the first cached customer with the id. */
    method UpdateFulfilled(updated: Entry)
      modifies this
      ensures State() == old(State()).(loading := false, customers := ReplaceFirst(old(customers), EntryKey, updated.id, updated))
      ensures |customers| == |old(customers)|
      ensures old(Valid()) ==> Valid()
    {
      if IdsUnique(customers) {
        CacheWritesKeepIdsUnique(customers, updated);
      }
      loading := false;
      var index := FindIndex(customers, EntryKey, updated.id);
      if index.Some? {
        customers := customers[index.value := updated];
      }
    }

    /** deleteCustomer fulfilled: filter out the id, count down by one. */
    method DeleteFulfilled(id: Js.Value)
      modifies this
      ensures State() == old(State()).(loading := false, customers := RemoveAll(old(customers), EntryKey, id), totalCount := old(totalCount) - 1)
      ensures old(Valid()) ==> Valid()
      ensures old(Valid()) && FindIndex(old(customers), EntryKey, id).Some? ==> totalCount - |customers| == old(totalCount - |customers|)
    {
      if IdsUnique(customers) {
        RemovePreservesUnique(customers, EntryKey, id);
        if FindIndex(customers, EntryKey, id).Some? {
          DeleteCachedOnce(customers, id);
        }
      }
      loading := false;
      customers := RemoveAll(customers, EntryKey, id);
      totalCount := totalCount - 1;
    }
  }
}

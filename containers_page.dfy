/**
 * The containers page: the status colour and label, and the paging state
 * whose changes reload the list. The current page lives in the containers
 * slice; the rows per page, the search text and the status filter are the
 * page's own state.
 */
module ContainersPage {
  import Js
  import opened Outcome
  import opened Text
  import opened Words
  import ContainerSlice

  /** getStatusColor on this page: an exact-match switch, so letter case matters. */
  function StatusColor(status: string): (r: string)
    ensures r in {"success", "primary", "warning", "info", "error", "default"}
    ensures r == "default" <==> status !in {"available", "in_use", "maintenance", "cleaning", "damaged"}
  {
    if status == "available" then "success"
    else if status == "in_use" then "primary"
    else if status == "maintenance" then "warning"
    else if status == "cleaning" then "info"
    else if status == "damaged" then "error"
    else "default"
  }

  /** Apart from 'retired' and unknown values, each status has a colour of its own. */
  lemma StatusColorsDistinguish(a: string, b: string)
    requires StatusColor(a) != "default" && a != b
    ensures StatusColor(a) != StatusColor(b)
  {
  }

  function Identity(c: char): char { c }

  /** getStatusLabel: split on '_', capitalise each part, join with spaces. */
  function StatusLabel(status: string): string {
    Rewrite(status, '_', ' ', Upper, Identity)
  }

  /**
   * Read character by character: each '_' becomes a space, the first
   * character of each part is capitalised and the others are unchanged; so
   * the label is as long as the status and has no '_'.
   */
  lemma StatusLabelByCharacter(status: string)
    ensures |StatusLabel(status)| == |status|
    ensures forall i :: 0 <= i < |status| ==>
      StatusLabel(status)[i] == (if status[i] == '_' then ' '
                                 else if WordStart(status, '_', true, i) then Upper(status[i])
                                 else status[i])
    ensures '_' !in StatusLabel(status)
  {
    RewriteIsScan(status, '_', ' ', Upper, Identity);
    var r := StatusLabel(status);
    forall i | 0 <= i < |r|
      ensures r[i] != '_'
    {
      if status[i] != '_' && WordStart(status, '_', true, i) {
        assert !IsLower(status[i]) ==> Upper(status[i]) == status[i];
      }
    }
  }

  /** Labelling a label changes nothing. */
  lemma StatusLabelIdempotent(status: string)
    ensures StatusLabel(StatusLabel(status)) == StatusLabel(status)
  {
    var t := StatusLabel(status);
    StatusLabelByCharacter(status);
    StatusLabelByCharacter(t);
    forall i | 0 <= i < |t|
      ensures StatusLabel(t)[i] == t[i]
    {
      if i == 0 {
        assert !IsLower(t[0]);
      }
    }
  }

  /** The request the page sends whenever one of its inputs changes. */
  datatype FetchQuery = FetchQuery(page: Js.Value, limit: Option<int>, search: string, status: string)

  class Page {
    const store: ContainerSlice.Slice
    /** `parseInt` of the selected option; None is NaN. */
    var rowsPerPage: Option<int>
    var searchQuery: string
    var statusFilter: string

    constructor (store: ContainerSlice.Slice)
      ensures this.store == store
      ensures rowsPerPage == Some(10) && searchQuery == "" && statusFilter == ""
    {
      this.store := store;
      rowsPerPage := Some(10);
      searchQuery := "";
      statusFilter := "";
    }

    /** loadContainers: the current page, the page size, the search text and the status filter. */
    function Query(): FetchQuery
      reads this, store
    {
      FetchQuery(store.currentPage, rowsPerPage, searchQuery, statusFilter)
    }

    /** The zero-based page the table shows: `currentPage - 1`; None is NaN. */
    function TablePage(): (p: Option<real>)
      reads store
    {
      var n := Js.ToNumber(store.currentPage);
      if n.Some? then Some(n.value - 1.0) else None
    }

    /** handleChangePage: the table's zero-based page is stored one-based, and the table shows it back. */
    method ChangePage(newPage: nat)
      modifies store
      ensures store.State() == old(store.State()).(currentPage := Js.Num(newPage as real + 1.0))
      ensures TablePage() == Some(newPage as real)
    {
      store.SetCurrentPage(Js.Num(newPage as real + 1.0));
    }

    /** handleChangeRowsPerPage: a new page size, and back to page 1. */
    method ChangeRowsPerPage(value: string)
      modifies this, store
      ensures store.State() == old(store.State()).(currentPage := Js.Num(1.0))
      ensures Query() == FetchQuery(Js.Num(1.0), Js.ParseInt(value), old(searchQuery), old(statusFilter))
    {
      rowsPerPage := Js.ParseInt(value);
      store.SetCurrentPage(Js.Num(1.0));
    }

    /** handleSearchChange: a new search text, and back to page 1. */
    method SearchChange(value: string)
      modifies this, store
      ensures store.State() == old(store.State()).(currentPage := Js.Num(1.0))
      ensures Query() == FetchQuery(Js.Num(1.0), old(rowsPerPage), value, old(statusFilter))
    {
      searchQuery := value;
      store.SetCurrentPage(Js.Num(1.0));
    }

    /** handleStatusFilterChange: a new status filter, and back to page 1. */
    method StatusFilterChange(value: string)
      modifies this, store
      ensures store.State() == old(store.State()).(currentPage := Js.Num(1.0))
      ensures Query() == FetchQuery(Js.Num(1.0), old(rowsPerPage), old(searchQuery), value)
    {
      statusFilter := value;
      store.SetCurrentPage(Js.Num(1.0));
    }
  }
}

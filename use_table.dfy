/**
 * The table hook of the web client: the rows it shows (filtered, sorted and
 * cut into pages) as pure functions of the data and the hook's state, and
 * the hook's state (page, rows per page, sort, filters, selection) as a
 * class whose handlers update it.
 */
module TableView {
  import Js
  import opened Outcome
  import opened Text
  import opened Arith
  import opened Lists

  datatype Direction = Asc | Desc

  /** `{ field, direction }`; an empty field means no sorting. */
  datatype SortConfig = SortConfig(field: string, direction: Direction)

  /** The filters object as its entries, in `Object.keys` order. */
  type Filters = seq<(string, Js.Value)>

  /** A rows-per-page setting: a positive whole number. */
  type RowsPerPage = n: nat | n > 0 witness 1

  // ---------------------------------------------------------------------
  // Filtering

  /**
   * One filter on one row: a string filter is a case-insensitive substring
   * of the row's value, any other filter must equal it. None when the row's
   * value is not a string but the filter is, where `toLowerCase` throws.
   */
  function Passes(row: Js.Object, key: string, filterValue: Js.Value): (r: Option<bool>)
    ensures r.None? <==> filterValue.Str? && !Js.Get(row, key).Str?
    ensures r == Some(true) && filterValue.Str? ==> Contains(LowerAll(Js.Get(row, key).s), LowerAll(filterValue.s))
    ensures r == Some(true) && !filterValue.Str? ==> Js.Get(row, key) == filterValue
  {
    var rowValue := Js.Get(row, key);
    if filterValue.Str? then
      if rowValue.Str? then Some(Contains(LowerAll(rowValue.s), LowerAll(filterValue.s))) else None
    else Some(rowValue == filterValue)
  }

  /** The test one filter applies, as a function value. */
  function PassesAt(key: string, filterValue: Js.Value): Js.Object -> bool {
    row => Passes(row, key, filterValue) == Some(true)
  }

  /** `result.filter(...)` for one filter: the rows that pass, in order, or None when a row throws. */
  function FilterBy(rows: seq<Js.Object>, key: string, filterValue: Js.Value): (r: Option<seq<Js.Object>>)
    ensures r.None? <==> exists i :: 0 <= i < |rows| && Passes(rows[i], key, filterValue).None?
    ensures r.Some? ==> forall x :: x in r.value <==> x in rows && Passes(x, key, filterValue) == Some(true)
    ensures r.Some? ==> r.value == Filter(rows, PassesAt(key, filterValue))
    decreases |rows|
  {
    if rows == [] then Some([])
    else
      var head := Passes(rows[0], key, filterValue);
      var rest := FilterBy(rows[1..], key, filterValue);
      if head.None? then None
      else if rest.None? then
        assert exists i :: 0 <= i < |rows[1..]| && Passes(rows[1..][i], key, filterValue).None?;
        None
      else
        assert forall x :: x in rows <==> x == rows[0] || x in rows[1..];
        if head.value then Some([rows[0]] + rest.value)
        else
          assert [] + rest.value == rest.value;
          rest
  }

  /** A filter entry applies to a row when the filter value is truthy. */
  predicate Active(entry: (string, Js.Value)) { Js.Truthy(entry.1) }

  /** The row would make a string filter throw. */
  predicate Throws(row: Js.Object, entry: (string, Js.Value)) {
    Active(entry) && entry.1.Str? && !Js.Get(row, entry.0).Str?
  }

  /** The row passes a filter entry (inactive entries pass every row). */
  predicate Admits(row: Js.Object, entry: (string, Js.Value)) {
    !Active(entry) || Passes(row, entry.0, entry.1) == Some(true)
  }

  /** The row passes every filter entry. */
  function AdmitsAll(filters: Filters): Js.Object -> bool {
    row => forall j :: 0 <= j < |filters| ==> Admits(row, filters[j])
  }

  /**
   * The filter step of `processedData`: every truthy filter in key order.
   * A row is kept iff it passes all of them; None when a row reaches a
   * string filter with a value that is not a string.
   */
  function ApplyFilters(rows: seq<Js.Object>, filters: Filters): (r: Option<seq<Js.Object>>)
    ensures r.Some? ==> forall x :: x in r.value <==> x in rows && forall j :: 0 <= j < |filters| ==> Admits(x, filters[j])
    ensures r.Some? ==> r.value == Filter(rows, AdmitsAll(filters))
    ensures r.None? ==> exists x, j :: x in rows && 0 <= j < |filters| && Throws(x, filters[j])
    ensures (forall x, j :: x in rows && 0 <= j < |filters| ==> !Throws(x, filters[j])) ==> r.Some?
    decreases |filters|
  {
    if filters == [] then
      FilterAll(rows, AdmitsAll(filters));
      Some(rows)
    else if !Active(filters[0]) then
      var r := ApplyFilters(rows, filters[1..]);
      ShiftFilters(rows, filters, r);
      AdmitsAllShift(rows, filters);
      r
    else
      var once := FilterBy(rows, filters[0].0, filters[0].1);
      if once.None? then
        var i :| 0 <= i < |rows| && Passes(rows[i], filters[0].0, filters[0].1).None?;
        assert rows[i] in rows && Throws(rows[i], filters[0]);
        None
      else
        var r := ApplyFilters(once.value, filters[1..]);
        NarrowFilters(rows, filters, once.value, r);
        AdmitsAllNarrow(rows, filters);
        r
  }

  /** An inactive first filter leaves the test to the remaining ones. */
  lemma AdmitsAllShift(rows: seq<Js.Object>, filters: Filters)
    requires filters != [] && !Active(filters[0])
    ensures Filter(rows, AdmitsAll(filters[1..])) == Filter(rows, AdmitsAll(filters))
  {
    forall k | 0 <= k < |rows| ensures AdmitsAll(filters[1..])(rows[k]) == AdmitsAll(filters)(rows[k]) {
      var x := rows[k];
      if AdmitsAll(filters[1..])(x) {
        forall j | 0 <= j < |filters| ensures Admits(x, filters[j]) {
          if j > 0 { assert filters[j] == filters[1..][j - 1]; }
        }
      }
      if AdmitsAll(filters)(x) {
        forall j | 0 <= j < |filters[1..]| ensures Admits(x, filters[1..][j]) {
          assert filters[1..][j] == filters[j + 1];
        }
      }
    }
    FilterCongruent(rows, AdmitsAll(filters[1..]), AdmitsAll(filters));
  }

  /** An active first filter followed by the remaining ones is the test of all of them. */
  lemma AdmitsAllNarrow(rows: seq<Js.Object>, filters: Filters)
    requires filters != [] && Active(filters[0])
    ensures Filter(Filter(rows, PassesAt(filters[0].0, filters[0].1)), AdmitsAll(filters[1..])) == Filter(rows, AdmitsAll(filters))
  {
    var first, rest, all := PassesAt(filters[0].0, filters[0].1), AdmitsAll(filters[1..]), AdmitsAll(filters);
    forall k | 0 <= k < |rows| ensures all(rows[k]) == (first(rows[k]) && rest(rows[k])) {
      var x := rows[k];
      if first(x) && rest(x) {
        forall j | 0 <= j < |filters| ensures Admits(x, filters[j]) {
          if j > 0 { assert filters[j] == filters[1..][j - 1]; }
        }
      }
      if all(x) {
        assert Admits(x, filters[0]);
        forall j | 0 <= j < |filters[1..]| ensures Admits(x, filters[1..][j]) {
          assert filters[1..][j] == filters[j + 1];
        }
      }
    }
    FilterFilter(rows, first, rest, all);
  }

  /** An inactive first filter leaves the result to the remaining ones. */
  lemma ShiftFilters(rows: seq<Js.Object>, filters: Filters, r: Option<seq<Js.Object>>)
    requires filters != [] && !Active(filters[0])
    requires r.Some? ==> forall x :: x in r.value <==> x in rows && forall j :: 0 <= j < |filters[1..]| ==> Admits(x, filters[1..][j])
    requires r.None? ==> exists x, j :: x in rows && 0 <= j < |filters[1..]| && Throws(x, filters[1..][j])
    requires (forall x, j :: x in rows && 0 <= j < |filters[1..]| ==> !Throws(x, filters[1..][j])) ==> r.Some?
    ensures r.Some? ==> forall x :: x in r.value <==> x in rows && forall j :: 0 <= j < |filters| ==> Admits(x, filters[j])
    ensures r.None? ==> exists x, j :: x in rows && 0 <= j < |filters| && Throws(x, filters[j])
    ensures (forall x, j :: x in rows && 0 <= j < |filters| ==> !Throws(x, filters[j])) ==> r.Some?
  {
    if r.Some? {
      forall x ensures x in r.value <==> x in rows && forall j :: 0 <= j < |filters| ==> Admits(x, filters[j]) {
        if x in rows && (forall j :: 0 <= j < |filters[1..]| ==> Admits(x, filters[1..][j])) {
          forall j | 0 <= j < |filters| ensures Admits(x, filters[j]) {
            if j > 0 { assert filters[j] == filters[1..][j - 1]; }
          }
        }
        if x in rows && (forall j :: 0 <= j < |filters| ==> Admits(x, filters[j])) {
          forall j | 0 <= j < |filters[1..]| ensures Admits(x, filters[1..][j]) {
            assert filters[1..][j] == filters[j + 1];
          }
        }
      }
    } else {
      var x, j :| x in rows && 0 <= j < |filters[1..]| && Throws(x, filters[1..][j]);
      assert Throws(x, filters[j + 1]);
    }
    if forall x, j :: x in rows && 0 <= j < |filters| ==> !Throws(x, filters[j]) {
      forall x, j | x in rows && 0 <= j < |filters[1..]| ensures !Throws(x, filters[1..][j]) {
        assert filters[1..][j] == filters[j + 1];
      }
    }
  }

  /** An active first filter narrows the rows the remaining filters see. */
  lemma NarrowFilters(rows: seq<Js.Object>, filters: Filters, once: seq<Js.Object>, r: Option<seq<Js.Object>>)
    requires filters != [] && Active(filters[0])
    requires forall x :: x in once <==> x in rows && Passes(x, filters[0].0, filters[0].1) == Some(true)
    requires forall i :: 0 <= i < |rows| ==> Passes(rows[i], filters[0].0, filters[0].1).Some?
    requires r.Some? ==> forall x :: x in r.value <==> x in once && forall j :: 0 <= j < |filters[1..]| ==> Admits(x, filters[1..][j])
    requires r.None? ==> exists x, j :: x in once && 0 <= j < |filters[1..]| && Throws(x, filters[1..][j])
    requires (forall x, j :: x in once && 0 <= j < |filters[1..]| ==> !Throws(x, filters[1..][j])) ==> r.Some?
    ensures r.Some? ==> forall x :: x in r.value <==> x in rows && forall j :: 0 <= j < |filters| ==> Admits(x, filters[j])
    ensures r.None? ==> exists x, j :: x in rows && 0 <= j < |filters| && Throws(x, filters[j])
    ensures (forall x, j :: x in rows && 0 <= j < |filters| ==> !Throws(x, filters[j])) ==> r.Some?
  {
    if r.Some? {
      forall x ensures x in r.value <==> x in rows && forall j :: 0 <= j < |filters| ==> Admits(x, filters[j]) {
        if x in once && (forall j :: 0 <= j < |filters[1..]| ==> Admits(x, filters[1..][j])) {
          forall j | 0 <= j < |filters| ensures Admits(x, filters[j]) {
            if j > 0 { assert filters[j] == filters[1..][j - 1]; }
          }
        }
        if x in rows && (forall j :: 0 <= j < |filters| ==> Admits(x, filters[j])) {
          assert Admits(x, filters[0]);
          forall j | 0 <= j < |filters[1..]| ensures Admits(x, filters[1..][j]) {
            assert filters[1..][j] == filters[j + 1];
          }
        }
      }
    } else {
      var x, j :| x in once && 0 <= j < |filters[1..]| && Throws(x, filters[1..][j]);
      assert Throws(x, filters[j + 1]);
    }
    if forall x, j :: x in rows && 0 <= j < |filters| ==> !Throws(x, filters[j]) {
      forall x, j | x in once && 0 <= j < |filters[1..]| ensures !Throws(x, filters[1..][j]) {
        assert filters[1..][j] == filters[j + 1];
      }
    }
  }

  // ---------------------------------------------------------------------
  // Sorting

  /** The comparator: 0 for `===` values, -1 when `a < b`, 1 otherwise. */
  function Compare(a: Js.Value, b: Js.Value): (c: int)
    ensures c == 0 <==> a == b
    ensures c == -1 <==> a != b && Js.ValueLess(a, b)
    ensures -1 <= c <= 1
  {
    if a == b then 0 else if Js.ValueLess(a, b) then -1 else 1
  }

  /** The comparator, negated for a descending sort, is below zero: `x` sorts before `y`. */
  predicate Earlier(x: Js.Object, y: Js.Object, config: SortConfig) {
    var c := Compare(Js.Get(x, config.field), Js.Get(y, config.field));
    (if config.direction == Asc then c else -c) < 0
  }

  /** No row is out of order with a row placed after it. */
  predicate Sorted(rows: seq<Js.Object>, config: SortConfig) {
    forall i, j :: 0 <= i < j < |rows| ==> !Earlier(rows[j], rows[i], config)
  }

  /** The comparator orders the rows consistently: `Earlier` is transitive on them. */
  predicate Consistent(rows: seq<Js.Object>, config: SortConfig) {
    forall a, b, c :: a in rows && b in rows && c in rows && Earlier(a, b, config) && Earlier(b, c, config) ==> Earlier(a, c, config)
  }

  /** Stable insertion: the row goes after every row that does not sort after it. */
  function Insert(x: Js.Object, sorted: seq<Js.Object>, config: SortConfig): (r: seq<Js.Object>)
    ensures multiset(r) == multiset(sorted) + multiset{x}
    ensures forall k :: 0 <= k < |r| ==> r[k] == x || r[k] in sorted
    decreases |sorted|
  {
    if sorted == [] then [x]
    else if Earlier(x, sorted[0], config) then [x] + sorted
    else
      var rest := Insert(x, sorted[1..], config);
      assert sorted == [sorted[0]] + sorted[1..];
      [sorted[0]] + rest
  }

  /** `result.sort(comparator)`, as a stable sort: a permutation of the rows. */
  function SortRows(rows: seq<Js.Object>, config: SortConfig): (r: seq<Js.Object>)
    ensures multiset(r) == multiset(rows)
    decreases |rows|
  {
    if rows == [] then []
    else
      var last := |rows| - 1;
      assert rows == rows[..last] + [rows[last]];
      Insert(rows[last], SortRows(rows[..last], config), config)
  }

  lemma {:induction false} InsertSorted(x: Js.Object, sorted: seq<Js.Object>, config: SortConfig)
    requires Sorted(sorted, config)
    requires Consistent(sorted + [x], config)
    ensures Sorted(Insert(x, sorted, config), config)
    decreases |sorted|
  {
    if sorted == [] {
    } else if Earlier(x, sorted[0], config) {
      InsertFrontSorted(x, sorted, config);
    } else {
      var tail := sorted[1..];
      assert Consistent(tail + [x], config) by {
        assert forall a :: a in tail + [x] ==> a in sorted + [x];
      }
      InsertSorted(x, tail, config);
      var rest := Insert(x, tail, config);
      forall k | 0 <= k < |rest| ensures !Earlier(rest[k], sorted[0], config) {
        if rest[k] != x {
          var m :| 0 <= m < |tail| && tail[m] == rest[k];
          assert sorted[m + 1] == rest[k];
        }
      }
      ConsSorted(sorted[0], rest, config);
    }
  }

  /** A row that sorts before the first of sorted rows can go in front of them. */
  lemma InsertFrontSorted(x: Js.Object, sorted: seq<Js.Object>, config: SortConfig)
    requires sorted != [] && Earlier(x, sorted[0], config)
    requires Sorted(sorted, config)
    requires Consistent(sorted + [x], config)
    ensures Sorted([x] + sorted, config)
  {
    forall k | 0 <= k < |sorted| ensures !Earlier(sorted[k], x, config) {
      if Earlier(sorted[k], x, config) {
        assert sorted[k] in sorted + [x] && sorted[0] in sorted + [x] && x in sorted + [x];
        assert Earlier(sorted[k], sorted[0], config);
        IrreflexiveEarlier(sorted[0], config);
      }
    }
    ConsSorted(x, sorted, config);
  }

  /** A row that no sorted row sorts before can go in front of them. */
  lemma ConsSorted(y: Js.Object, rest: seq<Js.Object>, config: SortConfig)
    requires Sorted(rest, config)
    requires forall k :: 0 <= k < |rest| ==> !Earlier(rest[k], y, config)
    ensures Sorted([y] + rest, config)
  {
    var r := [y] + rest;
    forall i, j | 0 <= i < j < |r| ensures !Earlier(r[j], r[i], config) {
      if i > 0 {
        assert r[i] == rest[i - 1] && r[j] == rest[j - 1];
      } else {
        assert r[j] == rest[j - 1];
      }
    }
  }

  lemma IrreflexiveEarlier(x: Js.Object, config: SortConfig)
    ensures !Earlier(x, x, config)
  {
  }

  /** With a consistent comparator the sorted rows are in order. */
  lemma {:induction false} SortRowsSorted(rows: seq<Js.Object>, config: SortConfig)
    requires Consistent(rows, config)
    ensures Sorted(SortRows(rows, config), config)
    decreases |rows|
  {
    if rows != [] {
      var last := |rows| - 1;
      var prefix := rows[..last];
      assert Consistent(prefix, config) by {
        assert forall a :: a in prefix ==> a in rows;
      }
      SortRowsSorted(prefix, config);
      var sortedPrefix := SortRows(prefix, config);
      assert Consistent(sortedPrefix + [rows[last]], config) by {
        forall a | a in sortedPrefix + [rows[last]] ensures a in rows {
          if a != rows[last] {
            assert a in multiset(sortedPrefix);
            assert a in multiset(prefix);
          }
        }
      }
      InsertSorted(rows[last], sortedPrefix, config);
    }
  }

  /** `a` is a number not above the number `b`. */
  predicate NumAtMost(a: Js.Value, b: Js.Value) { a.Num? && b.Num? && a.n <= b.n }

  /** `a` is a string that does not come after the string `b`. */
  predicate StrAtMost(a: Js.Value, b: Js.Value) { a.Str? && b.Str? && !Js.StrLess(b.s, a.s) }

  /** On number sort values the comparator says: smaller first, or larger first when descending. */
  lemma EarlierOnNumbers(x: Js.Object, y: Js.Object, config: SortConfig)
    requires Js.Get(x, config.field).Num? && Js.Get(y, config.field).Num?
    ensures var a, b := Js.Get(x, config.field).n, Js.Get(y, config.field).n;
      Earlier(x, y, config) <==> (if config.direction == Asc then a < b else b < a)
  {
  }

  /** On string sort values the comparator says: string order, reversed when descending. */
  lemma EarlierOnStrings(x: Js.Object, y: Js.Object, config: SortConfig)
    requires Js.Get(x, config.field).Str? && Js.Get(y, config.field).Str?
    ensures var a, b := Js.Get(x, config.field).s, Js.Get(y, config.field).s;
      Earlier(x, y, config) <==> (if config.direction == Asc then Js.StrLess(a, b) else Js.StrLess(b, a))
  {
    var a, b := Js.Get(x, config.field).s, Js.Get(y, config.field).s;
    Js.StrLessIrreflexive(a);
    if a != b {
      Js.StrLessTotal(a, b);
      if Js.StrLess(a, b) && Js.StrLess(b, a) {
        Js.StrLessTransitive(a, b, a);
      }
    }
  }

  /** When every row's sort value is a number, the rows come out by number, ascending or descending. */
  lemma NumbersSortByValue(rows: seq<Js.Object>, config: SortConfig)
    requires forall x :: x in rows ==> Js.Get(x, config.field).Num?
    ensures var r := SortRows(rows, config);
      forall i, j :: 0 <= i < j < |r| ==>
        (if config.direction == Asc then NumAtMost(Js.Get(r[i], config.field), Js.Get(r[j], config.field))
         else NumAtMost(Js.Get(r[j], config.field), Js.Get(r[i], config.field)))
  {
    forall a, b, c | a in rows && b in rows && c in rows && Earlier(a, b, config) && Earlier(b, c, config)
      ensures Earlier(a, c, config)
    {
      EarlierOnNumbers(a, b, config);
      EarlierOnNumbers(b, c, config);
      EarlierOnNumbers(a, c, config);
    }
    SortRowsSorted(rows, config);
    var r := SortRows(rows, config);
    forall i, j | 0 <= i < j < |r|
      ensures if config.direction == Asc then NumAtMost(Js.Get(r[i], config.field), Js.Get(r[j], config.field))
              else NumAtMost(Js.Get(r[j], config.field), Js.Get(r[i], config.field))
    {
      assert r[i] in multiset(rows) && r[j] in multiset(rows);
      EarlierOnNumbers(r[j], r[i], config);
    }
  }

  /** When every row's sort value is a string, the rows come out in string order, ascending or descending. */
  lemma StringsSortByValue(rows: seq<Js.Object>, config: SortConfig)
    requires forall x :: x in rows ==> Js.Get(x, config.field).Str?
    ensures var r := SortRows(rows, config);
      forall i, j :: 0 <= i < j < |r| ==>
        (if config.direction == Asc then StrAtMost(Js.Get(r[i], config.field), Js.Get(r[j], config.field))
         else StrAtMost(Js.Get(r[j], config.field), Js.Get(r[i], config.field)))
  {
    forall a, b, c | a in rows && b in rows && c in rows && Earlier(a, b, config) && Earlier(b, c, config)
      ensures Earlier(a, c, config)
    {
      EarlierOnStrings(a, b, config);
      EarlierOnStrings(b, c, config);
      EarlierOnStrings(a, c, config);
      var ka, kb, kc := Js.Get(a, config.field).s, Js.Get(b, config.field).s, Js.Get(c, config.field).s;
      if config.direction == Asc {
        Js.StrLessTransitive(ka, kb, kc);
      } else {
        Js.StrLessTransitive(kc, kb, ka);
      }
    }
    SortRowsSorted(rows, config);
    var r := SortRows(rows, config);
    forall i, j | 0 <= i < j < |r|
      ensures if config.direction == Asc then StrAtMost(Js.Get(r[i], config.field), Js.Get(r[j], config.field))
              else StrAtMost(Js.Get(r[j], config.field), Js.Get(r[i], config.field))
    {
      assert r[i] in multiset(rows) && r[j] in multiset(rows);
      EarlierOnStrings(r[j], r[i], config);
    }
  }

  /**
   * `processedData`: the filtered rows, sorted when a sort field is set.
   * None when filtering throws.
   */
  function Processed(data: seq<Js.Object>, filters: Filters, config: SortConfig): (r: Option<seq<Js.Object>>)
    ensures r.Some? <==> ApplyFilters(data, filters).Some?
    ensures r.Some? ==> multiset(r.value) == multiset(Filter(data, AdmitsAll(filters)))
    ensures r.Some? && config.field == "" ==> r.value == Filter(data, AdmitsAll(filters))
    ensures r.Some? ==> forall x :: x in r.value <==> x in data && forall j :: 0 <= j < |filters| ==> Admits(x, filters[j])
  {
    var filtered := ApplyFilters(data, filters);
    if filtered.None? then None
    else
      var rows := filtered.value;
      var sorted := if config.field != "" then SortRows(rows, config) else rows;
      assert forall x :: x in sorted <==> x in multiset(sorted);
      assert forall x :: x in rows <==> x in multiset(rows);
      Some(sorted)
  }

  // ---------------------------------------------------------------------
  // Pagination

  /** `processedData.slice(page * rowsPerPage, page * rowsPerPage + rowsPerPage)`. */
  function PageView(rows: seq<Js.Object>, page: nat, rowsPerPage: RowsPerPage): (r: seq<Js.Object>)
    ensures |r| <= rowsPerPage
    ensures page * rowsPerPage < |rows| ==> |r| == (if |rows| - page * rowsPerPage < rowsPerPage then |rows| - page * rowsPerPage else rowsPerPage)
    ensures page * rowsPerPage >= |rows| ==> r == []
    ensures forall k :: 0 <= k < |r| ==> page * rowsPerPage + k < |rows| && r[k] == rows[page * rowsPerPage + k]
  {
    var start := page * rowsPerPage;
    if start >= |rows| then []
    else if start + rowsPerPage <= |rows| then rows[start..start + rowsPerPage]
    else rows[start..]
  }

  /** `Math.ceil(processedData.length / rowsPerPage)`. */
  function TotalPages(count: nat, rowsPerPage: RowsPerPage): (pages: nat)
    ensures (pages - 1) * rowsPerPage < count <= pages * rowsPerPage
  {
    CeilDivNonNegative(count, rowsPerPage);
    CeilDiv(count, rowsPerPage)
  }

  /** A page shows rows exactly when it is below the page count. */
  lemma PageNonEmptyIffInRange(rows: seq<Js.Object>, page: nat, rowsPerPage: RowsPerPage)
    ensures |PageView(rows, page, rowsPerPage)| > 0 <==> page < TotalPages(|rows|, rowsPerPage)
  {
    var pages := TotalPages(|rows|, rowsPerPage);
    if page < pages {
      MulMonotone(page, pages - 1, rowsPerPage);
    } else {
      MulMonotone(pages, page, rowsPerPage);
    }
  }

  /** Every row is on exactly one page: the one its index divided by the page size names. */
  lemma EveryRowOnItsPage(rows: seq<Js.Object>, i: nat, rowsPerPage: RowsPerPage)
    requires i < |rows|
    ensures var page := i / rowsPerPage;
      page < TotalPages(|rows|, rowsPerPage) &&
      PageView(rows, page, rowsPerPage)[i % rowsPerPage] == rows[i]
  {
    var page := i / rowsPerPage;
    assert page * rowsPerPage + i % rowsPerPage == i;
    PageNonEmptyIffInRange(rows, page, rowsPerPage);
  }

  /** The page-reset effect: a page at or past the page count falls back to the last page, or 0. */
  function ClampedPage(page: nat, totalPages: nat): (r: nat)
    ensures page < totalPages ==> r == page
    ensures page >= totalPages ==> r == (if totalPages == 0 then 0 else totalPages - 1)
    ensures r < totalPages || (totalPages == 0 && r == 0)
  {
    if page >= totalPages then (if totalPages > 1 then totalPages - 1 else 0) else page
  }

  /** After the reset, a non-empty table shows a non-empty page. */
  lemma ClampedPageShowsRows(rows: seq<Js.Object>, page: nat, rowsPerPage: RowsPerPage)
    requires |rows| > 0
    ensures |PageView(rows, ClampedPage(page, TotalPages(|rows|, rowsPerPage)), rowsPerPage)| > 0
  {
    PageNonEmptyIffInRange(rows, ClampedPage(page, TotalPages(|rows|, rowsPerPage)), rowsPerPage);
  }

  // ---------------------------------------------------------------------
  // Sorting, filtering and selection state

  /** The `setSortConfig` updater of `handleSort`. */
  function NextSort(prev: SortConfig, field: string): (r: SortConfig)
    ensures r.field == field
    ensures r.direction == Desc <==> prev.field == field && prev.direction == Asc
  {
    SortConfig(field, if prev.field == field && prev.direction == Asc then Desc else Asc)
  }

  /** Clicking the same column again always flips the direction, and a new column starts ascending. */
  lemma SortClicksAlternate(prev: SortConfig, field: string)
    ensures NextSort(NextSort(prev, field), field).direction != NextSort(prev, field).direction
    ensures prev.field != field ==> NextSort(prev, field).direction == Asc
  {
  }

  /** The value of a filter key, as the filters object reads it. */
  function Lookup(filters: Filters, key: string): (r: Option<Js.Value>)
    ensures r.None? <==> forall j :: 0 <= j < |filters| ==> filters[j].0 != key
    ensures r.Some? ==> (key, r.value) in filters
    decreases |filters|
  {
    if filters == [] then None
    else if filters[0].0 == key then Some(filters[0].1)
    else
      assert forall e :: e in filters[1..] ==> e in filters;
      Lookup(filters[1..], key)
  }

  /** No key appears twice. */
  predicate DistinctKeys(filters: Filters) {
    forall i, j :: 0 <= i < j < |filters| ==> filters[i].0 != filters[j].0
  }

  /** Among distinct keys, the entry holding a key is the one the lookup finds. */
  lemma {:induction false} LookupDistinct(filters: Filters, key: string, j: nat)
    requires DistinctKeys(filters) && j < |filters| && filters[j].0 == key
    ensures Lookup(filters, key) == Some(filters[j].1)
    decreases |filters|
  {
    if j > 0 {
      assert DistinctKeys(filters[1..]);
      LookupDistinct(filters[1..], key, j - 1);
    }
  }

  /** The `setFilters` updater of `handleFilter`, `{...prev, [field]: value}`: a known key keeps its place, a new one goes last. */
  function SetFilter(filters: Filters, field: string, value: Js.Value): (r: Filters)
    ensures |r| == |filters| + (if Lookup(filters, field).None? then 1 else 0)
  {
    if Lookup(filters, field).None? then filters + [(field, value)]
    else seq(|filters|, j requires 0 <= j < |filters| => if filters[j].0 == field then (field, value) else filters[j])
  }

  /** Setting a filter gives that key the value, leaves the other keys alone and keeps keys distinct. */
  lemma SetFilterLookup(filters: Filters, field: string, value: Js.Value, other: string)
    requires DistinctKeys(filters)
    ensures DistinctKeys(SetFilter(filters, field, value))
    ensures Lookup(SetFilter(filters, field, value), field) == Some(value)
    ensures other != field ==> Lookup(SetFilter(filters, field, value), other) == Lookup(filters, other)
  {
    var r := SetFilter(filters, field, value);
    var found := Lookup(filters, field);
    assert forall j :: 0 <= j < |filters| ==> r[j].0 == filters[j].0;
    var at: nat;
    if found.None? {
      at := |filters|;
    } else {
      var k :| 0 <= k < |filters| && filters[k] == (field, found.value);
      at := k;
    }
    assert r[at] == (field, value);
    LookupDistinct(r, field, at);
    if other != field {
      var before := Lookup(filters, other);
      if before.Some? {
        var k :| 0 <= k < |filters| && filters[k] == (other, before.value);
        assert r[k] == filters[k];
        LookupDistinct(r, other, k);
      } else {
        assert forall j :: 0 <= j < |r| ==> r[j].0 != other;
      }
    }
  }

  function Identity(v: Js.Value): Js.Value { v }

  /** The `setSelected` updater of `handleSelect`: drop the id when selected, append it otherwise. */
  function Toggle(selected: seq<Js.Value>, id: Js.Value): (r: seq<Js.Value>)
    ensures id in r <==> id !in selected
    ensures forall x :: x != id ==> (x in r <==> x in selected)
  {
    if id in selected then RemoveAll(selected, Identity, id) else selected + [id]
  }

  /** Toggling never makes an id appear twice. */
  lemma ToggleKeepsDistinct(selected: seq<Js.Value>, id: Js.Value)
    requires UniqueKeys(selected, Identity)
    ensures UniqueKeys(Toggle(selected, id), Identity)
  {
    if id in selected {
      RemovePreservesUnique(selected, Identity, id);
    } else {
      AddFreshKeepsUnique(selected, Identity, id);
    }
  }

  /**
   * Toggling twice restores the selected set; when the id was not
   * selected it restores the list itself (a selected id comes back last).
   */
  lemma ToggleTwice(selected: seq<Js.Value>, id: Js.Value)
    ensures forall x :: x in Toggle(Toggle(selected, id), id) <==> x in selected
    ensures id !in selected ==> Toggle(Toggle(selected, id), id) == selected
  {
    if id !in selected {
      RemoveAllAbsent(selected, Identity, id);
      AppendThenRemove(selected, id);
    }
  }

  lemma {:induction false} AppendThenRemove(selected: seq<Js.Value>, id: Js.Value)
    requires id !in selected
    ensures RemoveAll(selected + [id], Identity, id) == selected
    decreases |selected|
  {
    if selected == [] {
      assert RemoveAll([id][1..], Identity, id) == [];
    } else {
      assert (selected + [id])[1..] == selected[1..] + [id];
      AppendThenRemove(selected[1..], id);
    }
  }

  /** The `handleSelectAll` value: every row's id when checked, nothing otherwise. */
  function SelectAll(checked: bool, rows: seq<Js.Object>): (r: seq<Js.Value>)
    ensures !checked ==> r == []
    ensures checked ==> |r| == |rows| && forall i :: 0 <= i < |rows| ==> r[i] == Js.Get(rows[i], "id")
  {
    if checked then seq(|rows|, i requires 0 <= i < |rows| => Js.Get(rows[i], "id")) else []
  }

  /** The hook's options, each defaulting as `DefaultOptions` says. */
  datatype Options = Options(initialSort: SortConfig, initialPage: nat, initialRowsPerPage: RowsPerPage, initialFilters: Filters)

  const DefaultOptions := Options(SortConfig("", Asc), 0, 10, [])

  datatype TableState = TableState(page: nat, rowsPerPage: RowsPerPage, sortConfig: SortConfig, filters: Filters, selected: seq<Js.Value>)

  class Table {
    const options: Options
    var page: nat
    var rowsPerPage: RowsPerPage
    var sortConfig: SortConfig
    var filters: Filters
    var selected: seq<Js.Value>

    function State(): TableState
      reads this
    {
      TableState(page, rowsPerPage, sortConfig, filters, selected)
    }

    constructor (opts: Options)
      ensures options == opts
      ensures State() == TableState(opts.initialPage, opts.initialRowsPerPage, opts.initialSort, opts.initialFilters, [])
    {
      options := opts;
      page := opts.initialPage;
      rowsPerPage := opts.initialRowsPerPage;
      sortConfig := opts.initialSort;
      filters := opts.initialFilters;
      selected := [];
    }

    /** handleSort: the next sort for the field, back on the first page. */
    method HandleSort(field: string)
      modifies this
      ensures State() == old(State()).(sortConfig := NextSort(old(sortConfig), field), page := 0)
    {
      sortConfig := NextSort(sortConfig, field);
      page := 0;
    }

    /** handleFilter: the filter set, back on the first page. */
    method HandleFilter(field: string, value: Js.Value)
      modifies this
      ensures State() == old(State()).(filters := SetFilter(old(filters), field, value), page := 0)
    {
      filters := SetFilter(filters, field, value);
      page := 0;
    }

    method HandleSelect(id: Js.Value)
      modifies this
      ensures State() == old(State()).(selected := Toggle(old(selected), id))
    {
      selected := Toggle(selected, id);
    }

    /** handleSelectAll over the processed rows it is given. */
    method HandleSelectAll(checked: bool, processed: seq<Js.Object>)
      modifies this
      ensures State() == old(State()).(selected := SelectAll(checked, processed))
    {
      selected := SelectAll(checked, processed);
    }

    method HandleChangePage(newPage: nat)
      modifies this
      ensures State() == old(State()).(page := newPage)
    {
      page := newPage;
    }

    /** handleChangeRowsPerPage: the new page size, back on the first page. */
    method HandleChangeRowsPerPage(rows: RowsPerPage)
      modifies this
      ensures State() == old(State()).(rowsPerPage := rows, page := 0)
    {
      rowsPerPage := rows;
      page := 0;
    }

    /** The reset effect, for a processed row count: a page past the end becomes the last one. */
    method ClampPage(count: nat)
      modifies this
      ensures State() == old(State()).(page := ClampedPage(old(page), TotalPages(count, old(rowsPerPage))))
    {
      var totalPages := TotalPages(count, rowsPerPage);
      if page >= totalPages {
        page := if totalPages > 1 then totalPages - 1 else 0;
      }
    }

    method ResetSort()
      modifies this
      ensures State() == old(State()).(sortConfig := options.initialSort)
    {
      sortConfig := options.initialSort;
    }

    method ResetFilters()
      modifies this
      ensures State() == old(State()).(filters := options.initialFilters)
    {
      filters := options.initialFilters;
    }

    method ResetPagination()
      modifies this
      ensures State() == old(State()).(page := options.initialPage, rowsPerPage := options.initialRowsPerPage)
    {
      page := options.initialPage;
      rowsPerPage := options.initialRowsPerPage;
    }

    method ResetSelection()
      modifies this
      ensures State() == old(State()).(selected := [])
    {
      selected := [];
    }

    /** resetAll: the state the hook started in. */
    method ResetAll()
      modifies this
      ensures State() == TableState(options.initialPage, options.initialRowsPerPage, options.initialSort, options.initialFilters, [])
    {
      sortConfig := options.initialSort;
      filters := options.initialFilters;
      page := options.initialPage;
      rowsPerPage := options.initialRowsPerPage;
      selected := [];
    }
  }
}

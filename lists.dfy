/**
 * List operations the handlers and reducers share, over records that carry
 * an id: the first index with an id (findIndex / subdocument lookup), the
 * removal of every record with an id (filter / pull), the replacement of
 * the first record with an id, and filter-counts.
 */
module Lists {
  import opened Outcome

  /** The index of the first record whose key is `id` (keys are compared with ===). */
  function FindIndex<T, K(==)>(xs: seq<T>, key: T -> K, id: K): (r: Option<nat>)
    ensures r.Some? ==> (r.value < |xs| && key(xs[r.value]) == id &&
                         forall j :: 0 <= j < r.value ==> key(xs[j]) != id)
    ensures r.None? ==> forall j :: 0 <= j < |xs| ==> key(xs[j]) != id
    decreases |xs|
  {
    if xs == [] then None
    else if key(xs[0]) == id then Some(0)
    else
      var rest := FindIndex(xs[1..], key, id);
      if rest.Some? then Some(rest.value + 1) else None
  }

  /** How many records have key `id`. */
  function Occurrences<T, K(==)>(xs: seq<T>, key: T -> K, id: K): (n: nat)
    ensures n <= |xs|
    ensures n == 0 <==> forall j :: 0 <= j < |xs| ==> key(xs[j]) != id
    decreases |xs|
  {
    if xs == [] then 0
    else (if key(xs[0]) == id then 1 else 0) + Occurrences(xs[1..], key, id)
  }

  /** No two records share a key. */
  predicate UniqueKeys<T, K(==)>(xs: seq<T>, key: T -> K) {
    forall i, j :: 0 <= i < j < |xs| ==> key(xs[i]) != key(xs[j])
  }

  /** `xs.filter(x => x.id !== id)`: every record with key `id` goes, the rest stay in order. */
  function RemoveAll<T(!new), K(==)>(xs: seq<T>, key: T -> K, id: K): (r: seq<T>)
    ensures |r| == |xs| - Occurrences(xs, key, id)
    ensures forall x :: x in r <==> x in xs && key(x) != id
    decreases |xs|
  {
    if xs == [] then []
    else if key(xs[0]) == id then RemoveAll(xs[1..], key, id)
    else
      assert forall x :: x in xs ==> x == xs[0] || x in xs[1..];
      [xs[0]] + RemoveAll(xs[1..], key, id)
  }

  /** Removing an id that no record has leaves the list as it was. */
  lemma {:induction false} RemoveAllAbsent<T(!new), K>(xs: seq<T>, key: T -> K, id: K)
    requires FindIndex(xs, key, id).None?
    ensures RemoveAll(xs, key, id) == xs
    decreases |xs|
  {
    if xs != [] {
      RemoveAllAbsent(xs[1..], key, id);
      assert [xs[0]] + xs[1..] == xs;
    }
  }

  /** The first record with key `id` is replaced by `x`; with no such record nothing changes. */
  function ReplaceFirst<T, K(==)>(xs: seq<T>, key: T -> K, id: K, x: T): (r: seq<T>)
    ensures |r| == |xs|
    ensures FindIndex(xs, key, id).None? ==> r == xs
    ensures FindIndex(xs, key, id).Some? ==> (r[FindIndex(xs, key, id).value] == x &&
                                             forall j :: 0 <= j < |xs| && j != FindIndex(xs, key, id).value ==> r[j] == xs[j])
  {
    var i := FindIndex(xs, key, id);
    if i.Some? then xs[i.value := x] else xs
  }

  /** With unique keys, a key that is present occurs exactly once. */
  lemma {:induction false} UniquePresentOccursOnce<T, K>(xs: seq<T>, key: T -> K, id: K)
    requires UniqueKeys(xs, key) && FindIndex(xs, key, id).Some?
    ensures Occurrences(xs, key, id) == 1
    decreases |xs|
  {
    if key(xs[0]) == id {
      assert forall j :: 0 <= j < |xs[1..]| ==> key(xs[1..][j]) != id by {
        forall j | 0 <= j < |xs[1..]|
          ensures key(xs[1..][j]) != id
        {
          assert key(xs[0]) != key(xs[j + 1]);
        }
      }
    } else {
      UniquePresentOccursOnce(xs[1..], key, id);
    }
  }

  /** The number of records satisfying `p` (`xs.filter(p).length`). */
  function Count<T>(xs: seq<T>, p: T -> bool): (n: nat)
    ensures n <= |xs|
    decreases |xs|
  {
    if xs == [] then 0 else (if p(xs[0]) then 1 else 0) + Count(xs[1..], p)
  }

  /** A count after one record left it (`was`) and one joined it (`now`). */
  function Shift(count: int, was: bool, now: bool): int {
    count - (if was then 1 else 0) + (if now then 1 else 0)
  }

  /**
   * A reducer's counter step when a record is replaced: only when the
   * field the counter watches changed, drop the count if the old record
   * was counted and raise it if the new one is.
   */
  method AdjustCount(count: int, changed: bool, was: bool, now: bool) returns (r: int)
    requires !changed ==> was == now
    ensures r == Shift(count, was, now)
  {
    r := count;
    if changed {
      if was {
        r := r - 1;
      }
      if now {
        r := r + 1;
      }
    }
  }

  /** Two tests no record passes together count at most every record once. */
  lemma {:induction false} DisjointCountsBounded<T>(xs: seq<T>, p: T -> bool, q: T -> bool)
    requires forall k :: 0 <= k < |xs| ==> !(p(xs[k]) && q(xs[k]))
    ensures Count(xs, p) + Count(xs, q) <= |xs|
    decreases |xs|
  {
    if xs != [] {
      DisjointCountsBounded(xs[1..], p, q);
    }
  }

  lemma {:induction false} CountAppend<T>(a: seq<T>, b: seq<T>, p: T -> bool)
    ensures Count(a + b, p) == Count(a, p) + Count(b, p)
    decreases |a|
  {
    if a == [] {
      assert a + b == b;
    } else {
      assert (a + b)[0] == a[0] && (a + b)[1..] == a[1..] + b;
      CountAppend(a[1..], b, p);
    }
  }

  /** `xs.filter(p)`: the records that pass `p`, in their order; there are as many as `p` counts. */
  function Filter<T(!new)>(xs: seq<T>, p: T -> bool): (r: seq<T>)
    ensures |r| == Count(xs, p)
    ensures forall x :: x in r <==> x in xs && p(x)
    decreases |xs|
  {
    if xs == [] then []
    else
      assert forall x :: x in xs ==> x == xs[0] || x in xs[1..];
      (if p(xs[0]) then [xs[0]] else []) + Filter(xs[1..], p)
  }

  /** A test every record passes keeps them all. */
  lemma {:induction false} FilterAll<T(!new)>(xs: seq<T>, p: T -> bool)
    requires forall k :: 0 <= k < |xs| ==> p(xs[k])
    ensures Filter(xs, p) == xs
    decreases |xs|
  {
    if xs != [] {
      FilterAll(xs[1..], p);
      assert [xs[0]] + xs[1..] == xs;
    }
  }

  /** Filtering a concatenation filters each part and keeps them in order. */
  lemma {:induction false} FilterAppend<T(!new)>(a: seq<T>, b: seq<T>, p: T -> bool)
    ensures Filter(a + b, p) == Filter(a, p) + Filter(b, p)
    decreases |a|
  {
    if a == [] {
      assert a + b == b;
    } else {
      assert (a + b)[0] == a[0] && (a + b)[1..] == a[1..] + b;
      FilterAppend(a[1..], b, p);
    }
  }

  /** Two tests that agree on every record select the same records. */
  lemma {:induction false} FilterCongruent<T(!new)>(xs: seq<T>, p: T -> bool, q: T -> bool)
    requires forall k :: 0 <= k < |xs| ==> p(xs[k]) == q(xs[k])
    ensures Filter(xs, p) == Filter(xs, q)
    decreases |xs|
  {
    if xs != [] {
      FilterCongruent(xs[1..], p, q);
    }
  }

  /** Filtering twice is filtering once by both tests. */
  lemma {:induction false} FilterFilter<T(!new)>(xs: seq<T>, p: T -> bool, q: T -> bool, both: T -> bool)
    requires forall k :: 0 <= k < |xs| ==> both(xs[k]) == (p(xs[k]) && q(xs[k]))
    ensures Filter(Filter(xs, p), q) == Filter(xs, both)
    decreases |xs|
  {
    if xs != [] {
      FilterFilter(xs[1..], p, q, both);
      var rest := Filter(xs[1..], p);
      if p(xs[0]) {
        assert ([xs[0]] + rest)[0] == xs[0] && ([xs[0]] + rest)[1..] == rest;
      } else {
        assert [] + rest == rest;
      }
    }
  }

  /** Overwriting one record changes a count by what leaves and what arrives. */
  lemma {:induction false} CountUpdate<T>(xs: seq<T>, i: nat, x: T, p: T -> bool)
    requires i < |xs|
    ensures Count(xs[i := x], p) == Shift(Count(xs, p), p(xs[i]), p(x))
    decreases |xs|
  {
    if i == 0 {
      assert xs[i := x][1..] == xs[1..];
    } else {
      assert xs[i := x][1..] == xs[1..][i - 1 := x];
      CountUpdate(xs[1..], i - 1, x, p);
    }
  }

  /** Removing records keeps the keys of the rest unique. */
  lemma {:induction false} RemovePreservesUnique<T(!new), K>(xs: seq<T>, key: T -> K, id: K)
    requires UniqueKeys(xs, key)
    ensures UniqueKeys(RemoveAll(xs, key, id), key)
    decreases |xs|
  {
    if xs != [] {
      RemovePreservesUnique(xs[1..], key, id);
      if key(xs[0]) != id {
        var rest := RemoveAll(xs[1..], key, id);
        forall j | 0 <= j < |rest|
          ensures key(xs[0]) != key(rest[j])
        {
          assert rest[j] in xs[1..];
        }
      }
    }
  }

  /** Replacing the record with key `id` by one with the same key keeps keys unique. */
  lemma ReplaceSameKeyKeepsUnique<T, K>(xs: seq<T>, key: T -> K, id: K, x: T)
    requires UniqueKeys(xs, key) && key(x) == id
    ensures UniqueKeys(ReplaceFirst(xs, key, id, x), key)
  {
    var i := FindIndex(xs, key, id);
    if i.Some? {
      var r := ReplaceFirst(xs, key, id, x);
      forall a, b | 0 <= a < b < |r|
        ensures key(r[a]) != key(r[b])
      {
        assert key(r[a]) == key(xs[a]) && key(r[b]) == key(xs[b]);
      }
    }
  }

  /** A record whose key is not yet present can go at either end without a clash. */
  lemma AddFreshKeepsUnique<T, K>(xs: seq<T>, key: T -> K, x: T)
    requires UniqueKeys(xs, key) && FindIndex(xs, key, key(x)).None?
    ensures UniqueKeys([x] + xs, key) && UniqueKeys(xs + [x], key)
  {
    var front, back := [x] + xs, xs + [x];
    forall a, b | 0 <= a < b < |front|
      ensures key(front[a]) != key(front[b])
    {
      if a > 0 {
        assert front[a] == xs[a - 1];
      }
      assert front[b] == xs[b - 1];
    }
    forall a, b | 0 <= a < b < |back|
      ensures key(back[a]) != key(back[b])
    {
      assert back[a] == xs[a];
    }
  }

  /** With unique keys, removing a present key takes away exactly the one record found. */
  lemma {:induction false} CountRemoveUnique<T(!new), K>(xs: seq<T>, key: T -> K, id: K, p: T -> bool)
    requires UniqueKeys(xs, key) && FindIndex(xs, key, id).Some?
    ensures Count(RemoveAll(xs, key, id), p) == Count(xs, p) - (if p(xs[FindIndex(xs, key, id).value]) then 1 else 0)
    decreases |xs|
  {
    if key(xs[0]) == id {
      assert FindIndex(xs[1..], key, id).None?;
      RemoveAllAbsent(xs[1..], key, id);
    } else {
      assert UniqueKeys(xs[1..], key);
      CountRemoveUnique(xs[1..], key, id, p);
    }
  }

  /** `xs.find(x => key(x) === id)`: the first record with the key, if any. */
  function FindFirst<T, K(==)>(xs: seq<T>, key: T -> K, id: K): (r: Option<T>)
    ensures r.Some? ==> r.value in xs && key(r.value) == id
    ensures r.None? <==> FindIndex(xs, key, id).None?
    decreases |xs|
  {
    if xs == [] then None
    else if key(xs[0]) == id then Some(xs[0])
    else FindFirst(xs[1..], key, id)
  }

  /** `find` returns the record at the index `findIndex` reports. */
  lemma {:induction false} FindFirstAtIndex<T, K>(xs: seq<T>, key: T -> K, id: K)
    ensures FindIndex(xs, key, id).Some? ==> FindFirst(xs, key, id) == Some(xs[FindIndex(xs, key, id).value])
    decreases |xs|
  {
    if xs != [] && key(xs[0]) != id {
      FindFirstAtIndex(xs[1..], key, id);
    }
  }

  /** Replacing a record by one with the same key leaves every key lookup where it was. */
  lemma FindIndexAfterReplace<T, K>(xs: seq<T>, key: T -> K, id: K, x: T, k: K)
    requires key(x) == id
    ensures FindIndex(ReplaceFirst(xs, key, id, x), key, k) == FindIndex(xs, key, k)
  {
    var r := ReplaceFirst(xs, key, id, x);
    assert forall j :: 0 <= j < |xs| ==> key(r[j]) == key(xs[j]);
  }

  /** After replace-by-id, `find` on the same id returns the new record, and on any other id what it returned before. */
  lemma FindFirstAfterReplace<T, K>(xs: seq<T>, key: T -> K, id: K, x: T, k: K)
    requires key(x) == id
    ensures FindFirst(ReplaceFirst(xs, key, id, x), key, k) ==
      (if k == id && FindIndex(xs, key, id).Some? then Some(x) else FindFirst(xs, key, k))
  {
    var r := ReplaceFirst(xs, key, id, x);
    FindIndexAfterReplace(xs, key, id, x, k);
    FindFirstAtIndex(xs, key, k);
    FindFirstAtIndex(r, key, k);
  }

  /** Removing the records with key `id` does not change what `find` returns for another key. */
  lemma {:induction false} FindFirstAfterRemove<T(!new), K>(xs: seq<T>, key: T -> K, id: K, k: K)
    requires k != id
    ensures FindFirst(RemoveAll(xs, key, id), key, k) == FindFirst(xs, key, k)
    decreases |xs|
  {
    if xs != [] {
      FindFirstAfterRemove(xs[1..], key, id, k);
      if key(xs[0]) != id {
        var r := RemoveAll(xs, key, id);
        assert r == [xs[0]] + RemoveAll(xs[1..], key, id);
        assert r[1..] == RemoveAll(xs[1..], key, id);
      }
    }
  }
}

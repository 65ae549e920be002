/** `paginate(items, page, per_page)` of part2/hbnb/utils.py: the slice
    `items[(page-1)*per_page : (page-1)*per_page + per_page]` together with
    `len(items)`. Nothing checks the arguments, so Python's slice rules decide what
    negative bounds mean. */
module Pagination {

  function Min(a: int, b: int): int
  {
    if a <= b then a else b
  }

  /** How a Python slice bound is adjusted to a sequence of length n: a negative bound
      counts from the end, and the result is clamped to [0, n]. */
  function SliceBound(i: int, n: nat): (r: nat)
    ensures r <= n
    ensures i >= 0 ==> r == Min(i, n)
  {
    if i < 0 then (if i + n < 0 then 0 else i + n)
    else if i > n then n
    else i
  }

  /** `s[i:j]`: empty when the adjusted start is not before the adjusted end. */
  function Slice<T>(s: seq<T>, i: int, j: int): (r: seq<T>)
    ensures |r| <= |s|
  {
    var lo, hi := SliceBound(i, |s|), SliceBound(j, |s|);
    if lo < hi then s[lo..hi] else []
  }

  /** `paginate`: the page and the total. */
  function Paginate<T>(items: seq<T>, page: int, perPage: int): (r: (seq<T>, nat))
    ensures r.1 == |items|
  {
    var start := (page - 1) * perPage;
    (Slice(items, start, start + perPage), |items|)
  }

  /** A page numbered from 1 with a non-negative size is the window of items from
      (page-1)*per_page up to page*per_page, cut short by the end of the list. */
  lemma PageWindow<T>(items: seq<T>, page: int, perPage: int)
    requires page >= 1 && perPage >= 0
    ensures (page - 1) * perPage >= 0 && Min((page - 1) * perPage, |items|) <= Min(page * perPage, |items|)
    ensures Paginate(items, page, perPage).0 == items[Min((page - 1) * perPage, |items|) .. Min(page * perPage, |items|)]
  {
    var start := (page - 1) * perPage;
    MulMono(0, page - 1, perPage);
    assert page * perPage == start + perPage;
  }

  /** With a non-negative size no page is longer than per_page, whatever the page
      number, negative ones included. */
  lemma {:induction false} PageBound<T>(items: seq<T>, page: int, perPage: int)
    requires perPage >= 0
    ensures |Paginate(items, page, perPage).0| <= perPage
  {
    var n := |items|;
    var start := (page - 1) * perPage;
    var lo, hi := SliceBound(start, n), SliceBound(start + perPage, n);
    assert hi - lo <= perPage by {
      if start >= 0 {
      } else if start + perPage >= 0 {
        assert lo >= start + n;
      } else {
      }
    }
  }

  /** A page past the end is empty, and the total is still the length. */
  lemma PastTheEnd<T>(items: seq<T>, page: int, perPage: int)
    requires page >= 1 && perPage >= 0 && (page - 1) * perPage >= |items|
    ensures Paginate(items, page, perPage) == ([], |items|)
  {
    PageWindow(items, page, perPage);
  }

  /** Pages 1 to k, one after the other. */
  function Pages<T>(items: seq<T>, k: nat, perPage: int): seq<T>
  {
    if k == 0 then [] else Pages(items, k - 1, perPage) + Paginate(items, k, perPage).0
  }

  /** Pages 1 to k together are the first k*per_page items (all of them once the end
      is reached): nothing is skipped and nothing repeated. */
  lemma {:induction false} PagesArePrefix<T>(items: seq<T>, k: nat, perPage: int)
    requires perPage >= 0
    ensures k * perPage >= 0
    ensures Pages(items, k, perPage) == items[..Min(k * perPage, |items|)]
  {
    if k > 0 {
      PagesArePrefix(items, k - 1, perPage);
      PageWindow(items, k, perPage);
      var a, b := Min((k - 1) * perPage, |items|), Min(k * perPage, |items|);
      assert Pages(items, k, perPage) == items[..a] + items[a..b];
      assert items[..a] + items[a..b] == items[..b];
    } else {
      assert k * perPage == 0;
    }
  }

  lemma MulMono(a: int, b: int, c: int)
    requires a <= b && c >= 0
    ensures a * c <= b * c
  {
    assert b * c - a * c == (b - a) * c;
  }

  /** An earlier page ends where a later one begins at the earliest: two different
      pages cover disjoint index ranges. */
  lemma {:induction false} PagesOrdered<T>(items: seq<T>, p: int, q: int, perPage: int)
    requires 1 <= p < q && perPage >= 0
    ensures Min(p * perPage, |items|) <= Min((q - 1) * perPage, |items|)
  {
    MulMono(p, q - 1, perPage);
  }

  /** Over distinct items, two different pages share no item. */
  lemma {:induction false} PagesDisjoint<T>(items: seq<T>, p: int, q: int, perPage: int, x: T)
    requires 1 <= p < q && perPage >= 0
    requires forall i, j :: 0 <= i < j < |items| ==> items[i] != items[j]
    ensures !(x in Paginate(items, p, perPage).0 && x in Paginate(items, q, perPage).0)
  {
    PageWindow(items, p, perPage);
    PageWindow(items, q, perPage);
    PagesOrdered(items, p, q, perPage);
    var a, b := Min((p - 1) * perPage, |items|), Min(p * perPage, |items|);
    var c, d := Min((q - 1) * perPage, |items|), Min(q * perPage, |items|);
    var first, second := items[a..b], items[c..d];
    forall i, j | 0 <= i < |first| && 0 <= j < |second|
      ensures first[i] != second[j]
    {
      assert first[i] == items[a + i] && second[j] == items[c + j] && a + i < c + j;
    }
  }

  /** Page 0 is always empty, and page -1 is a window counted from the end. */
  lemma NonPositivePages<T>(items: seq<T>, perPage: int)
    requires perPage >= 0
    ensures Paginate(items, 0, perPage).0 == []
    ensures 2 * perPage <= |items| ==>
              Paginate(items, -1, perPage).0 == items[|items| - 2 * perPage .. |items| - perPage]
  {
    assert (0 - 1) * perPage == -perPage;
    assert (-1 - 1) * perPage == -2 * perPage;
  }

  /** A negative per_page can give a page longer than |per_page|: with per_page -1 the
      first page is every item but the last. */
  lemma NegativePerPage()
    ensures Paginate([1, 2, 3], 1, -1) == ([1, 2], 3)
  {
    assert [1, 2, 3][0..2] == [1, 2];
  }
}

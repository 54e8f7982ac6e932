/** The page arithmetic of a `PageRequest` over a sorted result: page `page` of size `size` holds
    the elements from offset `page * size` on, at most `size` of them, and the number of pages is
    the number of elements divided by the size, rounded up. */
module Paging {
  import Sorting

  /** The smaller of two integers, for the end offset of a page. */
  function Min(a: int, b: int): int {
    if a <= b then a else b
  }

  /** The number of pages of `n` elements, `size` to a page. */
  function TotalPages(n: nat, size: nat): nat
    requires size >= 1
  {
    (n + size - 1) / size
  }

  /** The page count is the ceiling of `n / size`: enough pages for every element, and no page
      left empty. */
  lemma TotalPagesCeiling(n: nat, size: nat)
    requires size >= 1
    ensures TotalPages(n, size) * size >= n
    ensures TotalPages(n, size) == 0 <==> n == 0
    ensures TotalPages(n, size) > 0 ==> (TotalPages(n, size) - 1) * size < n
  {
    var p := TotalPages(n, size);
    var q := n + size - 1;
    assert q == p * size + q % size && 0 <= q % size < size;
    assert p * size >= n by {
      assert p * size == q - q % size;
    }
    if p > 0 {
      assert (p - 1) * size == p * size - size;
    } else {
      assert q < size;
    }
  }

  /** The at most `size` elements from offset `off` on. */
  function Window<T>(s: seq<T>, off: nat, size: nat): (r: seq<T>)
    ensures |r| <= size
    ensures forall i :: 0 <= i < |r| ==> off + i < |s| && r[i] == s[off + i]
    ensures off < |s| ==> |r| == Min(size, |s| - off)
    ensures off >= |s| ==> r == []
  {
    s[Min(off, |s|)..Min(off + size, |s|)]
  }

  /** The elements of page `page`. */
  function PageOf<T>(s: seq<T>, page: nat, size: nat): (r: seq<T>)
    requires size >= 1
    ensures |r| <= size
    ensures forall i :: 0 <= i < |r| ==> page * size + i < |s| && r[i] == s[page * size + i]
    ensures page * size < |s| ==> |r| == Min(size, |s| - page * size)
    ensures page * size >= |s| ==> r == []
  {
    Window(s, page * size, size)
  }

  /** A page holds elements of the sequence only. */
  lemma PageElementsIn<T>(s: seq<T>, page: nat, size: nat)
    requires size >= 1
    ensures forall x :: x in PageOf(s, page, size) ==> x in s
  {
    var r := PageOf(s, page, size);
    forall x | x in r
      ensures x in s
    {
      var i :| 0 <= i < |r| && r[i] == x;
      var k := page * size + i;
      assert r[i] == s[k];
    }
  }

  /** A page of a sorted sequence is sorted. */
  lemma PageSorted<T>(s: seq<T>, page: nat, size: nat, before: (T, T) -> bool)
    requires size >= 1 && Sorting.SortedBy(s, before)
    ensures Sorting.SortedBy(PageOf(s, page, size), before)
  {
    var r := PageOf(s, page, size);
    forall i, j | 0 <= i < j < |r|
      ensures before(r[i], r[j])
    {
      var k, l := page * size + i, page * size + j;
      assert r[i] == s[k] && r[j] == s[l] && k < l;
    }
  }

  /** Multiplying by a natural keeps order; it keeps `page * size` out of the larger proofs. */
  lemma MulMonotonic(a: int, b: int, c: nat)
    requires a <= b
    ensures a * c <= b * c
  {
  }

  /** Euclidean division of an offset by the page size, stated once for the paging lemmas. */
  lemma DivMod(k: nat, size: nat)
    requires size >= 1
    ensures k == (k / size) * size + k % size && 0 <= k % size < size
  {
  }

  /** Every element is on a page: element `k` is number `k % size` of page `k / size`, which is
      one of the `TotalPages` pages. */
  lemma PagesPartition<T>(s: seq<T>, size: nat, k: nat)
    requires size >= 1 && k < |s|
    ensures k / size < TotalPages(|s|, size)
    ensures k % size < |PageOf(s, k / size, size)| && PageOf(s, k / size, size)[k % size] == s[k]
  {
    var p, i := k / size, k % size;
    DivMod(k, size);
    var off := p * size;
    assert k == off + i && i < size;
    TotalPagesCeiling(|s|, size);
    var t := TotalPages(|s|, size);
    if p >= t {
      MulMonotonic(t, p, size);
      assert false;
    }
    var r := PageOf(s, p, size);
    assert off < |s| && |r| == Min(size, |s| - off);
    assert r[i] == s[off + i];
  }

  /** No other page holds element `k`: the page whose offsets reach `k` is page `k / size`. */
  lemma OnePage(size: nat, k: nat, p: nat)
    requires size >= 1 && p * size <= k < p * size + size
    ensures p == k / size
  {
    DivMod(k, size);
    var q := k / size;
    if p < q {
      MulMonotonic(p + 1, q, size);
      assert false;
    } else if p > q {
      MulMonotonic(q + 1, p, size);
      assert false;
    }
  }
}

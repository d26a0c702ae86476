/**
 * Controls shared by the two dashboard tables: the page count, the page
 * slice (JavaScript's `slice`, negative bounds included), the "previous
 * page" button and the column-header sort toggle.
 */
module TableControls {

  datatype SortDirection = Asc | Desc

  /** `Math.ceil(n / perPage)`: the least number of pages of `perPage` rows that hold `n` rows. */
  function TotalPages(n: nat, perPage: nat): (t: nat)
    requires perPage > 0
    ensures n <= t * perPage
    ensures t > 0 ==> (t - 1) * perPage < n
    ensures t == 0 <==> n == 0
  {
    var q := (n + perPage - 1) / perPage;
    assert q * perPage + (n + perPage - 1) % perPage == n + perPage - 1;
    q
  }

  /** How `slice` turns a possibly negative bound into an index of a sequence of length `len`. */
  function Clamp(rel: int, len: nat): (k: nat)
    ensures k <= len
  {
    if rel < 0 then (if len + rel < 0 then 0 else len + rel)
    else if rel < len then rel else len
  }

  /** `s.slice(start, end)`: bounds counted from the end when negative, clamped, empty when they cross. */
  function JsSlice<T>(s: seq<T>, start: int, end: int): (r: seq<T>)
    ensures |r| <= |s|
    ensures |r| == Max(0, Clamp(end, |s|) - Clamp(start, |s|))
    ensures forall i :: 0 <= i < |r| ==> Clamp(start, |s|) + i < |s| && r[i] == s[Clamp(start, |s|) + i]
    ensures 0 <= start <= end <= |s| ==> r == s[start..end]
  {
    var from := Clamp(start, |s|);
    var to := Clamp(end, |s|);
    if from < to then s[from..to] else []
  }

  /**
   * The rows shown on page `page`: `rows.slice((page - 1) * perPage, page * perPage)`.
   * Whatever the page number, even 0 or negative, a page holds at most
   * `perPage` rows, consecutive rows of `rows`; from page 1 on they start at
   * row `(page - 1) * perPage`.
   */
  function Page<T>(rows: seq<T>, page: int, perPage: nat): (r: seq<T>)
    ensures |r| <= perPage
    ensures page >= 1 ==> forall i :: 0 <= i < |r| ==> (page - 1) * perPage + i < |rows| && r[i] == rows[(page - 1) * perPage + i]
  {
    PageBounds(page, perPage);
    SliceWindow(rows, (page - 1) * perPage, page * perPage, perPage);
    JsSlice(rows, (page - 1) * perPage, page * perPage)
  }

  /** A slice between bounds `width` apart is a run of at most `width` rows starting at a non-negative `lo`. */
  lemma SliceWindow<T>(rows: seq<T>, lo: int, hi: int, width: nat)
    requires hi == lo + width
    ensures |JsSlice(rows, lo, hi)| <= width
    ensures lo >= 0 ==> forall i :: 0 <= i < |JsSlice(rows, lo, hi)| ==> lo + i < |rows| && JsSlice(rows, lo, hi)[i] == rows[lo + i]
  {
    ClampGap(lo, hi, |rows|);
    if lo >= 0 && lo >= |rows| {
      assert Clamp(lo, |rows|) == |rows|;
    }
  }

  /** A page's bounds lie `perPage` apart, the first one non-negative from page 1 on. */
  lemma PageBounds(page: int, perPage: nat)
    ensures page * perPage == (page - 1) * perPage + perPage
    ensures page >= 1 ==> (page - 1) * perPage >= 0
  {
    if page >= 1 {
      MultiplyMonotone(0, page - 1, perPage);
    }
  }

  function Min(a: int, b: int): int { if a <= b then a else b }

  function Max(a: int, b: int): int { if a >= b then a else b }

  /** Clamping never widens a range. */
  lemma ClampGap(a: int, b: int, len: nat)
    requires a <= b
    ensures Clamp(b, len) - Clamp(a, len) <= b - a
  {
  }

  /** A page between 1 and the page count is the non-empty block of rows it covers. */
  lemma PageInRange<T>(rows: seq<T>, page: int, perPage: nat)
    requires perPage > 0
    requires 1 <= page <= TotalPages(|rows|, perPage)
    ensures (page - 1) * perPage < Min(page * perPage, |rows|)
    ensures Page(rows, page, perPage) == rows[(page - 1) * perPage..Min(page * perPage, |rows|)]
  {
    var t := TotalPages(|rows|, perPage);
    var lo := (page - 1) * perPage;
    var hi := page * perPage;
    MultiplyMonotone(page - 1, t - 1, perPage);
    MultiplyMonotone(0, page - 1, perPage);
    assert 0 <= lo < |rows|;
    assert hi == lo + perPage;
    assert Clamp(lo, |rows|) == lo;
    assert Clamp(hi, |rows|) == Min(hi, |rows|);
  }

  /** A page after the last one is empty. */
  lemma PageBeyondLast<T>(rows: seq<T>, page: int, perPage: nat)
    requires perPage > 0
    requires page > TotalPages(|rows|, perPage)
    ensures Page(rows, page, perPage) == []
  {
    var t := TotalPages(|rows|, perPage);
    MultiplyMonotone(t, page - 1, perPage);
  }

  lemma MultiplyMonotone(a: int, b: int, c: nat)
    requires 0 <= a <= b
    ensures a * c <= b * c
  {
  }

  /** Pages 1 to `k` one after another. */
  function Pages<T>(rows: seq<T>, k: nat, perPage: nat): seq<T>
  {
    if k == 0 then [] else Pages(rows, k - 1, perPage) + Page(rows, k, perPage)
  }

  /** The first `k` pages are the first `k * perPage` rows (or all of them). */
  lemma {:induction false} PagesPrefix<T>(rows: seq<T>, k: nat, perPage: nat)
    requires perPage > 0
    ensures Pages(rows, k, perPage) == rows[..Min(k * perPage, |rows|)]
  {
    if k > 0 {
      PagesPrefix(rows, k - 1, perPage);
      var lo := Min((k - 1) * perPage, |rows|);
      var hi := Min(k * perPage, |rows|);
      assert k * perPage == (k - 1) * perPage + perPage;
      assert lo <= hi;
      if (k - 1) * perPage < |rows| {
        assert Page(rows, k, perPage) == rows[lo..hi];
      } else {
        assert Page(rows, k, perPage) == [];
        assert lo == hi;
      }
      assert rows[..hi] == rows[..lo] + rows[lo..hi];
    }
  }

  /** Pages 1 to the page count, concatenated, give back every row exactly once and in order. */
  lemma PagesPartition<T>(rows: seq<T>, perPage: nat)
    requires perPage > 0
    ensures Pages(rows, TotalPages(|rows|, perPage), perPage) == rows
  {
    PagesPrefix(rows, TotalPages(|rows|, perPage), perPage);
  }

  /** The "previous page" button: disabled on page 1, otherwise `Math.max(1, page - 1)`. */
  function PrevPage(page: int): (p: int)
    ensures p >= 1
    ensures page == 1 ==> p == 1
    ensures page > 1 ==> p == page - 1
    ensures page < 1 ==> p == 1
  {
    if page == 1 then page else Max(1, page - 1)
  }

  /**
   * A click on a column header: the same column flips the direction, another
   * column becomes the sort column in ascending order.
   */
  function SortToggle<F(==)>(field: F, dir: SortDirection, clicked: F): (r: (F, SortDirection))
    ensures r.0 == clicked
    ensures field == clicked ==> r.1 != dir
    ensures field != clicked ==> r.1 == Asc
  {
    if field == clicked then (field, if dir == Asc then Desc else Asc) else (clicked, Asc)
  }

  /** Clicking the same header twice restores the sort when it was already the sort column, and otherwise leaves it descending. */
  lemma SortToggleTwice<F>(field: F, dir: SortDirection, clicked: F)
    ensures var once := SortToggle(field, dir, clicked);
            SortToggle(once.0, once.1, clicked) == if field == clicked then (field, dir) else (clicked, Desc)
  {
  }
}

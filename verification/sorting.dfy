/**
 * `Array.prototype.sort` as the tables and the distribution charts use it:
 * a stable sort driven by a comparator whose sign alone matters. The
 * comparators here compare one sort key per row (a number or a string) and
 * negate the result for descending order.
 */
module Sorting {
  import opened Text
  import opened Seqs

  /** The value a row is sorted by: a numeric column or a text column. */
  datatype SortKey = Num(n: real) | Str(s: string)

  function Sign(x: real): (c: int)
    ensures c == 0 <==> x == 0.0
    ensures c < 0 <==> x < 0.0
  {
    if x < 0.0 then -1 else if x > 0.0 then 1 else 0
  }

  /**
   * Sign of the ascending comparator: numbers by `a - b`, strings by
   * `localeCompare`. A column holds keys of one kind only; mixed pairs are
   * ordered numbers first so that the order stays total.
   */
  function Compare(a: SortKey, b: SortKey): (c: int)
    ensures -1 <= c <= 1
  {
    match (a, b)
    case (Num(x), Num(y)) => Sign(x - y)
    case (Str(x), Str(y)) => StrCompare(x, y)
    case (Num(_), Str(_)) => -1
    case (Str(_), Num(_)) => 1
  }

  lemma CompareAntisymmetric(a: SortKey, b: SortKey)
    ensures Compare(a, b) == -Compare(b, a)
  {
    if a.Str? && b.Str? {
      StrCompareAntisymmetric(a.s, b.s);
    }
  }

  lemma CompareZero(a: SortKey, b: SortKey)
    ensures Compare(a, b) == 0 <==> a == b
  {
    if a.Str? && b.Str? {
      StrCompareZero(a.s, b.s);
    }
  }

  lemma CompareTransitive(a: SortKey, b: SortKey, c: SortKey)
    requires Compare(a, b) <= 0 && Compare(b, c) <= 0
    ensures Compare(a, c) <= 0
  {
    if a.Str? && b.Str? && c.Str? {
      StrCompareTransitive(a.s, b.s, c.s);
    }
  }

  /** The comparator handed to `sort`: ascending, or its negation (`-comparison`, `bVal - aVal`) for descending. */
  function Cmp<T>(x: T, y: T, key: T -> SortKey, desc: bool): int
  {
    if desc then -Compare(key(x), key(y)) else Compare(key(x), key(y))
  }

  lemma CmpAntisymmetric<T>(x: T, y: T, key: T -> SortKey, desc: bool)
    ensures Cmp(x, y, key, desc) == -Cmp(y, x, key, desc)
  {
    CompareAntisymmetric(key(x), key(y));
  }

  lemma CmpTransitive<T>(x: T, y: T, z: T, key: T -> SortKey, desc: bool)
    requires Cmp(x, y, key, desc) <= 0 && Cmp(y, z, key, desc) <= 0
    ensures Cmp(x, z, key, desc) <= 0
  {
    if desc {
      CompareAntisymmetric(key(x), key(y));
      CompareAntisymmetric(key(y), key(z));
      CompareAntisymmetric(key(x), key(z));
      CompareTransitive(key(z), key(y), key(x));
    } else {
      CompareTransitive(key(x), key(y), key(z));
    }
  }

  /** Every earlier element compares no greater than every later one. */
  ghost predicate Sorted<T>(s: seq<T>, key: T -> SortKey, desc: bool)
  {
    forall i, j :: 0 <= i < j < |s| ==> Cmp(s[i], s[j], key, desc) <= 0
  }

  /**
   * Insert `x` after the sorted `r`, moving it left past every element that
   * compares strictly greater: what one pass of a stable insertion sort does.
   */
  function Insert<T>(r: seq<T>, x: T, key: T -> SortKey, desc: bool): seq<T>
  {
    if r == [] then [x]
    else if Cmp(r[|r| - 1], x, key, desc) > 0 then Insert(r[..|r| - 1], x, key, desc) + [r[|r| - 1]]
    else r + [x]
  }

  /**
   * The stable sort of `s` under the comparator: each element in turn
   * inserted into the sorted prefix. Sorting only reorders: the result is a
   * permutation of the input.
   */
  function SortSeq<T>(s: seq<T>, key: T -> SortKey, desc: bool): (r: seq<T>)
    ensures multiset(r) == multiset(s)
  {
    if s == [] then []
    else
      var init := SortSeq(s[..|s| - 1], key, desc);
      InsertPermutation(init, s[|s| - 1], key, desc);
      assert s == s[..|s| - 1] + [s[|s| - 1]];
      Insert(init, s[|s| - 1], key, desc)
  }

  lemma {:induction false} InsertPermutation<T>(r: seq<T>, x: T, key: T -> SortKey, desc: bool)
    ensures multiset(Insert(r, x, key, desc)) == multiset(r) + multiset{x}
  {
    if r != [] && Cmp(r[|r| - 1], x, key, desc) > 0 {
      InsertPermutation(r[..|r| - 1], x, key, desc);
      assert r == r[..|r| - 1] + [r[|r| - 1]];
    }
  }

  lemma {:induction false} InsertSorted<T>(r: seq<T>, x: T, key: T -> SortKey, desc: bool)
    requires Sorted(r, key, desc)
    ensures Sorted(Insert(r, x, key, desc), key, desc)
  {
    if r != [] {
      var last := r[|r| - 1];
      if Cmp(last, x, key, desc) > 0 {
        var init := r[..|r| - 1];
        InsertSorted(init, x, key, desc);
        var a := Insert(init, x, key, desc);
        InsertPermutation(init, x, key, desc);
        forall i | 0 <= i < |a| ensures Cmp(a[i], last, key, desc) <= 0 {
          assert a[i] in multiset(a);
          if a[i] == x {
            CmpAntisymmetric(x, last, key, desc);
          } else {
            assert a[i] in multiset(init);
            var k :| 0 <= k < |init| && init[k] == a[i];
            assert r[k] == a[i];
          }
        }
        AppendSorted(a, last, key, desc);
      } else {
        forall i | 0 <= i < |r| ensures Cmp(r[i], x, key, desc) <= 0 {
          if i < |r| - 1 {
            CmpTransitive(r[i], last, x, key, desc);
          }
        }
        AppendSorted(r, x, key, desc);
      }
    }
  }

  lemma AppendSorted<T>(a: seq<T>, y: T, key: T -> SortKey, desc: bool)
    requires Sorted(a, key, desc)
    requires forall i :: 0 <= i < |a| ==> Cmp(a[i], y, key, desc) <= 0
    ensures Sorted(a + [y], key, desc)
  {
  }

  /** The result of the sort is ordered by the comparator. */
  lemma {:induction false} SortSorted<T>(s: seq<T>, key: T -> SortKey, desc: bool)
    ensures Sorted(SortSeq(s, key, desc), key, desc)
  {
    if s != [] {
      SortSorted(s[..|s| - 1], key, desc);
      InsertSorted(SortSeq(s[..|s| - 1], key, desc), s[|s| - 1], key, desc);
    }
  }

  /** The rows of `s` whose sort key is `k`, in order. */
  function WithKey<T(!new)>(s: seq<T>, key: T -> SortKey, k: SortKey): seq<T>
  {
    Filter(s, HasKey(key, k))
  }

  function HasKey<T>(key: T -> SortKey, k: SortKey): T -> bool
  {
    x => key(x) == k
  }

  lemma WithKeySingle<T(!new)>(y: T, key: T -> SortKey, k: SortKey)
    ensures WithKey([y], key, k) == if key(y) == k then [y] else []
  {
    assert [y][1..] == [];
  }

  lemma {:induction false} InsertStable<T(!new)>(r: seq<T>, x: T, key: T -> SortKey, desc: bool, k: SortKey)
    ensures WithKey(Insert(r, x, key, desc), key, k) == WithKey(r, key, k) + WithKey([x], key, k)
  {
    if r == [] {
      assert Insert(r, x, key, desc) == [x];
      assert WithKey(r, key, k) == [];
    } else {
      var last := r[|r| - 1];
      var init := r[..|r| - 1];
      assert r == init + [last];
      FilterAppend(init, [last], HasKey(key, k));
      if Cmp(last, x, key, desc) > 0 {
        var a := Insert(init, x, key, desc);
        assert Insert(r, x, key, desc) == a + [last];
        InsertStable(init, x, key, desc, k);
        CompareZero(key(last), key(x));
        SwapPastDifferentKey(a, WithKey(init, key, k), x, last, key, k);
      } else {
        assert Insert(r, x, key, desc) == r + [x];
        FilterAppend(r, [x], HasKey(key, k));
      }
    }
  }

  /**
   * Appending `last` after a sequence whose `k`-rows are `w` followed by
   * those of `x` gives the same `k`-rows as `w`, `last`, `x` when the two
   * keys differ.
   */
  lemma SwapPastDifferentKey<T(!new)>(a: seq<T>, w: seq<T>, x: T, last: T, key: T -> SortKey, k: SortKey)
    requires WithKey(a, key, k) == w + WithKey([x], key, k)
    requires key(x) != key(last)
    ensures WithKey(a + [last], key, k) == w + WithKey([last], key, k) + WithKey([x], key, k)
  {
    FilterAppend(a, [last], HasKey(key, k));
    WithKeySingle(x, key, k);
    WithKeySingle(last, key, k);
    if key(x) == k {
      assert w + [x] + [] == w + [] + [x];
    } else {
      assert w + [] + WithKey([last], key, k) == w + WithKey([last], key, k) + [];
    }
  }

  /** Stability: rows with equal keys keep their relative order. */
  lemma {:induction false} SortStable<T(!new)>(s: seq<T>, key: T -> SortKey, desc: bool, k: SortKey)
    ensures WithKey(SortSeq(s, key, desc), key, k) == WithKey(s, key, k)
  {
    if s != [] {
      var init := s[..|s| - 1];
      SortStable(init, key, desc, k);
      InsertStable(SortSeq(init, key, desc), s[|s| - 1], key, desc, k);
      assert s == init + [s[|s| - 1]];
      FilterAppend(init, [s[|s| - 1]], HasKey(key, k));
    }
  }

  /** What the sort guarantees: ordered by the comparator, a permutation of the input, and stable. */
  lemma SortSpec<T(!new)>(s: seq<T>, key: T -> SortKey, desc: bool)
    ensures Sorted(SortSeq(s, key, desc), key, desc)
    ensures multiset(SortSeq(s, key, desc)) == multiset(s)
    ensures forall k :: WithKey(SortSeq(s, key, desc), key, k) == WithKey(s, key, k)
  {
    SortSorted(s, key, desc);
    forall k ensures WithKey(SortSeq(s, key, desc), key, k) == WithKey(s, key, k) {
      SortStable(s, key, desc, k);
    }
  }

  /** `[...s].sort(comparator)`: a sorted copy, the input left as it was. */
  method SortedCopy<T>(s: seq<T>, key: T -> SortKey, desc: bool) returns (r: seq<T>)
    ensures r == SortSeq(s, key, desc)
  {
    var a := new T[|s|](i requires 0 <= i < |s| => s[i]);
    ghost var before := a[..];
    assert before == s;
    SortInPlace(a, key, desc);
    r := a[..];
  }

  /**
   * Sorts `a` in place with the comparator: each element is swapped left
   * past every predecessor that compares strictly greater.
   */
  method SortInPlace<T>(a: array<T>, key: T -> SortKey, desc: bool)
    modifies a
    ensures a[..] == SortSeq(old(a[..]), key, desc)
  {
    ghost var s := a[..];
    var i := 0;
    while i < a.Length
      invariant 0 <= i <= a.Length
      invariant a[..i] == SortSeq(s[..i], key, desc)
      invariant forall k :: i <= k < a.Length ==> a[k] == s[k]
    {
      assert s[..i + 1] == s[..i] + [s[i]];
      InsertAt(a, i, key, desc);
      i := i + 1;
    }
    assert a[..] == a[..a.Length];
    assert s[..a.Length] == s;
  }

  /** One pass of the insertion sort: `a[i]` moves left into the sorted prefix `a[..i]`. */
  method InsertAt<T>(a: array<T>, i: int, key: T -> SortKey, desc: bool)
    requires 0 <= i < a.Length
    modifies a
    ensures a[..i + 1] == Insert(old(a[..i]), old(a[i]), key, desc)
    ensures a[i + 1..] == old(a[i + 1..])
  {
    ghost var r := a[..i];
    ghost var x := a[i];
    var j := ShiftLeft(a, i, key, desc);
    InsertStop(r, j, x, key, desc);
    Reassemble(a[..i + 1], r, j, x);
  }

  /** The swaps of one pass: `a[i]` moves left past every predecessor that compares strictly greater. */
  method ShiftLeft<T>(a: array<T>, i: int, key: T -> SortKey, desc: bool) returns (j: int)
    requires 0 <= i < a.Length
    modifies a
    ensures Shifted(a, i, old(a[..i]), old(a[i]), j)
    ensures j == 0 || Cmp(old(a[..i])[j - 1], old(a[i]), key, desc) <= 0
    ensures forall k :: i < k < a.Length ==> a[k] == old(a[k])
    ensures Insert(old(a[..i]), old(a[i]), key, desc) == Insert(old(a[..i])[..j], old(a[i]), key, desc) + old(a[..i])[j..]
  {
    ghost var r := a[..i];
    var x := a[i];
    j := i;
    assert r[..j] == r && r[j..] == [];
    while j > 0 && Cmp(a[j - 1], x, key, desc) > 0
      invariant 0 <= j <= i
      invariant Shifted(a, i, r, x, j)
      invariant forall k :: i < k < a.Length ==> a[k] == old(a[k])
      invariant Insert(r, x, key, desc) == Insert(r[..j], x, key, desc) + r[j..]
    {
      InsertStep(r, j, x, key, desc);
      SwapDown(a, i, r, x, j);
      j := j - 1;
    }
  }

  /** Partway through the pass: `r[..j]` in place, `x` at `j`, and `r[j..]` shifted one place right. */
  ghost predicate Shifted<T>(a: array<T>, i: int, r: seq<T>, x: T, j: int)
    reads a
  {
    && 0 <= j <= i < a.Length && |r| == i
    && (forall k :: 0 <= k < j ==> a[k] == r[k])
    && a[j] == x
    && (forall k :: j < k <= i ==> a[k] == r[k - 1])
  }

  /** One swap of the pass: `x` moves from `j` to `j - 1`. */
  method SwapDown<T>(a: array<T>, i: int, ghost r: seq<T>, x: T, j: int)
    requires 0 < j && Shifted(a, i, r, x, j)
    modifies a
    ensures Shifted(a, i, r, x, j - 1)
    ensures forall k :: 0 <= k < a.Length && k != j - 1 && k != j ==> a[k] == old(a[k])
  {
    a[j - 1], a[j] := a[j], a[j - 1];
  }

  /** A sequence that holds `r[..j]`, then `x`, then `r[j..]`, element by element, is their concatenation. */
  lemma Reassemble<T>(b: seq<T>, r: seq<T>, j: int, x: T)
    requires 0 <= j <= |r| && |b| == |r| + 1
    requires forall k :: 0 <= k < j ==> b[k] == r[k]
    requires b[j] == x
    requires forall k :: j < k < |b| ==> b[k] == r[k - 1]
    ensures b == r[..j] + [x] + r[j..]
  {
  }

  /** Where the pass stops, `x` lands right after the prefix that stays in place. */
  lemma InsertStop<T>(r: seq<T>, j: int, x: T, key: T -> SortKey, desc: bool)
    requires 0 <= j <= |r|
    requires j == 0 || Cmp(r[j - 1], x, key, desc) <= 0
    ensures Insert(r[..j], x, key, desc) == r[..j] + [x]
  {
  }

  /** Moving `x` one place further left keeps the insertion result. */
  lemma InsertStep<T>(r: seq<T>, j: int, x: T, key: T -> SortKey, desc: bool)
    requires 0 < j <= |r|
    requires Cmp(r[j - 1], x, key, desc) > 0
    ensures Insert(r[..j], x, key, desc) + r[j..] == Insert(r[..j - 1], x, key, desc) + r[j - 1..]
  {
    assert r[..j][..j - 1] == r[..j - 1];
    assert r[j - 1..] == [r[j - 1]] + r[j..];
  }
}

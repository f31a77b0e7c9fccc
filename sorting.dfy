/**
 * Stable sorting by a comparison. `le(a, b)` means "a may come before b", which
 * is how `Array.prototype.sort` reads a comparator `cmp`: `le(a, b) == (cmp(a, b) <= 0)`.
 * `SortBy` is an insertion sort. It stands for any stable sort, because for a
 * total preorder there is exactly one stable sorted rearrangement of a sequence
 * (`StableSortIsSortBy`).
 */
module Sorting {
  import opened Seqs

  /** `le` relates every pair one way or the other, and is transitive. */
  ghost predicate IsTotalPreorder<T(!new)>(le: (T, T) -> bool)
  {
    && (forall a, b :: le(a, b) || le(b, a))
    && (forall a, b, c :: le(a, b) && le(b, c) ==> le(a, c))
  }

  ghost predicate IsSortedBy<T>(s: seq<T>, le: (T, T) -> bool)
  {
    forall i, j :: 0 <= i < j < |s| ==> le(s[i], s[j])
  }

  /** The elements that tie with `x`: the comparator puts neither before the other. */
  function SameRank<T>(le: (T, T) -> bool, x: T): T -> bool
  {
    (y: T) => le(x, y) && le(y, x)
  }

  /**
   * `r` is `s` rearranged into `le` order, with the elements of each group of
   * ties in the order they have in `s`.
   */
  ghost predicate IsStableSortOf<T(!new)>(r: seq<T>, s: seq<T>, le: (T, T) -> bool)
  {
    && multiset(r) == multiset(s)
    && IsSortedBy(r, le)
    && forall x :: Filter(r, SameRank(le, x)) == Filter(s, SameRank(le, x))
  }

  /** Puts `x` in front of the first element of `t` it may precede. */
  function Insert<T>(x: T, t: seq<T>, le: (T, T) -> bool): seq<T>
    decreases |t|
  {
    if t == [] || le(x, t[0]) then [x] + t
    else [t[0]] + Insert(x, t[1..], le)
  }

  /** Insertion sort: the first element goes in front of every later element it ties with. */
  function SortBy<T>(s: seq<T>, le: (T, T) -> bool): seq<T>
    decreases |s|
  {
    if s == [] then []
    else Insert(s[0], SortBy(s[1..], le), le)
  }

  /** Inserting adds exactly one copy of `x`. */
  lemma {:induction false} InsertPermutes<T>(x: T, t: seq<T>, le: (T, T) -> bool)
    ensures multiset(Insert(x, t, le)) == multiset(t) + multiset{x}
    decreases |t|
  {
    if t != [] && !le(x, t[0]) {
      assert t == [t[0]] + t[1..];
      InsertPermutes(x, t[1..], le);
    }
  }

  /** Sorting rearranges: it neither adds nor drops an element. */
  lemma {:induction false} SortByPermutes<T>(s: seq<T>, le: (T, T) -> bool)
    ensures multiset(SortBy(s, le)) == multiset(s)
    decreases |s|
  {
    if s != [] {
      assert s == [s[0]] + s[1..];
      SortByPermutes(s[1..], le);
      InsertPermutes(s[0], SortBy(s[1..], le), le);
    }
  }

  lemma {:induction false} InsertSorted<T(!new)>(x: T, t: seq<T>, le: (T, T) -> bool)
    requires IsTotalPreorder(le) && IsSortedBy(t, le)
    ensures IsSortedBy(Insert(x, t, le), le)
    decreases |t|
  {
    if t == [] || le(x, t[0]) {
    } else {
      var tail := Insert(x, t[1..], le);
      InsertSorted(x, t[1..], le);
      InsertPermutes(x, t[1..], le);
      forall y | y in tail ensures le(t[0], y) {
        assert y in multiset(tail);
        if y != x {
          assert y in t[1..];
        }
      }
      var r := [t[0]] + tail;
      forall i, j | 0 <= i < j < |r| ensures le(r[i], r[j]) {
        if i == 0 {
          assert r[j] in tail;
        } else {
          assert r[i] == tail[i - 1] && r[j] == tail[j - 1];
        }
      }
    }
  }

  lemma {:induction false} SortBySorted<T(!new)>(s: seq<T>, le: (T, T) -> bool)
    requires IsTotalPreorder(le)
    ensures IsSortedBy(SortBy(s, le), le)
    decreases |s|
  {
    if s != [] {
      SortBySorted(s[1..], le);
      InsertSorted(s[0], SortBy(s[1..], le), le);
    }
  }

  /** If `x` may not precede `y`, the two are not both ties of `c`. */
  lemma NotBothTies<T(!new)>(le: (T, T) -> bool, c: T, x: T, y: T)
    requires IsTotalPreorder(le) && !le(x, y)
    ensures !(SameRank(le, c)(x) && SameRank(le, c)(y))
  {
    if le(x, c) {
      assert !le(c, y);
    }
  }

  /** Inserting `x` puts it in front of every element of its own rank. */
  lemma {:induction false} InsertStable<T(!new)>(x: T, t: seq<T>, le: (T, T) -> bool, c: T)
    requires IsTotalPreorder(le)
    ensures Filter(Insert(x, t, le), SameRank(le, c)) == Filter([x], SameRank(le, c)) + Filter(t, SameRank(le, c))
    decreases |t|
  {
    var p := SameRank(le, c);
    if t == [] || le(x, t[0]) {
      FilterAppend([x], t, p);
    } else {
      var t0, rest := t[0], t[1..];
      assert t == [t0] + rest;
      InsertStable(x, rest, le, c);
      NotBothTies(le, c, x, t0);
      assert Insert(x, t, le) == [t0] + Insert(x, rest, le);
      FilterAppend([t0], Insert(x, rest, le), p);
      FilterAppend([t0], rest, p);
      if p(x) {
        assert Filter([t0], p) == [];
        assert Filter(Insert(x, t, le), p) == Filter(Insert(x, rest, le), p);
        assert Filter(t, p) == Filter(rest, p);
      } else {
        assert Filter([x], p) == [];
      }
    }
  }

  /** `SortBy` keeps every group of ties in its original order. */
  lemma {:induction false} SortByStable<T(!new)>(s: seq<T>, le: (T, T) -> bool, c: T)
    requires IsTotalPreorder(le)
    ensures Filter(SortBy(s, le), SameRank(le, c)) == Filter(s, SameRank(le, c))
    decreases |s|
  {
    if s != [] {
      SortByStable(s[1..], le, c);
      InsertStable(s[0], SortBy(s[1..], le), le, c);
      assert s == [s[0]] + s[1..];
      FilterAppend([s[0]], s[1..], SameRank(le, c));
    }
  }

  lemma SortByIsStableSort<T(!new)>(s: seq<T>, le: (T, T) -> bool)
    requires IsTotalPreorder(le)
    ensures IsStableSortOf(SortBy(s, le), s, le)
  {
    SortBySorted(s, le);
    SortByPermutes(s, le);
    forall x ensures Filter(SortBy(s, le), SameRank(le, x)) == Filter(s, SameRank(le, x)) {
      SortByStable(s, le, x);
    }
  }

  /** The head of a sorted sequence may precede each of its elements. */
  lemma SortedHeadFirst<T(!new)>(s: seq<T>, y: T, le: (T, T) -> bool)
    requires IsTotalPreorder(le) && IsSortedBy(s, le) && y in multiset(s)
    ensures le(s[0], y)
  {
    var i :| 0 <= i < |s| && s[i] == y;
    assert i == 0 || le(s[0], s[i]);
  }

  lemma SortedTail<T>(s: seq<T>, le: (T, T) -> bool)
    requires IsSortedBy(s, le) && s != []
    ensures IsSortedBy(s[1..], le)
  {
    forall i, j | 0 <= i < j < |s| - 1 ensures le(s[1..][i], s[1..][j]) {
      assert s[1..][i] == s[i + 1] && s[1..][j] == s[j + 1];
    }
  }

  /** Sorted rearrangements of each other that agree on the ties of the first head start alike. */
  lemma HeadsEqual<T(!new)>(a: seq<T>, b: seq<T>, le: (T, T) -> bool)
    requires IsTotalPreorder(le)
    requires IsSortedBy(a, le) && IsSortedBy(b, le)
    requires multiset(a) == multiset(b) && a != []
    requires Filter(a, SameRank(le, a[0])) == Filter(b, SameRank(le, a[0]))
    ensures b != [] && a[0] == b[0]
  {
    assert |multiset(b)| == |multiset(a)| > 0;
    var x, y := a[0], b[0];
    assert a == [x] + a[1..] && b == [y] + b[1..];
    assert y in multiset(b) && x in multiset(a);
    SortedHeadFirst(a, y, le);
    SortedHeadFirst(b, x, le);
    SortedHeadFirst(a, x, le);
    var p := SameRank(le, x);
    FilterCons(x, a[1..], p);
    FilterCons(y, b[1..], p);
    assert Filter(a, p)[0] == x && Filter(b, p)[0] == y;
  }

  lemma TiesAgreeOnTails<T(!new)>(x: T, s: seq<T>, t: seq<T>, le: (T, T) -> bool)
    requires forall c :: Filter([x] + s, SameRank(le, c)) == Filter([x] + t, SameRank(le, c))
    ensures forall c :: Filter(s, SameRank(le, c)) == Filter(t, SameRank(le, c))
  {
    forall c ensures Filter(s, SameRank(le, c)) == Filter(t, SameRank(le, c)) {
      FilterConsCancel(x, s, t, SameRank(le, c));
    }
  }

  /** Two sorted sequences with the same elements and the same order within each group of ties are equal. */
  lemma {:induction false} StableSortUnique<T(!new)>(a: seq<T>, b: seq<T>, le: (T, T) -> bool)
    requires IsTotalPreorder(le)
    requires IsSortedBy(a, le) && IsSortedBy(b, le)
    requires multiset(a) == multiset(b)
    requires forall c :: Filter(a, SameRank(le, c)) == Filter(b, SameRank(le, c))
    ensures a == b
    decreases |a|
  {
    if a == [] {
      assert |multiset(b)| == 0;
    } else {
      HeadsEqual(a, b, le);
      var x, ra, rb := a[0], a[1..], b[1..];
      assert a == [x] + ra && b == [x] + rb;
      TiesAgreeOnTails(x, ra, rb, le);
      MultisetCancel(x, ra, rb);
      SortedTail(a, le);
      SortedTail(b, le);
      StableSortUnique(ra, rb, le);
    }
  }

  /** Any stable sort of `s` by a total preorder returns exactly `SortBy(s, le)`. */
  lemma StableSortIsSortBy<T(!new)>(r: seq<T>, s: seq<T>, le: (T, T) -> bool)
    requires IsTotalPreorder(le)
    requires IsStableSortOf(r, s, le)
    ensures r == SortBy(s, le)
  {
    SortByIsStableSort(s, le);
    forall c ensures Filter(r, SameRank(le, c)) == Filter(SortBy(s, le), SameRank(le, c)) {
      assert Filter(r, SameRank(le, c)) == Filter(s, SameRank(le, c));
    }
    StableSortUnique(r, SortBy(s, le), le);
  }
}

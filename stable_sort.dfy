/** `Array.prototype.sort` with a comparator, which is stable: the model is
    insertion sort, and `SortStable` shows it keeps tied elements in their
    input order. `before(a, b)` holds when the comparator returns a negative
    number for `(a, b)`. */
module StableSort {
  import SeqUtil

  /** What a sensible comparator provides: it never orders both ways, and
      "not strictly before" is transitive. */
  ghost predicate IsStrictWeakOrder<T(!new)>(before: (T, T) -> bool) {
    (forall a, b :: before(a, b) ==> !before(b, a)) &&
    (forall a, b, c :: before(a, c) ==> before(a, b) || before(b, c))
  }

  /** No element is strictly before an element that precedes it. */
  ghost predicate Sorted<T>(s: seq<T>, before: (T, T) -> bool) {
    forall i, j :: 0 <= i < j < |s| ==> !before(s[j], s[i])
  }

  /** Puts `x` in front of the first element that is not strictly before it. */
  function Insert<T>(x: T, s: seq<T>, before: (T, T) -> bool): (r: seq<T>)
    ensures |r| == |s| + 1
  {
    if s == [] || !before(s[0], x) then [x] + s
    else [s[0]] + Insert(x, s[1..], before)
  }

  /** Insertion adds `x` and loses nothing. */
  lemma {:induction false} InsertMultiset<T>(x: T, s: seq<T>, before: (T, T) -> bool)
    ensures multiset(Insert(x, s, before)) == multiset(s) + multiset{x}
  {
    if s != [] && before(s[0], x) {
      InsertMultiset(x, s[1..], before);
      assert s == [s[0]] + s[1..];
    }
  }

  function Sort<T>(s: seq<T>, before: (T, T) -> bool): (r: seq<T>)
    ensures |r| == |s|
    ensures multiset(r) == multiset(s)
  {
    if s == [] then []
    else
      assert s == [s[0]] + s[1..];
      InsertMultiset(s[0], Sort(s[1..], before), before);
      Insert(s[0], Sort(s[1..], before), before)
  }

  /** Number of leading elements strictly before `x`. */
  function PrefixBefore<T>(x: T, s: seq<T>, before: (T, T) -> bool): (k: nat)
    ensures k <= |s|
    ensures forall i :: 0 <= i < k ==> before(s[i], x)
    ensures k < |s| ==> !before(s[k], x)
  {
    if s == [] || !before(s[0], x) then 0 else 1 + PrefixBefore(x, s[1..], before)
  }

  /** Insertion puts `x` after exactly the leading elements strictly before it,
      so it precedes every element it ties with. */
  lemma {:induction false} InsertAt<T>(x: T, s: seq<T>, before: (T, T) -> bool)
    ensures Insert(x, s, before) ==
      s[..PrefixBefore(x, s, before)] + [x] + s[PrefixBefore(x, s, before)..]
  {
    if s == [] || !before(s[0], x) {
      assert s[..0] == [] && s[0..] == s;
    } else {
      var t := s[1..];
      var k := PrefixBefore(x, t, before);
      InsertAt(x, t, before);
      calc {
        Insert(x, s, before);
        [s[0]] + Insert(x, t, before);
        [s[0]] + (t[..k] + [x] + t[k..]);
        ([s[0]] + t[..k]) + [x] + t[k..];
        { assert [s[0]] + t[..k] == s[..k + 1]; assert t[k..] == s[k + 1..]; }
        s[..k + 1] + [x] + s[k + 1..];
      }
    }
  }

  lemma {:induction false} InsertSorted<T(!new)>(x: T, s: seq<T>, before: (T, T) -> bool)
    requires IsStrictWeakOrder(before)
    requires Sorted(s, before)
    ensures Sorted(Insert(x, s, before), before)
  {
    if s != [] && before(s[0], x) {
      InsertSorted(x, s[1..], before);
      InsertMultiset(x, s[1..], before);
      var r := Insert(x, s, before);
      var t := Insert(x, s[1..], before);
      assert r == [s[0]] + t;
      forall j | 0 < j < |r|
        ensures !before(r[j], s[0])
      {
        assert r[j] in multiset(t);
        assert r[j] == x || r[j] in s[1..];
      }
    }
  }

  /** The result is sorted, whatever order the input was in. */
  lemma {:induction false} SortSorted<T(!new)>(s: seq<T>, before: (T, T) -> bool)
    requires IsStrictWeakOrder(before)
    ensures Sorted(Sort(s, before), before)
  {
    if s != [] {
      SortSorted(s[1..], before);
      InsertSorted(s[0], Sort(s[1..], before), before);
    }
  }

  /** Sorting an already sorted list changes nothing (stability). */
  lemma {:induction false} SortOfSorted<T>(s: seq<T>, before: (T, T) -> bool)
    requires Sorted(s, before)
    ensures Sort(s, before) == s
  {
    if s != [] {
      SortOfSorted(s[1..], before);
      assert s == [s[0]] + s[1..];
    }
  }

  /** The elements that tie with `y`: neither is before the other. */
  function TiesWith<T>(before: (T, T) -> bool, y: T): T -> bool {
    (x: T) => !before(x, y) && !before(y, x)
  }

  /** Inserting `x` leaves the elements tying with `y` in their order, with
      `x` in front of them when it ties with `y` too: everything `x` is
      inserted after is strictly before it, so it cannot tie with `y`. */
  lemma InsertTies<T(!new)>(x: T, s: seq<T>, before: (T, T) -> bool, y: T)
    requires IsStrictWeakOrder(before)
    ensures SeqUtil.Filter(Insert(x, s, before), TiesWith(before, y)) ==
      (if TiesWith(before, y)(x) then [x] else []) + SeqUtil.Filter(s, TiesWith(before, y))
  {
    var p := TiesWith(before, y);
    var k := PrefixBefore(x, s, before);
    var front, back := s[..k], s[k..];
    InsertAt(x, s, before);
    assert s == front + back;
    if p(x) {
      PrefixNoTies(x, front, before, y);
    }
    FilterAround(front, x, back, p);
  }

  /** Elements strictly before `x` do not tie with what `x` ties with. */
  lemma PrefixNoTies<T(!new)>(x: T, front: seq<T>, before: (T, T) -> bool, y: T)
    requires IsStrictWeakOrder(before)
    requires forall i :: 0 <= i < |front| ==> before(front[i], x)
    requires TiesWith(before, y)(x)
    ensures SeqUtil.Filter(front, TiesWith(before, y)) == []
  {
    forall i | 0 <= i < |front|
      ensures !TiesWith(before, y)(front[i])
    {
      assert before(front[i], x);
    }
    SeqUtil.FilterNone(front, TiesWith(before, y));
  }

  /** Filtering around one inserted element. */
  lemma FilterAround<T>(front: seq<T>, x: T, back: seq<T>, p: T -> bool)
    requires p(x) ==> SeqUtil.Filter(front, p) == []
    ensures SeqUtil.Filter(front + [x] + back, p) ==
      (if p(x) then [x] else []) + SeqUtil.Filter(front + back, p)
  {
    SeqUtil.FilterConcat(front + [x], back, p);
    SeqUtil.FilterConcat(front, [x], p);
    SeqUtil.FilterConcat(front, back, p);
    SeqUtil.FilterCons(x, [], p);
    assert [x] + [] == [x];
  }

  /** Stability: the elements that tie with any `y` come out of the sort in
      the order they went in. */
  lemma {:induction false} SortStable<T(!new)>(s: seq<T>, before: (T, T) -> bool, y: T)
    requires IsStrictWeakOrder(before)
    ensures SeqUtil.Filter(Sort(s, before), TiesWith(before, y)) == SeqUtil.Filter(s, TiesWith(before, y))
  {
    if s != [] {
      SortStable(s[1..], before, y);
      InsertTies(s[0], Sort(s[1..], before), before, y);
      SeqUtil.FilterCons(s[0], s[1..], TiesWith(before, y));
      assert s == [s[0]] + s[1..];
    }
  }

  /** Sorting keeps the sum of any field. */
  lemma {:induction false} InsertSum<T>(x: T, s: seq<T>, before: (T, T) -> bool, f: T -> int)
    ensures SeqUtil.SumBy(Insert(x, s, before), f) == f(x) + SeqUtil.SumBy(s, f)
  {
    if s == [] {
      assert [x] + s == [] + [x];
    } else if !before(s[0], x) {
      SeqUtil.SumConcat([x], s, f);
      assert SeqUtil.SumBy([x], f) == SeqUtil.SumBy([], f) + f(x);
    } else {
      InsertSum(x, s[1..], before, f);
      SeqUtil.SumConcat([s[0]], Insert(x, s[1..], before), f);
      SeqUtil.SumConcat([s[0]], s[1..], f);
      assert s == [s[0]] + s[1..];
    }
  }

  lemma {:induction false} SortSum<T>(s: seq<T>, before: (T, T) -> bool, f: T -> int)
    ensures SeqUtil.SumBy(Sort(s, before), f) == SeqUtil.SumBy(s, f)
  {
    if s != [] {
      SortSum(s[1..], before, f);
      InsertSum(s[0], Sort(s[1..], before), before, f);
      SeqUtil.SumConcat([s[0]], s[1..], f);
      assert SeqUtil.SumBy([s[0]], f) == SeqUtil.SumBy([], f) + f(s[0]);
      assert s == [s[0]] + s[1..];
    }
  }

  /** Sorting keeps a field that is distinct across the list distinct. */
  lemma {:induction false} SortDistinct<T, K>(s: seq<T>, before: (T, T) -> bool, key: T -> K)
    requires forall i, j :: 0 <= i < j < |s| ==> key(s[i]) != key(s[j])
    ensures forall i, j :: 0 <= i < j < |Sort(s, before)| ==> key(Sort(s, before)[i]) != key(Sort(s, before)[j])
  {
    if s != [] {
      var t := Sort(s[1..], before);
      SortDistinct(s[1..], before, key);
      forall y | y in t
        ensures key(y) != key(s[0])
      {
        assert y in multiset(s[1..]);
        var k :| 0 <= k < |s[1..]| && s[1..][k] == y;
        assert s[k + 1] == y;
      }
      InsertDistinct(s[0], t, before, key);
    }
  }

  lemma {:induction false} InsertDistinct<T, K>(x: T, s: seq<T>, before: (T, T) -> bool, key: T -> K)
    requires forall i, j :: 0 <= i < j < |s| ==> key(s[i]) != key(s[j])
    requires forall y :: y in s ==> key(y) != key(x)
    ensures forall i, j :: 0 <= i < j < |Insert(x, s, before)| ==>
      key(Insert(x, s, before)[i]) != key(Insert(x, s, before)[j])
  {
    if s != [] && before(s[0], x) {
      InsertDistinct(x, s[1..], before, key);
      InsertMultiset(x, s[1..], before);
      var t := Insert(x, s[1..], before);
      var r := Insert(x, s, before);
      assert r == [s[0]] + t;
      forall j | 0 < j < |r|
        ensures key(r[j]) != key(s[0])
      {
        assert r[j] in multiset(t);
        if r[j] != x {
          assert r[j] in multiset(s[1..]);
          var k :| 0 <= k < |s[1..]| && s[1..][k] == r[j];
          assert s[k + 1] == r[j];
        }
      }
    }
  }

  /** Dropping elements keeps a sorted list sorted. */
  lemma {:induction false} FilterSorted<T>(s: seq<T>, p: T -> bool, before: (T, T) -> bool)
    requires Sorted(s, before)
    ensures Sorted(SeqUtil.Filter(s, p), before)
  {
    if s != [] {
      var h, x := s[..|s| - 1], s[|s| - 1];
      assert Sorted(h, before);
      FilterSorted(h, p, before);
      if p(x) {
        forall i | 0 <= i < |SeqUtil.Filter(h, p)|
          ensures !before(x, SeqUtil.Filter(h, p)[i])
        {
          var k := SeqUtil.FilterSource(h, p, i);
          assert s[k] == h[k];
        }
        assert SeqUtil.Filter(s, p) == SeqUtil.Filter(h, p) + [x];
      }
    }
  }
}

/** List operations the pages build on: `filter`, summing a field, and the
    keys of an insertion-ordered dictionary (first appearance order). */
module SeqUtil {

  /** `s.filter(p)`. */
  function Filter<T>(s: seq<T>, p: T -> bool): (r: seq<T>)
    ensures |r| <= |s|
    ensures forall i :: 0 <= i < |r| ==> p(r[i])
  {
    if s == [] then [] else Filter(s[..|s| - 1], p) + (if p(s[|s| - 1]) then [s[|s| - 1]] else [])
  }

  lemma {:induction false} FilterConcat<T>(a: seq<T>, b: seq<T>, p: T -> bool)
    ensures Filter(a + b, p) == Filter(a, p) + Filter(b, p)
    decreases |b|
  {
    if b == [] {
      assert a + b == a;
    } else {
      var l := |b| - 1;
      assert (a + b)[..|a + b| - 1] == a + b[..l];
      FilterConcat(a, b[..l], p);
    }
  }

  /** Filtering a list with a first element. */
  lemma {:induction false} FilterCons<T>(x: T, s: seq<T>, p: T -> bool)
    ensures Filter([x] + s, p) == (if p(x) then [x] else []) + Filter(s, p)
  {
    FilterConcat([x], s, p);
    assert [x][..0] == [];
    assert Filter([x], p) == [] + (if p(x) then [x] else []);
  }

  /** An element is kept exactly when it is in the list and satisfies `p`. */
  lemma {:induction false} FilterMembers<T>(s: seq<T>, p: T -> bool)
    ensures forall x :: x in Filter(s, p) <==> x in s && p(x)
  {
    if s != [] {
      FilterMembers(s[..|s| - 1], p);
      assert s == s[..|s| - 1] + [s[|s| - 1]];
    }
  }

  /** Where the `i`-th kept element sits in `s`. */
  function FilterSource<T>(s: seq<T>, p: T -> bool, i: nat): (k: nat)
    requires i < |Filter(s, p)|
    ensures k < |s| && s[k] == Filter(s, p)[i]
    decreases |s|
  {
    var h := s[..|s| - 1];
    if i < |Filter(h, p)| then
      assert forall j :: 0 <= j < |h| ==> s[j] == h[j];
      FilterSource(h, p, i)
    else |s| - 1
  }

  /** `s.filter(p)` and `s.filter(x => !p(x))` split the list: their lengths
      add up and together they hold every element exactly as often as `s`. */
  lemma FilterPartition<T>(s: seq<T>, p: T -> bool, q: T -> bool)
    requires forall x :: q(x) == !p(x)
    ensures |Filter(s, p)| + |Filter(s, q)| == |s|
    ensures multiset(Filter(s, p)) + multiset(Filter(s, q)) == multiset(s)
  {
    FilterSplit(s, p, q);
    assert |multiset(Filter(s, p)) + multiset(Filter(s, q))| == |multiset(s)|;
  }

  lemma {:induction false} FilterSplit<T>(s: seq<T>, p: T -> bool, q: T -> bool)
    requires forall x :: q(x) == !p(x)
    ensures multiset(Filter(s, p)) + multiset(Filter(s, q)) == multiset(s)
  {
    if s != [] {
      var h, x := s[..|s| - 1], s[|s| - 1];
      FilterSplit(h, p, q);
      assert s == h + [x];
      assert q(x) == !p(x);
      SplitSnoc(Filter(h, p), Filter(h, q), h, x, p(x));
    }
  }

  /** Appending an element to one side of a split list splits the longer list. */
  lemma SplitSnoc<T>(a: seq<T>, b: seq<T>, h: seq<T>, x: T, left: bool)
    requires multiset(a) + multiset(b) == multiset(h)
    ensures multiset(if left then a + [x] else a) + multiset(if left then b else b + [x]) == multiset(h + [x])
  {
  }

  /** Filtering by either of two predicates that never hold together keeps
      as many elements as the two filters together. */
  lemma {:induction false} FilterUnion<T>(s: seq<T>, p: T -> bool, q: T -> bool, r: T -> bool)
    requires forall x :: r(x) == (p(x) || q(x))
    requires forall x :: !(p(x) && q(x))
    ensures |Filter(s, r)| == |Filter(s, p)| + |Filter(s, q)|
  {
    if s != [] {
      var h, x := s[..|s| - 1], s[|s| - 1];
      FilterUnion(h, p, q, r);
      assert |Filter(s, r)| == |Filter(h, r)| + (if r(x) then 1 else 0);
      assert |Filter(s, p)| == |Filter(h, p)| + (if p(x) then 1 else 0);
      assert |Filter(s, q)| == |Filter(h, q)| + (if q(x) then 1 else 0);
    }
  }

  /** Keeping the elements that pass `p` keeps all of a list whose every
      element passes. */
  lemma {:induction false} FilterAll<T>(s: seq<T>, p: T -> bool)
    requires forall i :: 0 <= i < |s| ==> p(s[i])
    ensures Filter(s, p) == s
  {
    if s != [] {
      FilterAll(s[..|s| - 1], p);
      assert s == s[..|s| - 1] + [s[|s| - 1]];
    }
  }

  /** Nothing is kept when no element passes. */
  lemma {:induction false} FilterNone<T>(s: seq<T>, p: T -> bool)
    requires forall i :: 0 <= i < |s| ==> !p(s[i])
    ensures Filter(s, p) == []
  {
    if s != [] {
      FilterNone(s[..|s| - 1], p);
    }
  }

  /** When exactly one element passes, the filter is that element alone. */
  lemma {:induction false} FilterOne<T>(s: seq<T>, p: T -> bool, k: nat)
    requires k < |s|
    requires forall i :: 0 <= i < |s| ==> (p(s[i]) <==> i == k)
    ensures Filter(s, p) == [s[k]]
  {
    var h := s[..|s| - 1];
    if k == |s| - 1 {
      FilterNone(h, p);
    } else {
      FilterOne(h, p, k);
    }
  }

  /** The sum of `f` over the list (a `reduce` with `+=`). */
  function SumBy<T>(s: seq<T>, f: T -> int): int {
    if s == [] then 0 else SumBy(s[..|s| - 1], f) + f(s[|s| - 1])
  }

  lemma {:induction false} SumConcat<T>(a: seq<T>, b: seq<T>, f: T -> int)
    ensures SumBy(a + b, f) == SumBy(a, f) + SumBy(b, f)
    decreases |b|
  {
    if b == [] {
      assert a + b == a;
    } else {
      var l := |b| - 1;
      assert (a + b)[..|a + b| - 1] == a + b[..l];
      SumConcat(a, b[..l], f);
    }
  }

  /** The keys of a dictionary filled in the order of `s`: each distinct
      element once, in the order it first appears. */
  function FirstSeen<T(==,!new)>(s: seq<T>): (r: seq<T>)
    ensures forall i, j :: 0 <= i < j < |r| ==> r[i] != r[j]
    ensures forall x :: x in r <==> x in s
  {
    if s == [] then []
    else
      var p := FirstSeen(s[..|s| - 1]);
      assert forall i :: 0 <= i < |s| - 1 ==> s[i] == s[..|s| - 1][i];
      if s[|s| - 1] in p then p else p + [s[|s| - 1]]
  }

  /** Index of the first occurrence of `x`. */
  function FirstIndex<T(==)>(s: seq<T>, x: T): (i: nat)
    requires x in s
    ensures i < |s| && s[i] == x && x !in s[..i]
  {
    if s[0] == x then 0 else 1 + FirstIndex(s[1..], x)
  }

  lemma {:induction false} FirstIndexPrefix<T>(s: seq<T>, n: nat, x: T)
    requires n <= |s| && x in s[..n]
    ensures FirstIndex(s, x) == FirstIndex(s[..n], x)
  {
    if s[0] != x {
      assert s[1..][..n - 1] == s[..n][1..];
      FirstIndexPrefix(s[1..], n - 1, x);
    }
  }

  /** The keys come in the order of their first appearance in `s`. */
  lemma {:induction false} FirstSeenOrder<T(!new)>(s: seq<T>)
    ensures forall i, j :: 0 <= i < j < |FirstSeen(s)| ==>
      FirstIndex(s, FirstSeen(s)[i]) < FirstIndex(s, FirstSeen(s)[j])
  {
    if s != [] {
      var h := s[..|s| - 1];
      var x := s[|s| - 1];
      FirstSeenOrder(h);
      var p := FirstSeen(h);
      var r := FirstSeen(s);
      forall i, j | 0 <= i < j < |r|
        ensures FirstIndex(s, r[i]) < FirstIndex(s, r[j])
      {
        assert r[i] in h;
        FirstIndexPrefix(s, |h|, r[i]);
        if j < |p| {
          FirstIndexPrefix(s, |h|, r[j]);
        } else {
          assert r[j] == x && x !in h;
          assert s[..|h|] == h;
        }
      }
    }
  }

  /** `s.map(key)`. */
  function Keys<T, K>(s: seq<T>, key: T -> K): (ks: seq<K>)
    ensures |ks| == |s|
    ensures forall i :: 0 <= i < |s| ==> ks[i] == key(s[i])
  {
    seq(|s|, i requires 0 <= i < |s| => key(s[i]))
  }

  function WithKey<T, K(==)>(key: T -> K, c: K): T -> bool {
    (x: T) => key(x) == c
  }

  function KeyIn<T, K(==)>(key: T -> K, ks: seq<K>): T -> bool {
    (x: T) => key(x) in ks
  }

  /** The total of `f` over the elements whose key is `c`: the entry a
      dictionary of running sums ends with under `c`. */
  function KeySum<T, K(==)>(s: seq<T>, key: T -> K, f: T -> int, c: K): int {
    if s == [] then 0
    else KeySum(s[..|s| - 1], key, f, c) + (if key(s[|s| - 1]) == c then f(s[|s| - 1]) else 0)
  }

  /** The running total is the sum over the elements that carry the key. */
  lemma {:induction false} KeySumFiltered<T, K>(s: seq<T>, key: T -> K, f: T -> int, c: K)
    ensures KeySum(s, key, f, c) == SumBy(Filter(s, WithKey(key, c)), f)
  {
    if s != [] {
      var h, x := s[..|s| - 1], s[|s| - 1];
      KeySumFiltered(h, key, f, c);
      SumStep(Filter(h, WithKey(key, c)), x, key(x) == c, f);
    }
  }

  /** `KeySum` as a function of the key. */
  function GroupSum<T, K(==)>(s: seq<T>, key: T -> K, f: T -> int): K -> int {
    (c: K) => KeySum(s, key, f, c)
  }

  /** Sums over the elements that pass `p` or `q`, which never hold together,
      split into the two sums. */
  lemma {:induction false} SumFilterUnion<T>(s: seq<T>, p: T -> bool, q: T -> bool, r: T -> bool, f: T -> int)
    requires forall x :: r(x) == (p(x) || q(x))
    requires forall x :: !(p(x) && q(x))
    ensures SumBy(Filter(s, r), f) == SumBy(Filter(s, p), f) + SumBy(Filter(s, q), f)
  {
    if s != [] {
      var h, x := s[..|s| - 1], s[|s| - 1];
      SumFilterUnion(h, p, q, r, f);
      SumStep(Filter(h, r), x, r(x), f);
      SumStep(Filter(h, p), x, p(x), f);
      SumStep(Filter(h, q), x, q(x), f);
    }
  }

  /** Adding an element that may or may not pass adds its value when it does. */
  lemma SumStep<T>(a: seq<T>, x: T, keep: bool, f: T -> int)
    ensures SumBy(a + (if keep then [x] else []), f) == SumBy(a, f) + (if keep then f(x) else 0)
  {
    if keep {
      assert (a + [x])[..|a|] == a;
    } else {
      assert a + [] == a;
    }
  }

  /** The running sums after one more element: only its own key grows, by its value. */
  lemma GroupSumStep<T, K>(s: seq<T>, i: nat, key: T -> K, f: T -> int)
    requires i < |s|
    ensures forall c ::
      KeySum(s[..i + 1], key, f, c) == KeySum(s[..i], key, f, c) + (if key(s[i]) == c then f(s[i]) else 0)
  {
    assert s[..i + 1][..i] == s[..i];
  }

  /** A key not met so far has a zero sum so far. */
  lemma {:induction false} GroupSumUnseen<T, K>(s: seq<T>, key: T -> K, f: T -> int, c: K)
    requires forall i :: 0 <= i < |s| ==> key(s[i]) != c
    ensures KeySum(s, key, f, c) == 0
  {
    if s != [] {
      GroupSumUnseen(s[..|s| - 1], key, f, c);
    }
  }

  /** Each element after the first `i` adds its key to the key order when new. */
  lemma FirstSeenStep<T(!new)>(s: seq<T>, i: nat)
    requires i < |s|
    ensures FirstSeen(s[..i + 1]) ==
      if s[i] in FirstSeen(s[..i]) then FirstSeen(s[..i]) else FirstSeen(s[..i]) + [s[i]]
  {
    assert s[..i + 1][..i] == s[..i];
  }

  /** The key order after one more element: its key is appended when new. */
  lemma KeysStep<T, K(!new)>(s: seq<T>, i: nat, key: T -> K)
    requires i < |s|
    ensures FirstSeen(Keys(s, key)[..i + 1]) ==
      if key(s[i]) in FirstSeen(Keys(s, key)[..i]) then FirstSeen(Keys(s, key)[..i])
      else FirstSeen(Keys(s, key)[..i]) + [key(s[i])]
  {
    FirstSeenStep(Keys(s, key), i);
  }

  /** A key missing from the key order so far is carried by none of the
      elements so far. */
  lemma KeyUnseenBefore<T, K(!new)>(s: seq<T>, i: nat, key: T -> K, keys: seq<K>)
    requires i < |s|
    requires keys == FirstSeen(Keys(s, key)[..i])
    requires key(s[i]) !in keys
    ensures forall k :: 0 <= k < i ==> key(s[..i][k]) != key(s[i])
  {
    var ks := Keys(s, key);
    forall k | 0 <= k < i
      ensures key(s[..i][k]) != key(s[i])
    {
      assert ks[..i][k] in keys;
    }
  }

  /** A key missing from the key order so far has a zero sum so far. */
  lemma KeyUnseen<T, K(!new)>(s: seq<T>, i: nat, key: T -> K, f: T -> int, keys: seq<K>)
    requires i < |s|
    requires keys == FirstSeen(Keys(s, key)[..i])
    requires key(s[i]) !in keys
    ensures KeySum(s[..i], key, f, key(s[i])) == 0
  {
    KeyUnseenBefore(s, i, key, keys);
    GroupSumUnseen(s[..i], key, f, key(s[i]));
  }

  /** A dictionary of running sums after the first `i` elements. */
  ghost predicate SumsUpTo<T, K(!new)>(s: seq<T>, i: nat, key: T -> K, f: T -> int, sums: map<K, int>)
    requires i <= |s|
  {
    forall c :: c in sums ==> sums[c] == KeySum(s[..i], key, f, c)
  }

  /** Adding the next element's value to its key's entry (zero when absent)
      keeps the dictionary in step. */
  lemma SumsStep<T, K(!new)>(s: seq<T>, i: nat, key: T -> K, f: T -> int, sums: map<K, int>, prev: int)
    requires i < |s|
    requires SumsUpTo(s, i, key, f, sums)
    requires prev == if key(s[i]) in sums then sums[key(s[i])] else KeySum(s[..i], key, f, key(s[i]))
    ensures SumsUpTo(s, i + 1, key, f, sums[key(s[i]) := prev + f(s[i])])
  {
    GroupSumStep(s, i, key, f);
  }

  /** A dictionary of running sums after the first `i` elements: its key
      order is the order of first appearance, it holds exactly those keys,
      and each entry is that key's sum so far. */
  ghost predicate KeyedUpTo<T, K(!new)>(s: seq<T>, i: nat, key: T -> K, f: T -> int, keys: seq<K>, sums: map<K, int>)
    requires i <= |s|
  {
    keys == FirstSeen(Keys(s, key)[..i]) &&
    (forall c :: c in sums <==> c in keys) &&
    SumsUpTo(s, i, key, f, sums)
  }

  /** One step of a running-sum fold: the next element's value is added to
      its key's entry, which starts at zero and joins the key order when
      the key is new. */
  lemma KeyedStep<T, K(!new)>(s: seq<T>, i: nat, key: T -> K, f: T -> int, keys: seq<K>, sums: map<K, int>,
                              prev: int, keys': seq<K>)
    requires i < |s| && KeyedUpTo(s, i, key, f, keys, sums)
    requires prev == if key(s[i]) in sums then sums[key(s[i])] else 0
    requires keys' == if key(s[i]) in sums then keys else keys + [key(s[i])]
    ensures KeyedUpTo(s, i + 1, key, f, keys', sums[key(s[i]) := prev + f(s[i])])
  {
    KeysStep(s, i, key);
    if key(s[i]) !in sums {
      KeyUnseen(s, i, key, f, keys);
    }
    SumsStep(s, i, key, f, sums, prev);
  }

  /** The sums of distinct keys add up to the sum over the elements holding
      one of those keys. */
  lemma {:induction false} SumOfGroups<T, K>(s: seq<T>, key: T -> K, f: T -> int, ks: seq<K>)
    requires forall i, j :: 0 <= i < j < |ks| ==> ks[i] != ks[j]
    ensures SumBy(ks, GroupSum(s, key, f)) == SumBy(Filter(s, KeyIn(key, ks)), f)
  {
    if ks == [] {
      FilterNone(s, KeyIn(key, ks));
    } else {
      var front, c := ks[..|ks| - 1], ks[|ks| - 1];
      SumOfGroups(s, key, f, front);
      KeySumFiltered(s, key, f, c);
      assert ks == front + [c];
      SumFilterUnion(s, KeyIn(key, front), WithKey(key, c), KeyIn(key, ks), f);
    }
  }

  /** The sums over the keys in order of first appearance add up to the sum
      over the whole list: every element is counted once. */
  lemma GroupSumTotal<T, K(!new)>(s: seq<T>, key: T -> K, f: T -> int)
    ensures SumBy(FirstSeen(Keys(s, key)), GroupSum(s, key, f)) == SumBy(s, f)
  {
    var ks := FirstSeen(Keys(s, key));
    SumOfGroups(s, key, f, ks);
    FilterAll(s, KeyIn(key, ks));
  }

  /** `list.map(e => key(e) === key(x) ? x : e)`: the update a page applies
      with the object its API returned. */
  function ReplaceByKey<T, K(==)>(s: seq<T>, x: T, key: T -> K): (r: seq<T>)
    ensures |r| == |s|
  {
    seq(|s|, i requires 0 <= i < |s| => if key(s[i]) == key(x) then x else s[i])
  }

  /** The new element takes every position holding its key and the others
      stay; with the key absent nothing changes, and replacing twice is
      replacing once. */
  lemma ReplaceByKeyShape<T, K>(s: seq<T>, x: T, key: T -> K)
    ensures forall i :: 0 <= i < |s| && key(s[i]) == key(x) ==> ReplaceByKey(s, x, key)[i] == x
    ensures forall i :: 0 <= i < |s| && key(s[i]) != key(x) ==> ReplaceByKey(s, x, key)[i] == s[i]
    ensures (forall i :: 0 <= i < |s| ==> key(s[i]) != key(x)) ==> ReplaceByKey(s, x, key) == s
    ensures ReplaceByKey(ReplaceByKey(s, x, key), x, key) == ReplaceByKey(s, x, key)
  {
  }
}

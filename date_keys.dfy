/** Calendar dates as `YYYY-MM-DD` keys (the full-date of section 5.6 of
    RFC 3339), the string order the application compares them with, and the
    stable sort of key lists. */
module DateKeys {
  import opened Wrappers
  import opened Calendar
  import StableSort

  /** Code-unit lexicographic order on strings; `localeCompare` agrees with it
      on keys made of digits and '-' at fixed positions. */
  predicate LexLess(a: string, b: string)
    decreases |a|
  {
    if a == [] then b != []
    else if b == [] then false
    else a[0] < b[0] || (a[0] == b[0] && LexLess(a[1..], b[1..]))
  }

  lemma {:induction false} LexIrreflexive(a: string)
    ensures !LexLess(a, a)
    decreases |a|
  {
    if a != [] {
      LexIrreflexive(a[1..]);
    }
  }

  lemma {:induction false} LexAsymmetric(a: string, b: string)
    requires LexLess(a, b)
    ensures !LexLess(b, a)
    decreases |a|
  {
    if a != [] && b != [] && a[0] == b[0] {
      LexAsymmetric(a[1..], b[1..]);
    }
  }

  lemma {:induction false} LexTransitive(a: string, b: string, c: string)
    requires LexLess(a, b) && LexLess(b, c)
    ensures LexLess(a, c)
    decreases |a|
  {
    if a != [] && a[0] == b[0] && b[0] == c[0] {
      LexTransitive(a[1..], b[1..], c[1..]);
    }
  }

  /** Any two strings are equal or ordered one way. */
  lemma {:induction false} LexTotal(a: string, b: string)
    ensures a == b || LexLess(a, b) || LexLess(b, a)
    decreases |a|
  {
    if a != [] && b != [] && a[0] == b[0] {
      LexTotal(a[1..], b[1..]);
      if a[1..] == b[1..] {
        assert a == [a[0]] + a[1..] && b == [b[0]] + b[1..];
      }
    }
  }

  /** Comparing two concatenations whose first parts have the same length
      compares the first parts, and the second parts only when the first
      parts are equal. */
  lemma {:induction false} LexConcat(p: string, x: string, q: string, y: string)
    requires |p| == |q|
    ensures LexLess(p + x, q + y) == if p == q then LexLess(x, y) else LexLess(p, q)
    decreases |p|
  {
    if p == [] {
      assert p + x == x && q + y == y;
    } else {
      var p', q' := p[1..], q[1..];
      assert (p + x)[1..] == p' + x;
      assert (q + y)[1..] == q' + y;
      LexConcat(p', x, q', y);
      assert LexLess(p + x, q + y) == (p[0] < q[0] || (p[0] == q[0] && LexLess(p' + x, q' + y)));
      assert LexLess(p, q) == (p[0] < q[0] || (p[0] == q[0] && LexLess(p', q')));
      HeadTail(p, q);
    }
  }

  /** Two non-empty strings are equal exactly when heads and tails are. */
  lemma HeadTail(p: string, q: string)
    requires p != [] && q != []
    ensures p == q <==> p[0] == q[0] && p[1..] == q[1..]
  {
    assert p == [p[0]] + p[1..] && q == [q[0]] + q[1..];
  }

  function Pow10(w: nat): (r: nat)
    ensures r >= 1
  {
    if w == 0 then 1 else 10 * Pow10(w - 1)
  }

  function Digit(k: nat): char
    requires k < 10
  {
    (48 + k) as char
  }

  /** The last `w` decimal digits of `n`, zero-padded on the left. */
  function Pad(n: nat, w: nat): (r: string)
    ensures |r| == w
  {
    if w == 0 then [] else Pad(n / 10, w - 1) + [Digit(n % 10)]
  }

  /** For numbers of at most `w` digits, padding is injective and string order
      is numeric order. */
  lemma {:induction false} PadOrder(a: nat, b: nat, w: nat)
    requires a < Pow10(w) && b < Pow10(w)
    ensures Pad(a, w) == Pad(b, w) <==> a == b
    ensures LexLess(Pad(a, w), Pad(b, w)) <==> a < b
  {
    if w == 0 {
      assert a == 0 && b == 0;
    } else {
      var a1, b1 := a / 10, b / 10;
      assert a == 10 * a1 + a % 10 && b == 10 * b1 + b % 10;
      assert a1 < Pow10(w - 1) && b1 < Pow10(w - 1);
      PadOrder(a1, b1, w - 1);
      var pa, pb := Pad(a1, w - 1), Pad(b1, w - 1);
      var da, db := [Digit(a % 10)], [Digit(b % 10)];
      LexConcat(pa, da, pb, db);
      assert LexLess(da, db) <==> a % 10 < b % 10 by {
        assert da[1..] == [] && db[1..] == [];
      }
      if pa + da == pb + db {
        assert pa == (pa + da)[..w - 1] && pb == (pb + db)[..w - 1];
        assert da[0] == (pa + da)[w - 1] && db[0] == (pb + db)[w - 1];
      }
    }
  }

  /** Dates that have a four-digit key. */
  predicate Keyable(d: Date) {
    ValidDate(d) && 0 <= d.year <= 9999
  }

  /** The `YYYY-MM-DD` key of a date (what `toISOString().split('T')[0]` gives
      for a date at midnight UTC). */
  function ToKey(d: Date): (k: string)
    requires Keyable(d)
    ensures |k| == 10 && k[4] == '-' && k[7] == '-'
  {
    Pad(d.year, 4) + ("-" + (Pad(d.month, 2) + ("-" + Pad(d.day, 2))))
  }

  /** Key order is chronological order (section 5.1 of RFC 3339), and keys
      of distinct dates are distinct. */
  lemma KeyOrder(a: Date, b: Date)
    requires Keyable(a) && Keyable(b)
    ensures LexLess(ToKey(a), ToKey(b)) <==> Before(a, b)
    ensures ToKey(a) == ToKey(b) <==> a == b
  {
    assert Pow10(2) == 100 && Pow10(4) == 10000;
    PadOrder(a.year, b.year, 4);
    PadOrder(a.month, b.month, 2);
    PadOrder(a.day, b.day, 2);
    var ya, yb := Pad(a.year, 4), Pad(b.year, 4);
    var ma, mb := Pad(a.month, 2), Pad(b.month, 2);
    var da, db := Pad(a.day, 2), Pad(b.day, 2);
    var ra, rb := "-" + (ma + ("-" + da)), "-" + (mb + ("-" + db));
    LexConcat(ya, ra, yb, rb);
    LexConcat("-", ma + ("-" + da), "-", mb + ("-" + db));
    LexConcat(ma, "-" + da, mb, "-" + db);
    LexConcat("-", da, "-", db);
    if ToKey(a) == ToKey(b) {
      assert ya == ToKey(a)[..4] && yb == ToKey(b)[..4];
      assert ma == ToKey(a)[5..7] && mb == ToKey(b)[5..7];
      assert da == ToKey(a)[8..] && db == ToKey(b)[8..];
    }
  }

  function DigitValue(c: char): (r: Option<nat>)
    ensures r.Some? ==> r.value < 10
  {
    if '0' <= c <= '9' then Some((c as int - 48) as nat) else None
  }

  /** Reads a string of decimal digits. */
  function ParseDigits(s: string): (r: Option<nat>)
    ensures r.Some? ==> r.value < Pow10(|s|)
  {
    if s == [] then Some(0)
    else match (ParseDigits(s[..|s| - 1]), DigitValue(s[|s| - 1]))
      case (Some(h), Some(l)) => Some(10 * h + l)
      case _ => None
  }

  lemma {:induction false} ParsePad(n: nat, w: nat)
    requires n < Pow10(w)
    ensures ParseDigits(Pad(n, w)) == Some(n)
  {
    if w > 0 {
      ParsePad(n / 10, w - 1);
      var p := Pad(n, w);
      assert p[..|p| - 1] == Pad(n / 10, w - 1);
    }
  }

  /** Reads a `YYYY-MM-DD` key back into a date; anything else, including a
      day that does not exist in its month, is None. */
  function ParseKey(k: string): (r: Option<Date>)
    ensures r.Some? ==> Keyable(r.value)
  {
    if |k| != 10 || k[4] != '-' || k[7] != '-' then None
    else match (ParseDigits(k[..4]), ParseDigits(k[5..7]), ParseDigits(k[8..]))
      case (Some(y), Some(m), Some(d)) =>
        if Keyable(Date(y, m, d)) then Some(Date(y, m, d)) else None
      case _ => None
  }

  /** Parsing a key recovers its date. */
  lemma ParseToKey(d: Date)
    requires Keyable(d)
    ensures ParseKey(ToKey(d)) == Some(d)
  {
    assert Pow10(2) == 100 && Pow10(4) == 10000;
    var k := ToKey(d);
    assert k[..4] == Pad(d.year, 4);
    assert k[5..7] == Pad(d.month, 2);
    assert k[8..] == Pad(d.day, 2);
    ParsePad(d.year, 4);
    ParsePad(d.month, 2);
    ParsePad(d.day, 2);
  }

  /** Every string ParseKey accepts is the key of the date it returns. */
  lemma KeyOfParse(k: string)
    requires ParseKey(k).Some?
    ensures ToKey(ParseKey(k).value) == k
  {
    var d := ParseKey(k).value;
    assert Pow10(2) == 100 && Pow10(4) == 10000;
    DigitsPad(k[..4]);
    DigitsPad(k[5..7]);
    DigitsPad(k[8..]);
    assert k == k[..4] + ("-" + (k[5..7] + ("-" + k[8..])));
  }

  lemma {:induction false} DigitsPad(s: string)
    requires ParseDigits(s).Some?
    ensures Pad(ParseDigits(s).value, |s|) == s
  {
    if s != [] {
      var h := s[..|s| - 1];
      DigitsPad(h);
      var n := ParseDigits(s).value;
      var hv := ParseDigits(h).value;
      var l := DigitValue(s[|s| - 1]).value;
      assert n == 10 * hv + l;
      assert n / 10 == hv && n % 10 == l;
      assert s == h + [s[|s| - 1]];
    }
  }

  /** The keys of a sequence of dates, in order. */
  function KeysOf(ds: seq<Date>): (ks: seq<string>)
    requires forall i :: 0 <= i < |ds| ==> Keyable(ds[i])
    ensures |ks| == |ds|
    ensures forall i :: 0 <= i < |ds| ==> ks[i] == ToKey(ds[i])
  {
    if ds == [] then [] else [ToKey(ds[0])] + KeysOf(ds[1..])
  }

  /** `keys.sort((a, b) => a.localeCompare(b))`: the stable sort under key order. */
  function SortKeys(s: seq<string>): seq<string> {
    StableSort.Sort(s, LexLess)
  }

  predicate StrictlyAscending(s: seq<string>) {
    forall i :: 0 <= i < |s| - 1 ==> LexLess(s[i], s[i + 1])
  }

  function Reverse<T>(s: seq<T>): (r: seq<T>)
    ensures |r| == |s|
    ensures forall i :: 0 <= i < |s| ==> r[i] == s[|s| - 1 - i]
  {
    if s == [] then [] else Reverse(s[1..]) + [s[0]]
  }

  /** An already strictly ascending list is left as it is. */
  lemma {:induction false} SortAscending(s: seq<string>)
    requires StrictlyAscending(s)
    ensures SortKeys(s) == s
  {
    if s != [] {
      SortAscending(s[1..]);
      if |s| > 1 {
        LexAsymmetric(s[0], s[1]);
      }
      assert s == [s[0]] + s[1..];
    }
  }

  lemma {:induction false} InsertLargest(x: string, s: seq<string>)
    requires forall i :: 0 <= i < |s| ==> LexLess(s[i], x)
    ensures StableSort.Insert(x, s, LexLess) == s + [x]
  {
    if s != [] {
      InsertLargest(x, s[1..]);
      assert s == [s[0]] + s[1..];
    }
  }

  /** A strictly descending list is sorted into its reverse. */
  lemma {:induction false} SortDescending(s: seq<string>)
    requires StrictlyAscending(Reverse(s))
    ensures SortKeys(s) == Reverse(s)
  {
    if s != [] {
      var t := s[1..];
      assert Reverse(s) == Reverse(t) + [s[0]];
      assert StrictlyAscending(Reverse(t)) by {
        forall i | 0 <= i < |t| - 1
          ensures LexLess(Reverse(t)[i], Reverse(t)[i + 1])
        {
          assert Reverse(t)[i] == Reverse(s)[i] && Reverse(t)[i + 1] == Reverse(s)[i + 1];
        }
      }
      SortDescending(t);
      AscendingBelowLast(Reverse(s));
      forall i | 0 <= i < |t|
        ensures LexLess(Reverse(t)[i], s[0])
      {
        assert Reverse(t)[i] == Reverse(s)[i];
      }
      InsertLargest(s[0], Reverse(t));
    }
  }

  /** In a strictly ascending list every element is below the last. */
  lemma {:induction false} AscendingBelowLast(s: seq<string>)
    requires StrictlyAscending(s) && s != []
    ensures forall i :: 0 <= i < |s| - 1 ==> LexLess(s[i], s[|s| - 1])
  {
    if |s| > 1 {
      var h := s[..|s| - 1];
      AscendingBelowLast(h);
      forall i | 0 <= i < |s| - 1
        ensures LexLess(s[i], s[|s| - 1])
      {
        if i < |s| - 2 {
          LexTransitive(s[i], s[|s| - 2], s[|s| - 1]);
        }
      }
    }
  }

  /** The keys of a run of consecutive days are strictly ascending. */
  lemma RunKeysAscending(d: Date, n: nat)
    requires ValidDate(d)
    requires forall i :: 0 <= i < n ==> Keyable(DaysEndingAt(d, n)[i])
    ensures StrictlyAscending(KeysOf(DaysEndingAt(d, n)))
  {
    var r := DaysEndingAt(d, n);
    DaysEndingAtAscending(d, n);
    forall i | 0 <= i < n - 1
      ensures LexLess(ToKey(r[i]), ToKey(r[i + 1]))
    {
      KeyOrder(r[i], r[i + 1]);
    }
  }
}

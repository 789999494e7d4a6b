/** The string operations the pages use: `trim`, `split` on one character,
    `join`, and decimal formatting of numbers for generated ids. */
module Text {
  import DateKeys

  /** The characters `String.prototype.trim` removes: WhiteSpace and
      LineTerminator of ECMAScript, that is tab, vertical tab, form feed,
      space, no-break space, byte order mark, the other space separators,
      line feed, carriage return, line and paragraph separators. */
  predicate IsWhitespace(c: char) {
    c == '\t' || c == '\U{B}' || c == '\U{C}' || c == ' ' || c == '\U{A0}' || c == '\U{FEFF}' ||
    c == '\U{1680}' || ('\U{2000}' <= c <= '\U{200A}') || c == '\U{202F}' || c == '\U{205F}' ||
    c == '\U{3000}' || c == '\n' || c == '\r' || c == '\U{2028}' || c == '\U{2029}'
  }

  /** No whitespace at either end. */
  predicate IsTrimmed(s: string) {
    s == [] || (!IsWhitespace(s[0]) && !IsWhitespace(s[|s| - 1]))
  }

  /** Number of whitespace characters at the start of `s`. */
  function LeadingSpace(s: string): (n: nat)
    ensures n <= |s|
    ensures forall i :: 0 <= i < n ==> IsWhitespace(s[i])
    ensures n < |s| ==> !IsWhitespace(s[n])
  {
    if s == [] || !IsWhitespace(s[0]) then 0 else 1 + LeadingSpace(s[1..])
  }

  /** Length of `s` without the whitespace at its end. */
  function TrailingStart(s: string): (n: nat)
    ensures n <= |s|
    ensures forall i :: n <= i < |s| ==> IsWhitespace(s[i])
    ensures 0 < n ==> !IsWhitespace(s[n - 1])
  {
    if s == [] || !IsWhitespace(s[|s| - 1]) then |s| else TrailingStart(s[..|s| - 1])
  }

  /** `s.trim()`: whitespace removed from both ends. */
  function Trim(s: string): (r: string)
    ensures IsTrimmed(r) && |r| <= |s|
  {
    var a := LeadingSpace(s);
    var b := TrailingStart(s);
    if a < b then s[a..b] else []
  }

  /** Trimming removes only whitespace, and only at the ends: the result is
      the infix of `s` that starts after the leading whitespace, and all
      that follows it is whitespace too. */
  lemma TrimInfix(s: string)
    ensures LeadingSpace(s) + |Trim(s)| <= |s|
    ensures Trim(s) == s[LeadingSpace(s)..LeadingSpace(s) + |Trim(s)|]
    ensures forall i :: LeadingSpace(s) + |Trim(s)| <= i < |s| ==> IsWhitespace(s[i])
  {
  }

  /** Trimming an already trimmed string changes nothing, so trimming is
      idempotent. */
  lemma TrimOfTrimmed(s: string)
    requires IsTrimmed(s)
    ensures Trim(s) == s
  {
    if s != [] {
      assert LeadingSpace(s) == 0 && TrailingStart(s) == |s|;
    }
  }

  /** A string trims to empty exactly when it is all whitespace. */
  lemma TrimEmpty(s: string)
    ensures Trim(s) == [] <==> forall i :: 0 <= i < |s| ==> IsWhitespace(s[i])
  {
    var a := LeadingSpace(s);
    if a < |s| {
      assert !IsWhitespace(s[a]);
      assert a < TrailingStart(s);
    }
  }

  function IndexOf(s: string, c: char): (i: nat)
    requires c in s
    ensures i < |s| && s[i] == c && c !in s[..i]
  {
    if s[0] == c then 0 else 1 + IndexOf(s[1..], c)
  }

  /** `s.split(c)`: the pieces between occurrences of `c`; an empty string
      gives one empty piece. */
  function Split(s: string, c: char): (parts: seq<string>)
    ensures |parts| >= 1
    ensures forall i :: 0 <= i < |parts| ==> c !in parts[i]
    decreases |s|
  {
    if c !in s then [s]
    else
      var i := IndexOf(s, c);
      [s[..i]] + Split(s[i + 1..], c)
  }

  /** `parts.join(sep)`: an empty list joins to the empty string. */
  function Join(parts: seq<string>, sep: string): string {
    if |parts| == 0 then ""
    else if |parts| == 1 then parts[0]
    else parts[0] + sep + Join(parts[1..], sep)
  }

  /** A join starts with its first piece. */
  lemma JoinStartsWith(parts: seq<string>, sep: string)
    requires |parts| >= 1
    ensures parts[0] <= Join(parts, sep)
  {
  }

  /** A join of two or more pieces is the first piece, the separator and
      the join of the rest. */
  lemma JoinCons(p: string, rest: seq<string>, sep: string)
    requires |rest| >= 1
    ensures Join([p] + rest, sep) == p + sep + Join(rest, sep)
  {
    assert ([p] + rest)[0] == p && ([p] + rest)[1..] == rest;
  }

  /** Joining the pieces of a split with the separator gives the string back. */
  lemma {:induction false} JoinSplit(s: string, c: char)
    ensures Join(Split(s, c), [c]) == s
    decreases |s|
  {
    if c in s {
      var i := IndexOf(s, c);
      var p, r := s[..i], s[i + 1..];
      assert Split(s, c) == [p] + Split(r, c);
      JoinSplit(r, c);
      JoinCons(p, Split(r, c), [c]);
      Recompose(s, i);
    }
  }

  /** A string is the part before a position, the character there and the
      part after it. */
  lemma Recompose(s: string, i: nat)
    requires i < |s|
    ensures s[..i] + [s[i]] + s[i + 1..] == s
  {
    assert s[i..] == [s[i]] + s[i + 1..];
    assert s == s[..i] + s[i..];
  }

  /** The first separator after a separator-free prefix is right after it. */
  lemma {:induction false} IndexAfterPrefix(p: string, c: char, r: string)
    requires c !in p
    ensures c in p + [c] + r && IndexOf(p + [c] + r, c) == |p|
  {
    var s := p + [c] + r;
    assert s[|p|] == c;
    if p != [] {
      IndexAfterPrefix(p[1..], c, r);
      assert s[1..] == p[1..] + [c] + r;
    }
  }

  /** Splitting at a separator that follows a separator-free prefix gives the
      prefix, then the split of the rest. */
  lemma SplitCons(p: string, c: char, r: string)
    requires c !in p
    ensures Split(p + [c] + r, c) == [p] + Split(r, c)
  {
    var s := p + [c] + r;
    IndexAfterPrefix(p, c, r);
    assert s[..|p|] == p;
    assert s[|p| + 1..] == r;
  }

  /** Splitting a join of pieces that do not contain the separator gives the
      pieces back. */
  lemma {:induction false} SplitJoin(parts: seq<string>, c: char)
    requires |parts| >= 1
    requires forall i :: 0 <= i < |parts| ==> c !in parts[i]
    ensures Split(Join(parts, [c]), c) == parts
  {
    if |parts| > 1 {
      var p, rest := parts[0], parts[1..];
      SplitJoin(rest, c);
      assert parts == [p] + rest;
      JoinCons(p, rest, [c]);
      SplitCons(p, c, Join(rest, [c]));
    }
  }

  /** Decimal digits of `n`, no padding (as `${n}` formats a whole number). */
  function NatToString(n: nat): (r: string)
    ensures |r| >= 1
  {
    if n < 10 then [DateKeys.Digit(n)] else NatToString(n / 10) + [DateKeys.Digit(n % 10)]
  }
}

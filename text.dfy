/** String helpers with Python's meaning: `sep.join(parts)`, `s.split(c)` and `sub in s`. */
module Text {

  /** `sep.join(parts)` */
  function Join(parts: seq<string>, sep: string): string
  {
    if |parts| == 0 then ""
    else if |parts| == 1 then parts[0]
    else parts[0] + sep + Join(parts[1..], sep)
  }

  /** `s.split(d)` for a one-character separator: always at least one piece. */
  function Split(s: string, d: char): (r: seq<string>)
    ensures |r| >= 1
  {
    if s == [] then [""]
    else if s[0] == d then [""] + Split(s[1..], d)
    else
      var rest := Split(s[1..], d);
      [[s[0]] + rest[0]] + rest[1..]
  }

  /** Python's `sub in s` on strings. */
  predicate Contains(s: string, sub: string)
  {
    sub <= s || (|s| > 0 && Contains(s[1..], sub))
  }

  /** Number of occurrences of `c` in `s`. */
  function Occurrences(s: string, c: char): nat
  {
    if s == [] then 0 else (if s[0] == c then 1 else 0) + Occurrences(s[1..], c)
  }

  lemma {:induction false} SplitWithoutSeparator(s: string, d: char)
    requires d !in s
    ensures Split(s, d) == [s]
  {
    if s != [] {
      assert s[0] in s;
      SplitWithoutSeparator(s[1..], d);
      assert [s[0]] + s[1..] == s;
    }
  }

  lemma {:induction false} SplitAfterPiece(a: string, d: char, b: string)
    requires d !in a
    ensures Split(a + [d] + b, d) == [a] + Split(b, d)
  {
    if a == [] {
      assert a + [d] + b == [d] + b;
    } else {
      assert a[0] in a;
      SplitAfterPiece(a[1..], d, b);
      assert (a + [d] + b)[1..] == a[1..] + [d] + b;
      assert (a + [d] + b)[0] == a[0];
      assert [a[0]] + a[1..] == a;
    }
  }

  /** Splitting a joined list on its one-character separator gives the pieces back. */
  lemma {:induction false} SplitJoin(parts: seq<string>, d: char)
    requires |parts| >= 1
    requires forall i :: 0 <= i < |parts| ==> d !in parts[i]
    ensures Split(Join(parts, [d]), d) == parts
  {
    if |parts| == 1 {
      SplitWithoutSeparator(parts[0], d);
    } else {
      SplitJoin(parts[1..], d);
      SplitAfterPiece(parts[0], d, Join(parts[1..], [d]));
    }
  }

  /** Each occurrence of the separator opens one more piece. */
  lemma {:induction false} SplitCount(s: string, d: char)
    ensures |Split(s, d)| == Occurrences(s, d) + 1
  {
    if s != [] {
      SplitCount(s[1..], d);
    }
  }

  /** The character occurs exactly when it is counted at least once. */
  lemma {:induction false} OccurrencesPositive(s: string, c: char)
    ensures c in s <==> Occurrences(s, c) > 0
  {
    if s != [] {
      OccurrencesPositive(s[1..], c);
      assert s == [s[0]] + s[1..];
    }
  }
}

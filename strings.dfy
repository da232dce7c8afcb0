/**
 * Python's `str.split(sep)` for a one-character separator, with the index
 * helpers needed to reason about it.
 */
module Strings {

  /** Index of the last occurrence of `c` in `s`, or -1 when `c` does not occur. */
  function LastIndex(s: string, c: char): (i: int)
    ensures -1 <= i < |s|
    ensures i >= 0 ==> s[i] == c
    ensures forall j :: i < j < |s| ==> s[j] != c
  {
    if s == [] then -1
    else if s[|s| - 1] == c then |s| - 1
    else LastIndex(s[..|s| - 1], c)
  }

  /** Number of occurrences of `c` in `s`. */
  function Count(s: string, c: char): nat
  {
    if s == [] then 0
    else Count(s[..|s| - 1], c) + (if s[|s| - 1] == c then 1 else 0)
  }

  /**
   * `s.split(sep)`: the pieces between consecutive separators, from the
   * first character to the last. Built by cutting at the last separator.
   */
  function Split(s: string, sep: char): (parts: seq<string>)
    ensures |parts| >= 1
    decreases |s|
  {
    var i := LastIndex(s, sep);
    if i < 0 then [s] else Split(s[..i], sep) + [s[i + 1..]]
  }

  /** `sep.join(parts)`: the inverse of `Split`. */
  function Join(parts: seq<string>, sep: char): string
    requires |parts| >= 1
  {
    if |parts| == 1 then parts[0]
    else Join(parts[..|parts| - 1], sep) + [sep] + parts[|parts| - 1]
  }

  /** Python's `parts[-2]`. */
  function SecondToLast(parts: seq<string>): string
    requires |parts| >= 2
  {
    parts[|parts| - 2]
  }

  /** The last occurrence is the only position holding `c` with no `c` after it. */
  lemma LastIndexIs(s: string, c: char, k: int)
    requires 0 <= k < |s| && s[k] == c
    requires forall j :: k < j < |s| ==> s[j] != c
    ensures LastIndex(s, c) == k
  {
  }

  /** Cutting `s` at its last `c` removes exactly one occurrence. */
  lemma {:induction false} CountAtLastIndex(s: string, c: char)
    requires LastIndex(s, c) >= 0
    ensures Count(s, c) == Count(s[..LastIndex(s, c)], c) + 1
  {
    var n := |s|;
    if s[n - 1] != c {
      var t := s[..n - 1];
      assert LastIndex(s, c) == LastIndex(t, c);
      CountAtLastIndex(t, c);
      assert t[..LastIndex(t, c)] == s[..LastIndex(s, c)];
    }
  }

  /** A string without `c` has no occurrence of it. */
  lemma {:induction false} CountAbsent(s: string, c: char)
    requires LastIndex(s, c) < 0
    ensures Count(s, c) == 0
  {
    if s != [] {
      CountAbsent(s[..|s| - 1], c);
    }
  }

  /** The number of pieces is one more than the number of separators. */
  lemma {:induction false} SplitLength(s: string, sep: char)
    ensures |Split(s, sep)| == Count(s, sep) + 1
    decreases |s|
  {
    var i := LastIndex(s, sep);
    if i < 0 {
      CountAbsent(s, sep);
    } else {
      SplitLength(s[..i], sep);
      CountAtLastIndex(s, sep);
    }
  }

  /** No piece contains the separator. */
  lemma {:induction false} SplitPiecesHaveNoSeparator(s: string, sep: char)
    ensures forall k :: 0 <= k < |Split(s, sep)| ==> sep !in Split(s, sep)[k]
    decreases |s|
  {
    var i := LastIndex(s, sep);
    if i >= 0 {
      SplitPiecesHaveNoSeparator(s[..i], sep);
      var last := s[i + 1..];
      assert forall j :: 0 <= j < |last| ==> last[j] != sep;
    }
  }

  /** Joining the pieces gives back the string. */
  lemma {:induction false} JoinSplit(s: string, sep: char)
    ensures Join(Split(s, sep), sep) == s
    decreases |s|
  {
    var i := LastIndex(s, sep);
    if i >= 0 {
      var ps := Split(s[..i], sep);
      JoinSplit(s[..i], sep);
      assert (ps + [s[i + 1..]])[..|ps|] == ps;
      assert s[..i] + [sep] + s[i + 1..] == s;
    }
  }

  /**
   * Splitting a join of separator-free pieces recovers the pieces: `Split`
   * is the only decomposition of a string into separator-free pieces, which
   * is what Python's `str.split` returns.
   */
  lemma {:induction false} SplitJoin(parts: seq<string>, sep: char)
    requires |parts| >= 1
    requires forall k :: 0 <= k < |parts| ==> sep !in parts[k]
    ensures Split(Join(parts, sep), sep) == parts
  {
    if |parts| > 1 {
      var init, last := parts[..|parts| - 1], parts[|parts| - 1];
      var head := Join(init, sep);
      var s := Join(parts, sep);
      assert s == head + [sep] + last;
      assert s[|head|] == sep;
      forall j | |head| < j < |s| ensures s[j] != sep {
        assert s[j] == last[j - |head| - 1];
      }
      LastIndexIs(s, sep, |head|);
      assert s[..|head|] == head;
      assert s[|head| + 1..] == last;
      SplitJoin(init, sep);
      assert init + [last] == parts;
    }
  }

  /** Appending a separator and a piece without one appends that piece to the split. */
  lemma SplitAppendPiece(s: string, sep: char, w: string)
    requires sep !in w
    ensures Split(s + [sep] + w, sep) == Split(s, sep) + [w]
  {
    var t := s + [sep] + w;
    LastIndexIs(t, sep, |s|);
    assert t[..|s|] == s && t[|s| + 1..] == w;
  }

  /** The text after the last separator holds no separator. */
  lemma AfterLastIndex(s: string, sep: char)
    requires LastIndex(s, sep) >= 0
    ensures sep !in s[LastIndex(s, sep) + 1..]
  {
    var i := LastIndex(s, sep);
    var rest := s[i + 1..];
    forall k | 0 <= k < |rest| ensures rest[k] != sep {
      assert rest[k] == s[i + 1 + k];
    }
  }

  /** A string with at least two separators, cut at its last two. */
  lemma LastTwoSeparators(u: string, sep: char) returns (head: string, n: string, q: string)
    requires Count(u, sep) >= 2
    ensures u == head + [sep] + n + [sep] + q
    ensures sep !in n && sep !in q
  {
    if LastIndex(u, sep) < 0 {
      CountAbsent(u, sep);
    }
    var i := LastIndex(u, sep);
    CountAtLastIndex(u, sep);
    var w := u[..i];
    if LastIndex(w, sep) < 0 {
      CountAbsent(w, sep);
    }
    var j := LastIndex(w, sep);
    head, n, q := w[..j], w[j + 1..], u[i + 1..];
    AfterLastIndex(u, sep);
    AfterLastIndex(w, sep);
    assert w == head + [sep] + n;
  }

  /**
   * With at least two separators in `u`, element -2 of the split lies inside
   * `u`, so no prefix changes it.
   */
  lemma SecondToLastAfterPrefix(p: string, u: string, sep: char)
    requires Count(u, sep) >= 2
    ensures |Split(u, sep)| >= 2 && |Split(p + u, sep)| >= 2
    ensures SecondToLast(Split(p + u, sep)) == SecondToLast(Split(u, sep))
  {
    var head, n, q := LastTwoSeparators(u, sep);
    assert p + u == p + head + [sep] + n + [sep] + q;
    SplitAppendPiece(head + [sep] + n, sep, q);
    SplitAppendPiece(head, sep, n);
    SplitAppendPiece(p + head + [sep] + n, sep, q);
    SplitAppendPiece(p + head, sep, n);
  }
}

/** String helpers with Python's semantics: `str.startswith`, `str.split(sep)`,
    `str.strip()` and `str.strip(chars)`. Strings are sequences of characters. */
module Strings {

  /** Python's `s.startswith(p)`. */
  predicate StartsWith(s: string, p: string) {
    |p| <= |s| && s[..|p|] == p
  }

  /** The characters Python's `str.isspace()` accepts, so the characters
      `str.strip()` removes when called without arguments. */
  predicate IsSpace(c: char) {
    c == ' ' || ('\t' <= c <= '\r') || ('\U{1C}' <= c <= '\U{1F}')
    || c == '\U{85}' || c == '\U{A0}' || c == '\U{1680}' || ('\U{2000}' <= c <= '\U{200A}')
    || c == '\U{2028}' || c == '\U{2029}' || c == '\U{202F}' || c == '\U{205F}' || c == '\U{3000}'
  }

  /** Number of occurrences of `c` in `s`. */
  function Occurrences(s: string, c: char): nat {
    if s == [] then 0 else (if s[0] == c then 1 else 0) + Occurrences(s[1..], c)
  }

  /** Python's `s.split(sep)` for a one-character separator: the pieces between
      separators, empty pieces included. */
  function Split(s: string, sep: char): (parts: seq<string>)
    ensures |parts| == Occurrences(s, sep) + 1
    ensures forall i :: 0 <= i < |parts| ==> sep !in parts[i]
  {
    if s == [] then [[]]
    else
      var rest := Split(s[1..], sep);
      if s[0] == sep then [[]] + rest
      else [[s[0]] + rest[0]] + rest[1..]
  }

  /** Python's `sep.join(parts)`. */
  function Join(parts: seq<string>, sep: char): string {
    if |parts| <= 1 then (if parts == [] then [] else parts[0])
    else parts[0] + [sep] + Join(parts[1..], sep)
  }

  /** Splitting loses nothing: joining the pieces gives the string back. */
  lemma {:induction false} JoinSplit(s: string, sep: char)
    ensures Join(Split(s, sep), sep) == s
  {
    if s != [] {
      var rest := Split(s[1..], sep);
      JoinSplit(s[1..], sep);
      if s[0] == sep {
        assert Split(s, sep) == [[]] + rest;
      } else {
        var parts := Split(s, sep);
        assert parts[1..] == rest[1..];
        if |rest| == 1 {
          assert Join(parts, sep) == [s[0]] + rest[0];
        } else {
          assert Join(parts, sep) == [s[0]] + rest[0] + [sep] + Join(rest[1..], sep);
        }
      }
    }
  }

  /** A first piece free of the separator splits off on its own: the pieces of
      `q + sep + rest` are `q` followed by the pieces of `rest`. */
  lemma {:induction false} SplitAfterPrefix(q: string, sep: char, rest: string)
    requires sep !in q
    ensures Split(q + [sep] + rest, sep) == [q] + Split(rest, sep)
  {
    var s := q + [sep] + rest;
    if q == [] {
      assert s[1..] == rest;
    } else {
      assert q[0] in q;
      assert [q[0]] + q[1..] == q;
      assert s[1..] == q[1..] + [sep] + rest;
      SplitAfterPrefix(q[1..], sep, rest);
    }
  }

  /** The first piece is the start of the string. */
  lemma {:induction false} SplitFirstIsPrefix(s: string, sep: char)
    ensures |Split(s, sep)[0]| <= |s| && Split(s, sep)[0] == s[..|Split(s, sep)[0]|]
  {
    if s != [] && s[0] != sep {
      var rest := Split(s[1..], sep);
      SplitFirstIsPrefix(s[1..], sep);
      assert Split(s, sep)[0] == [s[0]] + rest[0];
      assert s[..1 + |rest[0]|] == [s[0]] + s[1..][..|rest[0]|];
    }
  }

  /** The string with every leading character that `drop` accepts removed. */
  function TrimStart(s: string, drop: char -> bool): (r: string)
    ensures |r| <= |s|
    ensures r == [] || !drop(r[0])
  {
    if s != [] && drop(s[0]) then TrimStart(s[1..], drop) else s
  }

  /** What `TrimStart` keeps is a suffix of `s`, and what it removes was dropped. */
  lemma {:induction false} TrimStartIsSuffix(s: string, drop: char -> bool)
    ensures TrimStart(s, drop) == s[|s| - |TrimStart(s, drop)|..]
    ensures forall k :: 0 <= k < |s| - |TrimStart(s, drop)| ==> drop(s[k])
  {
    if s != [] && drop(s[0]) {
      TrimStartIsSuffix(s[1..], drop);
      var n := |s| - |TrimStart(s, drop)|;
      assert s[1..][n - 1..] == s[n..];
      forall k | 1 <= k < n
        ensures drop(s[k])
      {
        assert s[k] == s[1..][k - 1];
      }
    }
  }

  /** The string with every trailing character that `drop` accepts removed. */
  function TrimEnd(s: string, drop: char -> bool): (r: string)
    ensures |r| <= |s|
    ensures r == [] || !drop(r[|r| - 1])
  {
    if s != [] && drop(s[|s| - 1]) then TrimEnd(s[..|s| - 1], drop) else s
  }

  /** What `TrimEnd` keeps is a prefix of `s`, and what it removes was dropped. */
  lemma {:induction false} TrimEndIsPrefix(s: string, drop: char -> bool)
    ensures TrimEnd(s, drop) == s[..|TrimEnd(s, drop)|]
    ensures forall k :: |TrimEnd(s, drop)| <= k < |s| ==> drop(s[k])
  {
    if s != [] && drop(s[|s| - 1]) {
      TrimEndIsPrefix(s[..|s| - 1], drop);
      var n := |TrimEnd(s, drop)|;
      assert s[..|s| - 1][..n] == s[..n];
      forall k | n <= k < |s| - 1
        ensures drop(s[k])
      {
        assert s[k] == s[..|s| - 1][k];
      }
    }
  }

  /** Python's `s.strip(chars)`, with the set of characters given as a predicate. */
  function Strip(s: string, drop: char -> bool): (r: string)
    ensures r == [] || (!drop(r[0]) && !drop(r[|r| - 1]))
  {
    var left := TrimStart(s, drop);
    TrimEndIsPrefix(left, drop);
    TrimEnd(left, drop)
  }

  /** The stripped string is the middle slice `s[i..j]` of `s`, and everything
      outside it was dropped. */
  lemma {:induction false} StripIsMiddle(s: string, drop: char -> bool) returns (i: nat, j: nat)
    ensures i <= j <= |s| && Strip(s, drop) == s[i..j]
    ensures forall k :: 0 <= k < i ==> drop(s[k])
    ensures forall k :: j <= k < |s| ==> drop(s[k])
  {
    var left := TrimStart(s, drop);
    var r := TrimEnd(left, drop);
    TrimStartIsSuffix(s, drop);
    TrimEndIsPrefix(left, drop);
    i := |s| - |left|;
    j := i + |r|;
    forall k | 0 <= k < |r|
      ensures r[k] == s[i + k]
    {
      assert r[k] == left[k] == s[i + k];
    }
    forall k | j <= k < |s|
      ensures drop(s[k])
    {
      assert s[k] == left[k - i];
    }
  }

  /** The stripped string is a slice `s[i..j]` of `s`. */
  lemma {:induction false} StripIsSlice(s: string, drop: char -> bool) returns (i: nat, j: nat)
    ensures i <= j <= |s| && Strip(s, drop) == s[i..j]
  {
    i, j := StripIsMiddle(s, drop);
  }

  /** Stripping twice, by two predicates, still leaves a slice of `s`. */
  lemma {:induction false} StripTwiceIsSlice(s: string, first: char -> bool, second: char -> bool) returns (i: nat, j: nat)
    ensures i <= j <= |s| && Strip(Strip(s, first), second) == s[i..j]
  {
    var once := Strip(s, first);
    var a, b := StripIsSlice(s, first);
    var c, d := StripIsSlice(once, second);
    SliceOfSlice(s, a, b, c, d);
    i, j := a + c, a + d;
  }

  /** When the second piece of `s` is the first piece of `s[start..]`, that
      piece stripped twice is a slice of `s` after `start`, free of the
      separator. */
  lemma {:induction false} StrippedSecondPiece(s: string, start: nat, sep: char, first: char -> bool, second: char -> bool)
    returns (i: nat, j: nat)
    requires start <= |s| && |Split(s, sep)| >= 2 && Split(s, sep)[1] == Split(s[start..], sep)[0]
    ensures start <= i <= j <= |s| && Strip(Strip(Split(s, sep)[1], first), second) == s[i..j]
    ensures sep !in s[i..j]
  {
    var rest := s[start..];
    var piece := Split(rest, sep)[0];
    SplitFirstIsPrefix(rest, sep);
    var a, b := StripTwiceIsSlice(piece, first, second);
    SliceOfSlice(rest, 0, |piece|, a, b);
    assert s[start..|s|] == rest;
    SliceOfSlice(s, start, |s|, a, b);
    i, j := start + a, start + b;
    forall k | i <= k < j
      ensures s[k] != sep
    {
      assert s[k] == piece[k - start];
      assert piece[k - start] in piece;
    }
  }

  /** A slice of a slice is a slice of the whole. */
  lemma {:induction false} SliceOfSlice(s: string, lo: nat, hi: nat, a: nat, b: nat)
    requires lo <= hi <= |s| && a <= b <= hi - lo
    ensures s[lo..hi][a..b] == s[lo + a..lo + b]
  {
    forall k | 0 <= k < b - a
      ensures s[lo..hi][a..b][k] == s[lo + a + k]
    {
      assert s[lo..hi][a..b][k] == s[lo..hi][a + k];
    }
  }

  /** Python's `s.strip()`. */
  function StripSpace(s: string): string {
    Strip(s, IsSpace)
  }
}

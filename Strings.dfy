/**
 * The Python `str` operations that the log extractor relies on, on `seq<char>`:
 * `s.split(sep)`, `sep.join(parts)`, `pat in s`, `s.find(pat)`, `s.rfind(c)`,
 * `s.strip()` and a one-character `s.replace(a, b)`.
 */
module Strings {

  /** `sep.join(parts)` for a one-character separator. */
  function Join(parts: seq<string>, sep: char): string
  {
    if |parts| == 0 then ""
    else if |parts| == 1 then parts[0]
    else parts[0] + [sep] + Join(parts[1..], sep)
  }

  /** `s.split(sep)`: the pieces between occurrences of `sep`, always at least one. */
  function Split(s: string, sep: char): (pieces: seq<string>)
    ensures |pieces| >= 1
    ensures forall i :: 0 <= i < |pieces| ==> sep !in pieces[i]
    ensures Join(pieces, sep) == s
    ensures |pieces| >= 2 <==> sep in s
    decreases |s|
  {
    if |s| == 0 then [""]
    else
      var rest := Split(s[1..], sep);
      if s[0] == sep then [""] + rest
      else
        assert rest[0] + [sep] + Join(rest[1..], sep) == Join(rest, sep) || |rest| == 1;
        [[s[0]] + rest[0]] + rest[1..]
  }

  /** Splitting a join of separator-free pieces gives the pieces back. */
  lemma {:induction false} SplitJoin(pieces: seq<string>, sep: char)
    requires |pieces| >= 1
    requires forall i :: 0 <= i < |pieces| ==> sep !in pieces[i]
    ensures Split(Join(pieces, sep), sep) == pieces
    decreases |pieces|, |pieces[0]|
  {
    var s := Join(pieces, sep);
    if |pieces[0]| == 0 {
      if |pieces| == 1 {
      } else {
        assert s == [sep] + Join(pieces[1..], sep);
        assert s[1..] == Join(pieces[1..], sep);
        SplitJoin(pieces[1..], sep);
      }
    } else {
      var tail := [pieces[0][1..]] + pieces[1..];
      forall i | 0 <= i < |tail| ensures sep !in tail[i] {
        if i > 0 { assert tail[i] == pieces[i]; }
      }
      if |pieces| == 1 {
        assert Join(tail, sep) == pieces[0][1..];
      } else {
        assert Join(tail, sep) == pieces[0][1..] + [sep] + Join(pieces[1..], sep);
      }
      assert s == [pieces[0][0]] + Join(tail, sep);
      assert s[1..] == Join(tail, sep);
      SplitJoin(tail, sep);
      assert pieces[0][0] != sep;
      assert [pieces[0][0]] + tail[0] == pieces[0];
      assert tail[1..] == pieces[1..];
      assert [[pieces[0][0]] + tail[0]] + tail[1..] == pieces;
    }
  }

  /** The first piece of `s.split(sep)` is the longest prefix of `s` without `sep`. */
  lemma {:induction false} FirstPieceIsPrefixBeforeSep(s: string, sep: char)
    ensures var p := Split(s, sep)[0];
      |p| <= |s| && p == s[..|p|] && sep !in p && (|p| == |s| || s[|p|] == sep)
    decreases |s|
  {
    if |s| > 0 && s[0] != sep {
      FirstPieceIsPrefixBeforeSep(s[1..], sep);
    }
  }

  /** `pat` occurs in `s` at index `i`. */
  predicate MatchAt(s: string, pat: string, i: int)
  {
    0 <= i && i + |pat| <= |s| && s[i..i + |pat|] == pat
  }

  /** `pat in s`. */
  predicate Contains(s: string, pat: string)
  {
    exists i | 0 <= i <= |s| :: MatchAt(s, pat, i)
  }

  /** `s.find(pat)`, searching from position `from`: the first index of `pat`, or -1. */
  function FindFrom(s: string, pat: string, from: nat): (r: int)
    requires from <= |s|
    ensures -1 <= r <= |s|
    ensures r >= 0 ==> from <= r && MatchAt(s, pat, r)
    ensures r >= 0 ==> forall j :: from <= j < r ==> !MatchAt(s, pat, j)
    ensures r == -1 ==> forall j :: from <= j <= |s| ==> !MatchAt(s, pat, j)
    decreases |s| - from
  {
    if MatchAt(s, pat, from) then from
    else if from == |s| then -1
    else FindFrom(s, pat, from + 1)
  }

  /** `s.find(pat)`. */
  function Find(s: string, pat: string): int
  {
    FindFrom(s, pat, 0)
  }

  /** `s.find(pat)` finds something exactly when `pat in s`, and then `s[Find(s, pat)..]` starts with `pat`. */
  lemma FindIffContains(s: string, pat: string)
    ensures Find(s, pat) >= 0 <==> Contains(s, pat)
    ensures Find(s, pat) >= 0 ==> s[Find(s, pat)..][..|pat|] == pat
  {
  }

  /** A text that starts with `pat` contains `pat`. */
  lemma ContainsPrefix(s: string, pat: string)
    requires |pat| <= |s| && s[..|pat|] == pat
    ensures Contains(s, pat)
  {
    assert MatchAt(s, pat, 0);
  }

  /** A text containing a non-empty pattern contains the pattern's first character. */
  lemma ContainsHasFirstChar(s: string, pat: string)
    requires |pat| > 0 && Contains(s, pat)
    ensures pat[0] in s
  {
    var i :| 0 <= i <= |s| && MatchAt(s, pat, i);
    assert s[i] == s[i..i + |pat|][0];
  }

  /** The whitespace of Python's `str.isspace`. */
  predicate IsSpace(c: char)
  {
    ('\t' <= c <= '\r') || ('\U{1C}' <= c <= ' ') || c == '\U{85}' || c == '\U{A0}'
    || c == '\U{1680}' || ('\U{2000}' <= c <= '\U{200A}') || c == '\U{2028}' || c == '\U{2029}'
    || c == '\U{202F}' || c == '\U{205F}' || c == '\U{3000}'
  }

  /** The length of `s` once its trailing whitespace is dropped. */
  function TrimmedEnd(s: string): (n: nat)
    ensures n <= |s| && (n > 0 ==> !IsSpace(s[n - 1]))
    ensures forall i :: n <= i < |s| ==> IsSpace(s[i])
  {
    if |s| == 0 || !IsSpace(s[|s| - 1]) then |s| else TrimmedEnd(s[..|s| - 1])
  }

  /** The number of leading whitespace characters of `s`. */
  function TrimmedStart(s: string): (n: nat)
    ensures n <= |s| && (n < |s| ==> !IsSpace(s[n]))
    ensures forall i :: 0 <= i < n ==> IsSpace(s[i])
  {
    if |s| == 0 || !IsSpace(s[0]) then 0 else 1 + TrimmedStart(s[1..])
  }

  /** `s.strip()`: the longest infix of `s` that neither starts nor ends with whitespace. */
  function Strip(s: string): (r: string)
  {
    var a := TrimmedStart(s);
    s[a..][..TrimmedEnd(s[a..])]
  }

  /** Stripping keeps a head that neither starts nor ends with whitespace. */
  lemma StripKeepsHead(s: string, k: nat)
    requires 0 < k <= |s| && !IsSpace(s[0]) && !IsSpace(s[k - 1])
    ensures |Strip(s)| >= k && Strip(s)[..k] == s[..k]
  {
    assert TrimmedStart(s) == 0;
    assert s[0..] == s;
  }

  /** `s.replace(a, b)` for one-character `a` and `b`. */
  function ReplaceChar(s: string, a: char, b: char): (r: string)
  {
    seq(|s|, i requires 0 <= i < |s| => if s[i] == a then b else s[i])
  }

  /** `s.rfind(c)`: the last index of `c` in `s`, or -1. */
  function RFind(s: string, c: char): (r: int)
    ensures -1 <= r < |s|
    ensures r >= 0 ==> s[r] == c
    ensures forall j :: r < j < |s| ==> s[j] != c
  {
    LastBefore(s, c, |s|)
  }

  /** The last index below `n` holding `c`, or -1. */
  function LastBefore(s: string, c: char, n: nat): (r: int)
    requires n <= |s|
    ensures -1 <= r < n
    ensures r >= 0 ==> s[r] == c
    ensures forall j :: r < j < n ==> s[j] != c
  {
    if n == 0 then -1
    else if s[n - 1] == c then n - 1
    else LastBefore(s, c, n - 1)
  }
}

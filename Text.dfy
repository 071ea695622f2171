/** The JavaScript string primitives the application relies on:
    `String.prototype.split` with a one-character separator, `Array.prototype.pop`,
    `String.prototype.includes` and `String.prototype.trim`. */
module Text {
  import opened Wrappers

  /** The pieces of `s` between occurrences of `sep`, as `s.split(sep)` returns them:
      always at least one piece, empty pieces kept. Defined by peeling off the last character. */
  function Split(s: string, sep: char): (parts: seq<string>)
    ensures |parts| >= 1
    decreases |s|
  {
    if |s| == 0 then [""]
    else
      var init := Split(s[..|s| - 1], sep);
      if s[|s| - 1] == sep then init + [""]
      else init[..|init| - 1] + [init[|init| - 1] + [s[|s| - 1]]]
  }

  /** The inverse of `Split`: `parts.join(sep)`. */
  function Join(parts: seq<string>, sep: char): string
    requires |parts| >= 1
  {
    if |parts| == 1 then parts[0]
    else Join(parts[..|parts| - 1], sep) + [sep] + parts[|parts| - 1]
  }

  /** `Array.prototype.pop` used for its result: the last element, or `undefined` on an empty array. */
  function Pop<T>(xs: seq<T>): Option<T> {
    if |xs| == 0 then None else Some(xs[|xs| - 1])
  }

  /** `t` is a suffix of `s`. */
  predicate IsSuffix(t: string, s: string) {
    |t| <= |s| && s[|s| - |t|..] == t
  }

  /** A suffix of a suffix is a suffix, sits inside it, and the character before it is the same in both. */
  lemma SuffixOfSuffix(c: string, b: string, a: string)
    requires IsSuffix(c, b) && IsSuffix(b, a)
    ensures IsSuffix(c, a)
    ensures forall ch :: ch in c ==> ch in b
    ensures |c| < |b| ==> a[|a| - |c| - 1] == b[|b| - |c| - 1]
  {
    assert a[|a| - |b|..][|b| - |c|..] == a[|a| - |c|..];
    forall ch | ch in c
      ensures ch in b
    {
      var k :| 0 <= k < |c| && c[k] == ch;
      assert b[|b| - |c| + k] == ch;
    }
  }

  lemma JoinAppendEmpty(parts: seq<string>, sep: char)
    requires |parts| >= 1
    ensures Join(parts + [""], sep) == Join(parts, sep) + [sep]
  {
    assert (parts + [""])[..|parts|] == parts;
  }

  lemma JoinExtendLast(parts: seq<string>, sep: char, c: char)
    requires |parts| >= 1
    ensures Join(parts[..|parts| - 1] + [parts[|parts| - 1] + [c]], sep) == Join(parts, sep) + [c]
  {
    var n := |parts|;
    if n > 1 {
      assert (parts[..n - 1] + [parts[n - 1] + [c]])[..n - 1] == parts[..n - 1];
    }
  }

  /** Joining the pieces of a split with the separator gives the string back. */
  lemma {:induction false} SplitJoin(s: string, sep: char)
    ensures Join(Split(s, sep), sep) == s
    decreases |s|
  {
    if |s| > 0 {
      assert s == s[..|s| - 1] + [s[|s| - 1]];
      var pre, c := s[..|s| - 1], s[|s| - 1];
      var init := Split(pre, sep);
      SplitJoin(pre, sep);
      if c == sep {
        JoinAppendEmpty(init, sep);
        assert Split(s, sep) == init + [""];
      } else {
        JoinExtendLast(init, sep, c);
        assert Split(s, sep) == init[..|init| - 1] + [init[|init| - 1] + [c]];
      }
    }
  }

  /** No piece of a split contains the separator. */
  lemma {:induction false} SplitPiecesFree(s: string, sep: char)
    ensures forall i :: 0 <= i < |Split(s, sep)| ==> sep !in Split(s, sep)[i]
    decreases |s|
  {
    if |s| > 0 {
      SplitPiecesFree(s[..|s| - 1], sep);
    }
  }

  /** A string without the separator splits into itself alone. */
  lemma {:induction false} SplitWithoutSeparator(s: string, sep: char)
    requires sep !in s
    ensures Split(s, sep) == [s]
    decreases |s|
  {
    if |s| > 0 {
      assert s == s[..|s| - 1] + [s[|s| - 1]];
      assert sep !in s[..|s| - 1];
      SplitWithoutSeparator(s[..|s| - 1], sep);
    }
  }

  /** The run of characters after the last `sep` in `s` (all of `s` when there is none). */
  function LastPiece(s: string, sep: char): string {
    if |s| == 0 || s[|s| - 1] == sep then "" else LastPiece(s[..|s| - 1], sep) + [s[|s| - 1]]
  }

  /** `pop` after `split` yields the run after the last separator. */
  lemma {:induction false} SplitLastPiece(s: string, sep: char)
    ensures Split(s, sep)[|Split(s, sep)| - 1] == LastPiece(s, sep)
    decreases |s|
  {
    if |s| > 0 {
      SplitLastPiece(s[..|s| - 1], sep);
    }
  }

  lemma {:induction false} LastPieceSuffix(s: string, sep: char)
    ensures IsSuffix(LastPiece(s, sep), s)
    decreases |s|
  {
    if |s| > 0 && s[|s| - 1] != sep {
      var pre := s[..|s| - 1];
      LastPieceSuffix(pre, sep);
      var p := LastPiece(pre, sep);
      assert s[|s| - |p| - 1..] == pre[|pre| - |p|..] + [s[|s| - 1]];
    }
  }

  lemma {:induction false} LastPieceFree(s: string, sep: char)
    ensures sep !in LastPiece(s, sep)
    decreases |s|
  {
    if |s| > 0 && s[|s| - 1] != sep {
      LastPieceFree(s[..|s| - 1], sep);
    }
  }

  lemma {:induction false} LastPieceBoundary(s: string, sep: char)
    ensures |LastPiece(s, sep)| <= |s|
    ensures |LastPiece(s, sep)| == |s| || s[|s| - |LastPiece(s, sep)| - 1] == sep
    decreases |s|
  {
    if |s| > 0 && s[|s| - 1] != sep {
      var pre := s[..|s| - 1];
      LastPieceBoundary(pre, sep);
      var p := LastPiece(pre, sep);
      if |p| < |pre| {
        assert s[|s| - |p| - 2] == pre[|pre| - |p| - 1];
      }
    }
  }

  /** Popping the pieces of a split never gives `undefined`: it gives the run after the last `sep`. */
  lemma PopOfSplit(s: string, sep: char)
    ensures Pop(Split(s, sep)) == Some(LastPiece(s, sep))
  {
    SplitLastPiece(s, sep);
  }

  /** The run after the last `sep` is a suffix, has no `sep`, and is all of `s` or follows a `sep`. */
  lemma LastPieceIsTail(s: string, sep: char)
    ensures var last := LastPiece(s, sep);
      IsSuffix(last, s) && sep !in last && (|last| == |s| || s[|s| - |last| - 1] == sep)
  {
    LastPieceSuffix(s, sep);
    LastPieceFree(s, sep);
    LastPieceBoundary(s, sep);
  }

  /** The last piece of a split is the longest suffix of `s` without `sep`: it is a suffix,
      it has no `sep`, and either it is all of `s` or `sep` stands right before it. */
  lemma SplitLast(s: string, sep: char)
    ensures var last := Split(s, sep)[|Split(s, sep)| - 1];
      IsSuffix(last, s) && sep !in last && (|last| == |s| || s[|s| - |last| - 1] == sep)
  {
    SplitLastPiece(s, sep);
    LastPieceIsTail(s, sep);
  }

  /** `s.includes(t)`: `t` occurs in `s` as a contiguous block. */
  predicate Contains(s: string, t: string) {
    exists i | 0 <= i <= |s| - |t| :: OccursAt(s, t, i)
  }

  /** `t` occurs in `s` starting at index `i`. */
  predicate OccursAt(s: string, t: string, i: int)
    requires 0 <= i <= |s| - |t|
  {
    s[i..i + |t|] == t
  }

  /** The code points `String.prototype.trim` removes: ECMAScript WhiteSpace
      (tab, vertical tab, form feed, space, no-break space, byte order mark and the
      Unicode space separators) and LineTerminator (line feed, carriage return,
      line separator, paragraph separator). */
  predicate IsWhitespace(c: char) {
    var n := c as int;
    n == 0x09 || n == 0x0A || n == 0x0B || n == 0x0C || n == 0x0D || n == 0x20 ||
    n == 0xA0 || n == 0x1680 || (0x2000 <= n <= 0x200A) || n == 0x2028 || n == 0x2029 ||
    n == 0x202F || n == 0x205F || n == 0x3000 || n == 0xFEFF
  }

  predicate AllWhitespace(s: string) {
    forall k :: 0 <= k < |s| ==> IsWhitespace(s[k])
  }

  /** `s` has no whitespace at either end. */
  predicate Trimmed(s: string) {
    s == [] || (!IsWhitespace(s[0]) && !IsWhitespace(s[|s| - 1]))
  }

  /** `r` is what remains of `s` after cutting whitespace-only runs off both ends. */
  ghost predicate CutFrom(s: string, r: string) {
    exists i :: 0 <= i <= |s| - |r| && s[i..i + |r|] == r && IsCutAt(s, |r|, i)
  }

  /** All of `s` before index `i` and from index `i + n` on is whitespace. */
  predicate IsCutAt(s: string, n: nat, i: int)
    requires 0 <= i <= |s| - n
  {
    (forall k :: 0 <= k < i ==> IsWhitespace(s[k])) && (forall k :: i + n <= k < |s| ==> IsWhitespace(s[k]))
  }

  /** The first index at or after `from` that does not hold whitespace (`|s|` if none). */
  function SkipLeading(s: string, from: nat): (i: nat)
    requires from <= |s|
    ensures from <= i <= |s|
    ensures forall k :: from <= k < i ==> IsWhitespace(s[k])
    ensures i < |s| ==> !IsWhitespace(s[i])
    decreases |s| - from
  {
    if from == |s| || !IsWhitespace(s[from]) then from else SkipLeading(s, from + 1)
  }

  /** The end of `s[lo..hi]` once its trailing whitespace is dropped. */
  function SkipTrailing(s: string, lo: nat, hi: nat): (j: nat)
    requires lo <= hi <= |s|
    ensures lo <= j <= hi
    ensures forall k :: j <= k < hi ==> IsWhitespace(s[k])
    ensures j > lo ==> !IsWhitespace(s[j - 1])
    decreases hi
  {
    if hi == lo || !IsWhitespace(s[hi - 1]) then hi else SkipTrailing(s, lo, hi - 1)
  }

  /** `s.trim()`: the middle of `s` between its leading and trailing whitespace. */
  function Trim(s: string): (r: string)
    ensures CutFrom(s, r) && Trimmed(r)
  {
    var i := SkipLeading(s, 0);
    var j := SkipTrailing(s, i, |s|);
    assert IsCutAt(s, j - i, i);
    s[i..j]
  }

  /** Two cuts of `s` with no whitespace at their ends are the same cut. */
  lemma SameCut(s: string, r: string, i: int, t: string, j: int)
    requires 0 <= i <= |s| - |r| && s[i..i + |r|] == r && IsCutAt(s, |r|, i) && Trimmed(r)
    requires 0 <= j <= |s| - |t| && s[j..j + |t|] == t && IsCutAt(s, |t|, j) && Trimmed(t)
    ensures r == t
  {
    if r != [] {
      assert s[i] == r[0] && s[i + |r| - 1] == r[|r| - 1];
    }
    if t != [] {
      assert s[j] == t[0] && s[j + |t| - 1] == t[|t| - 1];
    }
    if r != [] && t != [] {
      assert i == j && |r| == |t|;
    }
  }

  /** Where a cut of `s` starts. */
  lemma CutIndex(s: string, r: string) returns (i: int)
    requires CutFrom(s, r)
    ensures 0 <= i <= |s| - |r| && s[i..i + |r|] == r && IsCutAt(s, |r|, i)
  {
    i :| 0 <= i <= |s| - |r| && s[i..i + |r|] == r && IsCutAt(s, |r|, i);
  }

  /** `trim` is determined by its contract: any cut of `s` with no whitespace at its ends is `s.trim()`. */
  lemma TrimUnique(s: string, r: string)
    requires CutFrom(s, r) && Trimmed(r)
    ensures r == Trim(s)
  {
    var t := Trim(s);
    var i := CutIndex(s, r);
    var j := CutIndex(s, t);
    SameCut(s, r, i, t, j);
  }

  /** Trimming twice is trimming once. */
  lemma TrimIdempotent(s: string)
    ensures Trim(Trim(s)) == Trim(s)
  {
    var t := Trim(s);
    assert t[0..0 + |t|] == t && IsCutAt(t, |t|, 0);
    TrimUnique(t, t);
  }

  /** A whitespace-only string trims to the empty string. */
  lemma TrimBlank(s: string)
    requires AllWhitespace(s)
    ensures Trim(s) == ""
  {
    assert s[0..0] == "" && IsCutAt(s, 0, 0);
    TrimUnique(s, "");
  }
}

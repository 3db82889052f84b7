/** The JavaScript string primitives the parser relies on: the `\s` class,
    the line terminators that `.` refuses, `trim`, `startsWith`, `slice`
    and `split('\n')`.  A JavaScript string is modelled as `seq<char>`. */
module JsText {

  /** ECMAScript LineTerminator: the characters `.` never matches and at
      which `^`/`$` match in multiline mode. */
  predicate IsLineTerminator(c: char) {
    c == '\n' || c == '\r' || c == '\U{2028}' || c == '\U{2029}'
  }

  /** ECMAScript WhiteSpace and LineTerminator: the class `\s`, and what
      `String.prototype.trim` strips. */
  predicate IsWhitespace(c: char) {
    || c == '\t' || c == '\n' || c == '\U{000B}' || c == '\U{000C}' || c == '\r'
    || c == ' ' || c == '\U{00A0}' || c == '\U{1680}'
    || ('\U{2000}' <= c <= '\U{200A}')
    || c == '\U{2028}' || c == '\U{2029}' || c == '\U{202F}' || c == '\U{205F}'
    || c == '\U{3000}' || c == '\U{FEFF}'
  }

  /** `\d` without the `u` flag: ASCII digits only. */
  predicate IsDigit(c: char) {
    '0' <= c <= '9'
  }

  /** No line terminator in s[lo..hi]: the span a `.*` can cover. */
  predicate NoTerminator(s: string, lo: int, hi: int) {
    0 <= lo <= hi <= |s| && forall k {:trigger IsLineTerminator(s[k])} | lo <= k < hi :: !IsLineTerminator(s[k])
  }

  /** A span free of line terminators grows by one character to the left. */
  lemma NoTerminatorExtend(s: string, k: nat, hi: nat)
    requires k < |s| && !IsLineTerminator(s[k]) && NoTerminator(s, k + 1, hi)
    ensures NoTerminator(s, k, hi)
  {
  }

  /** First index at or after k holding a line terminator, or |s|: where a
      greedy `.*` starting at k stops. */
  function LineEnd(s: string, k: nat): (e: nat)
    requires k <= |s|
    decreases |s| - k
    ensures k <= e <= |s|
    ensures NoTerminator(s, k, e)
    ensures e == |s| || IsLineTerminator(s[e])
  {
    if k == |s| || IsLineTerminator(s[k]) then k else LineEnd(s, k + 1)
  }

  /** First index at or after k that is not an ASCII digit, or |s|: where a
      greedy `\d+` starting at k stops. */
  function DigitsEnd(s: string, k: nat): (e: nat)
    requires k <= |s|
    decreases |s| - k
    ensures k <= e <= |s|
    ensures forall q {:trigger IsDigit(s[q])} | k <= q < e :: IsDigit(s[q])
    ensures e == |s| || !IsDigit(s[e])
  {
    if k == |s| || !IsDigit(s[k]) then k else DigitsEnd(s, k + 1)
  }

  /** `s.startsWith(p)`. */
  predicate StartsWith(s: string, p: string) {
    p <= s
  }

  /** `s.slice(start)` for a non-negative start: empty once start passes the end. */
  function SliceFrom(s: string, start: nat): (r: string)
    ensures start <= |s| ==> |r| == |s| - start && forall k | 0 <= k < |r| :: r[k] == s[start + k]
    ensures start >= |s| ==> r == []
  {
    if start <= |s| then s[start..] else []
  }

  /** Number of whitespace characters at the front of s. */
  function LeadingWhitespace(s: string): (n: nat)
    ensures n <= |s|
    ensures forall k | 0 <= k < n :: IsWhitespace(s[k])
    ensures n == |s| || !IsWhitespace(s[n])
  {
    if |s| > 0 && IsWhitespace(s[0]) then 1 + LeadingWhitespace(s[1..]) else 0
  }

  /** Number of whitespace characters at the back of s. */
  function TrailingWhitespace(s: string): (n: nat)
    ensures n <= |s|
    ensures forall k | |s| - n <= k < |s| :: IsWhitespace(s[k])
    ensures n == |s| || !IsWhitespace(s[|s| - 1 - n])
  {
    if |s| > 0 && IsWhitespace(s[|s| - 1]) then 1 + TrailingWhitespace(s[..|s| - 1]) else 0
  }

  /** `s.trim()`: the result is a contiguous piece of s with no whitespace at
      either end, and everything cut off on either side is whitespace. */
  function Trim(s: string): (r: string)
    ensures |r| <= |s|
    ensures r == [] || (!IsWhitespace(r[0]) && !IsWhitespace(r[|r| - 1]))
    ensures r == [] ==> forall k | 0 <= k < |s| :: IsWhitespace(s[k])
    ensures r != [] ==> exists lo | 0 <= lo <= |s| - |r| :: TrimmedAt(s, r, lo)
  {
    var lo := LeadingWhitespace(s);
    var rest := s[lo..];
    var n := TrailingWhitespace(rest);
    var r := rest[..|rest| - n];
    assert r != [] ==> TrimmedAt(s, r, lo);
    r
  }

  /** r sits at s[lo..lo + |r|] and only whitespace surrounds it. */
  predicate TrimmedAt(s: string, r: string, lo: nat) {
    && lo + |r| <= |s|
    && s[lo..lo + |r|] == r
    && (forall k | 0 <= k < lo :: IsWhitespace(s[k]))
    && (forall k | lo + |r| <= k < |s| :: IsWhitespace(s[k]))
  }

  /** Index of the first '\n' in s, or |s| when there is none. */
  function NewlineIndex(s: string): (i: nat)
    ensures i <= |s|
    ensures forall k | 0 <= k < i :: s[k] != '\n'
    ensures i < |s| ==> s[i] == '\n'
  {
    if |s| == 0 || s[0] == '\n' then 0 else 1 + NewlineIndex(s[1..])
  }

  /** `s.split('\n')`: never empty, and no piece holds a '\n'. */
  function SplitLines(s: string): (lines: seq<string>)
    decreases |s|
    ensures |lines| >= 1
    ensures forall k | 0 <= k < |lines| :: '\n' !in lines[k]
  {
    var i := NewlineIndex(s);
    if i == |s| then [s] else [s[..i]] + SplitLines(s[i + 1..])
  }

  /** `lines.join('\n')`. */
  function JoinLines(lines: seq<string>): string
    requires |lines| >= 1
  {
    if |lines| == 1 then lines[0] else lines[0] + "\n" + JoinLines(lines[1..])
  }

  /** Splitting at '\n' loses nothing: joining the pieces gives s back. */
  lemma {:induction false} JoinSplitLines(s: string)
    ensures JoinLines(SplitLines(s)) == s
    decreases |s|
  {
    var i := NewlineIndex(s);
    if i < |s| {
      assert SplitLines(s) == [s[..i]] + SplitLines(s[i + 1..]);
      assert JoinLines(SplitLines(s)) == s[..i] + "\n" + JoinLines(SplitLines(s[i + 1..]));
      JoinSplitLines(s[i + 1..]);
      assert s == s[..i] + "\n" + s[i + 1..];
    }
  }

  /** Pieces without '\n' survive a join followed by a split. */
  lemma {:induction false} SplitJoinLines(lines: seq<string>)
    requires |lines| >= 1
    requires forall k | 0 <= k < |lines| :: '\n' !in lines[k]
    ensures SplitLines(JoinLines(lines)) == lines
    decreases |lines|
  {
    var s := JoinLines(lines);
    if |lines| == 1 {
      NewlineIndexAbsent(s);
    } else {
      var tail := JoinLines(lines[1..]);
      assert s == lines[0] + "\n" + tail;
      NewlineIndexAfter(lines[0], tail);
      assert s[..|lines[0]|] == lines[0];
      assert s[|lines[0]| + 1..] == tail;
      SplitJoinLines(lines[1..]);
    }
  }

  lemma NewlineIndexAbsent(s: string)
    requires '\n' !in s
    ensures NewlineIndex(s) == |s|
  {
  }

  lemma NewlineIndexAfter(a: string, b: string)
    requires '\n' !in a
    ensures NewlineIndex(a + "\n" + b) == |a|
  {
    var s := a + "\n" + b;
    assert s[|a|] == '\n';
    assert forall k | 0 <= k < |a| :: s[k] == a[k] && a[k] in a;
  }
}

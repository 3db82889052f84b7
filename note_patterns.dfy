/** The three simple regular expressions of the note editor, as exact
    position predicates plus the scans that `matchAll` / `match` perform:
      REGEX_HEADER       /# (.+)/g
      REGEX_SOLVING_DATE /- (\d{4}\/\d{2}\/\d{2})/g
      REGEX_API_URI      /https:\/\/mazassumnida\.wtf\/api\/v2\/generate_badge\?boj=(.+?)\)/
    None of them is anchored, so a match may start anywhere in a line. */
module NotePatterns {
  import opened Wrappers
  import opened JsText

  predicate Increasing(xs: seq<nat>) {
    forall i, j | 0 <= i < j < |xs| :: xs[i] < xs[j]
  }

  // ----- REGEX_HEADER ---------------------------------------------------

  /** `# ` followed by at least one character `.` accepts. */
  predicate IsHeaderAt(s: string, p: int) {
    0 <= p && p + 2 < |s| && s[p] == '#' && s[p + 1] == ' ' && !IsLineTerminator(s[p + 2])
  }

  /** A position `matchAll(REGEX_HEADER)` reports: a header with no earlier
      header on the same line (the greedy `.+` of an earlier one swallows the
      rest of its line, and the global scan resumes at the line's end). */
  predicate IsHeaderMatch(s: string, p: int) {
    IsHeaderAt(s, p) && forall q | 0 <= q < p && IsHeaderAt(s, q) :: !NoTerminator(s, q, p)
  }

  /** First header at or after k, or |s|. */
  function NextHeader(s: string, k: nat): (p: nat)
    requires k <= |s|
    decreases |s| - k
    ensures k <= p <= |s|
    ensures p < |s| ==> IsHeaderAt(s, p)
    ensures forall q | k <= q < p :: !IsHeaderAt(s, q)
  {
    if k == |s| || IsHeaderAt(s, k) then k else NextHeader(s, k + 1)
  }

  /** The global scan of REGEX_HEADER started at `from`: after a match
      at p the greedy `.+` has consumed the rest of p's line, and the scan
      resumes at that line's end. */
  function ScanHeaders(s: string, from: nat): (h: seq<nat>)
    requires from <= |s|
    decreases |s| - from
    ensures Increasing(h)
    ensures forall i | 0 <= i < |h| :: from <= h[i] < |s|
  {
    var p := NextHeader(s, from);
    if p == |s| then [] else [p] + ScanHeaders(s, LineEnd(s, p + 2))
  }

  /** Every position the scan lists is a header match. */
  lemma {:induction false} ScanHeadersSound(s: string, from: nat, h: seq<nat>, p: nat)
    requires from <= |s| && (from == 0 || from == |s| || IsLineTerminator(s[from]))
    requires h == ScanHeaders(s, from) && p in h
    decreases |s| - from
    ensures IsHeaderMatch(s, p)
  {
    var first := NextHeader(s, from);
    var e := LineEnd(s, first + 2);
    if p == first {
      forall q | 0 <= q < p && IsHeaderAt(s, q) ensures !NoTerminator(s, q, p) {
        if q < from {
          assert q < from < p && IsLineTerminator(s[from]);
        }
      }
    } else {
      ScanHeadersSound(s, e, ScanHeaders(s, e), p);
    }
  }

  /** Every header match at or after `from` is listed. */
  lemma {:induction false} ScanHeadersComplete(s: string, from: nat, p: nat)
    requires from <= p && IsHeaderMatch(s, p)
    decreases |s| - from
    ensures p in ScanHeaders(s, from)
  {
    var first := NextHeader(s, from);
    if p != first {
      var e := LineEnd(s, first + 2);
      assert first < p;
      assert e <= p by {
        if p < e {
          assert NoTerminator(s, first, p);
        }
      }
      ScanHeadersComplete(s, e, p);
    }
  }

  /** Header match positions of a whole document, in order. */
  function HeaderMatches(s: string): (h: seq<nat>)
    ensures Increasing(h)
    ensures forall i | 0 <= i < |h| :: h[i] < |s|
  {
    ScanHeaders(s, 0)
  }

  /** HeaderMatches lists exactly the positions `matchAll(REGEX_HEADER)`
      reports. */
  lemma HeaderMatchesExact(s: string, p: nat)
    ensures p in HeaderMatches(s) <==> IsHeaderMatch(s, p)
  {
    if p in HeaderMatches(s) {
      ScanHeadersSound(s, 0, HeaderMatches(s), p);
    }
    if IsHeaderMatch(s, p) {
      ScanHeadersComplete(s, 0, p);
    }
  }

  // ----- REGEX_SOLVING_DATE ---------------------------------------------

  /** `- ` followed by `dddd/dd/dd`. */
  predicate IsDateAt(s: string, p: int) {
    && 0 <= p && p + 12 <= |s|
    && s[p] == '-' && s[p + 1] == ' '
    && IsDigit(s[p + 2]) && IsDigit(s[p + 3]) && IsDigit(s[p + 4]) && IsDigit(s[p + 5])
    && s[p + 6] == '/' && IsDigit(s[p + 7]) && IsDigit(s[p + 8])
    && s[p + 9] == '/' && IsDigit(s[p + 10]) && IsDigit(s[p + 11])
  }

  /** Capture group 1 of a date match: the `YYYY/MM/DD` text. */
  function DateLabel(s: string, p: nat): (d: string)
    requires IsDateAt(s, p)
    ensures |d| == 10 && d[4] == '/' && d[7] == '/'
    ensures forall k | 0 <= k < 10 && k != 4 && k != 7 :: IsDigit(d[k])
  {
    s[p + 2..p + 12]
  }

  /** First date match at or after k, or |s|. */
  function NextDate(s: string, k: nat): (p: nat)
    requires k <= |s|
    decreases |s| - k
    ensures k <= p <= |s|
    ensures p < |s| ==> IsDateAt(s, p)
    ensures forall q | k <= q < p :: !IsDateAt(s, q)
  {
    if k == |s| || IsDateAt(s, k) then k else NextDate(s, k + 1)
  }

  /** The global scan of REGEX_SOLVING_DATE from `from`: after a match at
      p the scan resumes 12 characters later. */
  function ScanDates(s: string, from: nat): (d: seq<nat>)
    requires from <= |s|
    decreases |s| - from
    ensures Increasing(d)
    ensures forall i | 0 <= i < |d| :: from <= d[i] && IsDateAt(s, d[i])
  {
    var p := NextDate(s, from);
    if p == |s| then [] else [p] + ScanDates(s, p + 12)
  }

  /** Only the first character of a date match is a '-'. */
  lemma DateBodyNoDash(s: string, p: nat, k: nat)
    requires IsDateAt(s, p) && 0 < k < 12
    ensures s[p + k] != '-'
  {
  }

  /** Two date matches never overlap, so resuming 12 characters after one
      loses none: every date at or after `from` is listed. */
  lemma {:induction false} ScanDatesComplete(s: string, from: nat, p: nat)
    requires from <= p && IsDateAt(s, p)
    decreases |s| - from
    ensures p in ScanDates(s, from)
  {
    var first := NextDate(s, from);
    if p != first {
      assert first < p;
      if p < first + 12 {
        DateBodyNoDash(s, first, p - first);
        assert false;
      }
      ScanDatesComplete(s, first + 12, p);
    }
  }

  /** Date match positions of a whole string, in order. */
  function DateMatches(s: string): (d: seq<nat>)
    ensures Increasing(d)
    ensures forall i | 0 <= i < |d| :: IsDateAt(s, d[i])
  {
    ScanDates(s, 0)
  }

  /** DateMatches lists exactly the positions `matchAll(REGEX_SOLVING_DATE)`
      reports. */
  lemma DateMatchesExact(s: string, p: nat)
    ensures p in DateMatches(s) <==> IsDateAt(s, p)
  {
    if IsDateAt(s, p) {
      ScanDatesComplete(s, 0, p);
    }
  }

  // ----- REGEX_API_URI --------------------------------------------------

  const BadgePrefix: string := "https://mazassumnida.wtf/api/v2/generate_badge?boj="

  /** A badge match whose capture is s[p + |BadgePrefix|..e] and whose
      closing `)` is s[e]: `(.+?)` takes at least one character, none of
      them a line terminator. */
  predicate IsBadgeAt(s: string, p: int, e: int) {
    && 0 <= p && p + |BadgePrefix| < e < |s|
    && s[p..p + |BadgePrefix|] == BadgePrefix
    && s[e] == ')'
    && NoTerminator(s, p + |BadgePrefix|, e)
  }

  /** A `)` at c with no line terminator between k and c. */
  predicate CloseAt(s: string, k: int, c: int) {
    k <= c < |s| && NoTerminator(s, k, c) && s[c] == ')'
  }

  /** Where a lazy `.*?\)` that starts at k stops: the first `)` on k's line. */
  function FirstClose(s: string, k: nat): (r: Option<nat>)
    requires k <= |s|
    decreases |s| - k
    ensures r.Some? ==> CloseAt(s, k, r.value)
    ensures r.Some? ==> forall c | CloseAt(s, k, c) :: r.value <= c
    ensures r.None? ==> forall c :: !CloseAt(s, k, c)
  {
    if k < |s| && s[k] == ')' then Some(k)
    else if k == |s| || IsLineTerminator(s[k]) then None
    else
      var r := FirstClose(s, k + 1);
      assert r.Some? ==> CloseAt(s, k, r.value) by {
        if r.Some? {
          NoTerminatorExtend(s, k, r.value);
        }
      }
      assert forall c | CloseAt(s, k, c) :: CloseAt(s, k + 1, c);
      r
  }

  /** A badge match starting at p: `(.+?)` takes at least one character and
      the first `)` after it closes the match. */
  predicate BadgeHeadAt(s: string, p: int) {
    0 <= p && p + |BadgePrefix| < |s| && s[p..p + |BadgePrefix|] == BadgePrefix
    && !IsLineTerminator(s[p + |BadgePrefix|])
  }

  /** `match(REGEX_API_URI)` restricted to starts at or after k. */
  function SearchBadge(s: string, k: nat): Option<(nat, nat)>
    requires k <= |s|
    decreases |s| - k
  {
    if BadgeHeadAt(s, k) && FirstClose(s, k + |BadgePrefix| + 1).Some? then
      Some((k, FirstClose(s, k + |BadgePrefix| + 1).value))
    else if k == |s| then
      None
    else
      SearchBadge(s, k + 1)
  }

  lemma {:induction false} SearchBadgeSound(s: string, k: nat, p: nat, e: nat)
    requires k <= |s| && SearchBadge(s, k) == Some((p, e))
    decreases |s| - k
    ensures k <= p && IsBadgeAt(s, p, e)
  {
    if !(BadgeHeadAt(s, k) && FirstClose(s, k + |BadgePrefix| + 1).Some?) {
      SearchBadgeSound(s, k + 1, p, e);
    }
  }

  lemma {:induction false} SearchBadgeLeast(s: string, k: nat, p: nat, e: nat, r: Option<(nat, nat)>)
    requires k <= p && IsBadgeAt(s, p, e)
    requires r == SearchBadge(s, k)
    decreases |s| - k
    ensures r.Some? && (r.value.0 < p || (r.value.0 == p && r.value.1 <= e))
  {
    if p == k {
      assert CloseAt(s, k + |BadgePrefix| + 1, e);
    } else if !(BadgeHeadAt(s, k) && FirstClose(s, k + |BadgePrefix| + 1).Some?) {
      SearchBadgeLeast(s, k + 1, p, e, r);
    }
  }

  /** `s.match(REGEX_API_URI)`: the start of the match and the index of its
      closing `)`; the capture lies strictly between the prefix and it. */
  function FindBadge(s: string): Option<(nat, nat)> {
    SearchBadge(s, 0)
  }

  /** A badge FindBadge reports is a match of the pattern. */
  lemma FindBadgeSound(s: string)
    requires FindBadge(s).Some?
    ensures IsBadgeAt(s, FindBadge(s).value.0, FindBadge(s).value.1)
  {
    SearchBadgeSound(s, 0, FindBadge(s).value.0, FindBadge(s).value.1);
  }

  /** FindBadge fails only when the pattern matches nowhere, and otherwise
      reports the leftmost match with the shortest capture. */
  lemma FindBadgeLeast(s: string, p: nat, e: nat)
    ensures IsBadgeAt(s, p, e) ==>
              && FindBadge(s).Some?
              && (FindBadge(s).value.0 < p || (FindBadge(s).value.0 == p && FindBadge(s).value.1 <= e))
  {
    if IsBadgeAt(s, p, e) {
      SearchBadgeLeast(s, 0, p, e, FindBadge(s));
    }
  }
}

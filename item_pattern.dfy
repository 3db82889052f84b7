/** REGEX_SOLVING_ITEM, the problem-link pattern, with the `m` flag:
      /^\s{2}- \[<img .*?tier_small\/(s?\d+)\.svg".*?> (\d+)\]\(.*?\)(.*)$/m
    A match is fixed by four positions: its start, where `tier_small/`
    begins, where `> ` begins and where the `)` after the link stands.  The
    greedy parts (`s?\d+`, `\d+`, `.*$`) have one choice each once those are
    fixed, and the backtracking engine tries starts left to right and each
    lazy `.*?` shortest first, so the match JavaScript reports is the
    lexicographically least of the four positions. */
module ItemPattern {
  import opened Wrappers
  import opened JsText
  import opened NotePatterns

  const ItemOpen: string := "- [<img "
  const TierDir: string := "tier_small/"
  const TierExt: string := ".svg\""
  const IdOpen: string := "> "
  const LinkOpen: string := "]("

  datatype ItemMatch = ItemMatch(start: nat, img: nat, link: nat, close: nat)

  /** `^` in multiline mode. */
  predicate IsLineStart(s: string, st: int) {
    st == 0 || (0 < st <= |s| && IsLineTerminator(s[st - 1]))
  }

  /** `^\s{2}- \[<img ` at st. */
  predicate ItemHeadAt(s: string, st: int) {
    && 0 <= st && st + 10 <= |s| && IsLineStart(s, st)
    && IsWhitespace(s[st]) && IsWhitespace(s[st + 1])
    && s[st + 2..st + 10] == ItemOpen
  }

  /** Where the digits of the tier start: after the optional `s`. */
  function TierDigits(s: string, img: nat): nat
    requires img + 11 <= |s|
  {
    if img + 11 < |s| && s[img + 11] == 's' then img + 12 else img + 11
  }

  /** `tier_small\/(s?\d+)\.svg"` at img. */
  predicate TierAt(s: string, img: int) {
    && 0 <= img && img + 11 <= |s| && s[img..img + 11] == TierDir
    && var t := TierDigits(s, img);
       DigitsEnd(s, t) > t && DigitsEnd(s, t) + 5 <= |s| && s[DigitsEnd(s, t)..DigitsEnd(s, t) + 5] == TierExt
  }

  function TierEnd(s: string, img: nat): nat
    requires TierAt(s, img)
  {
    DigitsEnd(s, TierDigits(s, img))
  }

  /** `> (\d+)\]\(` at link. */
  predicate IdAt(s: string, link: int) {
    && 0 <= link && link + 2 <= |s| && s[link..link + 2] == IdOpen
    && DigitsEnd(s, link + 2) > link + 2 && DigitsEnd(s, link + 2) + 2 <= |s|
    && s[DigitsEnd(s, link + 2)..DigitsEnd(s, link + 2) + 2] == LinkOpen
  }

  function IdEnd(s: string, link: nat): nat
    requires IdAt(s, link)
  {
    DigitsEnd(s, link + 2)
  }

  /** `> (\d+)\]\(.*?\)` with `>` at link and the `)` at close. */
  predicate LinkAt(s: string, link: int, close: int) {
    IdAt(s, link) && CloseAt(s, IdEnd(s, link) + 2, close)
  }

  /** `tier_small\/(s?\d+)\.svg".*?> (\d+)\]\(.*?\)` with `tier_small/` at img. */
  predicate ImgAt(s: string, img: int, link: int, close: int) {
    TierAt(s, img) && NoTerminator(s, TierEnd(s, img) + 5, link) && LinkAt(s, link, close)
  }

  /** m describes a match of the whole pattern in s (the trailing `(.*)$`
      always matches: it runs to the next line terminator). */
  predicate IsItemMatch(s: string, m: ItemMatch) {
    ItemHeadAt(s, m.start) && NoTerminator(s, m.start + 10, m.img) && ImgAt(s, m.img, m.link, m.close)
  }

  /** The backtracking engine's preference between two matches. */
  predicate Precedes(m: ItemMatch, n: ItemMatch) {
    || m.start < n.start
    || (m.start == n.start && m.img < n.img)
    || (m.start == n.start && m.img == n.img && m.link < n.link)
    || (m.start == n.start && m.img == n.img && m.link == n.link && m.close <= n.close)
  }

  /** The lazy `.*?` before `> `: the first link position at or after k,
      on k's line, for which the rest matches, and for it the first `)`. */
  function SearchLink(s: string, k: nat): Option<(nat, nat)>
    requires k <= |s|
    decreases |s| - k
  {
    if IdAt(s, k) && FirstClose(s, IdEnd(s, k) + 2).Some? then
      Some((k, FirstClose(s, IdEnd(s, k) + 2).value))
    else if k == |s| || IsLineTerminator(s[k]) then
      None
    else
      SearchLink(s, k + 1)
  }

  /** What SearchLink finds is a match of the rest of the pattern. */
  lemma {:induction false} SearchLinkSound(s: string, k: nat, link: nat, close: nat)
    requires k <= |s| && SearchLink(s, k) == Some((link, close))
    decreases |s| - k
    ensures NoTerminator(s, k, link) && LinkAt(s, link, close)
  {
    if !(IdAt(s, k) && FirstClose(s, IdEnd(s, k) + 2).Some?) {
      SearchLinkSound(s, k + 1, link, close);
      NoTerminatorExtend(s, k, link);
    }
  }

  /** Whenever the rest of the pattern matches at (link, close), SearchLink
      finds a match r, and one the engine tries no later. */
  lemma {:induction false} SearchLinkLeast(s: string, k: nat, link: nat, close: nat, r: Option<(nat, nat)>)
    requires NoTerminator(s, k, link) && LinkAt(s, link, close)
    requires r == SearchLink(s, k)
    decreases |s| - k
    ensures r.Some? && (r.value.0 < link || (r.value.0 == link && r.value.1 <= close))
  {
    if link > k && !(IdAt(s, k) && FirstClose(s, IdEnd(s, k) + 2).Some?) {
      assert !IsLineTerminator(s[k]);
      SearchLinkLeast(s, k + 1, link, close, r);
    }
  }

  /** The lazy `.*?` before `tier_small/`. */
  function SearchImg(s: string, k: nat): Option<(nat, nat, nat)>
    requires k <= |s|
    decreases |s| - k
  {
    if TierAt(s, k) && SearchLink(s, TierEnd(s, k) + 5).Some? then
      var lc := SearchLink(s, TierEnd(s, k) + 5).value;
      Some((k, lc.0, lc.1))
    else if k == |s| || IsLineTerminator(s[k]) then
      None
    else
      SearchImg(s, k + 1)
  }

  lemma {:induction false} SearchImgSound(s: string, k: nat, img: nat, link: nat, close: nat)
    requires k <= |s| && SearchImg(s, k) == Some((img, link, close))
    decreases |s| - k
    ensures NoTerminator(s, k, img) && ImgAt(s, img, link, close)
  {
    if TierAt(s, k) && SearchLink(s, TierEnd(s, k) + 5).Some? {
      assert img == k && SearchLink(s, TierEnd(s, k) + 5) == Some((link, close));
      SearchLinkSound(s, TierEnd(s, k) + 5, link, close);
    } else {
      assert k < |s| && !IsLineTerminator(s[k]) && SearchImg(s, k + 1) == Some((img, link, close));
      SearchImgSound(s, k + 1, img, link, close);
      NoTerminatorExtend(s, k, img);
    }
  }

  lemma {:induction false} SearchImgLeast(s: string, k: nat, img: nat, link: nat, close: nat, r: Option<(nat, nat, nat)>)
    requires NoTerminator(s, k, img) && ImgAt(s, img, link, close)
    requires r == SearchImg(s, k)
    decreases |s| - k
    ensures r.Some? && Precedes(ItemMatch(0, r.value.0, r.value.1, r.value.2), ItemMatch(0, img, link, close))
  {
    if img == k {
      SearchLinkLeast(s, TierEnd(s, k) + 5, link, close, SearchLink(s, TierEnd(s, k) + 5));
    } else if !(TierAt(s, k) && SearchLink(s, TierEnd(s, k) + 5).Some?) {
      assert !IsLineTerminator(s[k]);
      SearchImgLeast(s, k + 1, img, link, close, r);
    }
  }

  /** The leftmost start at or after k from which the pattern matches, with
      the engine's choice of match there. */
  function SearchItem(s: string, k: nat): Option<ItemMatch>
    requires k <= |s|
    decreases |s| - k
  {
    if ItemHeadAt(s, k) && SearchImg(s, k + 10).Some? then
      var t := SearchImg(s, k + 10).value;
      Some(ItemMatch(k, t.0, t.1, t.2))
    else if k == |s| then
      None
    else
      SearchItem(s, k + 1)
  }

  lemma {:induction false} SearchItemSound(s: string, k: nat, m: ItemMatch)
    requires k <= |s| && SearchItem(s, k) == Some(m)
    decreases |s| - k
    ensures k <= m.start && IsItemMatch(s, m)
  {
    if ItemHeadAt(s, k) && SearchImg(s, k + 10).Some? {
      SearchImgSound(s, k + 10, m.img, m.link, m.close);
    } else {
      SearchItemSound(s, k + 1, m);
    }
  }

  lemma {:induction false} SearchItemLeast(s: string, k: nat, m: ItemMatch, r: Option<ItemMatch>)
    requires k <= m.start && IsItemMatch(s, m)
    requires r == SearchItem(s, k)
    decreases |s| - k
    ensures r.Some? && Precedes(r.value, m)
  {
    if m.start == k {
      SearchImgLeast(s, k + 10, m.img, m.link, m.close, SearchImg(s, k + 10));
    } else if !(ItemHeadAt(s, k) && SearchImg(s, k + 10).Some?) {
      SearchItemLeast(s, k + 1, m, r);
    }
  }

  /** `line.match(REGEX_SOLVING_ITEM)`. */
  function MatchItem(line: string): Option<ItemMatch> {
    SearchItem(line, 0)
  }

  /** A match MatchItem reports is a match of the pattern. */
  lemma MatchItemSound(line: string)
    requires MatchItem(line).Some?
    ensures IsItemMatch(line, MatchItem(line).value)
  {
    SearchItemSound(line, 0, MatchItem(line).value);
  }

  /** MatchItem fails only when the pattern matches nowhere in the line, and
      otherwise reports the match the engine tries first. */
  lemma MatchItemLeast(line: string, m: ItemMatch)
    ensures IsItemMatch(line, m) ==> MatchItem(line).Some? && Precedes(MatchItem(line).value, m)
  {
    if IsItemMatch(line, m) {
      SearchItemLeast(line, 0, m, MatchItem(line));
    }
  }

  /** Capture 1, the tier, of a match whose `tier_small/` is at img: an
      optional `s` then at least one digit. */
  function TierText(s: string, img: nat): (t: string)
    requires TierAt(s, img)
    ensures |t| >= 1 && (t[0] == 's' ==> |t| >= 2)
    ensures forall k | (if t[0] == 's' then 1 else 0) <= k < |t| :: IsDigit(t[k])
  {
    s[img + 11..TierEnd(s, img)]
  }

  /** Capture 2, the problem id, of a match whose `> ` is at link: one or
      more digits. */
  function IdText(s: string, link: nat): (id: string)
    requires IdAt(s, link)
    ensures |id| >= 1 && forall k | 0 <= k < |id| :: IsDigit(id[k])
  {
    s[link + 2..IdEnd(s, link)]
  }

  /** Capture 3 of a match whose `)` is at close: the rest of that line. */
  function TrailingText(s: string, close: nat): (t: string)
    requires close < |s|
    ensures forall k | 0 <= k < |t| :: !IsLineTerminator(t[k])
    ensures close + 1 + |t| <= |s|
    ensures close + 1 + |t| < |s| ==> IsLineTerminator(s[close + 1 + |t|])
  {
    s[close + 1..LineEnd(s, close + 1)]
  }
}

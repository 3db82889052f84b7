/** What the parse of a README promises, stated in the document's terms:
    when it fails, what the username is, how many entries each date gets,
    how a line is classified, where `topLine` points and which metadata
    lines end up on which problem. */
module NoteLemmas {
  import opened Wrappers
  import opened JsText
  import opened NotePatterns
  import opened ItemPattern
  import opened NoteTypes
  import opened NoteSpec
  import opened GroupLemmas

  // ----- the three failures and the username ------------------------------

  /** Section 1 holds a match of the badge pattern somewhere. */
  ghost predicate HasBadge(s: string) {
    exists p: nat, e: nat :: IsBadgeAt(s, p, e)
  }

  /** The parse fails with each TypeError exactly when its cause holds and
      no earlier one does, and succeeds otherwise. */
  lemma ParseNoteFailures(readme: string)
    ensures ParseNote(readme) == Failure(MissingProfileSection) <==> |Sections(readme)| < 2
    ensures ParseNote(readme) == Failure(MissingBadge) <==>
              |Sections(readme)| >= 2 && !HasBadge(Sections(readme)[1])
    ensures ParseNote(readme) == Failure(MissingHistorySection) <==>
              |Sections(readme)| == 2 && HasBadge(Sections(readme)[1])
    ensures ParseNote(readme).Success? <==>
              |Sections(readme)| >= 3 && HasBadge(Sections(readme)[1])
  {
    var ss := Sections(readme);
    if |ss| >= 2 {
      var s1 := ss[1];
      if FindBadge(s1).Some? {
        FindBadgeSound(s1);
        var b := FindBadge(s1).value;
        assert IsBadgeAt(s1, b.0, b.1);
      } else {
        forall p: nat, e: nat
          ensures !IsBadgeAt(s1, p, e)
        {
          FindBadgeLeast(s1, p, e);
        }
      }
    }
  }

  /** The capture of the leftmost badge match: at least one character, all
      on the URL's line, ending just before the first `)` after its first
      character. */
  lemma BadgeCapture(s: string)
    requires FindBadge(s).Some?
    ensures IsBadgeAt(s, FindBadge(s).value.0, FindBadge(s).value.1)
    ensures var p := FindBadge(s).value.0;
            var u := s[p + |BadgePrefix|..FindBadge(s).value.1];
            && |u| >= 1
            && (forall k | 0 <= k < |u| :: !IsLineTerminator(u[k]))
            && (forall k | 1 <= k < |u| :: u[k] != ')')
            && IsBadgeAt(s, p, p + |BadgePrefix| + |u|)
            && (forall q: nat, e: nat | IsBadgeAt(s, q, e) :: p <= q)
  {
    FindBadgeSound(s);
    var b := FindBadge(s).value;
    var a := b.0 + |BadgePrefix|;
    var u := s[a..b.1];
    forall k | 0 <= k < |u|
      ensures !IsLineTerminator(u[k])
    {
      assert u[k] == s[a + k];
    }
    forall k | 1 <= k < |u|
      ensures u[k] != ')'
    {
      assert u[k] == s[a + k];
      FindBadgeLeast(s, b.0, a + k);
    }
    forall q: nat, e: nat | IsBadgeAt(s, q, e)
      ensures b.0 <= q
    {
      FindBadgeLeast(s, q, e);
    }
  }

  /** The username of a successful parse is the capture of the leftmost
      badge match in section 1. */
  lemma ParseNoteUsername(readme: string)
    requires ParseNote(readme).Success?
    ensures |Sections(readme)| >= 3 && FindBadge(Sections(readme)[1]).Some?
    ensures IsBadgeAt(Sections(readme)[1], FindBadge(Sections(readme)[1]).value.0, FindBadge(Sections(readme)[1]).value.1)
    ensures var s1 := Sections(readme)[1];
            var b := FindBadge(s1).value;
            ParseNote(readme).value.username == s1[b.0 + |BadgePrefix|..b.1]
  {
    FindBadgeSound(Sections(readme)[1]);
  }

  // ----- line classification ----------------------------------------------

  /** The two-space test decides whether a line adds an item, the four-space
      test whether it is metadata, and no line passes both; an item line
      becomes a problem exactly when the item pattern matches it somewhere,
      and free text and metadata are kept trimmed. */
  lemma ClassifyLine(line: string)
    ensures IsItem(Classify(line)) <==> IsItemLine(line)
    ensures Classify(line).MetadataLine? <==> IsMetadataLine(line) && !IsItemLine(line)
    ensures !(IsItemLine(line) && IsMetadataLine(line))
    ensures Classify(line).ProblemLine? <==> IsItemLine(line) && exists m :: IsItemMatch(line, m)
    ensures Classify(line).TextLine? ==> Classify(line).text == Trim(line)
    ensures Classify(line).MetadataLine? ==> Classify(line).text == Trim(line)
  {
    if IsItemLine(line) {
      if MatchItem(line).Some? {
        MatchItemSound(line);
        assert IsItemMatch(line, MatchItem(line).value);
      } else {
        forall m
          ensures !IsItemMatch(line, m)
        {
          MatchItemLeast(line, m);
        }
      }
    }
  }

  /** The ProblemInfo an item line becomes: the id and tier captured by the
      engine's match, `isMarathon` exactly when text follows the link's `)`
      on that line, not finished, no metadata. */
  lemma ProblemFields(line: string)
    requires Classify(line).ProblemLine?
    ensures MatchItem(line).Some? && IsItemMatch(line, MatchItem(line).value)
    ensures var m := MatchItem(line).value;
            var info := Classify(line).info;
            && info.problemId == IdText(line, m.link)
            && |info.problemId| >= 1 && (forall k | 0 <= k < |info.problemId| :: IsDigit(info.problemId[k]))
            && info.problemTier == TierText(line, m.img)
            && |info.problemTier| >= 1
            && (info.isMarathon <==> m.close + 1 < |line| && !IsLineTerminator(line[m.close + 1]))
            && !info.isFinishMarathon
            && info.metadata == []
  {
    MatchItemSound(line);
    var m := MatchItem(line).value;
    var t := TrailingText(line, m.close);
    if |t| > 0 {
      assert t[0] == line[m.close + 1];
    }
  }

  // ----- the size and labels of the history list --------------------------

  /** Number of lines passing the two-space item test. */
  function ItemLineCount(L: seq<string>): nat {
    if L == [] then 0 else ItemLineCount(L[..|L| - 1]) + (if IsItemLine(L[|L| - 1]) then 1 else 0)
  }

  lemma {:induction false} CountItemLines(L: seq<string>, n: nat)
    requires n <= |L|
    ensures CountItems(Kinds(L), n) == ItemLineCount(L[..n])
  {
    if n > 0 {
      CountItemLines(L, n - 1);
      assert L[..n][..n - 1] == L[..n - 1];
      ClassifyLine(L[n - 1]);
    }
  }

  /** The tuple of one date: its label first, then one element per line
      passing the two-space test; lines failing it add nothing. */
  lemma GroupSize(date: string, L: seq<string>)
    ensures Group(date, Kinds(L))[0] == Str(date)
    ensures |Group(date, Kinds(L))| == 1 + ItemLineCount(L)
  {
    CountItemLines(L, |L|);
    assert L[..|L|] == L;
  }

  /** A successful parse scans only section 2 past its first 12 characters,
      and has one tuple per date match there, in order, whose element 0 is
      the captured date and whose other elements are one per item line of
      the date's lines. */
  lemma ParseNoteStreak(readme: string)
    requires ParseNote(readme).Success?
    ensures |Sections(readme)| >= 3
    ensures var history := SliceFrom(Sections(readme)[2], HistoryPrefixLength);
            var d := DateMatches(history);
            var streak := ParseNote(readme).value.streak;
            && |streak| == |d|
            && forall i | 0 <= i < |d| ::
                 && streak[i][0] == Str(DateLabel(history, d[i]))
                 && |streak[i]| == 1 + ItemLineCount(GroupLines(history, d, i))
  {
    var history := SliceFrom(Sections(readme)[2], HistoryPrefixLength);
    var d := DateMatches(history);
    forall i | 0 <= i < |d|
      ensures SolvingList(history)[i][0] == Str(DateLabel(history, d[i]))
      ensures |SolvingList(history)[i]| == 1 + ItemLineCount(GroupLines(history, d, i))
    {
      GroupSize(DateLabel(history, d[i]), GroupLines(history, d, i));
    }
  }

  // ----- the cursor and the metadata ------------------------------------

  /** Owner(ks, n) is the last problem line before n, or -1 when there is
      none. */
  lemma OwnerIsLastProblem(ks: seq<LineKind>, n: nat, p: int)
    requires n <= |ks|
    ensures p == -1 ==> (Owner(ks, n) == p <==> forall q | 0 <= q < n :: !ks[q].ProblemLine?)
    ensures p >= 0 ==>
              (Owner(ks, n) == p <==>
                 p < n && ks[p].ProblemLine? && forall q | p < q < n :: !ks[q].ProblemLine?)
  {
    var o := Owner(ks, n);
    if p >= 0 && p < n && ks[p].ProblemLine? && (forall q | p < q < n :: !ks[q].ProblemLine?) {
      assert !(o < p) && !(o > p);
    }
  }

  /** `topLine` after the first n lines of a group: -1 while no problem line
      has been read, and afterwards the index, in the date's tuple, of the
      ProblemInfo of the last problem line read — whatever free text came
      after it. */
  lemma CursorIsLastProblem(date: string, ks: seq<LineKind>, n: nat)
    requires n <= |ks|
    ensures Cursor(ks, n) == -1 <==> forall q | 0 <= q < n :: !ks[q].ProblemLine?
    ensures Cursor(ks, n) >= 0 ==>
              var t := [Str(date)] + Items(ks, n, n);
              && 1 <= Cursor(ks, n) < |t|
              && t[Cursor(ks, n)] == ItemAt(ks, Owner(ks, n), n)
              && t[Cursor(ks, n)].Info?
  {
    var o := Owner(ks, n);
    if o >= 0 {
      ItemsIndex(ks, n, n, o);
    }
  }

  /** The texts of the metadata lines among ks, in order. */
  function MetaTexts(ks: seq<LineKind>): seq<string> {
    if ks == [] then []
    else MetaTexts(ks[..|ks| - 1]) + (if ks[|ks| - 1].MetadataLine? then [ks[|ks| - 1].text] else [])
  }

  /** The first problem line after p, or |ks|. */
  function NextProblem(ks: seq<LineKind>, p: nat): (e: nat)
    requires p < |ks|
    decreases |ks| - p
    ensures p < e <= |ks|
    ensures e < |ks| ==> ks[e].ProblemLine?
    ensures forall q | p < q < e :: !ks[q].ProblemLine?
  {
    if p + 1 == |ks| || ks[p + 1].ProblemLine? then p + 1 else NextProblem(ks, p + 1)
  }

  /** Problem line p owns exactly the metadata lines between it and the next
      problem line, free text in between notwithstanding, in their order. */
  lemma {:induction false} MetadataBetween(ks: seq<LineKind>, p: nat, h: nat)
    requires p < |ks| && ks[p].ProblemLine? && h <= |ks|
    ensures var e := NextProblem(ks, p);
            Metadata(ks, p, h) == if h <= p then [] else MetaTexts(ks[p + 1..if h < e then h else e])
  {
    var e := NextProblem(ks, p);
    if h <= p + 1 {
      MetadataEmptyBefore(ks, p, h);
    } else {
      MetadataBetween(ks, p, h - 1);
      if h <= e {
        OwnerIsLastProblem(ks, h - 1, p);
        assert ks[p + 1..h][..h - 1 - (p + 1)] == ks[p + 1..h - 1];
      } else if h - 1 > e {
        assert Owner(ks, h - 1) >= e by {
          assert ks[e].ProblemLine?;
        }
      }
    }
  }

  /** The finished entry of item line p: the element appended for it, with
      the metadata lines between it and the next problem line attached. */
  lemma EntryOf(date: string, ks: seq<LineKind>, p: nat)
    requires p < |ks| && IsItem(ks[p])
    ensures 1 + CountItems(ks, p) < |Group(date, ks)|
    ensures ks[p].TextLine? ==> Group(date, ks)[1 + CountItems(ks, p)] == Str(ks[p].text)
    ensures ks[p].ProblemLine? ==>
              Group(date, ks)[1 + CountItems(ks, p)] ==
                Info(Attach(ks[p].info, MetaTexts(ks[p + 1..NextProblem(ks, p)])))
  {
    ItemsIndex(ks, |ks|, |ks|, p);
    if ks[p].ProblemLine? {
      MetadataBetween(ks, p, |ks|);
    }
  }

  /** The finished entry of item line p of a group: the trimmed line for
      free text; for a problem, the ProblemInfo the line gave, carrying the
      trimmed metadata lines between it and the next problem line, in order,
      and marked finished exactly when one of them starts with the marker. */
  lemma GroupEntry(date: string, L: seq<string>, p: nat)
    requires p < |L| && IsItemLine(L[p])
    ensures var ks := Kinds(L);
            var g := Group(date, ks);
            var c := 1 + CountItems(ks, p);
            && c < |g|
            && (ks[p].TextLine? ==> g[c] == Str(Trim(L[p])))
            && (ks[p].ProblemLine? ==>
                  var meta := MetaTexts(ks[p + 1..NextProblem(ks, p)]);
                  && g[c].Info?
                  && g[c].info.problemId == ks[p].info.problemId
                  && g[c].info.problemTier == ks[p].info.problemTier
                  && g[c].info.isMarathon == ks[p].info.isMarathon
                  && g[c].info.metadata == meta
                  && g[c].info.isFinishMarathon == Finished(meta))
  {
    var ks := Kinds(L);
    assert ks[p] == Classify(L[p]);
    ClassifyLine(L[p]);
    EntryOf(date, ks, p);
    if ks[p].ProblemLine? {
      ProblemFields(L[p]);
      var meta := MetaTexts(ks[p + 1..NextProblem(ks, p)]);
      assert [] + meta == meta;
    }
  }
}

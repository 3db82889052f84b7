/** The parsing half of `updateWebview` (src/noteEditor.ts:17-58) as the
    source runs it: loops that push onto `contexts`, `list` and the last
    tuple of `list`, a `topLine` cursor, and ProblemInfo records updated
    in place.  Each method is proved to compute the function of NoteSpec
    that states what the parser means. */
module NoteParser {
  import opened Wrappers
  import opened JsText
  import opened NotePatterns
  import opened ItemPattern
  import opened NoteTypes
  import opened NoteSpec
  import opened GroupLemmas

  /** The date loop (src/noteEditor.ts:27-58) over the history text left
      after `slice(12)`. */
  method ParseSolvingList(sliced: string) returns (list: seq<ProblemItem>)
    ensures list == SolvingList(sliced)
  {
    var dates := DateMatches(sliced);
    list := [];
    for i := 0 to |dates|
      invariant list == SolvingList(sliced)[..i]
    {
      var content := SplitLines(sliced[dates[i]..ChunkEnd(sliced, dates, i)])[1..];
      list := ParseGroup(list, DateLabel(sliced, dates[i]), content);
    }
  }

  /** One turn of the date loop (src/noteEditor.ts:29-57): push the date's
      tuple, then read its lines into `list.at(-1)`, keeping `topLine` on
      the last ProblemInfo pushed. */
  method ParseGroup(list0: seq<ProblemItem>, date: string, content: seq<string>) returns (list: seq<ProblemItem>)
    ensures list == list0 + [Group(date, Kinds(content))]
  {
    list := list0 + [[Str(date)]];
    var topLine := -1;
    ghost var ks := Kinds(content);
    for j := 0 to |content|
      invariant |list| == |list0| + 1 && list[..|list0|] == list0
      invariant list[|list0|] == [Str(date)] + Items(ks, j, j)
      invariant topLine == Cursor(ks, j)
    {
      GroupStep(ks, j, date);
      list, topLine := ReadLine(list, topLine, content[j]);
    }
  }

  /** The body of the line loop (src/noteEditor.ts:33-56): classify the
      line, push an item onto `list.at(-1)` or update the ProblemInfo at
      `topLine` in place. */
  method ReadLine(list0: seq<ProblemItem>, topLine0: int, line: string) returns (list: seq<ProblemItem>, topLine: int)
    requires |list0| >= 1
    ensures |list| == |list0| && list[..|list| - 1] == list0[..|list0| - 1]
    ensures (list[|list| - 1], topLine) == ReadKind(list0[|list0| - 1], topLine0, Classify(line))
  {
    list, topLine := list0, topLine0;
    var last := |list| - 1;
    if IsItemLine(line) {
      var found := MatchItem(line);
      if found.None? {
        list := list[last := list[last] + [Str(Trim(line))]];
        return;
      }
      var m := found.value;
      MatchItemSound(line);
      var info := ProblemInfo(IdText(line, m.link), TierText(line, m.img), |TrailingText(line, m.close)| > 0, false, []);
      list := list[last := list[last] + [Info(info)]];
      topLine := |list[last]| - 1;
    } else if IsMetadataLine(line) {
      // `list.at(-1)![topLine] instanceof Object`: index -1 reads undefined
      if 0 <= topLine < |list[last]| && list[last][topLine].Info? {
        var current := list[last][topLine].info;
        var t := Trim(line);
        current := current.(metadata := current.metadata + [t]);
        if StartsWith(t, FinishMarker) {
          current := current.(isFinishMarathon := true);
        }
        list := list[last := list[last][topLine := Info(current)]];
      }
    }
  }

  /** The section loop (src/noteEditor.ts:19-22): one `push` of
      `readme.slice(start, next start)` per header match. */
  method SplitSections(readme: string) returns (contexts: seq<string>)
    ensures contexts == Sections(readme)
  {
    var chunk := HeaderMatches(readme);
    contexts := [];
    for i := 0 to |chunk|
      invariant contexts == Sections(readme)[..i]
    {
      contexts := contexts + [readme[chunk[i]..if i == |chunk| - 1 then |readme| else chunk[i + 1]]];
    }
  }

  /** `updateWebview` up to the point where the parsed note is sent on
      (src/noteEditor.ts:17-58), with each TypeError it can throw returned
      as a failure. */
  method ParseReadme(readme: string) returns (r: Result<Note, ParseError>)
    ensures r == ParseNote(readme)
  {
    var contexts := SplitSections(readme);
    if |contexts| < 2 {
      return Failure(MissingProfileSection);
    }
    var badge := FindBadge(contexts[1]);
    if badge.None? {
      return Failure(MissingBadge);
    }
    FindBadgeSound(contexts[1]);
    var username := contexts[1][badge.value.0 + |BadgePrefix|..badge.value.1];
    if |contexts| < 3 {
      return Failure(MissingHistorySection);
    }
    var sliced := SliceFrom(contexts[2], HistoryPrefixLength);
    var list := ParseSolvingList(sliced);
    return Success(Note(contexts, username, list));
  }
}

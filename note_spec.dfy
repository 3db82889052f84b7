/** What the README parser of the note editor computes
    (src/noteEditor.ts:17-58), stated as functions of the document.
    The imperative parser in NoteParser is proved to compute exactly this. */
module NoteSpec {
  import opened Wrappers
  import opened JsText
  import opened NotePatterns
  import opened ItemPattern
  import opened NoteTypes

  /** The metadata prefix that marks a finished marathon course. */
  const FinishMarker: string := "- \U{B9C8}\U{B77C}\U{D1A4} \U{CF54}\U{C2A4} \U{C644}\U{C8FC}!"

  /** Characters dropped from the history section before dates are scanned. */
  const HistoryPrefixLength: nat := 12

  /** The TypeErrors the source throws on a document that does not fit. */
  datatype ParseError =
    | MissingProfileSection  // contexts[1] is undefined
    | MissingBadge           // contexts[1].match(REGEX_API_URI) is null
    | MissingHistorySection  // contexts[2] is undefined

  /** What the parser hands to the webview: the sections, the username
      and the dated history list. */
  datatype Note = Note(sections: seq<string>, username: string, streak: seq<ProblemItem>)

  // ----- line classification --------------------------------------------

  /** `/^\s{2}-/`: a list item under a date. */
  predicate IsItemLine(line: string) {
    |line| >= 3 && IsWhitespace(line[0]) && IsWhitespace(line[1]) && line[2] == '-'
  }

  /** `/^\s{4}-/`: a metadata line under an item. */
  predicate IsMetadataLine(line: string) {
    && |line| >= 5
    && IsWhitespace(line[0]) && IsWhitespace(line[1]) && IsWhitespace(line[2]) && IsWhitespace(line[3])
    && line[4] == '-'
  }

  /** The ProblemInfo pushed for an item line the pattern matches at m. */
  function NewProblem(line: string, m: ItemMatch): ProblemInfo
    requires IsItemMatch(line, m)
  {
    ProblemInfo(IdText(line, m.link), TierText(line, m.img), |TrailingText(line, m.close)| > 0, false, [])
  }

  /** What one line of a date group contributes. */
  datatype LineKind =
    | ProblemLine(info: ProblemInfo)  // an item line the pattern matches
    | TextLine(text: string)          // any other item line, trimmed
    | MetadataLine(text: string)      // a metadata line, trimmed
    | OtherLine                       // ignored

  /** The branch of the line loop a line takes, and what it carries. */
  function Classify(line: string): LineKind {
    if IsItemLine(line) then
      match MatchItem(line)
      case None => TextLine(Trim(line))
      case Some(m) => MatchItemSound(line); ProblemLine(NewProblem(line, m))
    else if IsMetadataLine(line) then
      MetadataLine(Trim(line))
    else
      OtherLine
  }

  /** The classification of every line of a group. */
  function Kinds(L: seq<string>): seq<LineKind> {
    seq(|L|, j requires 0 <= j < |L| => Classify(L[j]))
  }

  // ----- one date group, over the kinds of its lines ---------------------

  predicate IsItem(k: LineKind) {
    k.ProblemLine? || k.TextLine?
  }

  /** Number of item lines among ks[..n]. */
  function CountItems(ks: seq<LineKind>, n: nat): (c: nat)
    requires n <= |ks|
    ensures c <= n
  {
    if n == 0 then 0 else CountItems(ks, n - 1) + (if IsItem(ks[n - 1]) then 1 else 0)
  }

  /** The last problem line before line n, or -1: the entry a metadata line
      at n attaches to. */
  function Owner(ks: seq<LineKind>, n: nat): (o: int)
    requires n <= |ks|
    ensures -1 <= o < n
    ensures o >= 0 ==> ks[o].ProblemLine?
    ensures forall q | o < q < n :: !ks[q].ProblemLine?
  {
    if n == 0 then -1 else if ks[n - 1].ProblemLine? then n - 1 else Owner(ks, n - 1)
  }

  /** Texts of the metadata lines among ks[..h] owned by line p, in order. */
  function Metadata(ks: seq<LineKind>, p: int, h: nat): seq<string>
    requires h <= |ks|
  {
    if h == 0 then []
    else Metadata(ks, p, h - 1) + (if ks[h - 1].MetadataLine? && Owner(ks, h - 1) == p then [ks[h - 1].text] else [])
  }

  /** The finish flag: some metadata line starts with the marker. */
  predicate Finished(metadata: seq<string>) {
    exists k | 0 <= k < |metadata| :: StartsWith(metadata[k], FinishMarker)
  }

  /** A ProblemInfo after the metadata lines `meta` were attached to it. */
  function Attach(info: ProblemInfo, meta: seq<string>): ProblemInfo {
    info.(metadata := info.metadata + meta, isFinishMarathon := info.isFinishMarathon || Finished(meta))
  }

  /** The tuple element item line p stands for once lines ks[..h] are read. */
  function ItemAt(ks: seq<LineKind>, p: nat, h: nat): Value
    requires p < |ks| && h <= |ks| && IsItem(ks[p])
  {
    match ks[p]
    case ProblemLine(info) => Info(Attach(info, Metadata(ks, p, h)))
    case TextLine(t) => Str(t)
  }

  /** The elements for the item lines among ks[..n], after reading ks[..h]. */
  function Items(ks: seq<LineKind>, h: nat, n: nat): (r: seq<Value>)
    requires h <= |ks| && n <= |ks|
    ensures |r| == CountItems(ks, n)
  {
    if n == 0 then []
    else Items(ks, h, n - 1) + (if IsItem(ks[n - 1]) then [ItemAt(ks, n - 1, h)] else [])
  }

  /** The tuple index of the entry for Owner(ks, n), or -1: `topLine`. */
  function Cursor(ks: seq<LineKind>, n: nat): int
    requires n <= |ks|
  {
    var o := Owner(ks, n);
    if o < 0 then -1 else 1 + CountItems(ks, o)
  }

  /** The ProblemItem of one date: its label, then one element per item line. */
  function Group(date: string, ks: seq<LineKind>): ProblemItem {
    [Str(date)] + Items(ks, |ks|, |ks|)
  }

  /** One metadata line attached in place: appended to the list, and the
      finish flag raised (never lowered) when the line starts with the marker. */
  function AddMetadata(info: ProblemInfo, t: string): ProblemInfo {
    info.(metadata := info.metadata + [t], isFinishMarathon := info.isFinishMarathon || StartsWith(t, FinishMarker))
  }

  /** One turn of the line loop on the current tuple and `topLine`, given
      the kind of the line read. */
  function ReadKind(tuple: ProblemItem, topLine: int, k: LineKind): (ProblemItem, int) {
    match k
    case TextLine(t) => (tuple + [Str(t)], topLine)
    case ProblemLine(info) => (tuple + [Info(info)], |tuple|)
    case MetadataLine(t) =>
      if 0 <= topLine < |tuple| && tuple[topLine].Info? then
        (tuple[topLine := Info(AddMetadata(tuple[topLine].info, t))], topLine)
      else
        (tuple, topLine)
    case OtherLine => (tuple, topLine)
  }

  // ----- the whole document ---------------------------------------------

  /** Where chunk i of a chunking at positions ps ends. */
  function ChunkEnd(s: string, ps: seq<nat>, i: nat): nat
    requires i < |ps|
  {
    if i == |ps| - 1 then |s| else ps[i + 1]
  }

  /** `contexts`: the document cut at every header match. */
  function Sections(readme: string): seq<string> {
    var h := HeaderMatches(readme);
    seq(|h|, i requires 0 <= i < |h| => readme[h[i]..ChunkEnd(readme, h, i)])
  }

  /** The lines after the date line of date group i. */
  function GroupLines(s: string, d: seq<nat>, i: nat): seq<string>
    requires Increasing(d) && i < |d| && d[|d| - 1] <= |s|
  {
    SplitLines(s[d[i]..ChunkEnd(s, d, i)])[1..]
  }

  /** `list`: one ProblemItem per date match in the history text. */
  function SolvingList(history: string): seq<ProblemItem> {
    var d := DateMatches(history);
    seq(|d|, i requires 0 <= i < |d| => Group(DateLabel(history, d[i]), Kinds(GroupLines(history, d, i))))
  }

  /** The parse of a README, or the TypeError it stops at. */
  function ParseNote(readme: string): Result<Note, ParseError> {
    var contexts := Sections(readme);
    if |contexts| < 2 then Failure(MissingProfileSection)
    else match FindBadge(contexts[1])
      case None => Failure(MissingBadge)
      case Some(badge) =>
        FindBadgeSound(contexts[1]);
        if |contexts| < 3 then Failure(MissingHistorySection)
        else
          var username := contexts[1][badge.0 + |BadgePrefix|..badge.1];
          Success(Note(contexts, username, SolvingList(SliceFrom(contexts[2], HistoryPrefixLength))))
  }
}

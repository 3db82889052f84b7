# Solving-note README parser, in Dafny

This project models the parser of a VS Code extension's custom editor.
The parser reads a "solving note" README, a markdown log of solved
programming problems, and splits it in three steps:

1. **Sections.** The document is cut at every `# ` heading match. The
   positions come from `matchAll(REGEX_HEADER)`, and the chunks are built
   by a `push` loop.
2. **Username.** It is taken from the badge URL
   `https://mazassumnida.wtf/api/v2/generate_badge?boj=<name>)` in
   section 1.
3. **Dated history.** Section 2 loses its first 12 characters and is then
   cut at every `- YYYY/MM/DD` match. Each date gets a `ProblemItem` tuple:
   - the date string;
   - then one element per line of the group that starts with two
     whitespace characters and `-`. That element is a `ProblemInfo` when
     the problem-link pattern matches the line, and the trimmed line
     otherwise.

   Lines that start with four whitespace characters and `-` are metadata.
   Through the `topLine` cursor they are appended in place to the last
   `ProblemInfo` of the group. A metadata line that starts with
   `- 마라톤 코스 완주!` also sets `isFinishMarathon`.

The model has four layers:

- **Patterns** (`JsText`, `NotePatterns`, `ItemPattern`).
  - `JsText` covers the ECMAScript character classes and the string
    primitives `trim`, `startsWith`, `slice` and `split('\n')`.
  - Each of the four regular expressions is an exact position predicate
    plus a scan function.
  - Lemmas show that each scan reports exactly the match the JavaScript
    engine reports: every non-overlapping match for the global scans, and
    for `match` the leftmost match with the lazy quantifiers taking the
    shortest choice.
- **Specification** (`NoteSpec`). It states what the parse computes, as
  functions of the document. `ParseNote` gives the three `TypeError`s the
  source can throw as `Failure` values. A date group is described
  declaratively:
  - `Classify` gives each line its kind;
  - `Items` gives one element per item line;
  - `Owner` gives the problem line that a metadata line attaches to;
  - `Cursor` gives `topLine`.
- **Parser** (`NoteParser`). This is the imperative code as written: the
  `contexts` loop, the date loop, the line loop with `topLine`, and the
  in-place update of a `ProblemInfo`. Each method is proved to compute the
  specification function of the same step.
- **Properties** (`SectionLemmas`, `GroupLemmas`, `NoteLemmas`). These
  cover:
  - the sections are contiguous and each starts at its header;
  - the exact failure conditions;
  - the shape of the username;
  - one tuple per date, of the right size;
  - how lines are classified;
  - where `topLine` points;
  - which metadata lines reach which `ProblemInfo`, and when the finish
    flag is set.

The types of `src/types/index.d.ts` are in `NoteTypes`:

- `ProblemInfo` is a datatype.
- `Value` is `string | ProblemInfo`.
- `ProblemItem` is a subtype of `seq<Value>` with at least one element,
  where element 0 is a string.

## Model

| member | source | states |
|---|---|---|
| JsText.Trim | src/noteEditor.ts:37 | `line.trim()` returns a contiguous piece of the line that neither starts nor ends with whitespace, and only whitespace is cut off on either side. |
| JsText.LeadingWhitespace | src/noteEditor.ts:37 | Counts the run of `\s` characters at the front; the next character, if any, is not whitespace. |
| JsText.TrailingWhitespace | src/noteEditor.ts:37 | Counts the run of `\s` characters at the back; the character before it, if any, is not whitespace. |
| JsText.SliceFrom | src/noteEditor.ts:26 | `slice(12)` keeps the characters from index 12 on, in place, and gives the empty string when the text is shorter. |
| JsText.NewlineIndex | src/noteEditor.ts:30 | Gives the first `\n`, or the length when there is none. |
| JsText.SplitLines | src/noteEditor.ts:30 | `split('\n')` returns at least one piece, and no piece holds a `\n`. |
| JsText.JoinSplitLines | src/noteEditor.ts:30 | Splitting at `\n` loses nothing: joining the pieces with `\n` gives the text back. |
| JsText.SplitJoinLines | src/noteEditor.ts:30 | Pieces without `\n` come back unchanged from a join followed by a split. |
| JsText.LineEnd | src/noteEditor.ts:3 | The end of a `.*` run: the next line terminator or the end of the text, with no terminator before it. |
| JsText.DigitsEnd | src/noteEditor.ts:4-5 | The end of a greedy `\d+` run: all digits up to it, and no digit at it. |
| NotePatterns.NextHeader | src/noteEditor.ts:3 | The first `# x` position at or after k, with none before it. |
| NotePatterns.ScanHeaders | src/noteEditor.ts:3 | The global header scan yields increasing positions within the text. |
| NotePatterns.ScanHeadersSound | src/noteEditor.ts:3 | Every reported position is a header match: no earlier `# x` starts on the same line. |
| NotePatterns.ScanHeadersComplete | src/noteEditor.ts:3 | Every header match after the scan's start is reported. |
| NotePatterns.HeaderMatches | src/noteEditor.ts:19 | `matchAll(REGEX_HEADER)` gives increasing indices inside the text. |
| NotePatterns.HeaderMatchesExact | src/noteEditor.ts:3 | A position is reported if and only if it is a header match. |
| NotePatterns.DateLabel | src/noteEditor.ts:4 | Capture 1 of a date match is 10 characters of the form `dddd/dd/dd`. |
| NotePatterns.NextDate | src/noteEditor.ts:4 | The first date match at or after k, with none before it. |
| NotePatterns.ScanDates | src/noteEditor.ts:4 | The global date scan yields increasing positions, each a date match. |
| NotePatterns.ScanDatesComplete | src/noteEditor.ts:4 | Resuming after each 12-character match loses no match. |
| NotePatterns.DateMatches | src/noteEditor.ts:27 | `matchAll(REGEX_SOLVING_DATE)` gives increasing date-match positions. |
| NotePatterns.DateMatchesExact | src/noteEditor.ts:4 | A position is reported if and only if a date matches there. |
| NotePatterns.FirstClose | src/noteEditor.ts:6 | The lazy `.+?\)` ends at the first `)` on the line, or fails when the line has none. |
| NotePatterns.SearchBadgeSound | src/noteEditor.ts:6 | What the badge search finds is a match of the badge pattern. |
| NotePatterns.SearchBadgeLeast | src/noteEditor.ts:6 | The badge search finds a match whenever one exists, and one no later and no longer. |
| NotePatterns.FindBadgeSound | src/noteEditor.ts:24 | The match `contexts[1].match(REGEX_API_URI)` reports is a badge match. |
| NotePatterns.FindBadgeLeast | src/noteEditor.ts:24 | `match` fails only when no badge match exists, and otherwise reports the leftmost one with the shortest capture. |
| ItemPattern.SearchLinkSound | src/noteEditor.ts:5 | What the search for `> (\d+)\]\(.*?\)` finds matches and stays on the line. |
| ItemPattern.SearchLinkLeast | src/noteEditor.ts:5 | That search finds a match whenever one exists, and the first one the engine tries. |
| ItemPattern.SearchImgSound | src/noteEditor.ts:5 | What the search for `tier_small/...` finds matches and stays on the line. |
| ItemPattern.SearchImgLeast | src/noteEditor.ts:5 | That search finds a match whenever one exists, and the first one the engine tries. |
| ItemPattern.SearchItemSound | src/noteEditor.ts:5 | What the item search finds is a match of REGEX_SOLVING_ITEM. |
| ItemPattern.SearchItemLeast | src/noteEditor.ts:5 | The item search finds a match whenever one exists, and the one that is least in the engine's order. |
| ItemPattern.MatchItemSound | src/noteEditor.ts:35 | The match `line.match(REGEX_SOLVING_ITEM)` reports is a match of the pattern. |
| ItemPattern.MatchItemLeast | src/noteEditor.ts:35-36 | `match` returns null only when the pattern matches nowhere in the line, and otherwise returns the engine's first match. |
| ItemPattern.TierText | src/noteEditor.ts:43 | Capture 1 is an optional `s` followed by at least one digit. |
| ItemPattern.IdText | src/noteEditor.ts:42 | Capture 2 is one or more digits. |
| ItemPattern.TrailingText | src/noteEditor.ts:44 | Capture 3 is the rest of the line after the link's `)`: no terminator in it, and a terminator or the end of the text after it. |
| NoteSpec.CountItems | src/noteEditor.ts:34-48 | The number of elements pushed for the first n lines is at most n; `NoteLemmas.CountItemLines` proves it equals the number of those lines passing the two-space test. |
| NoteSpec.Owner | src/noteEditor.ts:48-50 | The owner is -1 or a problem line before n, with no problem line between it and n. |
| NoteSpec.Items | src/noteEditor.ts:41-47 | One element per item line. |
| GroupLemmas.CountItemsMonotone | src/noteEditor.ts:37-41 | Item counts grow with the prefix, strictly past an item line. |
| GroupLemmas.ItemsIndex | src/noteEditor.ts:48 | The element of item line p sits at index `CountItems(p)`. |
| GroupLemmas.MetadataEmptyBefore | src/noteEditor.ts:46 | A problem has no metadata before its own line has been read. |
| GroupLemmas.ItemAtUnchanged | src/noteEditor.ts:50-55 | Reading a line that is not metadata owned by q leaves q's element unchanged. |
| GroupLemmas.ItemsGrowKeep | src/noteEditor.ts:50-55 | A line that does not touch the first n elements leaves them unchanged. |
| GroupLemmas.ItemsGrowOwner | src/noteEditor.ts:50-55 | A metadata line changes exactly one element, its owner's. |
| GroupLemmas.FinishedAppend | src/noteEditor.ts:53-54 | One more metadata line sets the finish flag exactly when it starts with the marker, and never clears it. |
| GroupLemmas.AttachAppend | src/noteEditor.ts:52-54 | Attaching one more line appends it to the metadata, in order, and only raises the flag. |
| GroupLemmas.GroupStepItem | src/noteEditor.ts:36-47 | Reading an item line appends one element: the trimmed text, or the fresh ProblemInfo. |
| GroupLemmas.CursorStep | src/noteEditor.ts:36-48 | `topLine` moves to the new element only on a problem line; free text leaves it in place. |
| GroupLemmas.GroupStepMetadata | src/noteEditor.ts:49-55 | A metadata line leaves `topLine` alone. It changes nothing when `topLine` is -1, and otherwise updates only the ProblemInfo at `topLine`. |
| GroupLemmas.GroupStepOther | src/noteEditor.ts:33-56 | Any other line changes neither the tuple nor `topLine`. |
| GroupLemmas.GroupStep | src/noteEditor.ts:33-56 | One turn of the line loop takes the tuple and `topLine` of the first j lines to those of the first j+1 lines. |
| NoteParser.ReadLine | src/noteEditor.ts:33-56 | The loop body changes only the last tuple, and changes it, with `topLine`, as the line's kind dictates. |
| NoteParser.ParseGroup | src/noteEditor.ts:30-57 | Appends exactly one tuple: the date, then the specified element of every item line of the group. |
| NoteParser.ParseSolvingList | src/noteEditor.ts:27-58 | `list` holds one tuple per date match, in order, each the specified group. |
| NoteParser.SplitSections | src/noteEditor.ts:19-22 | `contexts` is the document cut at every header match. |
| NoteParser.ParseReadme | src/noteEditor.ts:17-58 | The whole parse gives the specified note, or the first TypeError it would throw. |
| SectionLemmas.SectionsSuffix | src/noteEditor.ts:19-22 | The sections from i on, joined, are the document from header match i on. |
| SectionLemmas.SectionsConcat | src/noteEditor.ts:19-22 | There is one section per header match. Joined, the sections give the document from the first header match on, and nothing when there is no header. |
| SectionLemmas.SectionHeader | src/noteEditor.ts:19-22 | Section i is the span from header match i to the next header match, starts with `# ` and a character of the heading, and contains no other header match. |
| NoteLemmas.ParseNoteFailures | src/noteEditor.ts:24-26 | The parse throws on `contexts[1]` exactly when there are fewer than 2 sections, and on the null badge match exactly when section 1 has no badge. It throws on `contexts[2]` exactly when there are 2 sections and a badge. It succeeds otherwise. |
| NoteLemmas.BadgeCapture | src/noteEditor.ts:6 | The captured username is non-empty and has no line terminator. It ends right before the first `)` after its first character, and comes from the leftmost badge match. |
| NoteLemmas.ParseNoteUsername | src/noteEditor.ts:24 | A successful parse's username is the capture of section 1's badge match. |
| NoteLemmas.ClassifyLine | src/noteEditor.ts:34-49 | The two-space test decides whether a line adds an element, and no line passes both tests. An item line becomes a ProblemInfo exactly when the item pattern matches it somewhere. Free text and metadata are stored trimmed. |
| NoteLemmas.ProblemFields | src/noteEditor.ts:41-47 | A new ProblemInfo has the id and tier captures. `isMarathon` is true exactly when text follows the `)` on the line. `isFinishMarathon` is false and the metadata is empty. |
| NoteLemmas.CountItemLines | src/noteEditor.ts:34 | The item count of the classified lines is the number of lines passing the two-space test. |
| NoteLemmas.GroupSize | src/noteEditor.ts:30-34 | A date's tuple has the date at index 0 and one more element per two-space line. A group with no items gives a one-element tuple. |
| NoteLemmas.ParseNoteStreak | src/noteEditor.ts:26-31 | After a successful parse there is one tuple per date match in `contexts[2].slice(12)`, in order. Each tuple starts with its captured date and has one element per item line of its group. |
| NoteLemmas.OwnerIsLastProblem | src/noteEditor.ts:48 | The owner of line n is exactly the last problem line before n, or -1 when there is none. |
| NoteLemmas.CursorIsLastProblem | src/noteEditor.ts:32-48 | `topLine` is -1 until a problem line is read. After that it indexes the ProblemInfo of the last problem line read, whatever free text followed. |
| NoteLemmas.NextProblem | src/noteEditor.ts:48 | Gives the first problem line after p, with none in between. |
| NoteLemmas.MetadataBetween | src/noteEditor.ts:49-52 | A problem line receives exactly the metadata lines between it and the next problem line, in order. |
| NoteLemmas.EntryOf | src/noteEditor.ts:37-54 | The final element of an item line is its text, or its ProblemInfo with the metadata lines up to the next problem attached. |
| NoteLemmas.GroupEntry | src/noteEditor.ts:35-54 | A free-text element is the trimmed line. A problem element keeps the line's id, tier and `isMarathon`, and carries exactly the trimmed metadata lines up to the next problem, in order. It is finished exactly when one of those lines starts with the marker. |

## Left out

- Everything `updateWebview` does after parsing: the two `fetch` calls to
  solved.ac with their JSON decoding (src/noteEditor.ts:60-61), and
  `postMessage` to the webview (63-68). Both are network or editor I/O.
- The re-parse on a visibility change (src/noteEditor.ts:70-73), `getHtml`
  and the webview page (82-243), `register` and the constructor (9-12,
  80), and src/extension.ts. These are editor plumbing and rendering.
- `SolvedacUser`, `SolvedacBackground` and `UserInfoInWorkspace`
  (src/types/index.d.ts:1-18). They are external API shapes or a
  declaration that nothing in the parser reads.
- String positions count Unicode characters. JavaScript counts UTF-16
  code units, which differ only for characters outside the Basic
  Multilingual Plane. This matters for `slice(12)` and for match indices.
- `ProblemInfo` objects are updated in place in JavaScript. The model
  replaces the value in its one tuple slot instead. Each object is
  referenced from exactly one slot, so no aliasing is lost.
- The regular expression engine is not modelled in general. Each pattern
  is an exact position predicate, and a search whose result is proved to
  be the match the backtracking engine reports.
- Lines are split at `\n` only, as `split('\n')` does, so a `\r` of a CRLF
  document stays at the end of the line. `trim` removes it. The item
  pattern's `(.*)$` stops before it, and so does the model's
  `TrailingText`.
- The model follows the code as written:
  - headings are matched anywhere, not only at a line start;
  - there is no `~` date-range form;
  - `isMarathon` tests the trailing text without trimming it;
  - the finish marker is tested with `startsWith`, not equality;
  - a metadata line after free text still reaches the last problem of
    the group.

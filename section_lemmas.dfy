/** What the section loop (src/noteEditor.ts:19-22) guarantees about
    `contexts`: one section per header match, in order, each starting at
    its `# ` match and holding no other, together covering the document
    from the first header match on. */
module SectionLemmas {
  import opened JsText
  import opened NotePatterns
  import opened NoteSpec

  /** `strings.join('')`. */
  function Concat(ss: seq<string>): string {
    if ss == [] then [] else ss[0] + Concat(ss[1..])
  }

  /** The sections from i on are the document from header match i on. */
  lemma {:induction false} SectionsSuffix(readme: string, i: nat)
    requires i <= |HeaderMatches(readme)|
    decreases |HeaderMatches(readme)| - i
    ensures var h := HeaderMatches(readme);
            Concat(Sections(readme)[i..]) == if i == |h| then [] else readme[h[i]..]
  {
    var h := HeaderMatches(readme);
    var ss := Sections(readme);
    if i < |h| {
      SectionsSuffix(readme, i + 1);
      assert ss[i..][1..] == ss[i + 1..];
      if i + 1 < |h| {
        assert readme[h[i]..] == readme[h[i]..h[i + 1]] + readme[h[i + 1]..];
      }
    }
  }

  /** Sections are contiguous: joined, they give back the document from the
      first header match to its end, and the text before that match is
      dropped; with no header match there are no sections. */
  lemma SectionsConcat(readme: string)
    ensures |Sections(readme)| == |HeaderMatches(readme)|
    ensures |Sections(readme)| == 0 ==> Concat(Sections(readme)) == []
    ensures |Sections(readme)| > 0 ==> Concat(Sections(readme)) == readme[HeaderMatches(readme)[0]..]
  {
    SectionsSuffix(readme, 0);
  }

  /** Section i starts at header match i, which is a match of the header
      pattern, so the section begins with `# ` and a character other than a
      line terminator; no other header match lies inside it. */
  lemma SectionHeader(readme: string, i: nat)
    requires i < |Sections(readme)|
    ensures var h := HeaderMatches(readme);
            && IsHeaderMatch(readme, h[i])
            && Sections(readme)[i] == readme[h[i]..ChunkEnd(readme, h, i)]
            && IsHeaderAt(Sections(readme)[i], 0)
            && forall p | h[i] < p < ChunkEnd(readme, h, i) :: !IsHeaderMatch(readme, p)
  {
    var h := HeaderMatches(readme);
    var e := ChunkEnd(readme, h, i);
    HeaderMatchesExact(readme, h[i]);
    forall p | h[i] < p < e
      ensures !IsHeaderMatch(readme, p)
    {
      HeaderMatchesExact(readme, p);
      forall k | 0 <= k < |h|
        ensures h[k] != p
      {
        if k > i {
          assert h[k] >= e;
        }
      }
    }
    assert h[i] + 3 <= e by {
      if i + 1 < |h| {
        HeaderMatchesExact(readme, h[i + 1]);
        assert NoTerminator(readme, h[i], h[i] + 2);
      }
    }
  }
}

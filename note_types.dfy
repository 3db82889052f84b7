/** The shapes the parser produces (src/types/index.d.ts). */
module NoteTypes {

  /** `interface ProblemInfo`: id and tier stay strings, so an `s`-prefixed
      tier is representable; the metadata lines keep their order. */
  datatype ProblemInfo = ProblemInfo(
    problemId: string,
    problemTier: string,
    isMarathon: bool,
    isFinishMarathon: bool,
    metadata: seq<string>)

  /** One element of a ProblemItem tuple: `string | ProblemInfo`. */
  datatype Value = Str(text: string) | Info(info: ProblemInfo)

  /** `type ProblemItem = [string, ...(string|ProblemInfo)[]]`: at least one
      element, and element 0 is a string (the date label). */
  type ProblemItem = t: seq<Value> | |t| >= 1 && t[0].Str? witness [Str("")]
}

/** Small shared vocabulary: an optional value, and the switch between the
    behaviour of the code as written and the behaviour its authors evidently
    intended (used only where the two differ; see README "## Findings"). */
module Common {

  datatype Option<+T> = None | Some(value: T)

  /** `AsWritten` reproduces the bot's code line for line; `Intended` applies
      the one-line repair named in each finding. */
  datatype Variant = AsWritten | Intended

  /** The last element of a non-empty sequence. */
  function Last<T>(s: seq<T>): T
    requires |s| > 0
  {
    s[|s| - 1]
  }
}

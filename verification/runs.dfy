/** What one run of an annotation script amounts to. */
module Runs {
  import opened Outcomes
  import opened Frames
  import opened Remote

  /** Why a run ends without writing its output file. */
  datatype Stop =
    | MissingColumns             // a required input column is absent
    | NotAnObject                // `r.get(...)` on a decoded element that is not a dict
    | ColumnError(e: FrameError) // pandas rejected a column assignment or insertion

  /** The frame the script would save (or why it stops), the prompts it sent
      to the remote model in call order, and the sleeps it requested. */
  datatype Run = Run(result: Result<Frame, Stop>, prompts: seq<Prompt>, sleeps: seq<nat>)

  /** `n` copies of one value: the scripts' `[x] * n` and `[x for _ in range(n)]`. */
  function Repeat<T>(x: T, n: nat): (r: seq<T>)
    ensures |r| == n && forall k :: 0 <= k < n ==> r[k] == x
  {
    seq(n, _ => x)
  }
}

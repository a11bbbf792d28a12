/**
  The remote generation call, as an oracle. A prompt is kept in structured
  form: which of the three instructions it carries and the numbered entries
  it lists. The instruction wording itself is not modelled.
 */
module Remote {
  import opened Outcomes
  import opened Json

  /** Which instruction the prompt carries. */
  datatype Task = Translation | Classification | Scoring

  /** One numbered entry of a prompt: `"{number}. {review}"`, followed by
      `"Sentiment: {label}"` in scoring prompts. */
  datatype Entry = Entry(number: int, review: Json, sentiment: Option<Json>)

  datatype Prompt = Prompt(task: Task, entries: seq<Entry>)

  /** `model.generate_content(prompt).text`: the reply text, or `Raised`
      when the call or reading its text raised. */
  datatype Reply = Text(text: string) | Raised

  /** Which call of the run: the batch it serves (counted from 0) and the
      attempt for that batch (counted from 0; only the retrying scripts make
      more than one). */
  datatype Call = Call(batch: nat, attempt: nat)

  /** The remote model: its reply to a given call and prompt. Every run
      makes each call at most once, so any sequence of replies a run can
      receive is the image of some such function. */
  type Model = (Call, Prompt) -> Reply

  /** The entries are numbered consecutively from `first`. */
  predicate NumberedFrom(p: Prompt, first: int)
  {
    forall k :: 0 <= k < |p.entries| ==> p.entries[k].number == first + k
  }
}

/**
  The sentiment stage: batches of five reviews, one remote call per batch
  with no retry, and a parser that pads short answers with "Unknown".
 */
module Sentiment {
  import opened Outcomes
  import opened Json
  import opened Brackets
  import opened Batching
  import opened Remote
  import opened Frames
  import opened Runs

  const BATCH_SIZE: nat := 5
  const DELAY_BETWEEN_BATCHES: nat := 10
  /** The label standing for a missing or failed classification. */
  const UNKNOWN: Json := Str("Unknown")

  /** The prompt for one batch: the raw review cells numbered from 1. */
  function BuildPrompt(batch: seq<Json>): (p: Prompt)
    ensures p.task == Classification && |p.entries| == |batch| && NumberedFrom(p, 1)
    ensures forall k :: 0 <= k < |batch| ==> p.entries[k].review == batch[k] && p.entries[k].sentiment.None?
  {
    Prompt(Classification, seq(|batch|, k requires 0 <= k < |batch| => Entry(k + 1, batch[k], None)))
  }

  /** `r.get("sentiment", "Unknown")` for a dict `r`. */
  function Label(o: Json): Json
    requires o.Obj?
  {
    Get(o, "sentiment", UNKNOWN).value
  }

  /** `parse_response`: the labels of the decoded objects, padded with
      "Unknown" up to `batchLen` but never cut down; `batchLen` copies of
      "Unknown" when decoding raises or an element is not a dict. */
  function ParseResponse(text: string, batchLen: nat, decode: Decoder): (r: seq<Json>)
    ensures var d := decode(BracketSlice(text));
            d.Some? && AllObjects(d.value) ==>
              && |r| == (if |d.value| < batchLen then batchLen else |d.value|)
              && (forall k :: 0 <= k < |d.value| ==> r[k] == Label(d.value[k]))
              && (forall k :: |d.value| <= k < |r| ==> r[k] == UNKNOWN)
    ensures var d := decode(BracketSlice(text));
            !(d.Some? && AllObjects(d.value)) ==> r == Repeat(UNKNOWN, batchLen)
  {
    match decode(BracketSlice(text))
    case None => Repeat(UNKNOWN, batchLen)
    case Some(xs) =>
      if !AllObjects(xs) then Repeat(UNKNOWN, batchLen)
      else
        var labels := seq(|xs|, k requires 0 <= k < |xs| => Label(xs[k]));
        if |labels| < batchLen then labels + Repeat(UNKNOWN, batchLen - |labels|) else labels
  }

  /** A reply without a `[` before its last `]` yields only "Unknown". */
  lemma NoArrayAllUnknown(text: string, batchLen: nat, decode: Decoder)
    requires RejectsDegenerate(decode) && !HasBracketPair(text)
    ensures ParseResponse(text, batchLen, decode) == Repeat(UNKNOWN, batchLen)
  {
  }

  /** The parser returns at least one label per review, and exactly one
      per review unless the decoded array has more objects than the batch. */
  lemma ParseLength(text: string, batchLen: nat, decode: Decoder)
    ensures |ParseResponse(text, batchLen, decode)| >= batchLen
    ensures var d := decode(BracketSlice(text));
            |ParseResponse(text, batchLen, decode)| > batchLen <==>
              d.Some? && AllObjects(d.value) && |d.value| > batchLen
  {
  }

  /** A reply such as `Here are the results: ["no change"]` for a batch of
      two: the `.get` call fails on the string element, so both reviews get
      "Unknown" rather than the string followed by one padding label. */
  lemma StringElementScenario(prose: string, decode: Decoder)
    requires '[' !in prose
    requires decode("[\"no change\"]") == Some([Str("no change")])
    ensures ParseResponse(prose + "[\"no change\"]", 2, decode) == [UNKNOWN, UNKNOWN]
  {
    ProseBeforeArray(prose, "[\"no change\"]");
    var xs := [Str("no change")];
    assert !xs[0].Obj?;
    NonObjectAllUnknown(prose + "[\"no change\"]", 2, decode, [Str("no change")]);
  }

  /** A decoded array with a non-dict element gives "Unknown" throughout. */
  lemma NonObjectAllUnknown(text: string, batchLen: nat, decode: Decoder, xs: seq<Json>)
    requires decode(BracketSlice(text)) == Some(xs)
    requires !AllObjects(xs)
    ensures ParseResponse(text, batchLen, decode) == Repeat(UNKNOWN, batchLen)
  {
  }

  /** `analyze_batch`: one call; a raised call gives "Unknown" for every
      review of the batch. */
  function AnalyzeBatch(model: Model, index: nat, batch: seq<Json>, decode: Decoder): (r: seq<Json>)
    ensures |r| >= |batch|
    ensures model(Call(index, 0), BuildPrompt(batch)).Raised? ==> r == Repeat(UNKNOWN, |batch|)
    ensures model(Call(index, 0), BuildPrompt(batch)).Text? ==>
              r == ParseResponse(model(Call(index, 0), BuildPrompt(batch)).text, |batch|, decode)
  {
    match model(Call(index, 0), BuildPrompt(batch))
    case Raised => Repeat(UNKNOWN, |batch|)
    case Text(t) =>
      ParseLength(t, |batch|, decode);
      ParseResponse(t, |batch|, decode)
  }

  /** The review batches of the loop: `df["review_text"].iloc[start:end]`
      for each `start` in `range(0, len(df), BATCH_SIZE)`. */
  function ReviewBatches(f: Frame): (r: seq<seq<Json>>)
    requires Wf(f) && "review_text" in f.names
    ensures |r| == |Batches(f.height, BATCH_SIZE)|
  {
    Chunks(Column(f, "review_text"), BATCH_SIZE)
  }

  /** The labels of each batch, batch `i` going to remote call `i`. */
  function BatchResults(batches: seq<seq<Json>>, model: Model, decode: Decoder): (parts: seq<seq<Json>>)
    ensures |parts| == |batches|
    ensures forall i :: 0 <= i < |parts| ==> |parts[i]| >= |batches[i]|
  {
    seq(|batches|, i requires 0 <= i < |batches| => AnalyzeBatch(model, i, batches[i], decode))
  }

  /** `all_sentiments`: the labels of every batch, in batch order. */
  function AllSentiments(f: Frame, model: Model, decode: Decoder): (r: seq<Json>)
    requires Wf(f) && "review_text" in f.names
    ensures |r| >= f.height
  {
    var batches := ReviewBatches(f);
    var parts := BatchResults(batches, model, decode);
    ChunksCover(Column(f, "review_text"), BATCH_SIZE);
    FlattenAtLeast(parts, batches);
    Flatten(parts)
  }

  /** The whole script: the column check, the batch loop over
      `review_text` (one prompt and one ten-second sleep per batch), and
      `df["Sentiment"] = all_sentiments`. */
  function Main(f: Frame, model: Model, decode: Decoder): (r: Run)
    requires Wf(f)
    ensures "review_text" !in f.names ==> r == Run(Failure(MissingColumns), [], [])
    ensures "review_text" in f.names ==>
              && |r.prompts| == |Batches(f.height, BATCH_SIZE)|
              && (forall i :: 0 <= i < |r.prompts| ==> r.prompts[i] == BuildPrompt(ReviewBatches(f)[i]))
              && r.sleeps == Repeat(DELAY_BETWEEN_BATCHES, |r.prompts|)
              && (r.result.Success? <==> |AllSentiments(f, model, decode)| == f.height)
              && (r.result.Failure? ==> r.result.error == ColumnError(LengthMismatch))
    ensures r.result.Success? ==>
              && "review_text" in f.names
              && Wf(r.result.value) && r.result.value.height == f.height
              && (r.result.value.names == f.names || r.result.value.names == f.names + ["Sentiment"])
              && "Sentiment" in r.result.value.names
              && Column(r.result.value, "Sentiment") == AllSentiments(f, model, decode)
              && forall k :: 0 <= k < |f.names| && f.names[k] != "Sentiment" ==> r.result.value.cols[k] == f.cols[k]
  {
    if "review_text" !in f.names then Run(Failure(MissingColumns), [], [])
    else
      var batches := ReviewBatches(f);
      var prompts := seq(|batches|, i requires 0 <= i < |batches| => BuildPrompt(batches[i]));
      var sleeps := Repeat(DELAY_BETWEEN_BATCHES, |batches|);
      match Assign(f, "Sentiment", AllSentiments(f, model, decode))
      case Failure(e) => Run(Failure(ColumnError(e)), prompts, sleeps)
      case Success(g) => Run(Success(g), prompts, sleeps)
  }

  /** When every batch is answered with exactly one label per review, row
      `r` gets label `r % 5` of batch `r / 5`, and that batch holds review
      `r` at that position. */
  lemma LabelsAligned(f: Frame, model: Model, decode: Decoder, r: nat)
    requires Wf(f) && "review_text" in f.names && r < f.height
    requires var batches := ReviewBatches(f);
             var parts := BatchResults(batches, model, decode);
             forall i :: 0 <= i < |batches| ==> |parts[i]| == |batches[i]|
    ensures var batches := ReviewBatches(f);
            var parts := BatchResults(batches, model, decode);
            && |AllSentiments(f, model, decode)| == f.height
            && r / BATCH_SIZE < |batches| && r % BATCH_SIZE < |batches[r / BATCH_SIZE]|
            && batches[r / BATCH_SIZE][r % BATCH_SIZE] == Column(f, "review_text")[r]
            && AllSentiments(f, model, decode)[r] == parts[r / BATCH_SIZE][r % BATCH_SIZE]
  {
    var batches := ReviewBatches(f);
    var parts := BatchResults(batches, model, decode);
    ChunkRow(Column(f, "review_text"), BATCH_SIZE, r);
    AlignedRow(parts, Column(f, "review_text"), BATCH_SIZE, r);
  }

  /** ... and the run then saves the frame, whose `Sentiment` column is
      those labels (as `Main` states). */
  lemma MainSucceeds(f: Frame, model: Model, decode: Decoder)
    requires Wf(f) && "review_text" in f.names
    requires var batches := ReviewBatches(f);
             var parts := BatchResults(batches, model, decode);
             forall i :: 0 <= i < |batches| ==> |parts[i]| == |batches[i]|
    ensures Main(f, model, decode).result.Success?
  {
    var batches := ReviewBatches(f);
    var parts := BatchResults(batches, model, decode);
    ChunksCover(Column(f, "review_text"), BATCH_SIZE);
    FlattenSameLength(parts, batches);
  }

  /** One batch answered with more labels than it has reviews makes the
      final column assignment raise: the run stops after every remote call
      has been made, and nothing is saved. */
  lemma OverlongAnswerStopsRun(f: Frame, model: Model, decode: Decoder, i: nat)
    requires Wf(f) && "review_text" in f.names
    requires var batches := ReviewBatches(f);
             i < |batches| && |BatchResults(batches, model, decode)[i]| > |batches[i]|
    ensures Main(f, model, decode).result == Failure(ColumnError(LengthMismatch))
  {
    var batches := ReviewBatches(f);
    var parts := BatchResults(batches, model, decode);
    ChunksCover(Column(f, "review_text"), BATCH_SIZE);
    FlattenLonger(parts, batches, i);
  }

  /** When every call raises, the run saves the frame with every row
      labelled "Unknown". */
  lemma AllCallsRaise(f: Frame, model: Model, decode: Decoder)
    requires Wf(f) && "review_text" in f.names
    requires forall call, p :: model(call, p) == Raised
    ensures Main(f, model, decode).result.Success?
    ensures AllSentiments(f, model, decode) == Repeat(UNKNOWN, f.height)
  {
    var batches := ReviewBatches(f);
    var parts := BatchResults(batches, model, decode);
    forall i | 0 <= i < |parts|
      ensures parts[i] == Repeat(UNKNOWN, |batches[i]|)
    {
      assert model(Call(i, 0), BuildPrompt(batches[i])) == Raised;
    }
    ChunksCover(Column(f, "review_text"), BATCH_SIZE);
    FlattenSameLength(parts, batches);
    FlattenConstant(parts, UNKNOWN);
  }
}

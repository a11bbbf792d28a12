/**
  The scoring stage: batches of ten rows, each sent with its review and its
  sentiment label; a retried call whose decoded array is used as it is; and
  the `score` and `reason` of every returned element collected in order.
 */
module ScoreAndReason {
  import opened Outcomes
  import opened Json
  import opened PyText
  import opened Brackets
  import opened Batching
  import opened Retry
  import opened Remote
  import opened Frames
  import opened Runs

  const BATCH_SIZE: nat := 10
  const DELAY_BETWEEN_BATCHES: nat := 3
  /** The translation cell that sends the original review instead. */
  const NO_CHANGE: Json := Str("no change")
  /** The reason given with the `None` score of a batch whose attempts all failed. */
  const FAILED_REASON: Json := Str("Error during processing")
  /** What every row of a failed batch gets. */
  const PLACEHOLDER: Json := Obj(map["score" := Null, "reason" := FAILED_REASON])
  /** The columns `main` checks for before doing anything. */
  const REQUIRED: set<string> := {"book_title", "review_text", "reviews_translated", "review_date", "Sentiment"}

  /** `required_cols.issubset(df.columns)`. */
  predicate HasRequired(names: seq<string>): (b: bool)
    ensures b <==> && "book_title" in names && "review_text" in names
                   && "reviews_translated" in names && "review_date" in names
                   && "Sentiment" in names
  {
    forall c :: c in REQUIRED ==> c in names
  }

  /** The review text a prompt shows for a row: its translation, unless the
      translation cell is exactly "no change". */
  function ReviewFor(translated: Json, original: Json): (r: Json)
    ensures r == translated || r == original
    ensures r == NO_CHANGE ==> original == NO_CHANGE
  {
    if translated != NO_CHANGE then translated else original
  }

  /** `build_prompt(df.iloc[start:end])`: one entry per row, numbered by
      the row's index label plus one, with its review and its sentiment. */
  function BuildPrompt(f: Frame, b: Bounds): (p: Prompt)
    requires Wf(f) && HasRequired(f.names) && b.start <= b.end <= f.height
    ensures p.task == Scoring && |p.entries| == b.end - b.start
  {
    var translated, original, labels := Column(f, "reviews_translated"), Column(f, "review_text"), Column(f, "Sentiment");
    Prompt(Scoring, seq(b.end - b.start, j requires 0 <= j < b.end - b.start =>
      Entry(b.start + j + 1, ReviewFor(translated[b.start + j], original[b.start + j]), Some(labels[b.start + j]))))
  }

  /** `parse_json_response`: `json.loads` of the bracket slice, with no
      guard and no stripping; `None` stands for the `ValueError` it raises
      whenever the slicing or the decoding fails. */
  function ParseJsonResponse(text: string, decode: Decoder): (r: Option<seq<Json>>)
    ensures HasBracketPair(text) ==> r == decode(text[Find(text, '[')..RFind(text, ']') + 1])
    ensures RejectsDegenerate(decode) && !HasBracketPair(text) ==> r.None?
  {
    decode(BracketSlice(text))
  }

  /** Prose before the array, as long as it holds no `[`, is skipped. */
  lemma ProseIgnored(prose: string, literal: string, decode: Decoder)
    requires '[' !in prose
    requires |literal| >= 2 && literal[0] == '[' && literal[|literal| - 1] == ']'
    ensures ParseJsonResponse(prose + literal, decode) == decode(literal)
  {
    ProseBeforeArray(prose, literal);
  }

  /** A reply whose last `]` comes before its first `[`, such as `"] no ["`,
      slices to the empty text and fails. */
  lemma ReversedBracketsFail(text: string, decode: Decoder)
    requires RejectsDegenerate(decode)
    requires '[' in text && ']' in text && RFind(text, ']') < Find(text, '[')
    ensures ParseJsonResponse(text, decode).None?
  {
  }

  /** Attempt `attempt` (from 0) for batch `index`: the call and the parse;
      `None` when either raises. */
  function Attempt(model: Model, index: nat, attempt: nat, prompt: Prompt, decode: Decoder): Option<seq<Json>>
  {
    match model(Call(index, attempt), prompt)
    case Raised => None
    case Text(t) => ParseJsonResponse(t, decode)
  }

  /** `process_batch`: the retry loop around one prompt, falling back to one
      placeholder per row of the batch. */
  function ProcessBatch(model: Model, index: nat, prompt: Prompt, rows: nat, decode: Decoder): (r: Retried<seq<Json>>)
    ensures 1 <= r.attempts <= MAX_RETRIES + 1 && |r.sleeps| == r.attempts - 1
  {
    RetryLoop((a: nat) => Attempt(model, index, a, prompt, decode), MAX_RETRIES, Repeat(PLACEHOLDER, rows))
  }

  /** A batch whose three attempts all fail gets `rows` placeholders, after
      sleeping 5 and then 10 seconds. */
  lemma BatchFallsBack(model: Model, index: nat, prompt: Prompt, rows: nat, decode: Decoder)
    requires forall a :: 0 <= a <= MAX_RETRIES ==> Attempt(model, index, a, prompt, decode).None?
    ensures ProcessBatch(model, index, prompt, rows, decode) == Retried(Repeat(PLACEHOLDER, rows), 3, [5, 10])
  {
    var outcome := (a: nat) => Attempt(model, index, a, prompt, decode);
    var r := RetryLoop(outcome, MAX_RETRIES, Repeat(PLACEHOLDER, rows));
    assert outcome(r.attempts - 1).None?;
    assert r.sleeps == [5, 10];
  }

  /** A first reply that parses is returned as it is, whatever its length:
      one call, no backoff. */
  lemma FirstReplyUsed(model: Model, index: nat, prompt: Prompt, rows: nat, decode: Decoder, v: seq<Json>)
    requires Attempt(model, index, 0, prompt, decode) == Some(v)
    ensures ProcessBatch(model, index, prompt, rows, decode) == Retried(v, 1, [])
  {
    var outcome := (a: nat) => Attempt(model, index, a, prompt, decode);
    assert outcome(0) == Some(v);
  }

  /** The batches of the loop, as row ranges. */
  function RowBatches(f: Frame): (bs: seq<Bounds>)
    ensures bs == Batches(f.height, BATCH_SIZE)
    ensures forall i :: 0 <= i < |bs| ==> bs[i].start < bs[i].end <= f.height
  {
    BatchesWithin(f.height, BATCH_SIZE);
    Batches(f.height, BATCH_SIZE)
  }

  /** The prompt of each batch. */
  function Prompts(f: Frame): (ps: seq<Prompt>)
    requires Wf(f) && HasRequired(f.names)
    ensures |ps| == |RowBatches(f)|
  {
    var bs := RowBatches(f);
    seq(|bs|, i requires 0 <= i < |bs| => BuildPrompt(f, bs[i]))
  }

  /** The outcome of `process_batch` for each batch, batch `i` making the
      calls `Call(i, 0)`, `Call(i, 1)`, ... */
  function BatchResults(f: Frame, model: Model, decode: Decoder): (rs: seq<Retried<seq<Json>>>)
    requires Wf(f) && HasRequired(f.names)
    ensures |rs| == |RowBatches(f)|
  {
    var ps := Prompts(f);
    seq(|ps|, i requires 0 <= i < |ps| => ProcessBatch(model, i, ps[i], |ps[i].entries|, decode))
  }

  /** The index of the first batch whose results hold an element that is
      not a dict, from batch `i` on. */
  function FirstNonObjectFrom(rs: seq<Retried<seq<Json>>>, i: nat): (r: Option<nat>)
    requires i <= |rs|
    ensures r.Some? ==> i <= r.value < |rs| && !AllObjects(rs[r.value].value)
    ensures forall j :: i <= j < (if r.Some? then r.value else |rs|) ==> AllObjects(rs[j].value)
    decreases |rs| - i
  {
    if i == |rs| then None
    else if !AllObjects(rs[i].value) then Some(i)
    else FirstNonObjectFrom(rs, i + 1)
  }

  /** The batch at which the loop's `r.get` raises, if any. */
  function FirstNonObject(rs: seq<Retried<seq<Json>>>): Option<nat>
  {
    FirstNonObjectFrom(rs, 0)
  }

  /** `[r.get(key) for r in results]` for results that are all dicts. */
  function Field(xs: seq<Json>, key: string): (r: seq<Json>)
    requires AllObjects(xs)
    ensures |r| == |xs|
  {
    seq(|xs|, k requires 0 <= k < |xs| => Get(xs[k], key, Null).value)
  }

  /** `scores` or `reasons` after the loop: the field of every result, in
      batch order. */
  function Collected(rs: seq<Retried<seq<Json>>>, key: string): (r: seq<Json>)
    requires FirstNonObject(rs).None?
    ensures |r| == |Flatten(seq(|rs|, i requires 0 <= i < |rs| => rs[i].value))|
  {
    var parts := seq(|rs|, i requires 0 <= i < |rs| => Field(rs[i].value, key));
    FlattenSameLength(parts, seq(|rs|, i requires 0 <= i < |rs| => rs[i].value));
    Flatten(parts)
  }

  /** Entry `k` of the collected values is `r.get(key)` of the `k`-th
      element returned, counting across all batches in order, whatever
      the batches' lengths: the key's value when present, `None`
      otherwise. */
  lemma CollectedAt(rs: seq<Retried<seq<Json>>>, key: string, k: nat)
    requires FirstNonObject(rs).None? && k < |Collected(rs, key)|
    ensures var all := Flatten(seq(|rs|, i requires 0 <= i < |rs| => rs[i].value));
            && k < |all| && all[k].Obj?
            && Get(all[k], key, Null) == Some(Collected(rs, key)[k])
            && Collected(rs, key)[k] == (if key in all[k].fields then all[k].fields[key] else Null)
  {
    var xs := seq(|rs|, i requires 0 <= i < |rs| => rs[i].value);
    var parts := seq(|rs|, i requires 0 <= i < |rs| => Field(rs[i].value, key));
    FlattenMapped(parts, xs, v => Get(v, key, Null));
  }

  /** The prompts sent by the first `n` batches, in call order: each
      batch's prompt once per attempt. */
  function Calls(ps: seq<Prompt>, rs: seq<Retried<seq<Json>>>, n: nat): seq<Prompt>
    requires n <= |ps| == |rs|
  {
    Flatten(seq(n, i requires 0 <= i < n => Repeat(ps[i], rs[i].attempts)))
  }

  /** The sleeps of the first `n` batches: each batch's backoffs, then the
      pause between batches. */
  function Pauses(rs: seq<Retried<seq<Json>>>, n: nat): seq<nat>
    requires n <= |rs|
  {
    Flatten(seq(n, i requires 0 <= i < n => rs[i].sleeps + [DELAY_BETWEEN_BATCHES]))
  }

  /** `df["Sentiment_Score"] = scores` then `df["Reason"] = reasons`:
      each assignment replaces or appends its column, and raises when its
      list does not have one value per row. */
  function AddColumns(f: Frame, scores: seq<Json>, reasons: seq<Json>): (r: Result<Frame, FrameError>)
    requires Wf(f)
    ensures r.Success? <==> |scores| == f.height && |reasons| == f.height
    ensures r.Failure? ==> r.error == LengthMismatch
    ensures r.Success? ==> Wf(r.value) && r.value.height == f.height
    ensures r.Success? ==> "Sentiment_Score" in r.value.names && Column(r.value, "Sentiment_Score") == scores
    ensures r.Success? ==> "Reason" in r.value.names && Column(r.value, "Reason") == reasons
  {
    match Assign(f, "Sentiment_Score", scores)
    case Failure(e) => Failure(e)
    case Success(g) =>
      var r := Assign(g, "Reason", reasons);
      if r.Success? then
        AssignKeeps(g, "Reason", reasons, "Sentiment_Score");
        r
      else r
  }

  /** The two assignments leave every other column of the input as it was. */
  lemma AddColumnsKeeps(f: Frame, scores: seq<Json>, reasons: seq<Json>, a: string)
    requires Wf(f) && AddColumns(f, scores, reasons).Success?
    requires a in f.names && a != "Sentiment_Score" && a != "Reason"
    ensures a in AddColumns(f, scores, reasons).value.names
    ensures Column(AddColumns(f, scores, reasons).value, a) == Column(f, a)
  {
    var g := Assign(f, "Sentiment_Score", scores).value;
    AssignKeeps(f, "Sentiment_Score", scores, a);
    AssignKeeps(g, "Reason", reasons, a);
  }

  /** `main()`. The loop stops the script when a batch's results hold a
      non-dict: its calls and backoffs have happened, its pause has not. */
  function Main(f: Frame, model: Model, decode: Decoder): (r: Run)
    requires Wf(f)
    ensures !HasRequired(f.names) ==> r == Run(Failure(MissingColumns), [], [])
    ensures HasRequired(f.names) && FirstNonObject(BatchResults(f, model, decode)).Some? ==>
              r.result == Failure(NotAnObject)
    ensures r.result.Success? ==>
              && HasRequired(f.names) && FirstNonObject(BatchResults(f, model, decode)).None?
              && var saved := AddColumns(f, Collected(BatchResults(f, model, decode), "score"),
                                            Collected(BatchResults(f, model, decode), "reason"));
                 saved.Success? && r.result.value == saved.value
  {
    if !HasRequired(f.names) then Run(Failure(MissingColumns), [], [])
    else
      var ps := Prompts(f);
      var rs := BatchResults(f, model, decode);
      match FirstNonObject(rs)
      case Some(b) => Run(Failure(NotAnObject), Calls(ps, rs, b + 1), Pauses(rs, b) + rs[b].sleeps)
      case None =>
        var prompts, sleeps := Calls(ps, rs, |rs|), Pauses(rs, |rs|);
        match AddColumns(f, Collected(rs, "score"), Collected(rs, "reason"))
        case Failure(e) => Run(Failure(ColumnError(e)), prompts, sleeps)
        case Success(h) => Run(Success(h), prompts, sleeps)
  }

  /** Row `r` is entry `r % 10` of the prompt of batch `r / 10`, numbered
      `r + 1`: its translation, or its original review when the
      translation is "no change", with its sentiment label. */
  lemma PromptRow(f: Frame, r: nat)
    requires Wf(f) && HasRequired(f.names) && r < f.height
    ensures r / BATCH_SIZE < |Prompts(f)| && r % BATCH_SIZE < |Prompts(f)[r / BATCH_SIZE].entries|
    ensures var translated, original := Column(f, "reviews_translated")[r], Column(f, "review_text")[r];
            Prompts(f)[r / BATCH_SIZE].entries[r % BATCH_SIZE]
            == Entry(r + 1, if translated == Str("no change") then original else translated,
                     Some(Column(f, "Sentiment")[r]))
  {
    RowInBatch(f.height, BATCH_SIZE, r);
    var b := RowBatches(f)[r / BATCH_SIZE];
    assert Prompts(f)[r / BATCH_SIZE] == BuildPrompt(f, b);
    assert b.start + r % BATCH_SIZE == r;
    assert BuildPrompt(f, b).entries[r % BATCH_SIZE]
           == Entry(r + 1, ReviewFor(Column(f, "reviews_translated")[r], Column(f, "review_text")[r]),
                    Some(Column(f, "Sentiment")[r]));
  }

  /** Every batch costs between one and three calls. When the loop runs
      to the end there is one sleep per call (the backoffs and each batch's
      pause); when it stops at batch `b` the pause of that batch is
      missing. */
  lemma CallsPerBatch(f: Frame, model: Model, decode: Decoder)
    requires Wf(f) && HasRequired(f.names)
    ensures var run := Main(f, model, decode);
            var n := |RowBatches(f)|;
            match FirstNonObject(BatchResults(f, model, decode))
            case None => n <= |run.prompts| <= 3 * n && |run.sleeps| == |run.prompts|
            case Some(b) => b + 1 <= |run.prompts| <= 3 * (b + 1) && |run.sleeps| + 1 == |run.prompts|
  {
    var ps := Prompts(f);
    var rs := BatchResults(f, model, decode);
    match FirstNonObject(rs)
    case None =>
      MainCallsAll(f, model, decode);
      CallsAndPauses(ps, rs, |rs|);
    case Some(b) =>
      MainStopsAt(f, model, decode, b);
      CallsAndPauses(ps, rs, b);
      CallsAndPauses(ps, rs, b + 1);
      CallsOneMore(ps, rs, b);
  }

  /** The first `n` batches: between `n` and `3 n` calls, as many sleeps. */
  lemma CallsAndPauses(ps: seq<Prompt>, rs: seq<Retried<seq<Json>>>, n: nat)
    requires n <= |ps| == |rs|
    requires forall i :: 0 <= i < |rs| ==> 1 <= rs[i].attempts <= 3 && |rs[i].sleeps| == rs[i].attempts - 1
    ensures n <= |Calls(ps, rs, n)| <= 3 * n && |Pauses(rs, n)| == |Calls(ps, rs, n)|
  {
    var cs := seq(n, i requires 0 <= i < n => Repeat(ps[i], rs[i].attempts));
    var ss := seq(n, i requires 0 <= i < n => rs[i].sleeps + [DELAY_BETWEEN_BATCHES]);
    FlattenBetween(cs, 1, 3);
    FlattenSameLength(ss, cs);
  }

  /** One more batch adds its attempts to the calls. */
  lemma CallsOneMore(ps: seq<Prompt>, rs: seq<Retried<seq<Json>>>, b: nat)
    requires b < |ps| == |rs|
    ensures |Calls(ps, rs, b + 1)| == |Calls(ps, rs, b)| + rs[b].attempts
  {
    var cs := seq(b + 1, i requires 0 <= i < b + 1 => Repeat(ps[i], rs[i].attempts));
    assert cs == seq(b, i requires 0 <= i < b => Repeat(ps[i], rs[i].attempts)) + [Repeat(ps[b], rs[b].attempts)];
    FlattenSnoc(cs[..b], Repeat(ps[b], rs[b].attempts));
  }

  /** When every call raises, every batch gets its placeholders after
      three calls. */
  lemma RaisingBatches(f: Frame, model: Model, decode: Decoder)
    requires Wf(f) && HasRequired(f.names)
    requires forall call, p :: model(call, p) == Raised
    ensures var rs := BatchResults(f, model, decode);
            forall i :: 0 <= i < |rs| ==>
              rs[i] == Retried(Repeat(PLACEHOLDER, |Prompts(f)[i].entries|), 3, [5, 10])
  {
    var ps := Prompts(f);
    var rs := BatchResults(f, model, decode);
    forall i | 0 <= i < |rs|
      ensures rs[i] == Retried(Repeat(PLACEHOLDER, |ps[i].entries|), 3, [5, 10])
    {
      forall a | 0 <= a <= MAX_RETRIES
        ensures Attempt(model, i, a, ps[i], decode).None?
      {
        assert model(Call(i, a), ps[i]) == Raised;
      }
      BatchFallsBack(model, i, ps[i], |ps[i].entries|, decode);
    }
  }

  /** Results that all hold one dict per row collect into one field value
      per row, row `r` getting that of element `r % 10` of batch `r / 10`. */
  lemma CollectedRow(f: Frame, rs: seq<Retried<seq<Json>>>, key: string, r: nat)
    requires Wf(f) && HasRequired(f.names) && |rs| == |Prompts(f)| && r < f.height
    requires FirstNonObject(rs).None?
    requires forall i :: 0 <= i < |rs| ==> |rs[i].value| == |Prompts(f)[i].entries|
    ensures |Collected(rs, key)| == f.height
    ensures r / BATCH_SIZE < |rs| && r % BATCH_SIZE < |rs[r / BATCH_SIZE].value|
    ensures Collected(rs, key)[r] == Get(rs[r / BATCH_SIZE].value[r % BATCH_SIZE], key, Null).value
  {
    var parts := seq(|rs|, i requires 0 <= i < |rs| => Field(rs[i].value, key));
    AlignedRow(parts, Column(f, "review_text"), BATCH_SIZE, r);
  }

  /** When every batch answers with one dict per row, the run saves them:
      row `r` gets the `score` and `reason` of element `r % 10` of batch
      `r / 10` (`None` for a missing key), the batch whose prompt lists
      row `r` at that position. */
  lemma ScoresAligned(f: Frame, model: Model, decode: Decoder, r: nat)
    requires Wf(f) && HasRequired(f.names) && r < f.height
    requires var rs := BatchResults(f, model, decode);
             forall i :: 0 <= i < |rs| ==> AllObjects(rs[i].value) && |rs[i].value| == |Prompts(f)[i].entries|
    ensures Main(f, model, decode).result.Success?
    ensures var rs := BatchResults(f, model, decode);
            var out := Main(f, model, decode).result.value;
            && r / BATCH_SIZE < |rs| && r % BATCH_SIZE < |rs[r / BATCH_SIZE].value|
            && Column(out, "Sentiment_Score")[r] == Get(rs[r / BATCH_SIZE].value[r % BATCH_SIZE], "score", Null).value
            && Column(out, "Reason")[r] == Get(rs[r / BATCH_SIZE].value[r % BATCH_SIZE], "reason", Null).value
  {
    var rs := BatchResults(f, model, decode);
    assert FirstNonObject(rs).None?;
    CollectedRow(f, rs, "score", r);
    CollectedRow(f, rs, "reason", r);
    MainSaves(f, model, decode);
  }

  /** Once the loop has run to the end with one value per row, the run
      saves the collected columns. */
  lemma MainSaves(f: Frame, model: Model, decode: Decoder)
    requires Wf(f) && HasRequired(f.names)
    requires FirstNonObject(BatchResults(f, model, decode)).None?
    requires |Collected(BatchResults(f, model, decode), "score")| == f.height
    requires |Collected(BatchResults(f, model, decode), "reason")| == f.height
    ensures Main(f, model, decode).result.Success?
    ensures var out := Main(f, model, decode).result.value;
            && "Sentiment_Score" in out.names && Column(out, "Sentiment_Score") == Collected(BatchResults(f, model, decode), "score")
            && "Reason" in out.names && Column(out, "Reason") == Collected(BatchResults(f, model, decode), "reason")
  {
  }

  /** Placeholder results collect into the same value on every row. */
  lemma PlaceholderColumn(f: Frame, rs: seq<Retried<seq<Json>>>, key: string, v: Json)
    requires Wf(f) && HasRequired(f.names) && |rs| == |Prompts(f)|
    requires forall i :: 0 <= i < |rs| ==> rs[i].value == Repeat(PLACEHOLDER, |Prompts(f)[i].entries|)
    requires Get(PLACEHOLDER, key, Null) == Some(v)
    ensures FirstNonObject(rs).None?
    ensures Collected(rs, key) == Repeat(v, f.height)
  {
    assert forall i :: 0 <= i < |rs| ==> AllObjects(rs[i].value);
    var parts := seq(|rs|, i requires 0 <= i < |rs| => Field(rs[i].value, key));
    var cs := Chunks(Column(f, "review_text"), BATCH_SIZE);
    FlattenConstant(parts, v);
    FlattenSameLength(parts, cs);
    ChunksCover(Column(f, "review_text"), BATCH_SIZE);
  }

  /** Batches that each made three calls and slept 5 and 10 seconds
      account for three prompts and the sleeps 5, 10 and the pause each. */
  lemma ThreeCallsEach(ps: seq<Prompt>, rs: seq<Retried<seq<Json>>>)
    requires |ps| == |rs|
    requires forall i :: 0 <= i < |rs| ==> rs[i].attempts == 3 && rs[i].sleeps == [5, 10]
    ensures |Calls(ps, rs, |rs|)| == 3 * |rs|
    ensures Pauses(rs, |rs|) == Flatten(Repeat([5, 10, DELAY_BETWEEN_BATCHES], |rs|))
  {
    var cs := seq(|rs|, i requires 0 <= i < |rs| => Repeat(ps[i], rs[i].attempts));
    var ss := seq(|rs|, i requires 0 <= i < |rs| => rs[i].sleeps + [DELAY_BETWEEN_BATCHES]);
    FlattenBetween(cs, 3, 3);
    forall i | 0 <= i < |ss|
      ensures ss[i] == [5, 10, DELAY_BETWEEN_BATCHES]
    {
      assert ss[i] == [5, 10] + [DELAY_BETWEEN_BATCHES];
    }
    assert ss == Repeat([5, 10, DELAY_BETWEEN_BATCHES], |rs|);
  }

  /** A loop that runs to the end sends every batch's calls and requests
      every batch's sleeps. */
  lemma MainCallsAll(f: Frame, model: Model, decode: Decoder)
    requires Wf(f) && HasRequired(f.names)
    requires FirstNonObject(BatchResults(f, model, decode)).None?
    ensures var rs := BatchResults(f, model, decode);
            Main(f, model, decode).prompts == Calls(Prompts(f), rs, |rs|)
            && Main(f, model, decode).sleeps == Pauses(rs, |rs|)
  {
  }

  /** When every call raises, every batch makes three calls with sleeps of
      5 and 10 seconds and then the pause, and the run saves a `None`
      score and the reason "Error during processing" on every row. */
  lemma AllCallsRaise(f: Frame, model: Model, decode: Decoder)
    requires Wf(f) && HasRequired(f.names)
    requires forall call, p :: model(call, p) == Raised
    ensures Main(f, model, decode).result.Success?
    ensures Column(Main(f, model, decode).result.value, "Sentiment_Score") == Repeat(Null, f.height)
    ensures Column(Main(f, model, decode).result.value, "Reason") == Repeat(FAILED_REASON, f.height)
    ensures |Main(f, model, decode).prompts| == 3 * |RowBatches(f)|
    ensures Main(f, model, decode).sleeps == Flatten(Repeat([5, 10, DELAY_BETWEEN_BATCHES], |RowBatches(f)|))
  {
    var rs := BatchResults(f, model, decode);
    RaisingColumns(f, model, decode);
    MainSaves(f, model, decode);
    RaisingBatches(f, model, decode);
    ThreeCallsEach(Prompts(f), rs);
    MainCallsAll(f, model, decode);
  }

  /** When every call raises, the loop runs to the end and collects a
      `None` score and the failure reason for every row. */
  lemma RaisingColumns(f: Frame, model: Model, decode: Decoder)
    requires Wf(f) && HasRequired(f.names)
    requires forall call, p :: model(call, p) == Raised
    ensures FirstNonObject(BatchResults(f, model, decode)).None?
    ensures Collected(BatchResults(f, model, decode), "score") == Repeat(Null, f.height)
    ensures Collected(BatchResults(f, model, decode), "reason") == Repeat(FAILED_REASON, f.height)
  {
    var rs := BatchResults(f, model, decode);
    RaisingBatches(f, model, decode);
    PlaceholderColumn(f, rs, "score", Null);
    PlaceholderColumn(f, rs, "reason", FAILED_REASON);
  }

  /** With no length check, a loop that runs to the end with a wrong
      number of values makes the first column assignment raise: every
      call has been made and nothing is saved. */
  lemma MainLengthMismatch(f: Frame, model: Model, decode: Decoder)
    requires Wf(f) && HasRequired(f.names)
    requires FirstNonObject(BatchResults(f, model, decode)).None?
    requires |Collected(BatchResults(f, model, decode), "score")| != f.height
    ensures Main(f, model, decode).result == Failure(ColumnError(LengthMismatch))
  {
  }

  /** One batch answered with more dicts than it has rows, and none with
      fewer, stops the run at the assignment. */
  lemma AnswerTooLong(f: Frame, model: Model, decode: Decoder, i: nat)
    requires Wf(f) && HasRequired(f.names)
    requires var rs := BatchResults(f, model, decode);
             && (forall j :: 0 <= j < |rs| ==> AllObjects(rs[j].value) && |rs[j].value| >= |Prompts(f)[j].entries|)
             && i < |rs| && |rs[i].value| > |Prompts(f)[i].entries|
    ensures Main(f, model, decode).result == Failure(ColumnError(LengthMismatch))
  {
    var rs := BatchResults(f, model, decode);
    CollectedLonger(f, rs, i);
    MainLengthMismatch(f, model, decode);
  }

  /** One batch answered with fewer dicts than it has rows, and none with
      more, stops the run at the assignment too: nothing pads the answer. */
  lemma AnswerTooShort(f: Frame, model: Model, decode: Decoder, i: nat)
    requires Wf(f) && HasRequired(f.names)
    requires var rs := BatchResults(f, model, decode);
             && (forall j :: 0 <= j < |rs| ==> AllObjects(rs[j].value) && |rs[j].value| <= |Prompts(f)[j].entries|)
             && i < |rs| && |rs[i].value| < |Prompts(f)[i].entries|
    ensures Main(f, model, decode).result == Failure(ColumnError(LengthMismatch))
  {
    var rs := BatchResults(f, model, decode);
    CollectedShorter(f, rs, i);
    MainLengthMismatch(f, model, decode);
  }

  /** More dicts than rows in one batch and no fewer in any give more
      scores than rows. */
  lemma CollectedLonger(f: Frame, rs: seq<Retried<seq<Json>>>, i: nat)
    requires Wf(f) && HasRequired(f.names) && |rs| == |Prompts(f)|
    requires forall j :: 0 <= j < |rs| ==> AllObjects(rs[j].value) && |rs[j].value| >= |Prompts(f)[j].entries|
    requires i < |rs| && |rs[i].value| > |Prompts(f)[i].entries|
    ensures FirstNonObject(rs).None? && |Collected(rs, "score")| > f.height
  {
    var parts := seq(|rs|, j requires 0 <= j < |rs| => Field(rs[j].value, "score"));
    var cs := Chunks(Column(f, "review_text"), BATCH_SIZE);
    ChunksCover(Column(f, "review_text"), BATCH_SIZE);
    FlattenLonger(parts, cs, i);
  }

  /** Fewer dicts than rows in one batch and no more in any give fewer
      scores than rows. */
  lemma CollectedShorter(f: Frame, rs: seq<Retried<seq<Json>>>, i: nat)
    requires Wf(f) && HasRequired(f.names) && |rs| == |Prompts(f)|
    requires forall j :: 0 <= j < |rs| ==> AllObjects(rs[j].value) && |rs[j].value| <= |Prompts(f)[j].entries|
    requires i < |rs| && |rs[i].value| < |Prompts(f)[i].entries|
    ensures FirstNonObject(rs).None? && |Collected(rs, "score")| < f.height
  {
    var parts := seq(|rs|, j requires 0 <= j < |rs| => Field(rs[j].value, "score"));
    var cs := Chunks(Column(f, "review_text"), BATCH_SIZE);
    ChunksCover(Column(f, "review_text"), BATCH_SIZE);
    FlattenLonger(cs, parts, i);
  }

  /** The first batch whose results hold a non-dict is where the loop stops. */
  lemma StopsAt(rs: seq<Retried<seq<Json>>>, b: nat)
    requires b < |rs| && !AllObjects(rs[b].value)
    requires forall i :: 0 <= i < b ==> AllObjects(rs[i].value)
    ensures FirstNonObject(rs) == Some(b)
  {
  }

  /** A loop stopped at batch `b` has sent the calls of batches up to `b`
      and saves nothing. */
  lemma MainStopsAt(f: Frame, model: Model, decode: Decoder, b: nat)
    requires Wf(f) && HasRequired(f.names)
    requires FirstNonObject(BatchResults(f, model, decode)) == Some(b)
    ensures Main(f, model, decode).result == Failure(NotAnObject)
    ensures Main(f, model, decode).prompts == Calls(Prompts(f), BatchResults(f, model, decode), b + 1)
    ensures Main(f, model, decode).sleeps == Pauses(BatchResults(f, model, decode), b) + BatchResults(f, model, decode)[b].sleeps
  {
  }

  /** The first reply `Scores: ["no change"]`, decoded, is the batch's result. */
  lemma StringElementBatch(model: Model, b: nat, p: Prompt, rows: nat, decode: Decoder, prose: string)
    requires '[' !in prose && model(Call(b, 0), p) == Text(prose + "[\"no change\"]")
    requires decode("[\"no change\"]") == Some([Str("no change")])
    ensures ProcessBatch(model, b, p, rows, decode).value == [Str("no change")]
    ensures !AllObjects(ProcessBatch(model, b, p, rows, decode).value)
  {
    ProseIgnored(prose, "[\"no change\"]", decode);
    FirstReplyUsed(model, b, p, rows, decode, [Str("no change")]);
    assert !ProcessBatch(model, b, p, rows, decode).value[0].Obj?;
  }

  /** A reply such as `Scores: ["no change"]` to the first call of batch
      `b`, after batches that all returned dicts, stops the run there:
      `.get` fails on the string, so nothing is saved and no later batch
      is sent. */
  lemma StringElementStops(f: Frame, model: Model, decode: Decoder, b: nat, prose: string)
    requires Wf(f) && HasRequired(f.names) && b < |Prompts(f)|
    requires forall i :: 0 <= i < b ==> AllObjects(BatchResults(f, model, decode)[i].value)
    requires '[' !in prose && model(Call(b, 0), Prompts(f)[b]) == Text(prose + "[\"no change\"]")
    requires decode("[\"no change\"]") == Some([Str("no change")])
    ensures Main(f, model, decode).result == Failure(NotAnObject)
    ensures Main(f, model, decode).prompts == Calls(Prompts(f), BatchResults(f, model, decode), b + 1)
  {
    var ps := Prompts(f);
    var rs := BatchResults(f, model, decode);
    assert rs[b] == ProcessBatch(model, b, ps[b], |ps[b].entries|, decode);
    StringElementBatch(model, b, ps[b], |ps[b].entries|, decode, prose);
    StopsAt(rs, b);
    MainStopsAt(f, model, decode, b);
  }
}

# Review annotation scripts: a Dafny model

Three Python scripts annotate a spreadsheet of book reviews with a remote
language model. They run in order:

1. `translated_review.py` translates `review_text` into `reviews_translated`.
   It uses batches of 8 and up to two retries per batch, then renames and
   reorders the columns.
2. `sentiment.py` labels every review. It uses batches of 5, makes one call
   per batch, and pads short answers with "Unknown".
3. `score_and_reason.py` scores every review and gives a reason. It uses
   batches of 10 and up to two retries per batch, and sends each row's
   sentiment with it.

This project models the deterministic glue of the three scripts as pure
Dafny functions over sequences and proves what that glue guarantees. The
glue is:

- the batch loop;
- the bracket-slice extraction of a JSON array from a reply;
- the padding parser;
- the bounded retry loop with linear backoff;
- the review selection and numbering in the scoring prompt;
- the column handling of the translation stage.

Modules:

- `Outcomes` defines `Option` and `Result`.
- `PyText` models `str.find`, `str.rfind`, slicing with CPython's bound
  adjustment, and `str.strip`.
- `Json` models decoded values and `dict.get`.
- `Brackets` models the slice `text[text.find("["):text.rfind("]") + 1]`.
- `Batching` models `range(0, n, size)` with `end = min(start + size, n)`,
  and the in-order concatenation of per-batch results.
- `Retry` models the `while attempt <= MAX_RETRIES` loop as a state machine
  over attempt outcomes.
- `Remote` models prompts in structured form and the model oracle.
- `Frames` models the DataFrame operations the scripts use: column
  assignment, `insert`, `rename` and column selection.
- `Runs` records what one run produces: the saved frame or why nothing was
  saved, the prompts sent, and the sleeps requested.
- `Sentiment`, `TranslatedReview` and `ScoreAndReason` model one script
  each.
- `Differences` relates the two retrying parsers.

The remote model is a function `(Call, Prompt) -> Reply`. `Call(batch,
attempt)` identifies the call, and a reply is either a text or `Raised`.
Every run makes each call at most once, so any sequence of replies a run
can receive is the image of such a function. The lemmas about runs
therefore hold for every possible behaviour of the remote service.

`json.loads` is a parameter `decode: string -> Option<seq<Json>>`. The
scripts only ever decode a text that starts with `[` and ends with `]`,
or the empty text, or a lone `]`, so whatever decodes is an array. The
only fact about the decoder the model assumes is `RejectsDegenerate`:
neither `""` nor `"]"` decodes. A lemma that needs this fact states it as
a `requires`.

Sleeps are recorded as the number of seconds requested. A rendering
function `render` stands for `str()` of a non-text cell.

Four behaviours of the code that are easy to misread:

- The scoring prompt numbers each row by its DataFrame index label plus
  one, which is its global row number plus one (`score_and_reason.py:36`).
  It does not number from 1 within each batch. So the second batch's
  entries start at 11 (`ScoreAndReason.PromptRow`).
- No parser truncates a long answer. The sentiment parser pads a short
  answer but keeps every element of a long one, so an overlong answer
  makes the final column assignment raise and nothing is saved
  (`Sentiment.OverlongAnswerStopsRun`). The retrying scripts neither pad
  nor truncate, and their final assignment checks only the total across
  all batches. The run raises only when that total differs from the row
  count (`TranslatedReview.Main`, `ScoreAndReason.MainLengthMismatch`,
  `ScoreAndReason.AnswerTooLong`, `ScoreAndReason.AnswerTooShort`).
  Batches whose errors cancel out save misaligned rows: one batch answered
  with one element too many and the next with one too few shifts every
  later row onto its neighbour's answer
  (`TranslatedReview.CompensatingBatchesSave`; for scoring,
  `ScoreAndReason.MainSaves` with `ScoreAndReason.CollectedAt`).
- The scoring stage does not pad short answers with nulls.
- In the scoring stage, a decoded element that is not a dict makes
  `r.get` raise outside any `try`. The script then stops at that batch
  without saving anything (`ScoreAndReason.StringElementStops`). The
  sentiment stage catches the same error and labels the whole batch
  "Unknown" (`Sentiment.StringElementScenario`).

## Model

| member | source | states |
|---|---|---|
| `Batching.BatchShape` | score_and_reason.py:109-111 | Batch `i` starts at `i * size` and is non-empty. It holds at most `size` rows, exactly `size` unless it is the last, and the last ends at `n`. |
| `Batching.CountIsCeiling` | score_and_reason.py:109 | The loop runs `ceil(n / size)` times: the batches reach `n`, the last start is below `n`, and there are none exactly when `n == 0`. |
| `Batching.RowInBatch` | score_and_reason.py:109-111 | Row `r` lies in batch `r / size`, at offset `r % size`. |
| `Batching.RangePartition` | score_and_reason.py:109-111 | The batches split the rows `[0, n)` into consecutive non-empty ranges of at most `size` rows. The first starts at 0, the last ends at `n`, and there are none exactly when `n == 0`. |
| `Batching.Chunks` | translated_review.py:99-101 | There is one slice per batch, and each slice has as many reviews as its batch has rows. |
| `Batching.ChunkRow` | translated_review.py:99-101 | Review `r` is entry `r % size` of slice `r / size`. |
| `Batching.FlattenSnoc` | translated_review.py:104 | Extending the result list by one more batch's results appends them after the earlier batches' results. |
| `Batching.FlattenMapped` | score_and_reason.py:113-117 | Per-batch lists computed element by element from the batches' results concatenate to the same element-by-element map of the concatenated results. |
| `Batching.ChunksCover` | translated_review.py:99-101 | Concatenating the slices `reviews[start:end]` of all batches gives back the whole list, so the batches are contiguous, disjoint and cover every row. |
| `Batching.AlignedRow` | translated_review.py:99-104 | When every batch's result is as long as the batch, the concatenation is as long as the input, and entry `r` is result `r % size` of batch `r / size`. |
| `Retry.RetryFrom` | score_and_reason.py:76-88 | The loop makes at most `MAX_RETRIES + 1` attempts and stops at the first one that succeeds, returning its value. Otherwise it makes every attempt and returns the fallback. It sleeps `5 * k` seconds after failed attempt `k` except the last. |
| `Retry.RetryLoop` | translated_review.py:62-75 | From the first attempt, the loop makes one to `MAX_RETRIES + 1` attempts. Every attempt but the last fails. It returns the last attempt's value, or the fallback after `MAX_RETRIES + 1` failures. It sleeps 5, 10, ... seconds between attempts. |
| `Retry.RetryIsFirstSuccess` | score_and_reason.py:76-88 | The loop agrees with a reference "first successful attempt" definition, both in the value returned and in the number of attempts. |
| `Retry.AtMostThreeCalls` | translated_review.py:62-75 | With `MAX_RETRIES = 2`, a batch costs one to three calls, and the sleeps are a prefix of `[5, 10]`, so nothing follows the final failure. |
| `Retry.FailTwiceThenSucceed` | score_and_reason.py:76-86 | Two failures then a success give exactly three calls, sleeps of 5 and 10 seconds, and the third result. |
| `PyText.Find` | score_and_reason.py:65 | `find` returns -1 exactly when the character is absent. Otherwise it returns the index of its first occurrence. |
| `PyText.RFind` | score_and_reason.py:66 | `rfind` returns -1 exactly when the character is absent. Otherwise it returns the index of its last occurrence. |
| `PyText.AdjustBound` | score_and_reason.py:67 | CPython's slice bound: a negative bound counts from the end, and bounds are clamped into `[0, len]`. |
| `PyText.Slice` | score_and_reason.py:67 | `s[start:end]` is the plain subsequence for in-range bounds, and empty when `0 <= end <= start`. |
| `PyText.SliceFromMinusOne` | score_and_reason.py:65-67 | A start of -1 means the last character, so the slice is that character when `end` is the length, and empty otherwise. |
| `PyText.Strip` | translated_review.py:68 | `strip()` keeps an infix of the text that neither starts nor ends with whitespace. It is empty exactly when the text is all whitespace. |
| `PyText.StripBoundsSpaces` | translated_review.py:68 | Only whitespace is removed, and the kept text starts and ends with non-whitespace. |
| `PyText.StripIdempotent` | translated_review.py:68 | A stripped text has no whitespace at either end, and stripping it again changes nothing. |
| `Brackets.BracketSlice` | score_and_reason.py:65-67 | When a `[` comes before the last `]`, the slice runs from the first `[` to the last `]`, both included. Otherwise it is the empty text or a lone `]`. |
| `Brackets.NoOpeningBracket` | score_and_reason.py:65-67 | Without a `[`, the slice is `"]"` when the text ends with `]`, and empty otherwise. |
| `Brackets.ProseBeforeArray` | sentiment.py:53-55 | Prose before an array literal does not change the slice, as long as the prose has no `[`. |
| `Json.Get` | score_and_reason.py:116-117 | `r.get(key)` raises exactly when `r` is not a dict. For a dict it returns the key's value, or the default when the key is absent. |
| `Frames.IndexOf` | translated_review.py:108 | `get_loc` of a present label is the position of its first occurrence. |
| `Frames.Assign` | sentiment.py:89 | `df[name] = values` raises exactly when the lengths differ. Otherwise it replaces the column in place or appends it, and leaves every other column unchanged. |
| `Frames.AssignKeeps` | score_and_reason.py:121-122 | After an assignment, every other column is still present with the same cells. |
| `Frames.Insert` | translated_review.py:108 | `insert` raises when the label exists or the lengths differ. Otherwise it places the column at `loc` and shifts the later columns right. |
| `Frames.InsertColumns` | translated_review.py:108 | After an insertion, the new label holds the new values and every old label holds its old cells. |
| `Frames.InsertLabels` | translated_review.py:108 | After an insertion, the labels are the old ones plus the new one. |
| `Frames.Rename` | translated_review.py:111-114 | `rename` relabels exactly the columns found in the map, and keeps the cells and the order. |
| `Frames.RenameColumn` | translated_review.py:111-114 | When the renamed labels are distinct, a column's cells are found under its new label. |
| `Frames.RenameKeepsDistinct` | translated_review.py:111-114 | An injective renaming that produces no label already present keeps the labels distinct. |
| `Frames.Present` | translated_review.py:117 | The comprehension keeps exactly the wanted labels that are present, and never more of them than were wanted. |
| `Frames.Project` | translated_review.py:117 | `df[keys]` keeps the row count. It has only labels that are both asked for and present, and only columns of the input. |
| `Frames.ProjectRepeated` | translated_review.py:117 | A first key that labels two or more columns selects them in frame order: the first two selected columns are the first two input columns under that label, both labelled with the key. |
| `Frames.MatchingIncreasing` | translated_review.py:117 | The columns a label selects are taken in frame order. |
| `Frames.MatchingPair` | translated_review.py:117 | A label carried by exactly two columns selects exactly those two, in frame order. |
| `Frames.RenameMergesPair` | translated_review.py:111-114 | With distinct labels, when only `a` is renamed onto the present label `b`, exactly the columns of `a` and `b` carry `b` afterwards, in frame order. |
| `Frames.InsertIndex` | translated_review.py:108 | An insertion leaves the old columns before `loc` in place and moves the later ones up by one. |
| `Frames.InsertOrder` | translated_review.py:108 | An insertion keeps the relative order of any two old columns. |
| `Frames.RenameMerges` | translated_review.py:111-114 | A label renamed onto a label already present leaves two columns under that label, so the labels are no longer distinct. |
| `Frames.ProjectDistinct` | translated_review.py:117 | Selecting distinct present labels gives a frame with exactly those labels, in the order asked. |
| `Frames.ProjectColumn` | translated_review.py:117 | A selected column keeps its cells. |
| `Sentiment.BuildPrompt` | sentiment.py:32-47 | The prompt lists the raw reviews of the batch in order, numbered from 1. |
| `Sentiment.ParseResponse` | sentiment.py:49-63 | Decoded dicts give their "sentiment" (or "Unknown") in order, padded with "Unknown" up to the batch length but never cut. A failed decode, or any element that is not a dict, gives `batch_len` copies of "Unknown". |
| `Sentiment.NoArrayAllUnknown` | sentiment.py:52-63 | A reply with no `[` before its last `]` yields only "Unknown". |
| `Sentiment.ParseLength` | sentiment.py:58-61 | The parser returns at least `batch_len` labels. It returns more exactly when the decoded array has more dicts than the batch. |
| `Sentiment.StringElementScenario` | sentiment.py:56-63 | The reply `...["no change"]` for a batch of two yields two "Unknown" labels, because `.get` on the string raises. |
| `Sentiment.NonObjectAllUnknown` | sentiment.py:58-63 | Any non-dict element makes the whole batch "Unknown". |
| `Sentiment.AnalyzeBatch` | sentiment.py:65-74 | One call per batch and no retry. A raised call gives one "Unknown" per review, and otherwise the parse of the reply. |
| `Sentiment.BatchResults` | sentiment.py:81-86 | Every batch gets at least as many labels as it has reviews. |
| `Sentiment.AllSentiments` | sentiment.py:81-86 | The concatenated labels are at least as many as the rows. |
| `Sentiment.Main` | sentiment.py:28-89 | Without `review_text` the script stops before any call. Otherwise it sends one prompt per batch, sleeps 10 seconds after each, and saves the frame exactly when the labels match the rows. The saved frame has `Sentiment` set to the labels and every other column unchanged. |
| `Sentiment.LabelsAligned` | sentiment.py:81-86 | When every batch gets one label per review, row `r` gets label `r % 5` of batch `r / 5`, and that batch holds review `r` at that position. |
| `Sentiment.MainSucceeds` | sentiment.py:86-89 | One label per review in every batch makes the run save its frame. |
| `Sentiment.OverlongAnswerStopsRun` | sentiment.py:58-89 | One batch answered with more labels than reviews makes the assignment raise, so nothing is saved. |
| `Sentiment.AllCallsRaise` | sentiment.py:72-89 | When every call raises, the run saves "Unknown" on every row. |
| `TranslatedReview.Normalise` | translated_review.py:93 | `fillna("").astype(str)` turns a missing cell into `""`, keeps text, and renders anything else as text. |
| `TranslatedReview.NormaliseIdempotent` | translated_review.py:93 | Normalising twice is the same as normalising once. |
| `TranslatedReview.Normalised` | translated_review.py:93 | Only `review_text` changes, and each of its cells is normalised in place. |
| `TranslatedReview.BuildPrompt` | translated_review.py:29-47 | The prompt lists the normalised reviews in order, numbered from 1. |
| `TranslatedReview.ParseJsonArrayFromText` | translated_review.py:50-57 | Parsing raises when the text lacks a `[` or a `]`. |
| `TranslatedReview.ParseDecodesBracketSlice` | translated_review.py:52-57 | Past the guard, the parser decodes the bracket slice, which is the empty text when the last `]` precedes the first `[`. |
| `TranslatedReview.StripDoesNotMatter` | translated_review.py:68-69 | Stripping the reply before parsing never changes the parse. |
| `TranslatedReview.TranslateBatch` | translated_review.py:60-75 | A batch makes one to three calls, with one backoff between each two calls. |
| `TranslatedReview.BatchFallsBack` | translated_review.py:62-75 | Three failed attempts give "error" for every review, after sleeping 5 and 10 seconds. |
| `TranslatedReview.FirstReplyUsed` | translated_review.py:65-69 | A first reply that parses is returned as it is, whatever its length: one call and no backoff. |
| `TranslatedReview.ReviewBatches` | translated_review.py:94-101 | There is one batch per value of `range(0, len(reviews), 8)`. |
| `TranslatedReview.InsertTranslations` | translated_review.py:108 | The insertion succeeds exactly when `reviews_translated` is absent and there is one translation per row. |
| `TranslatedReview.Arrange` | translated_review.py:111-117 | The rename and selection keep the row count. |
| `TranslatedReview.Main` | translated_review.py:79-117 | Without `review_text` the script stops before any call. Otherwise it saves exactly when the insertion succeeds. An existing `reviews_translated` and a translation count different from the row count each stop it. |
| `TranslatedReview.PresentExpected` | translated_review.py:116-117 | The selection keeps the expected labels that are present, in the expected order. |
| `TranslatedReview.RenamedLabels` | translated_review.py:111-114 | After the rename, `book_title` is present exactly when either spelling was, and the same holds for `review_date`. |
| `TranslatedReview.RenamedDistinct` | translated_review.py:111-114 | The rename keeps the labels distinct unless the input has both spellings of a column. |
| `TranslatedReview.LayoutDistinct` | translated_review.py:116 | The reference layout names each label once. |
| `TranslatedReview.PresentIsLayout` | translated_review.py:111-117 | The selected labels are the reference layout: the title if present under either spelling, the review, the translation, then the date likewise. |
| `TranslatedReview.ArrangeNames` | translated_review.py:111-117 | The saved frame's labels are exactly the reference layout, each once. |
| `TranslatedReview.ArrangeColumn` | translated_review.py:111-117 | Every kept column holds the cells of the input column it was renamed from. |
| `TranslatedReview.Inserted` | translated_review.py:93-108 | The inserted frame has the input's labels plus `reviews_translated`, which holds the translations. `review_text` holds the normalised reviews. |
| `TranslatedReview.InsertedKeeps` | translated_review.py:108 | Every column other than `review_text` reaches the inserted frame unchanged. |
| `TranslatedReview.ArrangedInserted` | translated_review.py:108-117 | Arranging the inserted frame gives the layout of the input's labels, with the normalised reviews and the translations. |
| `TranslatedReview.MainOutput` | translated_review.py:79-117 | With `review_text`, no existing `reviews_translated` and one translation per row, the run saves the layout. It holds the normalised reviews and, right after them, the translations. |
| `TranslatedReview.MainKeeps` | translated_review.py:108-117 | A title or date column of the input reaches the saved frame under its lower-case label, with its cells unchanged. |
| `TranslatedReview.Translated` | translated_review.py:99-105 | When every batch gets one translation per review, there is one translation per row. |
| `TranslatedReview.TitleTwice` | translated_review.py:111-114 | With both `Book_Title` and `book_title`, the rename produces `book_title` twice, so the labels are no longer distinct. |
| `TranslatedReview.TitleClash` | translated_review.py:111-117 | With both title spellings, the arranged frame starts with two columns labelled `book_title`. |
| `TranslatedReview.TitleClashColumns` | translated_review.py:111-117 | With distinct labels and both title spellings, the arranged frame's first two columns are the two title columns, in their input order. |
| `TranslatedReview.TitleKept` | translated_review.py:108 | The insertion keeps both title columns in their input order. |
| `TranslatedReview.MainTitleClash` | translated_review.py:79-117 | A run on an input with both title spellings saves a frame whose first two columns are both labelled `book_title`. They hold the input's two title columns, in their input order. |
| `TranslatedReview.CompensatingBatchesSave` | translated_review.py:99-108 | With 16 rows, a first batch answered with 9 translations and a second with 7 still save. The translations are the two answers concatenated, so row 8, which opens the second batch, gets the first batch's ninth translation, and each later row gets the translation of the row before it. |
| `TranslatedReview.TranslationsAligned` | translated_review.py:99-104 | When every batch gets one translation per review, row `r` gets translation `r % 8` of batch `r / 8`. That batch holds row `r`'s normalised review at that position. |
| `TranslatedReview.CallsPerBatch` | translated_review.py:99-105 | Each batch costs one to three calls, and the run requests as many sleeps as it makes calls. |
| `TranslatedReview.RaisingBatches` | translated_review.py:62-75 | When every call raises, every batch falls back after three calls. |
| `TranslatedReview.RaisingTranslations` | translated_review.py:99-104 | When every call raises, every review's translation is "error". |
| `TranslatedReview.ThreeCallsEach` | translated_review.py:72-105 | Batches that each failed three times account for three prompts each, and the sleeps 5, 10 and 3 each. |
| `TranslatedReview.AllCallsRaise` | translated_review.py:99-108 | When every call raises, the run saves "error" for every review. It makes three calls per batch and sleeps 5, 10 and 3 seconds per batch. |
| `ScoreAndReason.HasRequired` | score_and_reason.py:101-104 | The required-column check passes exactly when `book_title`, `review_text`, `reviews_translated`, `review_date` and `Sentiment` are all present. |
| `ScoreAndReason.ReviewFor` | score_and_reason.py:34 | A prompt shows the translation or the original review. It shows "no change" only when the original review is itself "no change". |
| `ScoreAndReason.BuildPrompt` | score_and_reason.py:27-59 | A scoring prompt has one entry per row of its batch. |
| `ScoreAndReason.PromptRow` | score_and_reason.py:33-36 | Row `r` is entry `r % 10` of batch `r / 10`'s prompt, numbered `r + 1`. It shows the translation, or the original review when the translation is "no change", together with the row's sentiment. |
| `ScoreAndReason.ParseJsonResponse` | score_and_reason.py:62-70 | The parser decodes the slice from the first `[` to the last `]`, with no guard. It fails whenever there is no such pair, given a decoder that rejects `""` and `"]"`. |
| `ScoreAndReason.ProseIgnored` | score_and_reason.py:65-68 | Prose without a `[` before the array does not change the parse. |
| `ScoreAndReason.ReversedBracketsFail` | score_and_reason.py:65-70 | Every reply that has both brackets, with its last `]` before its first `[`, fails to parse. The slice is then empty. |
| `ScoreAndReason.ProcessBatch` | score_and_reason.py:73-88 | A batch makes one to three calls, with one backoff between each two calls. |
| `ScoreAndReason.BatchFallsBack` | score_and_reason.py:76-88 | Three failed attempts give one `{"score": None, "reason": "Error during processing"}` per row, after sleeping 5 and 10 seconds. |
| `ScoreAndReason.FirstReplyUsed` | score_and_reason.py:79-82 | A first reply that parses is returned as it is, whatever its length: one call and no backoff. |
| `ScoreAndReason.RowBatches` | score_and_reason.py:109-111 | The batches are those of `range(0, len(df), 10)`, each within the frame. |
| `ScoreAndReason.FirstNonObjectFrom` | score_and_reason.py:115-117 | The loop stops at the first batch whose results contain a non-dict. Every earlier batch's results are all dicts. |
| `ScoreAndReason.StopsAt` | score_and_reason.py:115-117 | A batch with a non-dict result, after batches whose results are all dicts, is where the loop stops. |
| `ScoreAndReason.AddColumns` | score_and_reason.py:121-122 | The two assignments succeed exactly when both lists have one value per row. The new columns then hold the scores and the reasons. |
| `ScoreAndReason.AddColumnsKeeps` | score_and_reason.py:121-122 | The two assignments leave every other input column unchanged. |
| `ScoreAndReason.Main` | score_and_reason.py:101-122 | A missing required column stops the script before any call. A non-dict result stops it without saving. A saved frame has every result's score and reason collected in batch order. |
| `ScoreAndReason.CallsPerBatch` | score_and_reason.py:109-118 | Each batch costs one to three calls. A complete run sleeps once per call. A run stopped at batch `b` has made between `b + 1` and `3(b + 1)` calls and one sleep fewer. |
| `ScoreAndReason.Collected` | score_and_reason.py:113-117 | The loop collects one value per returned result, over all batches. |
| `ScoreAndReason.CollectedAt` | score_and_reason.py:113-117 | Whatever the batches' lengths, value `k` is `r.get(key)` of the `k`-th element returned, counting across all batches in order: the key's value when present, `None` otherwise. |
| `ScoreAndReason.CollectedRow` | score_and_reason.py:113-117 | With one dict per row, row `r`'s collected value is that of element `r % 10` of batch `r / 10`, or `None` when the key is missing. |
| `ScoreAndReason.ScoresAligned` | score_and_reason.py:109-122 | With one dict per row in every batch, the run saves. Row `r` gets the score and reason of element `r % 10` of batch `r / 10`. |
| `ScoreAndReason.MainSaves` | score_and_reason.py:113-122 | A complete loop whose totals match the row count saves the frame, aligned or not, with the collected scores and reasons as its `Sentiment_Score` and `Reason` columns. |
| `ScoreAndReason.MainLengthMismatch` | score_and_reason.py:121 | A complete loop with the wrong number of scores makes the assignment raise, so nothing is saved. |
| `ScoreAndReason.AnswerTooLong` | score_and_reason.py:115-121 | One batch answered with more dicts than rows, and none with fewer, stops the run at the assignment. |
| `ScoreAndReason.AnswerTooShort` | score_and_reason.py:115-121 | One batch answered with fewer dicts than rows, and none with more, stops the run too, because nothing pads the answer. |
| `ScoreAndReason.CollectedLonger` | score_and_reason.py:113-117 | More dicts than rows in one batch, and no fewer in any, give more scores than rows. |
| `ScoreAndReason.CollectedShorter` | score_and_reason.py:113-117 | Fewer dicts than rows in one batch, and no more in any, give fewer scores than rows. |
| `ScoreAndReason.MainStopsAt` | score_and_reason.py:109-118 | A loop stopped at batch `b` has sent the calls of batches up to and including `b`. It has requested their sleeps, except the pause after batch `b`, and it saves nothing. |
| `ScoreAndReason.StringElementBatch` | score_and_reason.py:79-82 | The first reply `...["no change"]` becomes the batch's result, and that result contains a non-dict. |
| `ScoreAndReason.StringElementStops` | score_and_reason.py:109-118 | Such a reply to batch `b` stops the run there: nothing is saved and no later batch is sent. |
| `ScoreAndReason.RaisingBatches` | score_and_reason.py:76-88 | When every call raises, every batch gets its placeholders after three calls. |
| `ScoreAndReason.PlaceholderColumn` | score_and_reason.py:88-117 | Placeholder results collect into the same value on every row. |
| `ScoreAndReason.RaisingColumns` | score_and_reason.py:87-117 | When every call raises, the loop completes with a `None` score and "Error during processing" on every row. |
| `ScoreAndReason.ThreeCallsEach` | score_and_reason.py:76-118 | Batches that each failed three times account for three prompts each, and the sleeps 5, 10 and 3 each. |
| `ScoreAndReason.MainCallsAll` | score_and_reason.py:109-118 | A complete loop sends every batch's calls and requests every batch's sleeps. |
| `ScoreAndReason.AllCallsRaise` | score_and_reason.py:76-122 | When every call raises, the run saves a `None` score and "Error during processing" on every row. It makes three calls per batch and sleeps 5, 10 and 3 seconds per batch. |
| `Differences.ParsersAgree` | translated_review.py:50-69 | With a decoder that rejects `""` and `"]"`, the translation parser, which strips and guards, gives the same result as the scoring parser, which does neither. |
| `Differences.LoneClosingBracket` | score_and_reason.py:65-68 | On the reply `"]"` the scoring parser passes `"]"` to the decoder, while the translation parser fails before decoding. |

Small helpers that transcribe one expression of the source have no row of
their own; the rows of their callers state what they do.
`Sentiment.Label` and `ScoreAndReason.Field` are covered by the rows of
`Sentiment.ParseResponse` and `ScoreAndReason.Collected`, `Frames.Column` by
the rows of the `Frames` lemmas and of `TranslatedReview.Main`, the
`Attempt` functions by the `TranslateBatch` and `ProcessBatch` rows, and
`TranslatedReview.Sleeps`, `ScoreAndReason.Pauses` and
`ScoreAndReason.Calls` by the `CallsPerBatch` rows. `Sentiment.ReviewBatches`
is covered by the `Sentiment.BatchResults` and `Sentiment.LabelsAligned`
rows. `TranslatedReview.MainArranges` and `TranslatedReview.MainCalls` only
unfold `TranslatedReview.Main` for the lemmas about runs that call them.

## Left out

- File I/O is not modelled: `read_excel`/`read_csv`, `to_excel`, and their
  `FileNotFoundError`/`PermissionError` handling. The model starts from the
  loaded frame, and a run's result is the frame that would be saved.
- The `GEMINI_API_KEY` check and the model configuration are environment
  set-up.
- The generation call is not modelled. It is the `Model` oracle.
  `response.text` raising is folded into `Raised`.
- `json.loads` is the `Decoder` parameter. The model assumes nothing of it
  beyond `RejectsDegenerate`, and only where a lemma says so.
- The prompt wording is left out. A prompt is kept as its task, its entry
  numbers, its reviews and (when scoring) its sentiment labels.
- `str()` of a non-text cell (`astype(str)`) is the `render` parameter,
  because it depends on pandas' dtype inference.
- `time.sleep` is recorded as the seconds requested. The sleep happens in
  real time in the scripts.
- The progress and warning `print`s are not modelled.
- A NaN cell is given as `Null`. Float values, such as a score of 7.5,
  lie outside the `Json` type, whose numbers are integers.
- Excel's own index column is not modelled. The scoring prompt's numbering
  relies on the default `RangeIndex` that `read_excel` produces.
- `TranslatedReview.ArrangeNames` does not cover inputs that hold both
  `Book_Title` and `book_title`, or both `Review_Date` and `review_date`
  (`NoRenameClash`). With both, the renamed frame carries the label twice,
  and `Column` reads only the first column under a label, so a statement
  by label cannot name the second one. For the title, `TranslatedReview.TitleClash`,
  `TranslatedReview.TitleClashColumns` and `TranslatedReview.MainTitleClash`
  state what is saved then: two `book_title` columns holding the two input
  title columns in their input order. For the date, only the labels are
  stated, by the generic `Frames.RenameMerges` and `Frames.RenameMergesPair`.
- `TranslatedReview.ArrangeColumn` does not cover the same inputs, for the
  reason given under `TranslatedReview.ArrangeNames`.
- `TranslatedReview.ArrangedInserted` does not cover the same inputs, for
  the reason given under `TranslatedReview.ArrangeNames`.
- `TranslatedReview.MainOutput` does not cover the same inputs, for the
  reason given under `TranslatedReview.ArrangeNames`.
- `TranslatedReview.MainKeeps` does not cover the same inputs, for the
  reason given under `TranslatedReview.ArrangeNames`.
- The Playwright scraping scripts are browser automation with no
  self-contained logic, so they are not modelled.

/**
  The translation stage: `review_text` is normalised to text, sent in
  batches of eight with up to two retries per batch, and the translations
  are inserted as `reviews_translated` right after `review_text`; the
  output keeps only the expected columns, in the expected order.
 */
module TranslatedReview {
  import opened Outcomes
  import opened Json
  import opened PyText
  import opened Brackets
  import opened Batching
  import opened Retry
  import opened Remote
  import opened Frames
  import opened Runs

  const BATCH_SIZE: nat := 8
  const DELAY_BETWEEN_BATCHES: nat := 3
  /** The placeholder translation of a batch whose every attempt failed. */
  const ERROR: Json := Str("error")
  /** The relabelling applied before the columns are selected. */
  const RENAMES: map<string, string> := map["Book_Title" := "book_title", "Review_Date" := "review_date"]
  const EXPECTED_ORDER: seq<string> := ["book_title", "review_text", "reviews_translated", "review_date"]

  /** `fillna("").astype(str)` for one cell: a missing cell becomes the
      empty text, a text cell is kept, and any other cell becomes its
      `str()` rendering, given by `render`. */
  function Normalise(cell: Json, render: Json -> string): (r: Json)
    ensures r.Str?
    ensures cell.Null? ==> r == Str("")
    ensures cell.Str? ==> r == cell
  {
    match cell
    case Null => Str("")
    case Str(_) => cell
    case _ => Str(render(cell))
  }

  /** Normalising twice is normalising once: a normalised cell is text. */
  lemma NormaliseIdempotent(cell: Json, render: Json -> string)
    ensures Normalise(Normalise(cell, render), render) == Normalise(cell, render)
  {
  }

  /** The frame after `df["review_text"] = df["review_text"].fillna("").astype(str)`:
      only the `review_text` column changes, each cell normalised in place. */
  function Normalised(f: Frame, render: Json -> string): (g: Frame)
    requires Wf(f) && "review_text" in f.names
    ensures Wf(g) && g.names == f.names && g.height == f.height
    ensures forall r :: 0 <= r < f.height ==>
              Column(g, "review_text")[r] == Normalise(Column(f, "review_text")[r], render)
    ensures forall k :: 0 <= k < |f.names| && f.names[k] != "review_text" ==> g.cols[k] == f.cols[k]
  {
    var cells := Column(f, "review_text");
    Assign(f, "review_text", seq(|cells|, r requires 0 <= r < |cells| => Normalise(cells[r], render))).value
  }

  /** The prompt for one batch: the normalised reviews numbered from 1. */
  function BuildPrompt(batch: seq<Json>): (p: Prompt)
    ensures p.task == Translation && |p.entries| == |batch| && NumberedFrom(p, 1)
    ensures forall k :: 0 <= k < |batch| ==> p.entries[k].review == batch[k] && p.entries[k].sentiment.None?
  {
    Prompt(Translation, seq(|batch|, k requires 0 <= k < |batch| => Entry(k + 1, batch[k], None)))
  }

  /** `parse_json_array_from_text`: `None` (a raised `ValueError`) when
      the text has no `[` or no `]`; otherwise whatever `json.loads` makes
      of the bracket slice, which is the empty text when the last `]`
      comes before the first `[`. */
  function ParseJsonArrayFromText(text: string, decode: Decoder): (r: Option<seq<Json>>)
    ensures '[' !in text || ']' !in text ==> r.None?
  {
    var start := Find(text, '[');
    var end := RFind(text, ']') + 1;
    if start == -1 || end == 0 then None
    else decode(Slice(text, start, end))
  }

  /** With both brackets present the parse decodes the bracket slice, which
      is empty when the last `]` comes before the first `[`. */
  lemma ParseDecodesBracketSlice(text: string, decode: Decoder)
    ensures HasBracketPair(text) ==> ParseJsonArrayFromText(text, decode) == decode(BracketSlice(text))
    ensures '[' in text && ']' in text && !HasBracketPair(text) ==> ParseJsonArrayFromText(text, decode) == decode("")
  {
  }

  /** Stripping the reply first changes nothing: whitespace is never a
      bracket, so the same slice is found. */
  lemma StripDoesNotMatter(text: string, decode: Decoder)
    ensures ParseJsonArrayFromText(Strip(text), decode) == ParseJsonArrayFromText(text, decode)
  {
    var a, z := Find(text, '['), RFind(text, ']');
    StripFinds(text);
    if a != -1 && z != -1 {
      StripSameSlice(text, a, z);
    }
    ParseShifted(text, Strip(text), StripBounds(text).0, a, z, decode);
  }

  /** The bracket slice of the stripped text is that of the text. */
  lemma StripSameSlice(text: string, a: int, z: int)
    requires a == Find(text, '[') && z == RFind(text, ']') && a != -1 && z != -1
    ensures Slice(Strip(text), a - StripBounds(text).0, z + 1 - StripBounds(text).0) == Slice(text, a, z + 1)
  {
    BracketsInside(text);
    SliceShift(text, StripBounds(text).0, StripBounds(text).1, a, z + 1);
  }

  /** Brackets are not whitespace, so `strip()` keeps every one of them. */
  lemma BracketsInside(text: string)
    ensures Find(text, '[') != -1 ==> StripBounds(text).0 <= Find(text, '[') < StripBounds(text).1
    ensures RFind(text, ']') != -1 ==> StripBounds(text).0 <= RFind(text, ']') < StripBounds(text).1
  {
    StripBoundsSpaces(text);
    assert !IsSpace('[') && !IsSpace(']');
  }

  /** The brackets of the stripped text are those of the text, shifted by
      the leading whitespace. */
  lemma StripFinds(text: string)
    ensures StripBounds(text).0 + |Strip(text)| <= |text|
    ensures (Find(Strip(text), '[') == -1) == (Find(text, '[') == -1)
    ensures (RFind(Strip(text), ']') == -1) == (RFind(text, ']') == -1)
    ensures Find(text, '[') != -1 ==>
              StripBounds(text).0 <= Find(text, '[') && Find(Strip(text), '[') == Find(text, '[') - StripBounds(text).0
    ensures RFind(text, ']') != -1 ==>
              StripBounds(text).0 <= RFind(text, ']') < StripBounds(text).0 + |Strip(text)|
              && RFind(Strip(text), ']') == RFind(text, ']') - StripBounds(text).0
  {
    var b := StripBounds(text);
    StripBoundsSpaces(text);
    assert !IsSpace('[') && !IsSpace(']');
    FindInner(text, b.0, b.1, '[');
    FindInner(text, b.0, b.1, ']');
  }

  /** Parsing a text `u` that holds the brackets of `s` at the same places,
      shifted by `lo`, with the same text between them, parses the same. */
  lemma ParseShifted(s: string, u: string, lo: nat, a: int, z: int, decode: Decoder)
    requires a == Find(s, '[') && z == RFind(s, ']')
    requires (Find(u, '[') == -1) == (a == -1) && (RFind(u, ']') == -1) == (z == -1)
    requires a != -1 ==> Find(u, '[') == a - lo
    requires z != -1 ==> RFind(u, ']') == z - lo
    requires a != -1 && z != -1 ==> Slice(u, a - lo, z + 1 - lo) == Slice(s, a, z + 1)
    ensures ParseJsonArrayFromText(u, decode) == ParseJsonArrayFromText(s, decode)
  {
    if a != -1 && z != -1 {
      ParseAt(s, decode);
      ParseAt(u, decode);
    } else {
      ParseMissing(s, u, decode);
    }
  }

  /** With both brackets present the parse decodes the slice between them. */
  lemma ParseAt(text: string, decode: Decoder)
    requires Find(text, '[') != -1 && RFind(text, ']') != -1
    ensures ParseJsonArrayFromText(text, decode) == decode(Slice(text, Find(text, '['), RFind(text, ']') + 1))
  {
  }

  /** Two texts that each lack a bracket both fail to parse. */
  lemma ParseMissing(s: string, u: string, decode: Decoder)
    requires Find(s, '[') == -1 || RFind(s, ']') == -1
    requires Find(u, '[') == -1 || RFind(u, ']') == -1
    ensures ParseJsonArrayFromText(u, decode) == ParseJsonArrayFromText(s, decode)
  {
  }

  /** Slicing a slice is slicing the whole at shifted bounds. */
  lemma SliceShift(s: string, lo: nat, hi: nat, start: nat, end: nat)
    requires lo <= start && lo + 1 <= end <= hi <= |s|
    ensures Slice(s[lo..hi], start - lo, end - lo) == Slice(s, start, end)
  {
    if start < end {
      var u := s[lo..hi];
      assert |u[start - lo..end - lo]| == end - start;
      assert forall i :: 0 <= i < end - start ==> u[start - lo..end - lo][i] == s[start..end][i];
    }
  }

  /** Attempt `attempt` (from 0) for batch `index`: the call, `.text.strip()`
      and the parse; `None` when any of them raises. */
  function Attempt(model: Model, index: nat, attempt: nat, prompt: Prompt, decode: Decoder): Option<seq<Json>>
  {
    match model(Call(index, attempt), prompt)
    case Raised => None
    case Text(t) => ParseJsonArrayFromText(Strip(t), decode)
  }

  /** `translate_batch`: the retry loop around one prompt, falling back to
      "error" for every review of the batch. */
  function TranslateBatch(model: Model, index: nat, batch: seq<Json>, decode: Decoder): (r: Retried<seq<Json>>)
    ensures 1 <= r.attempts <= MAX_RETRIES + 1 && |r.sleeps| == r.attempts - 1
  {
    RetryLoop(a => Attempt(model, index, a, BuildPrompt(batch), decode), MAX_RETRIES, Repeat(ERROR, |batch|))
  }

  /** The batches of the normalised `review_text` column. */
  function ReviewBatches(f: Frame, render: Json -> string): (r: seq<seq<Json>>)
    requires Wf(f) && "review_text" in f.names
    ensures |r| == |Batches(f.height, BATCH_SIZE)|
  {
    Chunks(Column(Normalised(f, render), "review_text"), BATCH_SIZE)
  }

  /** The outcome of `translate_batch` for each batch, batch `i` making the
      calls `Call(i, 0)`, `Call(i, 1)`, ... */
  function BatchResults(batches: seq<seq<Json>>, model: Model, decode: Decoder): (rs: seq<Retried<seq<Json>>>)
    ensures |rs| == |batches|
  {
    seq(|batches|, i requires 0 <= i < |batches| => TranslateBatch(model, i, batches[i], decode))
  }

  function Values(rs: seq<Retried<seq<Json>>>): (r: seq<seq<Json>>)
    ensures |r| == |rs|
  {
    seq(|rs|, i requires 0 <= i < |rs| => rs[i].value)
  }

  /** `translated`: every batch's result list, extended in batch order. */
  function Translated(f: Frame, model: Model, decode: Decoder, render: Json -> string): (r: seq<Json>)
    requires Wf(f) && "review_text" in f.names
    ensures var batches := ReviewBatches(f, render);
            var rs := BatchResults(batches, model, decode);
            (forall i :: 0 <= i < |batches| ==> |rs[i].value| == |batches[i]|) ==> |r| == f.height
  {
    var batches := ReviewBatches(f, render);
    var parts := Values(BatchResults(batches, model, decode));
    assert (forall i :: 0 <= i < |batches| ==> |parts[i]| == |batches[i]|) ==> |Flatten(parts)| == f.height by {
      if forall i :: 0 <= i < |batches| ==> |parts[i]| == |batches[i]| {
        ChunksCover(Column(Normalised(f, render), "review_text"), BATCH_SIZE);
        FlattenSameLength(parts, batches);
      }
    }
    Flatten(parts)
  }

  /** The prompts sent, in call order: each batch's prompt once per attempt. */
  function SentPrompts(batches: seq<seq<Json>>, rs: seq<Retried<seq<Json>>>): seq<Prompt>
    requires |rs| == |batches|
  {
    Flatten(seq(|rs|, i requires 0 <= i < |rs| => Repeat(BuildPrompt(batches[i]), rs[i].attempts)))
  }

  /** The sleeps requested, in order: each batch's backoffs, then the pause
      between batches. */
  function Sleeps(rs: seq<Retried<seq<Json>>>): seq<nat>
  {
    Flatten(seq(|rs|, i requires 0 <= i < |rs| => rs[i].sleeps + [DELAY_BETWEEN_BATCHES]))
  }

  /** `df.insert(df.columns.get_loc("review_text") + 1, "reviews_translated", translated)`. */
  function InsertTranslations(f: Frame, model: Model, decode: Decoder, render: Json -> string): (r: Result<Frame, FrameError>)
    requires Wf(f) && "review_text" in f.names
    ensures r.Success? <==> "reviews_translated" !in f.names && |Translated(f, model, decode, render)| == f.height
    ensures "reviews_translated" in f.names ==> r == Failure(AlreadyExists)
  {
    var g := Normalised(f, render);
    Insert(g, IndexOf(g.names, "review_text") + 1, "reviews_translated", Translated(f, model, decode, render))
  }

  /** The renaming and `df[[col for col in expected_order if col in df.columns]]`. */
  function Arrange(h: Frame): (r: Frame)
    requires Rectangular(h)
    ensures Rectangular(r) && r.height == h.height
  {
    var renamed := Rename(h, RENAMES);
    Project(renamed, Present(EXPECTED_ORDER, renamed.names))
  }

  /** `main()`. */
  function Main(f: Frame, model: Model, decode: Decoder, render: Json -> string): (r: Run)
    requires Wf(f)
    ensures "review_text" !in f.names ==> r == Run(Failure(MissingColumns), [], [])
    ensures "review_text" in f.names ==>
              (r.result.Success? <==> "reviews_translated" !in f.names && |Translated(f, model, decode, render)| == f.height)
    ensures "review_text" in f.names && "reviews_translated" in f.names ==>
              r.result == Failure(ColumnError(AlreadyExists))
    ensures "review_text" in f.names && "reviews_translated" !in f.names && r.result.Failure? ==>
              r.result == Failure(ColumnError(LengthMismatch))
  {
    if "review_text" !in f.names then Run(Failure(MissingColumns), [], [])
    else
      var batches := ReviewBatches(f, render);
      var rs := BatchResults(batches, model, decode);
      var prompts := SentPrompts(batches, rs);
      var sleeps := Sleeps(rs);
      match InsertTranslations(f, model, decode, render)
      case Failure(e) => Run(Failure(ColumnError(e)), prompts, sleeps)
      case Success(h) => Run(Success(Arrange(h)), prompts, sleeps)
  }

  /** A batch whose three attempts all fail (the call raises, or the reply
      holds no parsable array) is answered by "error" for every review,
      after sleeping 5 and then 10 seconds. */
  lemma BatchFallsBack(model: Model, index: nat, batch: seq<Json>, decode: Decoder)
    requires forall a :: 0 <= a <= MAX_RETRIES ==> Attempt(model, index, a, BuildPrompt(batch), decode).None?
    ensures TranslateBatch(model, index, batch, decode) == Retried(Repeat(ERROR, |batch|), 3, [5, 10])
  {
    var outcome := (a: nat) => Attempt(model, index, a, BuildPrompt(batch), decode);
    var r := RetryLoop(outcome, MAX_RETRIES, Repeat(ERROR, |batch|));
    assert outcome(r.attempts - 1).None?;
    assert r.sleeps == [5, 10];
  }

  /** A first reply that parses is used as it is: one call, no backoff. */
  lemma FirstReplyUsed(model: Model, index: nat, batch: seq<Json>, decode: Decoder, v: seq<Json>)
    requires Attempt(model, index, 0, BuildPrompt(batch), decode) == Some(v)
    ensures TranslateBatch(model, index, batch, decode) == Retried(v, 1, [])
  {
    var outcome := (a: nat) => Attempt(model, index, a, BuildPrompt(batch), decode);
    assert outcome(0) == Some(v);
  }

  /** Reference definition of the saved columns: `book_title` when the
      input has a title column under either spelling, the review and its
      translation, then `review_date` likewise. */
  function Layout(names: seq<string>): seq<string>
  {
    (if "Book_Title" in names || "book_title" in names then ["book_title"] else [])
    + (["review_text"] + (["reviews_translated"]
    + (if "Review_Date" in names || "review_date" in names then ["review_date"] else [])))
  }

  /** The expected labels present in `names`, in the expected order. */
  lemma PresentExpected(names: seq<string>)
    ensures Present(EXPECTED_ORDER, names)
            == (if "book_title" in names then ["book_title"] else [])
               + ((if "review_text" in names then ["review_text"] else [])
               + ((if "reviews_translated" in names then ["reviews_translated"] else [])
               + (if "review_date" in names then ["review_date"] else [])))
  {
    var t, r, d := "review_text", "reviews_translated", "review_date";
    assert EXPECTED_ORDER == ["book_title"] + [t, r, d];
    assert [t, r, d] == [t] + [r, d] && [r, d] == [r] + [d] && [d] == [d] + [];
    PresentCons(d, [], names);
    PresentCons(r, [d], names);
    PresentCons(t, [r, d], names);
    PresentCons("book_title", [t, r, d], names);
  }

  /** Which expected labels the renamed frame carries. */
  lemma RenamedLabels(h: Frame)
    ensures "book_title" in Rename(h, RENAMES).names <==> "Book_Title" in h.names || "book_title" in h.names
    ensures "review_date" in Rename(h, RENAMES).names <==> "Review_Date" in h.names || "review_date" in h.names
    ensures "review_text" in Rename(h, RENAMES).names <==> "review_text" in h.names
    ensures "reviews_translated" in Rename(h, RENAMES).names <==> "reviews_translated" in h.names
  {
    RenamedOnto(h, RENAMES, "Book_Title", "book_title");
    RenamedOnto(h, RENAMES, "Review_Date", "review_date");
    RenamedKept(h, RENAMES, "review_text");
    RenamedKept(h, RENAMES, "reviews_translated");
  }

  /** The label a column carries after the renaming. */
  function Relabel(a: string): string
  {
    if a in RENAMES then RENAMES[a] else a
  }

  /** The renaming meets a label it would produce only when the input has
      both spellings of a column; then pandas would hold a duplicate label. */
  predicate NoRenameClash(names: seq<string>)
  {
    !("Book_Title" in names && "book_title" in names) && !("Review_Date" in names && "review_date" in names)
  }

  /** The renaming keeps the labels distinct when it meets no clash. */
  lemma RenamedDistinct(h: Frame)
    requires Distinct(h.names) && NoRenameClash(h.names)
    ensures Distinct(Rename(h, RENAMES).names)
  {
    assert forall a, b :: a in RENAMES && b in RENAMES && a != b ==> RENAMES[a] != RENAMES[b];
    RenameKeepsDistinct(h, RENAMES);
  }

  /** The reference layout names each label once. */
  lemma LayoutDistinct(names: seq<string>)
    ensures Distinct(Layout(names))
  {
    var b := if "Book_Title" in names || "book_title" in names then ["book_title"] else [];
    var d := if "Review_Date" in names || "review_date" in names then ["review_date"] else [];
    var keys := Layout(names);
    assert keys == b + (["review_text"] + (["reviews_translated"] + d));
    forall i, j | 0 <= i < j < |keys|
      ensures keys[i] != keys[j]
    {
      assert keys[i] in EXPECTED_ORDER && keys[j] in EXPECTED_ORDER;
    }
  }

  /** The expected labels of the renamed frame are those of `Layout`. */
  lemma PresentIsLayout(h: Frame)
    requires "review_text" in h.names && "reviews_translated" in h.names
    ensures Present(EXPECTED_ORDER, Rename(h, RENAMES).names) == Layout(h.names)
  {
    RenamedLabels(h);
    PresentExpected(Rename(h, RENAMES).names);
  }

  /** The labels of the saved frame: those of `Layout`, each once. */
  lemma ArrangeNames(h: Frame)
    requires Wf(h) && "review_text" in h.names && "reviews_translated" in h.names && NoRenameClash(h.names)
    ensures Wf(Rename(h, RENAMES))
    ensures Present(EXPECTED_ORDER, Rename(h, RENAMES).names) == Layout(h.names)
    ensures Wf(Arrange(h)) && Arrange(h).names == Layout(h.names)
    ensures forall k :: 0 <= k < |Layout(h.names)| ==> Layout(h.names)[k] in Rename(h, RENAMES).names
    ensures Distinct(Layout(h.names))
  {
    var r := Rename(h, RENAMES);
    RenamedDistinct(h);
    PresentIsLayout(h);
    var keys := Layout(h.names);
    assert forall k :: 0 <= k < |keys| ==> keys[k] in r.names;
    ProjectDistinct(r, keys);
    LayoutDistinct(h.names);
  }

  /** Every column the saved frame keeps holds the cells of the input
      column it was renamed from. */
  lemma ArrangeColumn(h: Frame, a: string)
    requires Wf(h) && "review_text" in h.names && "reviews_translated" in h.names && NoRenameClash(h.names)
    requires a in h.names && Relabel(a) in EXPECTED_ORDER
    ensures Relabel(a) in Arrange(h).names && Column(Arrange(h), Relabel(a)) == Column(h, a)
  {
    var r := Rename(h, RENAMES);
    var keys := Layout(h.names);
    ArrangeNames(h);
    RenameColumn(h, RENAMES, a);
    InLayout(h, Relabel(a));
    ProjectColumn(r, keys, Relabel(a));
  }

  /** An expected label the renamed frame carries is part of the layout. */
  lemma InLayout(h: Frame, x: string)
    requires "review_text" in h.names && "reviews_translated" in h.names
    requires x in EXPECTED_ORDER && x in Rename(h, RENAMES).names
    ensures x in Layout(h.names)
  {
    PresentIsLayout(h);
  }


  /** The frame right after the insertion: the input's labels plus
      `reviews_translated`, holding the translations, next to the
      normalised reviews. */
  lemma Inserted(f: Frame, model: Model, decode: Decoder, render: Json -> string)
    requires Wf(f) && "review_text" in f.names && InsertTranslations(f, model, decode, render).Success?
    ensures var h := InsertTranslations(f, model, decode, render).value;
            Wf(h) && "review_text" in h.names && "reviews_translated" in h.names
            && (forall x :: x in h.names <==> x in f.names || x == "reviews_translated")
            && Column(h, "reviews_translated") == Translated(f, model, decode, render)
            && Column(h, "review_text") == Column(Normalised(f, render), "review_text")
  {
    var g := Normalised(f, render);
    var loc := IndexOf(g.names, "review_text") + 1;
    var t := Translated(f, model, decode, render);
    InsertLabels(g, loc, "reviews_translated", t);
    InsertColumns(g, loc, "reviews_translated", t, "review_text");
  }

  /** A column other than `review_text` reaches the inserted frame unchanged. */
  lemma InsertedKeeps(f: Frame, model: Model, decode: Decoder, render: Json -> string, a: string)
    requires Wf(f) && "review_text" in f.names && InsertTranslations(f, model, decode, render).Success?
    requires a in f.names && a != "review_text"
    ensures a in InsertTranslations(f, model, decode, render).value.names
    ensures Column(InsertTranslations(f, model, decode, render).value, a) == Column(f, a)
  {
    var g := Normalised(f, render);
    var loc := IndexOf(g.names, "review_text") + 1;
    var t := Translated(f, model, decode, render);
    InsertColumns(g, loc, "reviews_translated", t, a);
    assert IndexOf(g.names, a) == IndexOf(f.names, a);
  }

  /** The layout depends on the labels only through which of the four
      optional ones are present. */
  lemma LayoutSameLabels(a: seq<string>, b: seq<string>)
    requires forall x :: x in a <==> x in b || x == "reviews_translated"
    ensures Layout(a) == Layout(b) && (NoRenameClash(b) ==> NoRenameClash(a))
  {
  }

  /** Arranging a frame whose labels are `names` plus `reviews_translated`
      gives the layout of `names` and keeps the two review columns. */
  lemma ArrangedFrame(h: Frame, names: seq<string>)
    requires Wf(h) && "review_text" in h.names && "reviews_translated" in h.names
    requires forall x :: x in h.names <==> x in names || x == "reviews_translated"
    requires NoRenameClash(names)
    ensures Wf(Arrange(h)) && Arrange(h).names == Layout(names)
    ensures Column(Arrange(h), "review_text") == Column(h, "review_text")
    ensures Column(Arrange(h), "reviews_translated") == Column(h, "reviews_translated")
  {
    LayoutSameLabels(h.names, names);
    ArrangeNames(h);
    ArrangeColumn(h, "review_text");
    ArrangeColumn(h, "reviews_translated");
  }

  /** Arranging the inserted frame gives the layout of the input's labels,
      with the normalised reviews and their translations. */
  lemma ArrangedInserted(f: Frame, model: Model, decode: Decoder, render: Json -> string)
    requires Wf(f) && "review_text" in f.names && InsertTranslations(f, model, decode, render).Success?
    requires NoRenameClash(f.names)
    ensures var out := Arrange(InsertTranslations(f, model, decode, render).value);
            Wf(out) && out.names == Layout(f.names)
            && Column(out, "review_text") == Column(Normalised(f, render), "review_text")
            && Column(out, "reviews_translated") == Translated(f, model, decode, render)
  {
    Inserted(f, model, decode, render);
    ArrangedFrame(InsertTranslations(f, model, decode, render).value, f.names);
  }

  /** A successful run saves the layout's columns: the normalised reviews
      and their translations right after them. */
  lemma MainOutput(f: Frame, model: Model, decode: Decoder, render: Json -> string)
    requires Wf(f) && "review_text" in f.names && "reviews_translated" !in f.names
    requires |Translated(f, model, decode, render)| == f.height && NoRenameClash(f.names)
    ensures Main(f, model, decode, render).result.Success?
    ensures var out := Main(f, model, decode, render).result.value;
            Wf(out) && out.names == Layout(f.names)
            && Column(out, "review_text") == Column(Normalised(f, render), "review_text")
            && Column(out, "reviews_translated") == Translated(f, model, decode, render)
  {
    ArrangedInserted(f, model, decode, render);
    MainArranges(f, model, decode, render);
  }

  /** A title or date column of the input reaches the saved frame under its
      lower-case label, with its cells unchanged. */
  lemma MainKeeps(f: Frame, model: Model, decode: Decoder, render: Json -> string, a: string)
    requires Wf(f) && "review_text" in f.names && "reviews_translated" !in f.names
    requires |Translated(f, model, decode, render)| == f.height && NoRenameClash(f.names)
    requires a in f.names && a in ["Book_Title", "book_title", "Review_Date", "review_date"]
    ensures Main(f, model, decode, render).result.Success?
    ensures var out := Main(f, model, decode, render).result.value;
            Relabel(a) in out.names && Column(out, Relabel(a)) == Column(f, a)
  {
    var h := InsertTranslations(f, model, decode, render).value;
    Inserted(f, model, decode, render);
    InsertedKeeps(f, model, decode, render, a);
    ArrangedKeeps(h, f.names, a);
    MainArranges(f, model, decode, render);
  }

  /** A successful run saves the arrangement of the inserted frame. */
  lemma MainArranges(f: Frame, model: Model, decode: Decoder, render: Json -> string)
    requires Wf(f) && "review_text" in f.names && InsertTranslations(f, model, decode, render).Success?
    ensures Main(f, model, decode, render).result == Success(Arrange(InsertTranslations(f, model, decode, render).value))
  {
  }

  /** With both spellings of the title column, the renaming produces the
      label `book_title` twice and the selection keeps both columns under
      it, so the frame starts with two `book_title` columns. */
  lemma TitleClash(h: Frame)
    requires Rectangular(h) && "Book_Title" in h.names && "book_title" in h.names
    ensures !Distinct(Rename(h, RENAMES).names)
    ensures |Arrange(h).names| >= 2 && Arrange(h).names[0] == "book_title" && Arrange(h).names[1] == "book_title"
  {
    var r := Rename(h, RENAMES);
    TitleTwice(h);
    PresentExpected(r.names);
    ProjectRepeated(r, Present(EXPECTED_ORDER, r.names));
  }

  /** Both spellings of the title become `book_title`: two columns match it. */
  lemma TitleTwice(h: Frame)
    requires "Book_Title" in h.names && "book_title" in h.names
    ensures "book_title" in Rename(h, RENAMES).names
    ensures !Distinct(Rename(h, RENAMES).names)
    ensures |Matching(Rename(h, RENAMES).names, "book_title")| >= 2
  {
    assert "book_title" !in RENAMES && RENAMES["Book_Title"] == "book_title";
    RenameMerges(h, RENAMES, "Book_Title", "book_title");
  }

  /** The two spellings of the title label, in the order their columns
      appear. */
  function TitleOrder(names: seq<string>): seq<string>
    requires "Book_Title" in names && "book_title" in names
  {
    if IndexOf(names, "Book_Title") < IndexOf(names, "book_title") then ["Book_Title", "book_title"]
    else ["book_title", "Book_Title"]
  }

  /** With distinct labels and both title spellings, the two `book_title`
      columns of the arranged frame are the two title columns of the
      input, in their input order. */
  lemma TitleClashColumns(h: Frame)
    requires Wf(h) && "Book_Title" in h.names && "book_title" in h.names
    ensures |Arrange(h).cols| >= 2
    ensures Arrange(h).cols[0] == Column(h, TitleOrder(h.names)[0])
    ensures Arrange(h).cols[1] == Column(h, TitleOrder(h.names)[1])
  {
    var r := Rename(h, RENAMES);
    assert "book_title" !in RENAMES && RENAMES["Book_Title"] == "book_title";
    assert forall x :: x in RENAMES && x != "Book_Title" ==> RENAMES[x] != "book_title";
    RenameMergesPair(h, RENAMES, "Book_Title", "book_title");
    PresentExpected(r.names);
    ProjectRepeated(r, Present(EXPECTED_ORDER, r.names));
  }

  /** A run on an input holding both `Book_Title` and `book_title` saves a
      frame whose first two columns are both labelled `book_title` and
      hold the two title columns of the input, in their input order. */
  lemma MainTitleClash(f: Frame, model: Model, decode: Decoder, render: Json -> string)
    requires Wf(f) && "review_text" in f.names && "reviews_translated" !in f.names
    requires |Translated(f, model, decode, render)| == f.height
    requires "Book_Title" in f.names && "book_title" in f.names
    ensures Main(f, model, decode, render).result.Success?
    ensures var out := Main(f, model, decode, render).result.value;
            |out.names| >= 2 && out.names[0] == "book_title" && out.names[1] == "book_title"
            && out.cols[0] == Column(f, TitleOrder(f.names)[0])
            && out.cols[1] == Column(f, TitleOrder(f.names)[1])
  {
    var h := InsertTranslations(f, model, decode, render).value;
    Inserted(f, model, decode, render);
    TitleClash(h);
    TitleKept(f, model, decode, render);
    InsertedKeeps(f, model, decode, render, "Book_Title");
    InsertedKeeps(f, model, decode, render, "book_title");
    TitleClashColumns(h);
    MainArranges(f, model, decode, render);
  }

  /** The inserted frame keeps the two title columns in their order. */
  lemma TitleKept(f: Frame, model: Model, decode: Decoder, render: Json -> string)
    requires Wf(f) && "review_text" in f.names && InsertTranslations(f, model, decode, render).Success?
    requires "Book_Title" in f.names && "book_title" in f.names
    ensures var h := InsertTranslations(f, model, decode, render).value;
            "Book_Title" in h.names && "book_title" in h.names
            && TitleOrder(h.names) == TitleOrder(f.names)
  {
    var g := Normalised(f, render);
    var loc := IndexOf(g.names, "review_text") + 1;
    InsertOrder(g, loc, "reviews_translated", Translated(f, model, decode, render), "Book_Title", "book_title");
  }

  /** `ArrangedFrame` for a title or date column. */
  lemma ArrangedKeeps(h: Frame, names: seq<string>, a: string)
    requires Wf(h) && "review_text" in h.names && "reviews_translated" in h.names
    requires forall x :: x in h.names <==> x in names || x == "reviews_translated"
    requires NoRenameClash(names)
    requires a in h.names && a in ["Book_Title", "book_title", "Review_Date", "review_date"]
    ensures Relabel(a) in Arrange(h).names && Column(Arrange(h), Relabel(a)) == Column(h, a)
  {
    LayoutSameLabels(h.names, names);
    ArrangeColumn(h, a);
  }

  /** When every batch is answered with one translation per review, row
      `r` gets translation `r % 8` of batch `r / 8`, and that batch holds
      the normalised review of row `r` at that position. */
  lemma TranslationsAligned(f: Frame, model: Model, decode: Decoder, render: Json -> string, r: nat)
    requires Wf(f) && "review_text" in f.names && r < f.height
    requires var batches := ReviewBatches(f, render);
             var parts := Values(BatchResults(batches, model, decode));
             forall i :: 0 <= i < |batches| ==> |parts[i]| == |batches[i]|
    ensures var batches := ReviewBatches(f, render);
            var parts := Values(BatchResults(batches, model, decode));
            && |Translated(f, model, decode, render)| == f.height
            && r / BATCH_SIZE < |batches| && r % BATCH_SIZE < |batches[r / BATCH_SIZE]|
            && batches[r / BATCH_SIZE][r % BATCH_SIZE] == Normalise(Column(f, "review_text")[r], render)
            && Translated(f, model, decode, render)[r] == parts[r / BATCH_SIZE][r % BATCH_SIZE]
  {
    var g := Normalised(f, render);
    var batches := ReviewBatches(f, render);
    var parts := Values(BatchResults(batches, model, decode));
    ChunkRow(Column(g, "review_text"), BATCH_SIZE, r);
    AlignedRow(parts, Column(g, "review_text"), BATCH_SIZE, r);
  }

  /** The assignment checks only the total number of translations. With
      16 rows in two batches of 8, a first batch answered with 9
      translations and a second with 7 still save: row 8, the first
      review of the second batch, gets the first batch's ninth
      translation, and every later row gets the translation of the row
      before it. */
  lemma CompensatingBatchesSave(f: Frame, model: Model, decode: Decoder, render: Json -> string)
    requires Wf(f) && "review_text" in f.names && "reviews_translated" !in f.names && f.height == 16
    requires var rs := BatchResults(ReviewBatches(f, render), model, decode);
             |rs| == 2 && |rs[0].value| == 9 && |rs[1].value| == 7
    ensures Main(f, model, decode, render).result.Success?
    ensures var batches := ReviewBatches(f, render);
            var rs := BatchResults(batches, model, decode);
            var t := Translated(f, model, decode, render);
            && |t| == 16 && |batches| == 2 && |batches[1]| == 8
            && batches[1][0] == Column(Normalised(f, render), "review_text")[8]
            && t == rs[0].value + rs[1].value && t[8] == rs[0].value[8] && t[9..] == rs[1].value
  {
    TwoBatches(f, model, decode, render);
    SixteenRows(f, render);
  }

  /** Two batches: the translations are the two answers concatenated. */
  lemma TwoBatches(f: Frame, model: Model, decode: Decoder, render: Json -> string)
    requires Wf(f) && "review_text" in f.names
    requires |BatchResults(ReviewBatches(f, render), model, decode)| == 2
    ensures var rs := BatchResults(ReviewBatches(f, render), model, decode);
            Translated(f, model, decode, render) == rs[0].value + rs[1].value
  {
    var rs := BatchResults(ReviewBatches(f, render), model, decode);
    ValuesPair(rs);
    FlattenPair(Values(rs), rs[0].value, rs[1].value);
  }

  lemma ValuesPair(rs: seq<Retried<seq<Json>>>)
    requires |rs| == 2
    ensures Values(rs) == [rs[0].value, rs[1].value]
  {
  }

  /** Sixteen rows make two batches of 8; row 8 opens the second. */
  lemma SixteenRows(f: Frame, render: Json -> string)
    requires Wf(f) && "review_text" in f.names && f.height == 16
    ensures var batches := ReviewBatches(f, render);
            |batches| == 2 && |batches[1]| == 8
            && batches[1][0] == Column(Normalised(f, render), "review_text")[8]
  {
    ChunkRow(Column(Normalised(f, render), "review_text"), BATCH_SIZE, 8);
    ChunkRow(Column(Normalised(f, render), "review_text"), BATCH_SIZE, 15);
  }

  /** Every batch costs between one and three calls; each call but a
      batch's last is followed by its backoff and the last by the pause
      between batches, so there are as many sleeps as calls. */
  lemma CallsPerBatch(f: Frame, model: Model, decode: Decoder, render: Json -> string)
    requires Wf(f) && "review_text" in f.names
    ensures var n := |ReviewBatches(f, render)|;
            var run := Main(f, model, decode, render);
            n <= |run.prompts| <= 3 * n && |run.sleeps| == |run.prompts|
  {
    var batches := ReviewBatches(f, render);
    var rs := BatchResults(batches, model, decode);
    var ps := seq(|rs|, i requires 0 <= i < |rs| => Repeat(BuildPrompt(batches[i]), rs[i].attempts));
    var ss := seq(|rs|, i requires 0 <= i < |rs| => rs[i].sleeps + [DELAY_BETWEEN_BATCHES]);
    FlattenBetween(ps, 1, 3);
    FlattenSameLength(ss, ps);
    var run := Main(f, model, decode, render);
    assert run.prompts == Flatten(ps) && run.sleeps == Flatten(ss);
  }

  /** When every call raises, every batch falls back after three calls. */
  lemma RaisingBatches(batches: seq<seq<Json>>, model: Model, decode: Decoder)
    requires forall call, p :: model(call, p) == Raised
    ensures forall i :: 0 <= i < |batches| ==>
              BatchResults(batches, model, decode)[i] == Retried(Repeat(ERROR, |batches[i]|), 3, [5, 10])
  {
    forall i | 0 <= i < |batches|
      ensures BatchResults(batches, model, decode)[i] == Retried(Repeat(ERROR, |batches[i]|), 3, [5, 10])
    {
      forall a | 0 <= a <= MAX_RETRIES
        ensures Attempt(model, i, a, BuildPrompt(batches[i]), decode).None?
      {
        assert model(Call(i, a), BuildPrompt(batches[i])) == Raised;
      }
      BatchFallsBack(model, i, batches[i], decode);
    }
  }

  /** When every call raises, every review is translated as "error". */
  lemma RaisingTranslations(f: Frame, model: Model, decode: Decoder, render: Json -> string)
    requires Wf(f) && "review_text" in f.names
    requires forall call, p :: model(call, p) == Raised
    ensures Translated(f, model, decode, render) == Repeat(ERROR, f.height)
  {
    var batches := ReviewBatches(f, render);
    var parts := Values(BatchResults(batches, model, decode));
    RaisingBatches(batches, model, decode);
    ChunksCover(Column(Normalised(f, render), "review_text"), BATCH_SIZE);
    FlattenSameLength(parts, batches);
    FlattenConstant(parts, ERROR);
  }

  /** The calls and sleeps of a run are those of its batches, whatever
      becomes of the translations. */
  lemma MainCalls(f: Frame, model: Model, decode: Decoder, render: Json -> string)
    requires Wf(f) && "review_text" in f.names
    ensures var batches := ReviewBatches(f, render);
            var rs := BatchResults(batches, model, decode);
            Main(f, model, decode, render).prompts == SentPrompts(batches, rs)
            && Main(f, model, decode, render).sleeps == Sleeps(rs)
  {
  }

  /** Batches that each made three calls and slept 5 and 10 seconds
      account for three prompts and the sleeps 5, 10 and the pause each. */
  lemma ThreeCallsEach(batches: seq<seq<Json>>, rs: seq<Retried<seq<Json>>>)
    requires |rs| == |batches|
    requires forall i :: 0 <= i < |rs| ==> rs[i].attempts == 3 && rs[i].sleeps == [5, 10]
    ensures |SentPrompts(batches, rs)| == 3 * |batches|
    ensures Sleeps(rs) == Flatten(Repeat([5, 10, DELAY_BETWEEN_BATCHES], |batches|))
  {
    var ps := seq(|rs|, i requires 0 <= i < |rs| => Repeat(BuildPrompt(batches[i]), rs[i].attempts));
    var ss := seq(|rs|, i requires 0 <= i < |rs| => rs[i].sleeps + [DELAY_BETWEEN_BATCHES]);
    FlattenBetween(ps, 3, 3);
    forall i | 0 <= i < |ss|
      ensures ss[i] == [5, 10, DELAY_BETWEEN_BATCHES]
    {
      assert ss[i] == [5, 10] + [DELAY_BETWEEN_BATCHES];
    }
    assert ss == Repeat([5, 10, DELAY_BETWEEN_BATCHES], |batches|);
  }

  /** When every call raises, every batch makes three calls with sleeps of
      5 and 10 seconds and then the pause, and the run saves "error" as the
      translation of every review. */
  lemma AllCallsRaise(f: Frame, model: Model, decode: Decoder, render: Json -> string)
    requires Wf(f) && "review_text" in f.names && "reviews_translated" !in f.names
    requires forall call, p :: model(call, p) == Raised
    ensures Translated(f, model, decode, render) == Repeat(ERROR, f.height)
    ensures Main(f, model, decode, render).result.Success?
    ensures |Main(f, model, decode, render).prompts| == 3 * |ReviewBatches(f, render)|
    ensures Main(f, model, decode, render).sleeps
            == Flatten(Repeat([5, 10, DELAY_BETWEEN_BATCHES], |ReviewBatches(f, render)|))
  {
    var batches := ReviewBatches(f, render);
    var rs := BatchResults(batches, model, decode);
    RaisingTranslations(f, model, decode, render);
    RaisingBatches(batches, model, decode);
    ThreeCallsEach(batches, rs);
    MainCalls(f, model, decode, render);
  }
}

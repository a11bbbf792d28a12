/**
  How the parsers of the two retrying scripts relate: the translation
  stage strips the reply and guards against a missing bracket, the scoring
  stage does neither.
 */
module Differences {
  import opened Outcomes
  import opened Json
  import opened PyText
  import opened Brackets
  import TranslatedReview
  import ScoreAndReason

  /** With a decoder that rejects the empty text and a lone `]`, the
      stripping and the guard change nothing: both parsers decode the same
      bracket slice of the reply or both fail. */
  lemma ParsersAgree(text: string, decode: Decoder)
    requires RejectsDegenerate(decode)
    ensures TranslatedReview.ParseJsonArrayFromText(Strip(text), decode)
            == ScoreAndReason.ParseJsonResponse(text, decode)
  {
    TranslatedReview.StripDoesNotMatter(text, decode);
    TranslatedReview.ParseDecodesBracketSlice(text, decode);
  }

  /** The guard is what separates them on a reply that is a lone `]`: the
      scoring parser hands it to the decoder (Python reads the start -1 as
      the last character), the translation parser fails before decoding. */
  lemma LoneClosingBracket(decode: Decoder)
    ensures ScoreAndReason.ParseJsonResponse("]", decode) == decode("]")
    ensures TranslatedReview.ParseJsonArrayFromText(Strip("]"), decode).None?
  {
    NoOpeningBracket("]");
    StripLoneBracket();
    assert '[' !in "]";
  }

  /** A lone `]` has no whitespace to strip. */
  lemma StripLoneBracket()
    ensures Strip("]") == "]"
  {
    assert !IsSpace("]"[0]);
    assert Strip("]") != [];
  }
}

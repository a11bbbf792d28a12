/**
  The bracket slice all three scripts decode: the text from the first `[`
  to the last `]`, both included, computed as
  `text[text.find("[") : text.rfind("]") + 1]`.
 */
module Brackets {
  import opened PyText

  /** The text holds a `[` that comes before its last `]`. */
  predicate HasBracketPair(text: string)
  {
    '[' in text && ']' in text && Find(text, '[') < RFind(text, ']')
  }

  /** Python's slice from `find("[")` to `rfind("]") + 1`, including the
      negative start `-1` when there is no `[`. */
  function BracketSlice(text: string): (r: string)
    ensures HasBracketPair(text) ==>
              r == text[Find(text, '[')..RFind(text, ']') + 1]
              && |r| >= 2 && r[0] == '[' && r[|r| - 1] == ']'
    ensures !HasBracketPair(text) <==> r == "" || r == "]"
  {
    var start := Find(text, '[');
    var end := RFind(text, ']') + 1;
    if start == -1 then
      SliceFromMinusOne(text, end);
      Slice(text, start, end)
    else
      Slice(text, start, end)
  }

  /** Without a `[` the slice is the last character when that is `]`, and
      empty otherwise: the lone `]` comes from Python reading the start -1
      as "the last character". */
  lemma NoOpeningBracket(text: string)
    requires '[' !in text
    ensures |text| > 0 && text[|text| - 1] == ']' ==> BracketSlice(text) == "]"
    ensures !(|text| > 0 && text[|text| - 1] == ']') ==> BracketSlice(text) == ""
  {
    SliceFromMinusOne(text, RFind(text, ']') + 1);
    if |text| > 0 && text[|text| - 1] == ']' {
      RFindUnique(text, ']', |text| - 1);
    }
  }

  /** Prose before an array literal does not change the slice, as long as
      the prose holds no `[`. */
  lemma ProseBeforeArray(prose: string, literal: string)
    requires '[' !in prose
    requires |literal| >= 2 && literal[0] == '[' && literal[|literal| - 1] == ']'
    ensures BracketSlice(prose + literal) == literal
  {
    var text := prose + literal;
    assert text[..|prose|] == prose;
    FindUnique(text, '[', |prose|);
    RFindUnique(text, ']', |text| - 1);
    assert text[|prose|..|text|] == literal;
  }
}

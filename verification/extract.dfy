/**
 * `extractGradeKanji`: cut the text of one grade's array declaration out of
 * the cleaned source, then hand it to a decoder. Finding the declaration is a
 * regular-expression search and decoding is dynamic evaluation of the text;
 * both arrive here as inputs (the match, if any, and the `decode` function).
 */
module Extract {
  import opened Outcomes
  import opened Scanner
  import opened Records

  /** Where `const <grade>Kanji = [` matched: its start and its length. */
  datatype DeclMatch = DeclMatch(index: nat, length: nat)

  datatype ExtractError =
    | NotFound     // no declaration for the grade
    | Unbalanced   // the text ends before the array's closing bracket

  /** A match lies inside the text, so the scan starts at most at its end. */
  predicate ValidMatch(text: string, m: DeclMatch) {
    m.index + m.length <= |text|
  }

  /**
   * The span from the start of the declaration through the closing bracket
   * that brings the depth back to 0.
   */
  function ExtractSpan(text: string, found: Option<DeclMatch>): (r: Result<string, ExtractError>)
    requires found.Some? ==> ValidMatch(text, found.value)
    ensures r == Failure(NotFound) <==> found.None?
    ensures r == Failure(Unbalanced) <==> found.Some? && NeverZero(text, found.value.index + found.value.length)
    ensures r.Success? ==> found.Some? && |r.value| > found.value.length
    ensures r.Success? ==>
      var m := found.value;
      && FirstZero(text, m.index + m.length, m.index + |r.value|)
      && r.value == text[m.index .. m.index + |r.value|]
      && r.value[|r.value| - 1] == ']'
  {
    if found.None? then Failure(NotFound)
    else
      var m := found.value;
      var startIndex := m.index + m.length;
      var endIndex := FindClosingBracket(text, startIndex);
      if endIndex.None? then Failure(Unbalanced)
      else Success(text[m.index .. endIndex.value])
  }

  /**
   * The grade's records: whatever the decoder makes of the span, and the empty
   * list when the declaration is missing, unbalanced or fails to decode.
   */
  function ExtractGradeKanji(
    text: string, gradeName: string, found: Option<DeclMatch>,
    decode: (string, string) -> Option<seq<KanjiRecord>>): (r: seq<KanjiRecord>)
    requires found.Some? ==> ValidMatch(text, found.value)
    ensures ExtractSpan(text, found).Failure? ==> r == []
    ensures r != [] ==>
      ExtractSpan(text, found).Success? && decode(ExtractSpan(text, found).value, gradeName) == Some(r)
    ensures ExtractSpan(text, found).Success? && decode(ExtractSpan(text, found).value, gradeName).Some? ==>
      r == decode(ExtractSpan(text, found).value, gradeName).value
  {
    match ExtractSpan(text, found)
    case Failure(_) => []
    case Success(span) =>
      match decode(span, gradeName)
      case None => []
      case Some(list) => list
  }
}

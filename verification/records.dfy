/** The decoded kanji entries handed from the extractor to the serializer. */
module Records {
  import opened Outcomes

  /** One usage example of a kanji. */
  datatype ExampleRecord = ExampleRecord(word: string, reading: string, meaning: string)

  /**
   * One kanji entry. `jlptLevel` and `frequency` may be missing; the stroke
   * count and frequency are whole numbers, rendered in decimal.
   */
  datatype KanjiRecord = KanjiRecord(
    character: string,
    meanings: seq<string>,
    onyomi: seq<string>,
    kunyomi: seq<string>,
    examples: seq<ExampleRecord>,
    strokeCount: nat,
    jlptLevel: Option<string>,
    frequency: Option<nat>)

  /** JavaScript truthiness of `kanji.jlptLevel`: present and not the empty string. */
  predicate JlptTruthy(k: KanjiRecord) {
    k.jlptLevel.Some? && k.jlptLevel.value != ""
  }

  /** JavaScript truthiness of `kanji.frequency`: present and not 0. */
  predicate FrequencyTruthy(k: KanjiRecord) {
    k.frequency.Some? && k.frequency.value != 0
  }
}

# Kanji extractor: a Dafny model

The script `scripts/extract_kanji.js` converts a TypeScript data file of kanji
(seven arrays, `const grade1Kanji = [...]` through `const juniorHighKanji = [...]`)
into seven Dart source files. It also reports how many kanji each grade yielded
against a fixed table of expected counts. This project models the core of that
script and proves properties of the model:

- **the bracket scanner** (`scanner.dfy`). Starting just after the `[` of a
  declaration, it counts `[` and `]` while skipping quoted strings and escaped
  characters, and stops at the first position where the depth returns to 0.
  The loop (`Scan`) is proved against a reference fold over the text (`StateAt`).
  It stops at the first zero of the depth, and it fails exactly when the text
  ends with brackets still open.
- **span extraction** (`extract.dfy`). It cuts the declaration out of the text
  (`ExtractSpan`) and hands the span to a decoder (`ExtractGradeKanji`). A
  missing declaration, an unbalanced array or a decoding failure all yield an
  empty list.
- **`escapeDart`** (`escape.dfy`). The five global replaces are modelled in
  source order. They are proved equal to a per-character escape table. They are
  also proved to round-trip through a reader of Dart single-quoted string
  literals, for strings without `$`.
- **`convertToDart`** (`serializer.dfy`, `text.dfy`):
  - the file header and the variable name;
  - the field list of each record, in fixed order;
  - the truthiness gates on `jlptLevel` and `frequency`;
  - the JLPT lookup table;
  - the decimal rendering of numbers;
  - the comma after every record block but the last.

  The `+=` loop that builds the file (`AppendBlocks`) is proved to produce the
  declarative file text (`DartFile`).
- **the driver** (`grades.dfy`):
  - the seven-row grade table, whose expected counts sum to 2140;
  - the per-grade loop, which extracts, counts and converts each grade, in table order;
  - the summary, with a per-grade match flag and the COMPLETE/INCOMPLETE verdict on the total.

Finding the declaration with a regular expression and evaluating the span with
`eval` are not modelled as computations. They arrive as inputs: an
`Option<DeclMatch>` (where the match starts and how long it is) and a function
`decode(span, gradeName)`.

Two facts about the code are worth stating on their own:

- **The variable name.** The `juniorHigh` branch of line 110 yields the same
  string as the general `<tag>Kanji` rule (`VarName`).
- **The summary.** The per-grade flags compare each count with its expected
  one, but the overall verdict compares only the total with 2140. A grade one
  over and another one under are both flagged, yet the verdict still reads
  COMPLETE (`CompensatingCountsLookComplete`).

## Model

| member | source | states |
|---|---|---|
| Scanner.Step | scripts/extract_kanji.js:47-70 | The loop body on one character. The character after a backslash is skipped and clears the pending escape. A backslash sets it. Inside a string only the opening quote does anything, and it closes the string. Outside a string a `'` or `"` opens one, `[` and `]` move the depth by one, and every other character changes nothing. A coherent state (`inString` exactly when `stringChar` holds a quote) stays coherent. |
| Scanner.StateAtCoherent | scripts/extract_kanji.js:38-72 | Every state the loop reaches has `inString` set exactly when `stringChar` holds a quote character. |
| Scanner.DepthNeverNegative | scripts/extract_kanji.js:44-70 | While every earlier depth was positive, the depth cannot be below 0, because it moves by at most one per character. |
| Scanner.Scan | scripts/extract_kanji.js:44-73 | The while loop stops at the first position where the depth is 0, or reports that the depth stays positive up to the end of the text. |
| Scanner.FindClosingBracket | scripts/extract_kanji.js:38-78 | The end index is one past the `]` that first brings the depth to 0, so no earlier position has depth 0. The result is absent exactly when the depth never returns to 0 before the text ends. |
| Scanner.FirstZeroUnique | scripts/extract_kanji.js:44 | The stopping position of the loop is unique. |
| Scanner.ScanUnaffectedByInertEdit | scripts/extract_kanji.js:44-73 | Changing one character so that the state after it is unchanged leaves the end of the span where it was. |
| Scanner.StringContentIgnored | scripts/extract_kanji.js:59-70 | Inside a string, brackets and the other kind of quote can be swapped for any other character except a backslash or the opening quote, without moving the end of the span. |
| Scanner.EscapedCharIgnored | scripts/extract_kanji.js:47-51 | The character after a backslash never influences where the span ends. |
| Scanner.ScanIgnoresTextAfterEnd | scripts/extract_kanji.js:44 | Text appended after the closing bracket does not change the result, because the loop never reads past it. |
| Extract.ExtractSpan | scripts/extract_kanji.js:29-81 | The error cases: not found exactly when the declaration is missing, unbalanced exactly when the depth never returns to 0. On success the span is the slice of the text from the match start through the matching `]`, and it is longer than the matched prefix. |
| Extract.ExtractGradeKanji | scripts/extract_kanji.js:16-95 | The records are empty when the span cannot be cut. A non-empty result is exactly what the decoder returned for the span. When decoding succeeds, its result is returned unchanged. |
| DartEscape.ReplaceAll | scripts/extract_kanji.js:102-106 | A global replace leaves a string without the character unchanged, and when the replacement does not contain the character, none is left in the result. |
| DartEscape.ReplaceAllAddsOnlyReplacement | scripts/extract_kanji.js:102-106 | A global replace introduces no character other than those of the replacement: a character in neither the text nor the replacement is not in the result. |
| DartEscape.ReplaceAllConcat | scripts/extract_kanji.js:102-106 | A global replace of one character distributes over concatenation. |
| DartEscape.EscapeChar | scripts/extract_kanji.js:102-106 | Each of the five special characters becomes a two-character escape starting with a backslash, and every other character is kept as it is. |
| DartEscape.EscapeMap | scripts/extract_kanji.js:100-107 | The escaped text is at least as long as the input and contains no raw line feed, carriage return or tab. |
| DartEscape.EscapeDart | scripts/extract_kanji.js:100-107 | The five replaces in source order leave no raw line feed, carriage return or tab, and leave a string with none of the five special characters unchanged. |
| DartEscape.EscapeDartConcat | scripts/extract_kanji.js:100-107 | Escaping distributes over concatenation. |
| DartEscape.EscapeDartOneChar | scripts/extract_kanji.js:102-106 | On a single character the five passes give exactly the table entry. The backslash pass comes first, so no later pass rewrites what an earlier one inserted. |
| DartEscape.EscapeDartIsPerCharMap | scripts/extract_kanji.js:100-107 | The chain of five replaces equals escaping each character on its own. |
| DartEscape.EscapeIdentityOnPlain | scripts/extract_kanji.js:100-107 | A string with none of the five special characters is emitted unchanged. |
| DartEscape.EscapeNoRawControl | scripts/extract_kanji.js:104-106 | The emitted literal body never contains a raw line feed, carriage return or tab. |
| DartEscape.DartUnescapeEscapeChar | scripts/extract_kanji.js:102-106 | Dart reads each escape of the table back as the character it came from. |
| DartEscape.EscapeMapRoundTrip | scripts/extract_kanji.js:100-107 | Reading the per-character escape of a string without `$` as a Dart literal body gives back the string. |
| DartEscape.EscapeRoundTrip | scripts/extract_kanji.js:100-117 | Reading `escapeDart(s)` as the body of a Dart single-quoted literal gives back `s`, for every `s` without `$`. |
| DartEscape.DollarBreaksRoundTrip | scripts/extract_kanji.js:100-107 | `$` passes through unescaped, and Dart does not read a lone `$` back as a plain character. |
| Text.JoinCons | scripts/extract_kanji.js:118-120 | Reading a join from the front: the first part, one separator, then the join of the rest. |
| Text.JoinEnds | scripts/extract_kanji.js:118-120 | A join of at least one part starts with the first part and ends with the last, with no separator before or after. |
| Text.ConcatEnds | scripts/extract_kanji.js:121-125 | Text appended piece by piece starts with the first piece and ends with the last one. |
| Text.NatToString | scripts/extract_kanji.js:127-133 | The decimal text of a number is non-empty and all digits, has no leading zero, and has one digit exactly for numbers below 10. |
| Text.DecimalRoundTrip | scripts/extract_kanji.js:127-133 | Reading the decimal text back yields the number. |
| DartSerializer.VarName | scripts/extract_kanji.js:110 | The variable name is `<tag>Kanji` for every tag. The `juniorHigh` special case agrees with the general rule. |
| DartSerializer.HeaderLayout | scripts/extract_kanji.js:112-113 | The header is the three import lines and a blank line, then `const List<KanjiCharacter> `, the variable name, and ` = [` with a line break. |
| DartSerializer.HeaderDeterminesName | scripts/extract_kanji.js:112-113 | Two headers are equal only when they declare the same variable name. |
| DartSerializer.QuoteReadsBack | scripts/extract_kanji.js:117-123 | A value is written between two `'`, and Dart reads the text between them back as the original value whenever it holds no `$`. |
| DartSerializer.StringListLayout | scripts/extract_kanji.js:118-120 | A string list is bracketed: `[]` for no values, and otherwise the first quoted value follows `[` directly and the last is followed by `]` alone, so `, ` only separates neighbours. |
| DartSerializer.ExampleLines | scripts/extract_kanji.js:122-124 | One line per example, in order: line `i` is the line of example `i`. |
| DartSerializer.ExamplesValueLayout | scripts/extract_kanji.js:121-125 | The examples value opens `[` on its own line and closes with an indented `]`. It is `[` and `]` alone for no examples. Otherwise the first example line follows `[` directly and the last one still ends with `),`. |
| DartSerializer.RenderFieldLayout | scripts/extract_kanji.js:117-133 | A field line is four spaces, the argument name, `: `, the value and `,`. A value without line breaks keeps the field on one line. |
| DartSerializer.ExampleLineLayout | scripts/extract_kanji.js:122-124 | Each example takes exactly one line: no line break before its end, and it ends with `),`, the last example included. |
| DartSerializer.JlptMapKeys | scripts/extract_kanji.js:129 | The lookup table has exactly the keys N1 to N5, and each maps to `JlptLevel.n` followed by its digit. |
| DartSerializer.JlptLiteral | scripts/extract_kanji.js:129-130 | A code N1 to N5 maps to `JlptLevel.n1` to `JlptLevel.n5` by its digit, and any other value maps to `null`. |
| DartSerializer.FixedFields | scripts/extract_kanji.js:117-127 | The seven fixed fields appear in order (character, meanings, onyomi, kunyomi, examples, grade, strokeCount). The character is a quoted escaped literal. Meanings, onyomi and kunyomi are each the bracketed list of their quoted literals, and examples is the list of example lines. The grade is `KanjiGrade.<tag>` and the stroke count is in decimal. |
| DartSerializer.OptionalFields | scripts/extract_kanji.js:128-134 | `jlptLevel` and then `frequency`, each present only when truthy, holding the looked-up literal and the decimal rank. |
| DartSerializer.NamesConcat | scripts/extract_kanji.js:116-134 | The field names of two consecutive field groups are the names of the first followed by those of the second. |
| DartSerializer.Fields | scripts/extract_kanji.js:116-134 | A record's fields are exactly the seven fixed ones in source order, then the truthy optional ones, with the values that the character, grade, stroke count, JLPT level and frequency lines carry. |
| DartSerializer.OptionalFieldGating | scripts/extract_kanji.js:128-134 | `jlptLevel` is emitted exactly when the level is present and non-empty. `frequency` is emitted exactly when it is present and non-zero, so a rank of 0 is dropped like a missing one. |
| DartSerializer.NumericFieldsReadBack | scripts/extract_kanji.js:127-133 | The emitted stroke count and frequency read back as the record's numbers. |
| DartSerializer.IchiFields | scripts/extract_kanji.js:116-134 | For the record 一 with stroke count 1, level N5 and rank 1 in grade 1, whatever its other fields, the block has nine fields. Among them are `character: '一'`, `grade: KanjiGrade.grade1`, `strokeCount: 1`, `jlptLevel: JlptLevel.n5` and `frequency: 1`. |
| DartSerializer.BlockLayout | scripts/extract_kanji.js:116-135 | A record block opens with `KanjiCharacter(` on its own line and closes with `  )`. The comma between blocks is not part of the block. |
| DartSerializer.Blocks | scripts/extract_kanji.js:115-136 | One block per record, in input order: block `i` is the block of record `i`. |
| DartSerializer.RecordSectionCons | scripts/extract_kanji.js:115-136 | Read from the front, the record section is each block followed by a comma and a line break, except the last, which gets a line break only. |
| DartSerializer.PartialStep | scripts/extract_kanji.js:115-136 | Each iteration appends the block and then a comma only if it is not the last, then a line break. |
| DartSerializer.AppendBlocks | scripts/extract_kanji.js:115-136 | The `forEach` of `+=` appends produces the header followed by the blocks joined with `,\n` and a final line break. |
| DartSerializer.ConvertToDart | scripts/extract_kanji.js:98-140 | The generated text is the file described by the header, the record section and the closing `];`. With no records it is just the header and `];`. |
| DartSerializer.DartFileLayout | scripts/extract_kanji.js:112-138 | The file starts with the header declaring `<tag>Kanji` and ends with `];`. With no records nothing comes in between. |
| DartSerializer.DartFileBlocks | scripts/extract_kanji.js:112-138 | With records, the first block comes right after the header, and the last block is followed by a line break and `];` with no comma. |
| Grades.ExpectedCounts | scripts/extract_kanji.js:143-151 | The expected counts, one per table row, in table order. |
| Grades.GradeTableTotal | scripts/extract_kanji.js:143-186 | The expected counts of the seven rows add up to 2140, the constant the verdict compares against. |
| Grades.Summarize | scripts/extract_kanji.js:178-186 | The total is the sum of the counts. Grade `i` is marked as matching exactly when its count equals the expected one. The run is COMPLETE exactly when the total is 2140. |
| Grades.AllGradesMatchIsComplete | scripts/extract_kanji.js:178-186 | When every grade yields its expected count, every flag matches and the verdict is COMPLETE. |
| Grades.SumStrictlyBelow | scripts/extract_kanji.js:158-186 | A pointwise smaller list of counts with one strictly smaller entry has a strictly smaller total. |
| Grades.ShortfallIsIncomplete | scripts/extract_kanji.js:178-186 | A grade short of its count, with no grade over, is flagged and makes the verdict INCOMPLETE. |
| Grades.CompensatingCountsLookComplete | scripts/extract_kanji.js:178-186 | With grade 1 one over and grade 2 one under, both are flagged, yet the verdict is COMPLETE. |
| Grades.OutputFileName | scripts/extract_kanji.js:165-166 | The file name is the row's `filename` with `.dart` when that is non-empty, and `<tag>_kanji.dart` otherwise. |
| Grades.GradeTableFileNames | scripts/extract_kanji.js:143-166 | Every row of the table names its file explicitly, and no two rows write the same file. |
| Grades.ProcessGrade | scripts/extract_kanji.js:159-167 | One iteration. The records are empty when the span cannot be cut. Non-empty records are exactly what the decoder returned for the grade's span. The file is named by the file-name rule and holds the Dart text for those records, which is just the header and `];` when there are none. |
| Grades.ListsForAt | scripts/extract_kanji.js:158-160 | Entry `i` of the collected lists is what extraction produced for grade `i`. |
| Grades.MapPairs | scripts/extract_kanji.js:158-167 | One output file per grade, each built from that grade and its records. |
| Grades.LoopStep | scripts/extract_kanji.js:158-173 | Handling one more grade extends the lists, the files and the total by that grade's records, file and count. |
| Grades.ProcessGrades | scripts/extract_kanji.js:158-173 | The loop collects, in table order, each grade's records and output file, and a total equal to the sum of the record counts. |
| Grades.ExtractAll | scripts/extract_kanji.js:143-173 | Over the seven-row table, entry `i` of the lists and files belongs to row `i`, and the total is the sum of the seven counts. |
| Grades.RunSummary | scripts/extract_kanji.js:154-186 | The summary of the counts the loop collected reports the total it accumulated. Each grade is flagged exactly when its list has the expected length, and when every grade matches the run is COMPLETE. |

## Left out

- Reading the TypeScript file, writing the Dart files and the console output, including the emoji status lines and the `padEnd`/`padStart` formatting. They are I/O, so the model returns the files and the summary as values instead.
- The four regular-expression cleanups of the source text and the declaration search. The search result enters the model as an `Option<DeclMatch>`. The model assumes, as a regular-expression match guarantees, that the match lies inside the text.
- `eval` of the extracted span and the `try`/`catch` around it. They are represented by the `decode` parameter, whose `None` stands for a thrown exception.
- The output path (`path.join(__dirname, '..', 'lib', 'data', 'kanji', ...)`). The model keeps only the file name.
- Numbers are modelled as unbounded non-negative integers rendered in plain decimal. JavaScript's rendering of fractions, negative numbers, `NaN` and `undefined` (a missing `strokeCount`) is not modelled. Neither are numbers from 10^21 up, which JavaScript prints in exponent form (`1e+21`), or integers above 2^53, which a JavaScript number cannot hold exactly.
- Strings are sequences of characters. UTF-16 surrogate pairs, which JavaScript indexes as two code units, are not distinguished, which makes no difference to the scanner: it only reacts to ASCII characters.
- The JLPT lookup goes through a plain JavaScript object, so keys such as `constructor` inherited from the object prototype would also be found. The model treats the table as a map with exactly the five keys.
- DartEscape.EscapeRoundTrip: holds only for strings without `$`. `escapeDart` does not escape `$`, which in a Dart string starts an interpolation, so a value containing `$` does not read back as itself (`DartEscape.DollarBreaksRoundTrip`).
- DartSerializer.QuoteReadsBack: like `EscapeRoundTrip`, holds only for values without `$`, for the same reason.
- DartEscape.DartUnescape: decodes the single-character Dart escapes only. The `\x` and `\u` forms, which `escapeDart` never produces, are treated as unreadable.
- Extract.ExtractGradeKanji: does not model a decoder result that is not a list of records. Whatever `eval` returns is taken to be the grade's list.

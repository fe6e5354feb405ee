/**
 * `convertToDart`: render one grade's records as a Dart source file declaring
 * `const List<KanjiCharacter> <grade>Kanji = [...]`.
 */
module DartSerializer {
  import opened Outcomes
  import opened Text
  import opened DartEscape
  import opened Records

  /** The three import lines and the blank line that open every generated file. */
  const Imports: string :=
    "import '../../models/kanji_character.dart';\n"
    + "import '../../models/kanji_example.dart';\n"
    + "import '../../models/kanji_enums.dart';\n\n"

  /** The Dart variable name; the special case for `juniorHigh` agrees with the general rule. */
  function VarName(tag: string): (r: string)
    ensures r == tag + "Kanji"
  {
    if tag == "juniorHigh" then "juniorHighKanji" else tag + "Kanji"
  }

  function Header(varName: string): string {
    Imports + "const List<KanjiCharacter> " + varName + " = [\n"
  }

  /** The header is the imports, then the declaration that opens the list named `varName`. */
  lemma HeaderLayout(varName: string)
    ensures var h := Header(varName);
      && |h| == |Imports| + 27 + |varName| + 5
      && h[..|Imports|] == Imports
      && h[|Imports|..|Imports| + 27] == "const List<KanjiCharacter> "
      && h[|Imports| + 27..|h| - 5] == varName
      && h[|h| - 5..] == " = [\n"
  {
    var decl := "const List<KanjiCharacter> ";
    assert |decl| == 27;
    var h := Header(varName);
    assert h == Imports + decl + varName + " = [\n";
  }

  /** Different variable names give different headers. */
  lemma HeaderDeterminesName(a: string, b: string)
    requires Header(a) == Header(b)
    ensures a == b
  {
    HeaderLayout(a);
    HeaderLayout(b);
  }

  /** A Dart single-quoted string literal. */
  function Quote(s: string): string {
    "'" + EscapeDart(s) + "'"
  }

  /**
   * A quoted literal is delimited by `'` on both sides, and Dart reads its body
   * back as the original string whenever that string holds no `$`.
   */
  lemma QuoteReadsBack(s: string)
    requires '$' !in s
    ensures var q := Quote(s);
      && |q| >= 2 && q[0] == '\'' && q[|q| - 1] == '\''
      && DartUnescape(q[1..|q| - 1]) == Some(s)
  {
    var q := Quote(s);
    assert q[1..|q| - 1] == EscapeDart(s);
    EscapeRoundTrip(s);
  }

  /** A Dart list of string literals, separated by `, `. */
  function StringList(xs: seq<string>): string {
    Bracketed(Join(QuoteAll(xs), ", "))
  }

  function Bracketed(inner: string): string {
    "[" + inner + "]"
  }

  /**
   * A string list is bracketed; `[]` when empty, and otherwise the first
   * literal follows `[` directly and the last is followed by `]` alone.
   */
  lemma StringListLayout(xs: seq<string>)
    ensures |StringList(xs)| >= 2
    ensures StringList(xs)[0] == '[' && StringList(xs)[|StringList(xs)| - 1] == ']'
    ensures xs == [] ==> StringList(xs) == "[]"
    ensures xs != [] ==> ListStartsWith(StringList(xs), QuoteAll(xs)[0])
    ensures xs != [] ==> ListEndsWith(StringList(xs), QuoteAll(xs)[|xs| - 1])
  {
    var qs := QuoteAll(xs);
    assert StringList(xs) == Bracketed(Join(qs, ", "));
    JoinedListLayout(qs);
  }

  /** `first` comes right after the opening bracket of `l`. */
  predicate ListStartsWith(l: string, first: string) {
    1 + |first| <= |l| && l[1..1 + |first|] == first
  }

  /** `last` comes right before the closing bracket of `l`. */
  predicate ListEndsWith(l: string, last: string) {
    |last| + 1 <= |l| && l[|l| - 1 - |last|..|l| - 1] == last
  }

  /** `[` + the parts joined by `, ` + `]`, for any parts. */
  lemma JoinedListLayout(qs: seq<string>)
    ensures var l := Bracketed(Join(qs, ", "));
      && |l| >= 2 && l[0] == '[' && l[|l| - 1] == ']'
      && (qs == [] ==> l == "[]")
      && (qs != [] ==>
            var first, last := qs[0], qs[|qs| - 1];
            && 1 + |first| <= |l| && l[1..1 + |first|] == first
            && |last| + 1 <= |l| && l[|l| - 1 - |last|..|l| - 1] == last)
  {
    if qs != [] {
      JoinEnds(qs, ", ");
      BracketedEnds(Join(qs, ", "), qs[0], qs[|qs| - 1]);
    }
    BracketedFrame(Join(qs, ", "));
  }

  lemma BracketedFrame(inner: string)
    ensures var l := Bracketed(inner);
      && |l| >= 2 && l[0] == '[' && l[|l| - 1] == ']'
      && (inner == [] ==> l == "[]")
  {
  }

  lemma BracketedEnds(inner: string, first: string, last: string)
    requires |first| <= |inner| && inner[..|first|] == first
    requires |last| <= |inner| && inner[|inner| - |last|..] == last
    ensures var l := Bracketed(inner);
      && 1 + |first| <= |l| && l[1..1 + |first|] == first
      && |last| + 1 <= |l| && l[|l| - 1 - |last|..|l| - 1] == last
  {
    var l := Bracketed(inner);
    assert l[1..1 + |first|] == inner[..|first|];
    assert l[|l| - 1 - |last|..|l| - 1] == inner[|inner| - |last|..];
  }

  function QuoteAll(xs: seq<string>): (r: seq<string>)
    ensures |r| == |xs|
    ensures forall i :: 0 <= i < |xs| ==> r[i] == Quote(xs[i])
  {
    if |xs| == 0 then [] else [Quote(xs[0])] + QuoteAll(xs[1..])
  }

  /** One example on its own line; every example, the last included, ends with a comma. */
  function ExampleLine(ex: ExampleRecord): string {
    ExampleCall(Quote(ex.word), Quote(ex.reading), Quote(ex.meaning))
  }

  /** The `KanjiExample(...)` line around three quoted values. */
  function ExampleCall(word: string, reading: string, meaning: string): string {
    "      KanjiExample(word: " + word + ", reading: " + reading + ", meaning: " + meaning + "),\n"
  }

  /** A quoted literal never holds a raw line break. */
  lemma QuoteOnOneLine(s: string)
    ensures '\n' !in Quote(s)
  {
  }

  /**
   * Each example takes exactly one line: no line break before the last
   * character, and the line ends with `),` whether or not more examples follow.
   */
  lemma ExampleLineLayout(ex: ExampleRecord)
    ensures var line := ExampleLine(ex);
      && |line| >= 3
      && line[|line| - 3..] == "),\n"
      && '\n' !in line[..|line| - 1]
  {
    QuoteOnOneLine(ex.word);
    QuoteOnOneLine(ex.reading);
    QuoteOnOneLine(ex.meaning);
    ExampleCallLayout(Quote(ex.word), Quote(ex.reading), Quote(ex.meaning));
  }

  lemma ExampleCallLayout(word: string, reading: string, meaning: string)
    requires '\n' !in word && '\n' !in reading && '\n' !in meaning
    ensures var line := ExampleCall(word, reading, meaning);
      && |line| >= 3
      && line[|line| - 3..] == "),\n"
      && '\n' !in line[..|line| - 1]
  {
    var body := "      KanjiExample(word: " + word + ", reading: " + reading + ", meaning: " + meaning;
    var line := ExampleCall(word, reading, meaning);
    assert line == body + "),\n";
    assert line[..|line| - 1] == body + "),";
  }

  /** The value of `examples:`: one line per example, in order, inside `[` and `    ]`. */
  function ExamplesValue(exs: seq<ExampleRecord>): string {
    ListOfLines(Concat(ExampleLines(exs)))
  }

  function ListOfLines(lines: string): string {
    "[\n" + lines + "    ]"
  }

  /** `v` opens `[` on a line of its own and closes with an indented `]`. */
  predicate LinesFramed(v: string) {
    |v| >= 7 && v[..2] == "[\n" && v[|v| - 5..] == "    ]"
  }

  /** `first` is the first line inside the list `v`. */
  predicate FirstLine(v: string, first: string) {
    2 + |first| <= |v| && v[2..2 + |first|] == first
  }

  /** The last line inside the list `v` ends with `),`, its trailing comma. */
  predicate LastLineHasComma(v: string) {
    |v| >= 8 && v[|v| - 8..] == "),\n    ]"
  }

  /**
   * The examples value opens `[` on its own line and closes with `    ]`. With
   * no examples nothing comes in between; otherwise the first example line
   * follows `[` directly, and the last one keeps its trailing comma before `]`.
   */
  lemma ExamplesValueLayout(exs: seq<ExampleRecord>)
    ensures LinesFramed(ExamplesValue(exs))
    ensures exs == [] ==> ExamplesValue(exs) == "[\n    ]"
    ensures exs != [] ==> FirstLine(ExamplesValue(exs), ExampleLines(exs)[0])
    ensures exs != [] ==> LastLineHasComma(ExamplesValue(exs))
  {
    var lines := ExampleLines(exs);
    assert ExamplesValue(exs) == ListOfLines(Concat(lines));
    if exs != [] {
      LastExampleLineEnds(exs);
    }
    LinesListLayout(lines);
  }

  lemma LastExampleLineEnds(exs: seq<ExampleRecord>)
    requires exs != []
    ensures var last := ExampleLines(exs)[|exs| - 1];
      |last| >= 3 && last[|last| - 3..] == "),\n"
  {
    ExampleLineLayout(exs[|exs| - 1]);
  }

  /** `[` on its own line, the lines appended in order, then `    ]`, for any lines. */
  lemma LinesListLayout(lines: seq<string>)
    requires lines != [] ==>
      var last := lines[|lines| - 1]; |last| >= 3 && last[|last| - 3..] == "),\n"
    ensures LinesFramed(ListOfLines(Concat(lines)))
    ensures lines == [] ==> ListOfLines(Concat(lines)) == "[\n    ]"
    ensures lines != [] ==> FirstLine(ListOfLines(Concat(lines)), lines[0])
    ensures lines != [] ==> LastLineHasComma(ListOfLines(Concat(lines)))
  {
    if lines != [] {
      ConcatEnds(lines);
      ListOfLinesEnds(Concat(lines), lines[0], lines[|lines| - 1]);
    }
    ListOfLinesFrame(Concat(lines));
  }

  lemma ListOfLinesFrame(lines: string)
    ensures LinesFramed(ListOfLines(lines))
    ensures lines == [] ==> ListOfLines(lines) == "[\n    ]"
  {
  }

  lemma ListOfLinesEnds(lines: string, first: string, last: string)
    requires |first| <= |lines| && lines[..|first|] == first
    requires |last| <= |lines| && lines[|lines| - |last|..] == last
    requires |last| >= 3 && last[|last| - 3..] == "),\n"
    ensures FirstLine(ListOfLines(lines), first)
    ensures LastLineHasComma(ListOfLines(lines))
  {
    var v := ListOfLines(lines);
    assert v[2..2 + |first|] == lines[..|first|];
    assert v[|v| - 8..] == lines[|lines| - 3..] + "    ]";
    assert lines[|lines| - 3..] == last[|last| - 3..];
  }

  function ExampleLines(exs: seq<ExampleRecord>): (r: seq<string>)
    ensures |r| == |exs|
    ensures forall i :: 0 <= i < |exs| ==> r[i] == ExampleLine(exs[i])
  {
    if |exs| == 0 then [] else [ExampleLine(exs[0])] + ExampleLines(exs[1..])
  }

  /** A JLPT level has the form N1 .. N5. */
  predicate IsJlptCode(level: string) {
    |level| == 2 && level[0] == 'N' && '1' <= level[1] <= '5'
  }

  /** The lookup table of the source, from JLPT code to Dart enum literal. */
  const JlptMap: map<string, string> := map[
    "N5" := "JlptLevel.n5", "N4" := "JlptLevel.n4", "N3" := "JlptLevel.n3",
    "N2" := "JlptLevel.n2", "N1" := "JlptLevel.n1"]

  lemma JlptMapKeys(level: string)
    ensures level in JlptMap <==> IsJlptCode(level)
    ensures level in JlptMap ==> JlptMap[level] == "JlptLevel.n" + [level[1]]
  {
    if IsJlptCode(level) {
      assert level == ['N', level[1]];
    }
  }

  /** `jlptMap[level] || 'null'`. */
  function JlptLiteral(level: string): (r: string)
    ensures IsJlptCode(level) ==> r == "JlptLevel.n" + [level[1]]
    ensures !IsJlptCode(level) ==> r == "null"
  {
    JlptMapKeys(level);
    if level in JlptMap then JlptMap[level] else "null"
  }

  /** The named arguments of the `KanjiCharacter` constructor. */
  datatype FieldName =
    | Character | Meanings | Onyomi | Kunyomi | Examples | Grade | StrokeCount | JlptLevel | Frequency

  function FieldNameText(n: FieldName): string {
    match n
    case Character => "character"
    case Meanings => "meanings"
    case Onyomi => "onyomi"
    case Kunyomi => "kunyomi"
    case Examples => "examples"
    case Grade => "grade"
    case StrokeCount => "strokeCount"
    case JlptLevel => "jlptLevel"
    case Frequency => "frequency"
  }

  /** A named constructor argument, written `    name: value,` on its own line. */
  datatype Field = Field(name: FieldName, value: string)

  function RenderField(f: Field): string {
    "    " + FieldNameText(f.name) + ": " + f.value + ",\n"
  }

  /**
   * A field line is indented by four spaces, gives the argument name, `: `,
   * the value, and ends with `,`; a value without line breaks keeps it on one line.
   */
  lemma RenderFieldLayout(f: Field)
    ensures var line, name := RenderField(f), FieldNameText(f.name);
      && |line| == 4 + |name| + 2 + |f.value| + 2
      && line[..4] == "    "
      && line[4..4 + |name|] == name
      && line[4 + |name|..6 + |name|] == ": "
      && line[6 + |name|..|line| - 2] == f.value
      && line[|line| - 2..] == ",\n"
      && ('\n' !in f.value ==> '\n' !in line[..|line| - 1])
  {
    var name := FieldNameText(f.name);
    assert '\n' !in name;
    var line := RenderField(f);
    assert line == "    " + name + ": " + f.value + ",\n";
    assert line[..|line| - 1] == "    " + name + ": " + f.value + ",";
  }

  function Names(fs: seq<Field>): (r: seq<FieldName>)
    ensures |r| == |fs|
    ensures forall i :: 0 <= i < |fs| ==> r[i] == fs[i].name
  {
    if |fs| == 0 then [] else [fs[0].name] + Names(fs[1..])
  }

  /** The fields every record gets, in this order. */
  const FixedFieldOrder: seq<FieldName> :=
    [Character, Meanings, Onyomi, Kunyomi, Examples, Grade, StrokeCount]

  /** The seven fixed fields, named in order, holding the given rendered values. */
  function FixedFieldList(
    character: string, meanings: string, onyomi: string, kunyomi: string,
    examples: string, grade: string, strokeCount: string): (r: seq<Field>)
    ensures Names(r) == FixedFieldOrder
    ensures r[0].value == character && r[5].value == grade && r[6].value == strokeCount
    ensures r[1].value == meanings && r[2].value == onyomi && r[3].value == kunyomi
    ensures r[4].value == examples
  {
    var r := [
      Field(Character, character), Field(Meanings, meanings), Field(Onyomi, onyomi),
      Field(Kunyomi, kunyomi), Field(Examples, examples), Field(Grade, grade),
      Field(StrokeCount, strokeCount) ];
    assert Names(r) == FixedFieldOrder by {
      assert forall i :: 0 <= i < |r| ==> Names(r)[i] == FixedFieldOrder[i];
    }
    r
  }

  /** The seven fields every record gets, in the order of the source. */
  function FixedFields(k: KanjiRecord, tag: string): (r: seq<Field>)
    ensures Names(r) == FixedFieldOrder
    ensures r[0].value == Quote(k.character)
    ensures r[1].value == StringList(k.meanings)
    ensures r[2].value == StringList(k.onyomi)
    ensures r[3].value == StringList(k.kunyomi)
    ensures r[4].value == ExamplesValue(k.examples)
    ensures r[5].value == "KanjiGrade." + tag
    ensures r[6].value == NatToString(k.strokeCount)
  {
    FixedFieldList(
      Quote(k.character), StringList(k.meanings), StringList(k.onyomi), StringList(k.kunyomi),
      ExamplesValue(k.examples), "KanjiGrade." + tag, NatToString(k.strokeCount))
  }

  /** The names of the optional fields a record gets: each only when its value is truthy. */
  function OptionalNames(k: KanjiRecord): seq<FieldName> {
    (if JlptTruthy(k) then [JlptLevel] else []) + (if FrequencyTruthy(k) then [Frequency] else [])
  }

  /** `jlptLevel` and then `frequency`, each only when the source value is truthy. */
  function OptionalFields(k: KanjiRecord): (r: seq<Field>)
    ensures Names(r) == OptionalNames(k)
    ensures JlptTruthy(k) ==> r[0] == Field(JlptLevel, JlptLiteral(k.jlptLevel.value))
    ensures FrequencyTruthy(k) ==> r[|r| - 1] == Field(Frequency, NatToString(k.frequency.value))
  {
    var jlpt := if JlptTruthy(k) then [Field(JlptLevel, JlptLiteral(k.jlptLevel.value))] else [];
    var freq := if FrequencyTruthy(k) then [Field(Frequency, NatToString(k.frequency.value))] else [];
    jlpt + freq
  }

  lemma {:induction false} NamesConcat(a: seq<Field>, b: seq<Field>)
    ensures Names(a + b) == Names(a) + Names(b)
    decreases |a|
  {
    if |a| == 0 {
      assert a + b == b;
    } else {
      assert (a + b)[1..] == a[1..] + b;
      NamesConcat(a[1..], b);
    }
  }

  /**
   * The constructor arguments of one record: the fixed fields in order, then
   * `jlptLevel` and `frequency`, each only when the source value is truthy.
   */
  function Fields(k: KanjiRecord, tag: string): (r: seq<Field>)
    ensures Names(r) == FixedFieldOrder + OptionalNames(k)
    ensures r[..7] == FixedFields(k, tag)
    ensures r[0].value == Quote(k.character)
    ensures r[5].value == "KanjiGrade." + tag
    ensures r[6].value == NatToString(k.strokeCount)
    ensures JlptTruthy(k) ==> r[7].value == JlptLiteral(k.jlptLevel.value)
    ensures FrequencyTruthy(k) ==> r[|r| - 1].value == NatToString(k.frequency.value)
  {
    var fixed := FixedFields(k, tag);
    var optional := OptionalFields(k);
    NamesConcat(fixed, optional);
    fixed + optional
  }

  /** An optional field is present exactly when its source value is truthy; absent and 0 both omit `frequency`. */
  lemma OptionalFieldGating(k: KanjiRecord, tag: string)
    ensures JlptLevel in Names(Fields(k, tag)) <==> JlptTruthy(k)
    ensures Frequency in Names(Fields(k, tag)) <==> FrequencyTruthy(k)
    ensures k.frequency == Some(0) ==> Frequency !in Names(Fields(k, tag))
  {
    GatingOnNames(k, Names(Fields(k, tag)));
  }

  lemma GatingOnNames(k: KanjiRecord, names: seq<FieldName>)
    requires names == FixedFieldOrder + OptionalNames(k)
    ensures JlptLevel in names <==> JlptTruthy(k)
    ensures Frequency in names <==> FrequencyTruthy(k)
  {
    assert JlptLevel !in FixedFieldOrder && Frequency !in FixedFieldOrder;
    assert JlptLevel in names <==> JlptLevel in OptionalNames(k);
    assert Frequency in names <==> Frequency in OptionalNames(k);
  }

  /** The numeric fields read back as the record's stroke count and frequency. */
  lemma NumericFieldsReadBack(k: KanjiRecord, tag: string)
    ensures var r := Fields(k, tag);
      && ParseDigits(r[6].value) == k.strokeCount
      && (FrequencyTruthy(k) ==> ParseDigits(r[|r| - 1].value) == k.frequency.value)
  {
    DecimalRoundTrip(k.strokeCount);
    if FrequencyTruthy(k) {
      DecimalRoundTrip(k.frequency.value);
    }
  }

  /**
   * A record for 一 with stroke count 1, JLPT level N5 and frequency rank 1
   * gets `character: '一'`, `strokeCount: 1`, `jlptLevel: JlptLevel.n5` and
   * `frequency: 1`, whatever its other fields hold.
   */
  lemma IchiFields(k: KanjiRecord)
    requires k.character == "一" && k.strokeCount == 1
    requires k.jlptLevel == Some("N5") && k.frequency == Some(1)
    ensures var fs := Fields(k, "grade1");
      && |fs| == 9
      && fs[0] == Field(Character, "'一'")
      && fs[5] == Field(Grade, "KanjiGrade.grade1")
      && fs[6] == Field(StrokeCount, "1")
      && fs[7] == Field(JlptLevel, "JlptLevel.n5")
      && fs[8] == Field(Frequency, "1")
  {
    var fs := Fields(k, "grade1");
    IchiNames(k, fs);
    IchiValues(k, fs);
    IchiAssemble(fs);
  }

  lemma IchiAssemble(fs: seq<Field>)
    requires |fs| == 9
    requires fs[0].name == Character && fs[5].name == Grade && fs[6].name == StrokeCount
    requires fs[7].name == JlptLevel && fs[8].name == Frequency
    requires fs[0].value == "'一'" && fs[5].value == "KanjiGrade.grade1" && fs[6].value == "1"
    requires fs[7].value == "JlptLevel.n5" && fs[8].value == "1"
    ensures fs[0] == Field(Character, "'一'") && fs[5] == Field(Grade, "KanjiGrade.grade1")
    ensures fs[6] == Field(StrokeCount, "1")
    ensures fs[7] == Field(JlptLevel, "JlptLevel.n5") && fs[8] == Field(Frequency, "1")
  {
  }

  lemma IchiValues(k: KanjiRecord, fs: seq<Field>)
    requires k.character == "一" && k.strokeCount == 1
    requires k.jlptLevel == Some("N5") && k.frequency == Some(1)
    requires |fs| == 9
    requires fs[0].value == Quote(k.character)
    requires fs[5].value == "KanjiGrade." + "grade1"
    requires fs[6].value == NatToString(k.strokeCount)
    requires fs[7].value == JlptLiteral(k.jlptLevel.value)
    requires fs[8].value == NatToString(k.frequency.value)
    ensures fs[0].value == "'一'" && fs[5].value == "KanjiGrade.grade1" && fs[6].value == "1"
    ensures fs[7].value == "JlptLevel.n5" && fs[8].value == "1"
  {
    assert Quote("一") == "'一'" by {
      EscapeIdentityOnPlain("一");
    }
    assert JlptLiteral("N5") == "JlptLevel.n5" by {
      assert IsJlptCode("N5");
    }
    assert NatToString(1) == "1";
    assert "KanjiGrade." + "grade1" == "KanjiGrade.grade1";
  }

  lemma IchiNames(k: KanjiRecord, fs: seq<Field>)
    requires k.jlptLevel == Some("N5") && k.frequency == Some(1)
    requires Names(fs) == FixedFieldOrder + OptionalNames(k)
    ensures |fs| == 9
    ensures fs[0].name == Character && fs[5].name == Grade && fs[6].name == StrokeCount
    ensures fs[7].name == JlptLevel && fs[8].name == Frequency
  {
    assert OptionalNames(k) == [JlptLevel, Frequency];
    assert Names(fs) == [Character, Meanings, Onyomi, Kunyomi, Examples, Grade, StrokeCount, JlptLevel, Frequency];
  }

  /** `KanjiCharacter(` ... `)`, without the separator that follows it. */
  function Block(k: KanjiRecord, tag: string): string {
    var fs := Fields(k, tag);
    BlockOf(Concat(RenderFields(fs)))
  }

  /** The constructor call around the rendered field lines. */
  function BlockOf(fieldLines: string): string {
    "  KanjiCharacter(\n" + fieldLines + "  )"
  }

  /**
   * A block opens `KanjiCharacter(` on a line of its own and closes with `  )`,
   * with no separator of its own: the comma between blocks is the caller's.
   */
  lemma BlockLayout(k: KanjiRecord, tag: string)
    ensures var b := Block(k, tag);
      && |b| >= 21
      && b[..18] == "  KanjiCharacter(\n"
      && b[|b| - 3..] == "  )"
  {
    BlockOfLayout(Concat(RenderFields(Fields(k, tag))));
  }

  lemma BlockOfLayout(fieldLines: string)
    ensures var b := BlockOf(fieldLines);
      && |b| >= 21
      && b[..18] == "  KanjiCharacter(\n"
      && b[|b| - 3..] == "  )"
  {
    var opening := "  KanjiCharacter(\n";
    assert |opening| == 18;
  }

  function RenderFields(fs: seq<Field>): (r: seq<string>)
    ensures |r| == |fs|
    ensures forall i :: 0 <= i < |fs| ==> r[i] == RenderField(fs[i])
  {
    if |fs| == 0 then [] else [RenderField(fs[0])] + RenderFields(fs[1..])
  }

  function Blocks(records: seq<KanjiRecord>, tag: string): (r: seq<string>)
    ensures |r| == |records|
    ensures forall i :: 0 <= i < |records| ==> r[i] == Block(records[i], tag)
  {
    seq(|records|, i requires 0 <= i < |records| => Block(records[i], tag))
  }

  /** The blocks in order, a comma after each but the last, each followed by a line break. */
  function RecordSection(blocks: seq<string>): string {
    if |blocks| == 0 then [] else Join(blocks, ",\n") + "\n"
  }

  /** Read from the front: one block and a comma before every further block, none after the last. */
  lemma RecordSectionCons(b: string, rest: seq<string>)
    ensures |rest| == 0 ==> RecordSection([b] + rest) == b + "\n"
    ensures |rest| > 0 ==> RecordSection([b] + rest) == b + ",\n" + RecordSection(rest)
  {
    if |rest| > 0 {
      JoinCons(b, rest, ",\n");
    }
  }

  /** The whole generated file. */
  function DartFile(records: seq<KanjiRecord>, tag: string): string {
    FileOf(Header(VarName(tag)), Blocks(records, tag))
  }

  /** A header, the record section, and the closing `];`. */
  function FileOf(header: string, blocks: seq<string>): string {
    header + RecordSection(blocks) + "];\n"
  }

  /** A non-empty record section starts with the first block and ends with the last one and a line break. */
  lemma RecordSectionEnds(blocks: seq<string>)
    requires |blocks| > 0
    ensures var rs, first, last := RecordSection(blocks), blocks[0], blocks[|blocks| - 1];
      && |first| <= |rs| && rs[..|first|] == first
      && |last| + 1 <= |rs| && rs[|rs| - |last| - 1..] == last + "\n"
  {
    JoinEnds(blocks, ",\n");
    var j := Join(blocks, ",\n");
    var last := blocks[|blocks| - 1];
    assert (j + "\n")[..|blocks[0]|] == j[..|blocks[0]|];
    assert (j + "\n")[|j| + 1 - |last| - 1..] == j[|j| - |last|..] + "\n";
  }

  /**
   * The file opens with the header declaring `<tag>Kanji` and closes with `];`.
   * With no records nothing comes in between; otherwise the first block follows
   * the header directly, and the last block is followed by a line break and the
   * closing `];` with no comma.
   */
  lemma DartFileLayout(records: seq<KanjiRecord>, tag: string)
    ensures var d, h := DartFile(records, tag), Header(tag + "Kanji");
      && |h| + 3 <= |d|
      && d[..|h|] == h
      && d[|d| - 3..] == "];\n"
      && (records == [] ==> d == h + "];\n")
  {
    FileOfLayout(Header(tag + "Kanji"), Blocks(records, tag));
  }

  lemma FileOfLayout(h: string, blocks: seq<string>)
    ensures var d := FileOf(h, blocks);
      && |h| + 3 <= |d|
      && d[..|h|] == h
      && d[|d| - 3..] == "];\n"
      && (blocks == [] ==> d == h + "];\n")
  {
    var d := FileOf(h, blocks);
    assert d == h + RecordSection(blocks) + "];\n";
  }

  /**
   * `d` is `h` followed by the record section of `blocks` and `];`: the first
   * block comes right after `h`, and the last is followed by a line break and
   * the closing `];`, with no comma.
   */
  predicate FramesBlocks(d: string, h: string, blocks: seq<string>)
    requires |blocks| > 0
  {
    var first, last := blocks[0], blocks[|blocks| - 1];
    && |h| + |first| <= |d|
    && d[|h|..|h| + |first|] == first
    && |last| + 4 <= |d|
    && d[|d| - |last| - 4..] == last + "\n];\n"
  }

  /** In a file with records, block 0 follows the header and the last block closes the list. */
  lemma DartFileBlocks(records: seq<KanjiRecord>, tag: string)
    requires records != []
    ensures FramesBlocks(DartFile(records, tag), Header(tag + "Kanji"), Blocks(records, tag))
  {
    var blocks := Blocks(records, tag);
    assert DartFile(records, tag) == FileOf(Header(tag + "Kanji"), blocks);
    SectionInFile(Header(tag + "Kanji"), blocks);
  }

  /** The record section framed by a header and the closing `];`. */
  lemma SectionInFile(h: string, blocks: seq<string>)
    requires |blocks| > 0
    ensures FramesBlocks(FileOf(h, blocks), h, blocks)
  {
    RecordSectionEnds(blocks);
    var rs := RecordSection(blocks);
    var d := FileOf(h, blocks);
    assert d == h + rs + "];\n";
    var first, last := blocks[0], blocks[|blocks| - 1];
    assert d[|h|..|h| + |first|] == rs[..|first|];
    assert d[|d| - |last| - 4..] == rs[|rs| - |last| - 1..] + "];\n";
  }

  /** The text accumulated after the first `i` blocks and their separators. */
  ghost function Partial(blocks: seq<string>, i: nat): string
    requires i <= |blocks|
  {
    if i == 0 then [] else Join(blocks[..i], ",\n") + (if i < |blocks| then ",\n" else "\n")
  }

  /** Appending block `i` and its separator extends the accumulated text by one step. */
  lemma PartialStep(blocks: seq<string>, i: nat)
    requires i < |blocks|
    ensures Partial(blocks, i + 1)
      == Partial(blocks, i) + blocks[i] + (if i < |blocks| - 1 then "," else "") + "\n"
  {
    var next := blocks[..i + 1];
    if i == 0 {
      assert next == [blocks[0]];
    } else {
      assert next[..i] == blocks[..i];
    }
  }

  lemma PartialComplete(blocks: seq<string>)
    ensures Partial(blocks, |blocks|) == RecordSection(blocks)
  {
    assert blocks[..|blocks|] == blocks;
  }

  /**
   * The `forEach` over the records: append each block, then `,` unless it is
   * the last one, then a line break.
   */
  method AppendBlocks(header: string, blocks: seq<string>) returns (out: string)
    ensures out == header + RecordSection(blocks)
  {
    out := header;
    var i := 0;
    while i < |blocks|
      invariant 0 <= i <= |blocks|
      invariant out == header + Partial(blocks, i)
    {
      var sep := if i < |blocks| - 1 then "," else "";
      PartialStep(blocks, i);
      out := out + blocks[i] + sep + "\n";
      i := i + 1;
    }
    PartialComplete(blocks);
  }

  /** The whole of `convertToDart`: header, the record blocks, then `];`. */
  method ConvertToDart(records: seq<KanjiRecord>, tag: string) returns (out: string)
    ensures out == DartFile(records, tag)
    ensures |records| == 0 ==> out == Header(tag + "Kanji") + "];\n"
  {
    var varName := if tag == "juniorHigh" then "juniorHighKanji" else tag + "Kanji";
    out := AppendBlocks(Header(varName), Blocks(records, tag));
    out := out + "];\n";
  }
}

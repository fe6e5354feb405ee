/**
 * The driver of the script: the fixed table of seven grades, the loop that
 * extracts and converts each one, and the summary that compares the counts
 * with the expected ones.
 */
module Grades {
  import opened Outcomes
  import opened Records
  import opened Extract
  import opened DartSerializer

  /** One row of the grade table: source name, Dart enum tag, expected count, output file stem. */
  datatype GradeGroup = GradeGroup(name: string, tag: string, expected: nat, filename: string)

  const GradeTable: seq<GradeGroup> := [
    GradeGroup("grade1", "grade1", 80, "grade1_kanji"),
    GradeGroup("grade2", "grade2", 160, "grade2_kanji"),
    GradeGroup("grade3", "grade3", 200, "grade3_kanji"),
    GradeGroup("grade4", "grade4", 200, "grade4_kanji"),
    GradeGroup("grade5", "grade5", 185, "grade5_kanji"),
    GradeGroup("grade6", "grade6", 181, "grade6_kanji"),
    GradeGroup("juniorHigh", "juniorHigh", 1134, "junior_high_kanji")]

  /** The grand total the summary checks against. */
  const ExpectedGrandTotal: nat := 2140

  function Sum(xs: seq<nat>): nat
    decreases |xs|
  {
    if |xs| == 0 then 0 else Sum(xs[..|xs| - 1]) + xs[|xs| - 1]
  }

  function ExpectedCounts(gs: seq<GradeGroup>): (r: seq<nat>)
    ensures |r| == |gs|
    ensures forall i :: 0 <= i < |gs| ==> r[i] == gs[i].expected
    decreases |gs|
  {
    if |gs| == 0 then [] else ExpectedCounts(gs[..|gs| - 1]) + [gs[|gs| - 1].expected]
  }

  lemma SumAppend(xs: seq<nat>, x: nat)
    ensures Sum(xs + [x]) == Sum(xs) + x
  {
    assert (xs + [x])[..|xs|] == xs;
  }

  /** The sum of a seven-element list, entry by entry. */
  lemma SumOfSeven(a: nat, b: nat, c: nat, d: nat, e: nat, f: nat, g: nat)
    ensures Sum([a, b, c, d, e, f, g]) == a + b + c + d + e + f + g
  {
    var s1: seq<nat> := [a];
    var s2 := s1 + [b];
    var s3 := s2 + [c];
    var s4 := s3 + [d];
    var s5 := s4 + [e];
    var s6 := s5 + [f];
    var s7 := s6 + [g];
    SumAppend([], a);
    SumAppend(s1, b);
    SumAppend(s2, c);
    SumAppend(s3, d);
    SumAppend(s4, e);
    SumAppend(s5, f);
    SumAppend(s6, g);
    assert s7 == [a, b, c, d, e, f, g];
  }

  /** 80 + 160 + 200 + 200 + 185 + 181 + 1134 = 2140. */
  lemma GradeTableTotal()
    ensures Sum(ExpectedCounts(GradeTable)) == ExpectedGrandTotal
  {
    SumOfSeven(80, 160, 200, 200, 185, 181, 1134);
    assert ExpectedCounts(GradeTable) == [80, 160, 200, 200, 185, 181, 1134];
  }

  /** `grade.filename || `${grade.enum}_kanji``, with the `.dart` extension. */
  function OutputFileName(g: GradeGroup): (r: string)
    ensures g.filename != "" ==> r == g.filename + ".dart"
    ensures g.filename == "" ==> r == g.tag + "_kanji.dart"
  {
    (if g.filename != "" then g.filename else g.tag + "_kanji") + ".dart"
  }

  /** Appending the same extension to two different stems gives two different names. */
  lemma ExtensionKeepsNamesApart(a: string, b: string)
    requires a != b
    ensures a + ".dart" != b + ".dart"
  {
    if |a| == |b| {
      assert (a + ".dart")[..|a|] == a && (b + ".dart")[..|b|] == b;
    }
  }

  /**
   * Every row of the table names its file explicitly, and no two rows write
   * the same file, so no grade's output overwrites another's.
   */
  lemma GradeTableFileNames()
    ensures forall i :: 0 <= i < |GradeTable| ==>
      OutputFileName(GradeTable[i]) == GradeTable[i].filename + ".dart"
    ensures forall i, j :: 0 <= i < j < |GradeTable| ==>
      OutputFileName(GradeTable[i]) != OutputFileName(GradeTable[j])
  {
    forall i, j | 0 <= i < j < |GradeTable|
      ensures OutputFileName(GradeTable[i]) != OutputFileName(GradeTable[j])
    {
      var a, b := GradeTable[i].filename, GradeTable[j].filename;
      if |a| == |b| {
        assert a[5] != b[5];
      }
      ExtensionKeepsNamesApart(a, b);
    }
  }

  /** What the summary reports: a per-grade match flag, the total, and whether it is complete. */
  datatype Summary = Summary(matches: seq<bool>, total: nat, complete: bool)

  function Summarize(counts: seq<nat>): (s: Summary)
    requires |counts| == |GradeTable|
    ensures |s.matches| == |GradeTable|
    ensures s.total == Sum(counts)
    ensures forall i :: 0 <= i < |counts| ==> (s.matches[i] <==> counts[i] == GradeTable[i].expected)
    ensures s.complete <==> s.total == ExpectedGrandTotal
  {
    Summary(
      seq(|counts|, i requires 0 <= i < |counts| => counts[i] == GradeTable[i].expected),
      Sum(counts),
      Sum(counts) == ExpectedGrandTotal)
  }

  /** When every grade yields its expected count, the summary reports COMPLETE. */
  lemma AllGradesMatchIsComplete(counts: seq<nat>)
    requires |counts| == |GradeTable|
    requires forall i :: 0 <= i < |counts| ==> counts[i] == GradeTable[i].expected
    ensures Summarize(counts).complete
    ensures forall i :: 0 <= i < |counts| ==> Summarize(counts).matches[i]
  {
    assert counts == ExpectedCounts(GradeTable);
    GradeTableTotal();
  }

  lemma {:induction false} SumStrictlyBelow(xs: seq<nat>, ys: seq<nat>, k: nat)
    requires |xs| == |ys|
    requires forall i :: 0 <= i < |xs| ==> xs[i] <= ys[i]
    requires k < |xs| && xs[k] < ys[k]
    ensures Sum(xs) < Sum(ys)
    decreases |xs|
  {
    var n := |xs| - 1;
    if k == n {
      SumAtMost(xs[..n], ys[..n]);
    } else {
      SumStrictlyBelow(xs[..n], ys[..n], k);
    }
  }

  lemma {:induction false} SumAtMost(xs: seq<nat>, ys: seq<nat>)
    requires |xs| == |ys|
    requires forall i :: 0 <= i < |xs| ==> xs[i] <= ys[i]
    ensures Sum(xs) <= Sum(ys)
    decreases |xs|
  {
    if |xs| > 0 {
      SumAtMost(xs[..|xs| - 1], ys[..|ys| - 1]);
    }
  }

  /** A grade short of its expected count, and none over, makes the run INCOMPLETE. */
  lemma ShortfallIsIncomplete(counts: seq<nat>, k: nat)
    requires |counts| == |GradeTable|
    requires forall i :: 0 <= i < |counts| ==> counts[i] <= GradeTable[i].expected
    requires k < |counts| && counts[k] < GradeTable[k].expected
    ensures !Summarize(counts).matches[k]
    ensures !Summarize(counts).complete
  {
    GradeTableTotal();
    SumStrictlyBelow(counts, ExpectedCounts(GradeTable), k);
  }

  /**
   * The overall verdict looks only at the total: one grade over and another
   * under by the same amount still reports COMPLETE.
   */
  lemma CompensatingCountsLookComplete()
    ensures var counts: seq<nat> := [81, 159, 200, 200, 185, 181, 1134];
      && !Summarize(counts).matches[0] && !Summarize(counts).matches[1]
      && Summarize(counts).complete
  {
    SumOfSeven(81, 159, 200, 200, 185, 181, 1134);
  }

  /** A generated Dart file. */
  datatype OutputFile = OutputFile(name: string, contents: string)

  /** The records extracted for grade `g`, given where its declaration matched. */
  function RecordsOfGrade(
    text: string, g: GradeGroup, m: Option<DeclMatch>,
    decode: (string, string) -> Option<seq<KanjiRecord>>): seq<KanjiRecord>
    requires m.Some? ==> ValidMatch(text, m.value)
  {
    ExtractGradeKanji(text, g.name, m, decode)
  }

  /** The Dart file written for a grade with the given records. */
  function GradeFile(g: GradeGroup, records: seq<KanjiRecord>): OutputFile {
    OutputFile(OutputFileName(g), DartFile(records, g.tag))
  }

  /** One iteration of the main loop: extract, count and convert one grade. */
  method ProcessGrade(
    text: string, g: GradeGroup, m: Option<DeclMatch>,
    decode: (string, string) -> Option<seq<KanjiRecord>>)
    returns (kanjiList: seq<KanjiRecord>, file: OutputFile)
    requires m.Some? ==> ValidMatch(text, m.value)
    ensures kanjiList == RecordsOfGrade(text, g, m, decode)
    ensures ExtractSpan(text, m).Failure? ==> kanjiList == []
    ensures kanjiList != [] ==>
      ExtractSpan(text, m).Success? && decode(ExtractSpan(text, m).value, g.name) == Some(kanjiList)
    ensures file.name == OutputFileName(g)
    ensures file.contents == DartFile(kanjiList, g.tag)
    ensures kanjiList == [] ==> file.contents == Header(g.tag + "Kanji") + "];\n"
  {
    kanjiList := ExtractGradeKanji(text, g.name, m, decode);
    var dartCode := ConvertToDart(kanjiList, g.tag);
    file := OutputFile(OutputFileName(g), dartCode);
  }

  /** Every declaration match lies inside the text. */
  predicate ValidMatches(text: string, found: seq<Option<DeclMatch>>) {
    forall i :: 0 <= i < |found| && found[i].Some? ==> ValidMatch(text, found[i].value)
  }

  /** The records extracted for each grade, in order: `allKanjiData`. */
  function ListsFor(
    text: string, grades: seq<GradeGroup>, found: seq<Option<DeclMatch>>,
    decode: (string, string) -> Option<seq<KanjiRecord>>): (r: seq<seq<KanjiRecord>>)
    requires |found| == |grades| && ValidMatches(text, found)
    ensures |r| == |grades|
    decreases |grades|
  {
    if |grades| == 0 then []
    else
      var n := |grades| - 1;
      ListsFor(text, grades[..n], found[..n], decode) + [RecordsOfGrade(text, grades[n], found[n], decode)]
  }

  /** Entry `i` of the per-grade lists is the extraction result for grade `i`. */
  lemma {:induction false} ListsForAt(
    text: string, grades: seq<GradeGroup>, found: seq<Option<DeclMatch>>,
    decode: (string, string) -> Option<seq<KanjiRecord>>, i: nat)
    requires |found| == |grades| && ValidMatches(text, found)
    requires i < |grades|
    ensures ListsFor(text, grades, found, decode)[i] == RecordsOfGrade(text, grades[i], found[i], decode)
    decreases |grades|
  {
    var n := |grades| - 1;
    if i < n {
      ListsForAt(text, grades[..n], found[..n], decode, i);
    }
  }

  /** `f` applied to corresponding elements of two sequences of equal length. */
  function MapPairs<A, B, C>(xs: seq<A>, ys: seq<B>, f: (A, B) -> C): (r: seq<C>)
    requires |xs| == |ys|
    ensures |r| == |xs|
    ensures forall i :: 0 <= i < |xs| ==> r[i] == f(xs[i], ys[i])
    decreases |xs|
  {
    if |xs| == 0 then []
    else
      var n := |xs| - 1;
      MapPairs(xs[..n], ys[..n], f) + [f(xs[n], ys[n])]
  }

  lemma LengthsAppend(lists: seq<seq<KanjiRecord>>, list: seq<KanjiRecord>)
    ensures Lengths(lists + [list]) == Lengths(lists) + [|list|]
  {
    assert (lists + [list])[..|lists|] == lists;
  }

  function Lengths(lists: seq<seq<KanjiRecord>>): (r: seq<nat>)
    ensures |r| == |lists|
    ensures forall i :: 0 <= i < |lists| ==> r[i] == |lists[i]|
    decreases |lists|
  {
    if |lists| == 0 then [] else Lengths(lists[..|lists| - 1]) + [|lists[|lists| - 1]|]
  }

  lemma ListsForStep(
    text: string, grades: seq<GradeGroup>, found: seq<Option<DeclMatch>>,
    decode: (string, string) -> Option<seq<KanjiRecord>>, i: nat, lists: seq<seq<KanjiRecord>>)
    requires |found| == |grades| && ValidMatches(text, found)
    requires i < |grades|
    requires lists == ListsFor(text, grades[..i], found[..i], decode)
    ensures lists + [RecordsOfGrade(text, grades[i], found[i], decode)]
      == ListsFor(text, grades[..i + 1], found[..i + 1], decode)
  {
    assert grades[..i + 1][..i] == grades[..i];
    assert found[..i + 1][..i] == found[..i];
  }

  lemma FilesStep<A, B, C>(xs: seq<A>, ys: seq<B>, f: (A, B) -> C, i: nat, files: seq<C>, y: B)
    requires i < |xs| && |ys| == i
    requires files == MapPairs(xs[..i], ys, f)
    ensures files + [f(xs[i], y)] == MapPairs(xs[..i + 1], ys + [y], f)
  {
    assert xs[..i + 1][..i] == xs[..i];
    assert (ys + [y])[..i] == ys;
  }

  /** What the main loop has built after handling the first `i` grades. */
  ghost predicate LoopInvariant(
    text: string, grades: seq<GradeGroup>, found: seq<Option<DeclMatch>>,
    decode: (string, string) -> Option<seq<KanjiRecord>>, i: nat,
    lists: seq<seq<KanjiRecord>>, files: seq<OutputFile>, total: nat)
    requires |found| == |grades| && ValidMatches(text, found) && i <= |grades|
  {
    && lists == ListsFor(text, grades[..i], found[..i], decode)
    && files == MapPairs(grades[..i], lists, GradeFile)
    && total == Sum(Lengths(lists))
  }

  /** One more grade handled keeps the loop invariant. */
  lemma LoopStep(
    text: string, grades: seq<GradeGroup>, found: seq<Option<DeclMatch>>,
    decode: (string, string) -> Option<seq<KanjiRecord>>, i: nat,
    lists: seq<seq<KanjiRecord>>, files: seq<OutputFile>, total: nat,
    kanjiList: seq<KanjiRecord>, file: OutputFile)
    requires |found| == |grades| && ValidMatches(text, found) && i < |grades|
    requires LoopInvariant(text, grades, found, decode, i, lists, files, total)
    requires kanjiList == RecordsOfGrade(text, grades[i], found[i], decode)
    requires file == GradeFile(grades[i], kanjiList)
    ensures LoopInvariant(text, grades, found, decode, i + 1,
      lists + [kanjiList], files + [file], total + |kanjiList|)
  {
    ListsForStep(text, grades, found, decode, i, lists);
    FilesStep(grades, lists, GradeFile, i, files, kanjiList);
    LengthsAppend(lists, kanjiList);
    SumAppend(Lengths(lists), |kanjiList|);
  }

  /** After the last grade the invariant describes the whole table. */
  lemma LoopDone(
    text: string, grades: seq<GradeGroup>, found: seq<Option<DeclMatch>>,
    decode: (string, string) -> Option<seq<KanjiRecord>>,
    lists: seq<seq<KanjiRecord>>, files: seq<OutputFile>, total: nat)
    requires |found| == |grades| && ValidMatches(text, found)
    requires LoopInvariant(text, grades, found, decode, |grades|, lists, files, total)
    ensures lists == ListsFor(text, grades, found, decode)
    ensures files == MapPairs(grades, lists, GradeFile)
    ensures total == Sum(Lengths(lists))
  {
    assert grades[..|grades|] == grades;
    assert found[..|found|] == found;
  }

  /**
   * The main loop over a list of grades: for each one in order, extract its
   * records, add their number to the total, convert them to Dart and produce
   * the output file.
   */
  method ProcessGrades(
    text: string, grades: seq<GradeGroup>, found: seq<Option<DeclMatch>>,
    decode: (string, string) -> Option<seq<KanjiRecord>>)
    returns (lists: seq<seq<KanjiRecord>>, files: seq<OutputFile>, total: nat)
    requires |found| == |grades| && ValidMatches(text, found)
    ensures lists == ListsFor(text, grades, found, decode)
    ensures files == MapPairs(grades, lists, GradeFile)
    ensures total == Sum(Lengths(lists))
  {
    lists, files, total := [], [], 0;
    var i := 0;
    while i < |grades|
      invariant 0 <= i <= |grades|
      invariant LoopInvariant(text, grades, found, decode, i, lists, files, total)
    {
      var kanjiList, file := ProcessGrade(text, grades[i], found[i], decode);
      assert file == GradeFile(grades[i], kanjiList);
      LoopStep(text, grades, found, decode, i, lists, files, total, kanjiList, file);
      lists, files, total := lists + [kanjiList], files + [file], total + |kanjiList|;
      i := i + 1;
    }
    LoopDone(text, grades, found, decode, lists, files, total);
  }

  /**
   * The summary of a run reports the total the loop accumulated, and when
   * every grade yielded its expected number of records it reports COMPLETE.
   */
  lemma RunSummary(lists: seq<seq<KanjiRecord>>, total: nat)
    requires |lists| == |GradeTable|
    requires total == Sum(Lengths(lists))
    ensures Summarize(Lengths(lists)).total == total
    ensures (forall i :: 0 <= i < |lists| ==> |lists[i]| == GradeTable[i].expected) ==>
      Summarize(Lengths(lists)).complete
    ensures forall i :: 0 <= i < |lists| ==>
      (Summarize(Lengths(lists)).matches[i] <==> |lists[i]| == GradeTable[i].expected)
  {
    if forall i :: 0 <= i < |lists| ==> |lists[i]| == GradeTable[i].expected {
      AllGradesMatchIsComplete(Lengths(lists));
    }
  }

  /** The script's run over the seven grades of the table, in table order. */
  method ExtractAll(
    text: string, found: seq<Option<DeclMatch>>,
    decode: (string, string) -> Option<seq<KanjiRecord>>)
    returns (lists: seq<seq<KanjiRecord>>, files: seq<OutputFile>, total: nat)
    requires |found| == |GradeTable| && ValidMatches(text, found)
    ensures |lists| == |GradeTable| && |files| == |GradeTable|
    ensures forall i :: 0 <= i < |GradeTable| ==>
      lists[i] == RecordsOfGrade(text, GradeTable[i], found[i], decode)
    ensures forall i :: 0 <= i < |GradeTable| ==> files[i] == GradeFile(GradeTable[i], lists[i])
    ensures total == Sum(Lengths(lists))
  {
    lists, files, total := ProcessGrades(text, GradeTable, found, decode);
    forall i | 0 <= i < |GradeTable|
      ensures lists[i] == RecordsOfGrade(text, GradeTable[i], found[i], decode)
      ensures files[i] == GradeFile(GradeTable[i], lists[i])
    {
      ListsForAt(text, GradeTable, found, decode, i);
    }
  }
}

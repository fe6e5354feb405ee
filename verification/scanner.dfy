/**
 * The bracket-matching scanner of `extractGradeKanji`: starting just after the
 * `[` of a `const <grade>Kanji = [` declaration, it walks the text one character
 * at a time and stops at the first position where the bracket depth reaches 0.
 *
 * `StateAt` is the reference: the scanner state after consuming a prefix of the
 * text. `Scan` follows the source's while loop step by step and is proved to
 * stop at the first zero of the depth, or to fail exactly when there is none.
 */
module Scanner {
  import opened Outcomes

  /** The four variables of the loop: depth counter, `inString`, `stringChar`, `escaped`. */
  datatype ScanState = ScanState(depth: int, inString: bool, stringChar: Option<char>, escaped: bool)

  /** Depth 1 for the `[` already consumed, outside any string, no pending escape. */
  const Init: ScanState := ScanState(1, false, None, false)

  predicate IsQuote(c: char) {
    c == '\'' || c == '"'
  }

  /** `inString` and `stringChar` move together, and only a quote can open a string. */
  predicate Coherent(st: ScanState) {
    && (st.inString <==> st.stringChar.Some?)
    && (st.stringChar.Some? ==> IsQuote(st.stringChar.value))
  }

  /** One iteration of the loop body on character `c`. */
  function Step(st: ScanState, c: char): (r: ScanState)
    // the character after a backslash is skipped, inside or outside a string
    ensures st.escaped ==> r == st.(escaped := false)
    ensures !st.escaped && c == '\\' ==> r == st.(escaped := true)
    // inside a string, only the opening quote character does anything
    ensures st.inString && !st.escaped && c != '\\' && Some(c) != st.stringChar ==> r == st
    ensures st.inString && !st.escaped && IsQuote(c) && st.stringChar == Some(c) ==> r == st.(inString := false, stringChar := None)
    // outside a string, only ' and " open one (a backtick does not)
    ensures !st.inString && !st.escaped && IsQuote(c) ==> r == st.(inString := true, stringChar := Some(c))
    ensures !st.inString && !st.escaped && c == '[' ==> r == st.(depth := st.depth + 1)
    ensures !st.inString && !st.escaped && c == ']' ==> r == st.(depth := st.depth - 1)
    ensures !st.inString && !st.escaped && !IsQuote(c) && c !in "[]\\" ==> r == st
    ensures Coherent(st) ==> Coherent(r)
  {
    if st.escaped then
      st.(escaped := false)
    else if c == '\\' then
      st.(escaped := true)
    else
      var st' :=
        if IsQuote(c) && !st.inString then st.(inString := true, stringChar := Some(c))
        else if Some(c) == st.stringChar && st.inString then st.(inString := false, stringChar := None)
        else st;
      if !st'.inString then
        if c == '[' then st'.(depth := st'.depth + 1)
        else if c == ']' then st'.(depth := st'.depth - 1)
        else st'
      else st'
  }

  /** The state after the scanner has consumed `text[start..i]`. */
  function StateAt(text: string, start: nat, i: nat): ScanState
    requires start <= i <= |text|
    decreases i
  {
    if i == start then Init else Step(StateAt(text, start, i - 1), text[i - 1])
  }

  /** `e` is the first position after `start` at which the depth is 0. */
  ghost predicate FirstZero(text: string, start: nat, e: nat) {
    && start < e <= |text|
    && StateAt(text, start, e).depth == 0
    && forall j :: start <= j < e ==> StateAt(text, start, j).depth > 0
  }

  /** The depth stays positive all the way to the end of the text. */
  ghost predicate NeverZero(text: string, start: nat)
    requires start <= |text|
  {
    forall j :: start <= j <= |text| ==> StateAt(text, start, j).depth > 0
  }

  lemma {:induction false} StateAtCoherent(text: string, start: nat, i: nat)
    requires start <= i <= |text|
    ensures Coherent(StateAt(text, start, i))
    decreases i
  {
    if i > start {
      StateAtCoherent(text, start, i - 1);
    }
  }

  lemma FirstZeroUnique(text: string, start: nat, e1: nat, e2: nat)
    requires FirstZero(text, start, e1) && FirstZero(text, start, e2)
    ensures e1 == e2
  {
  }

  /** While every earlier depth is positive, the depth cannot have dropped below 0. */
  lemma DepthNeverNegative(text: string, start: nat, i: nat)
    requires start <= i <= |text|
    requires forall j :: start <= j < i ==> StateAt(text, start, j).depth > 0
    ensures StateAt(text, start, i).depth >= 0
  {
    if i > start {
      assert StateAt(text, start, i - 1).depth > 0;
    }
  }

  /** The while loop, from position `i` in state `st`. */
  function Scan(text: string, start: nat, i: nat, st: ScanState): (r: Option<nat>)
    requires start <= i <= |text|
    requires st == StateAt(text, start, i)
    requires forall j :: start <= j < i ==> StateAt(text, start, j).depth > 0
    ensures r.Some? ==> FirstZero(text, start, r.value)
    ensures r.None? ==> NeverZero(text, start)
    decreases |text| - i
  {
    if st.depth > 0 && i < |text| then
      Scan(text, start, i + 1, Step(st, text[i]))
    else if st.depth != 0 then
      DepthNeverNegative(text, start, i);
      None
    else
      Some(i)
  }

  /**
   * The end index of the array literal that opens just before `start`: one past
   * its closing `]`, or None when the text ends while brackets are still open.
   */
  function FindClosingBracket(text: string, start: nat): (r: Option<nat>)
    ensures r.Some? ==> FirstZero(text, start, r.value)
    ensures r.Some? ==> text[r.value - 1] == ']'
    ensures r.None? <==> start > |text| || NeverZero(text, start)
  {
    if start > |text| then None
    else
      var r := Scan(text, start, start, Init);
      if r.Some? then
        assert StateAt(text, start, r.value - 1).depth > 0;
        r
      else
        r
  }

  /**
   * Editing one character in a way that leaves the state after it unchanged
   * changes no later state.
   */
  lemma {:induction false} StatesAgreeAfterInertEdit(text: string, text': string, start: nat, k: nat, j: nat)
    requires |text| == |text'|
    requires start <= k < |text|
    requires forall i :: 0 <= i < |text| && i != k ==> text[i] == text'[i]
    requires Step(StateAt(text, start, k), text[k]) == Step(StateAt(text, start, k), text'[k])
    requires start <= j <= |text|
    ensures StateAt(text, start, j) == StateAt(text', start, j)
    decreases j
  {
    if j > start {
      StatesAgreeAfterInertEdit(text, text', start, k, j - 1);
    }
  }

  /** Such an edit leaves the scan result unchanged. */
  lemma ScanUnaffectedByInertEdit(text: string, text': string, start: nat, k: nat)
    requires |text| == |text'|
    requires start <= k < |text|
    requires forall i :: 0 <= i < |text| && i != k ==> text[i] == text'[i]
    requires Step(StateAt(text, start, k), text[k]) == Step(StateAt(text, start, k), text'[k])
    ensures FindClosingBracket(text, start) == FindClosingBracket(text', start)
  {
    forall j | start <= j <= |text|
      ensures StateAt(text, start, j) == StateAt(text', start, j)
    {
      StatesAgreeAfterInertEdit(text, text', start, k, j);
    }
    var r, r' := FindClosingBracket(text, start), FindClosingBracket(text', start);
    if r.Some? && r'.Some? {
      FirstZeroUnique(text, start, r.value, r'.value);
    }
  }

  /**
   * Inside a string, a character other than a backslash or the opening quote
   * (a `[`, a `]`, the other kind of quote) can be replaced by any other such
   * character without moving the end of the span.
   */
  lemma StringContentIgnored(text: string, start: nat, k: nat, c: char)
    requires start <= k < |text|
    requires StateAt(text, start, k).inString && !StateAt(text, start, k).escaped
    requires text[k] != '\\' && Some(text[k]) != StateAt(text, start, k).stringChar
    requires c != '\\' && Some(c) != StateAt(text, start, k).stringChar
    ensures FindClosingBracket(text, start) == FindClosingBracket(text[k := c], start)
  {
    ScanUnaffectedByInertEdit(text, text[k := c], start, k);
  }

  /** The character right after a backslash never influences the span. */
  lemma EscapedCharIgnored(text: string, start: nat, k: nat, c: char)
    requires start <= k < |text|
    requires StateAt(text, start, k).escaped
    ensures FindClosingBracket(text, start) == FindClosingBracket(text[k := c], start)
  {
    ScanUnaffectedByInertEdit(text, text[k := c], start, k);
  }

  /** Extending the text after a successful scan does not move its end. */
  lemma {:induction false} StateAtPrefix(text: string, more: string, start: nat, j: nat)
    requires start <= j <= |text|
    ensures StateAt(text + more, start, j) == StateAt(text, start, j)
    decreases j
  {
    if j > start {
      StateAtPrefix(text, more, start, j - 1);
      assert (text + more)[j - 1] == text[j - 1];
    }
  }

  lemma ScanIgnoresTextAfterEnd(text: string, more: string, start: nat)
    requires FindClosingBracket(text, start).Some?
    ensures FindClosingBracket(text + more, start) == FindClosingBracket(text, start)
  {
    var e := FindClosingBracket(text, start).value;
    forall j | start <= j <= |text|
      ensures StateAt(text + more, start, j) == StateAt(text, start, j)
    {
      StateAtPrefix(text, more, start, j);
    }
    assert FirstZero(text + more, start, e);
    var r := FindClosingBracket(text + more, start);
    if r.Some? {
      FirstZeroUnique(text + more, start, e, r.value);
    }
  }
}

/**
 * `escapeDart`: five global single-character replaces applied in sequence
 * (backslash, single quote, newline, carriage return, tab), and a reader for
 * the body of a Dart single-quoted string literal to check the escaping against.
 */
module DartEscape {
  import opened Outcomes

  /** `s.replace(/c/g, rep)`: every occurrence of `c`, left to right, inserted text not rescanned. */
  function ReplaceAll(s: string, c: char, rep: string): (r: string)
    ensures c !in s ==> r == s
    ensures c !in rep ==> c !in r
    decreases |s|
  {
    if |s| == 0 then [] else (if s[0] == c then rep else [s[0]]) + ReplaceAll(s[1..], c, rep)
  }

  /** A character in neither the text nor the replacement is not in the result. */
  lemma {:induction false} ReplaceAllAddsOnlyReplacement(s: string, c: char, rep: string, d: char)
    requires d !in s && d !in rep
    ensures d !in ReplaceAll(s, c, rep)
    decreases |s|
  {
    if |s| > 0 {
      ReplaceAllAddsOnlyReplacement(s[1..], c, rep, d);
      assert ReplaceAll(s, c, rep) == (if s[0] == c then rep else [s[0]]) + ReplaceAll(s[1..], c, rep);
    }
  }

  lemma {:induction false} ReplaceAllConcat(a: string, b: string, c: char, rep: string)
    ensures ReplaceAll(a + b, c, rep) == ReplaceAll(a, c, rep) + ReplaceAll(b, c, rep)
    decreases |a|
  {
    if |a| > 0 {
      assert (a + b)[1..] == a[1..] + b;
      ReplaceAllConcat(a[1..], b, c, rep);
    } else {
      assert a + b == b;
    }
  }

  /**
   * The five replaces in the order the source applies them. No raw line break
   * or tab survives, and a string with nothing to escape is left as it is.
   */
  function EscapeDart(s: string): (r: string)
    ensures '\n' !in r && '\r' !in r && '\t' !in r
    ensures (forall i :: 0 <= i < |s| ==> !NeedsEscape(s[i])) ==> r == s
  {
    var s1 := ReplaceAll(s, '\\', "\\\\");
    var s2 := ReplaceAll(s1, '\'', "\\'");
    var s3 := ReplaceAll(s2, '\n', "\\n");
    var s4 := ReplaceAll(s3, '\r', "\\r");
    ReplaceAllAddsOnlyReplacement(s3, '\r', "\\r", '\n');
    ReplaceAllAddsOnlyReplacement(s4, '\t', "\\t", '\n');
    ReplaceAllAddsOnlyReplacement(s4, '\t', "\\t", '\r');
    ReplaceAll(s4, '\t', "\\t")
  }

  /** The characters `escapeDart` rewrites. */
  predicate NeedsEscape(c: char) {
    c == '\\' || c == '\'' || c == '\n' || c == '\r' || c == '\t'
  }

  /** The per-character escape table. */
  function EscapeChar(c: char): (r: string)
    ensures NeedsEscape(c) ==> |r| == 2 && r[0] == '\\'
    ensures !NeedsEscape(c) ==> r == [c]
  {
    if c == '\\' then "\\\\"
    else if c == '\'' then "\\'"
    else if c == '\n' then "\\n"
    else if c == '\r' then "\\r"
    else if c == '\t' then "\\t"
    else [c]
  }

  /** Each character replaced by its escape, independently of its neighbours. */
  function EscapeMap(s: string): (r: string)
    ensures |r| >= |s|
    ensures forall i :: 0 <= i < |r| ==> r[i] != '\n' && r[i] != '\r' && r[i] != '\t'
    decreases |s|
  {
    if |s| == 0 then [] else EscapeChar(s[0]) + EscapeMap(s[1..])
  }

  lemma EscapeDartConcat(a: string, b: string)
    ensures EscapeDart(a + b) == EscapeDart(a) + EscapeDart(b)
  {
    var a1, b1 := ReplaceAll(a, '\\', "\\\\"), ReplaceAll(b, '\\', "\\\\");
    ReplaceAllConcat(a, b, '\\', "\\\\");
    var a2, b2 := ReplaceAll(a1, '\'', "\\'"), ReplaceAll(b1, '\'', "\\'");
    ReplaceAllConcat(a1, b1, '\'', "\\'");
    var a3, b3 := ReplaceAll(a2, '\n', "\\n"), ReplaceAll(b2, '\n', "\\n");
    ReplaceAllConcat(a2, b2, '\n', "\\n");
    var a4, b4 := ReplaceAll(a3, '\r', "\\r"), ReplaceAll(b3, '\r', "\\r");
    ReplaceAllConcat(a3, b3, '\r', "\\r");
    ReplaceAllConcat(a4, b4, '\t', "\\t");
  }

  /** On one character the five passes give exactly the table entry: no pass rewrites what an earlier one inserted. */
  lemma EscapeDartOneChar(c: char)
    ensures EscapeDart([c]) == EscapeChar(c)
  {
    var r1 := ReplaceAll([c], '\\', "\\\\");
    if c == '\\' {
      assert r1 == "\\\\";
      assert ReplaceAll(r1, '\'', "\\'") == r1;
    } else {
      assert r1 == [c];
    }
  }

  /** The chain of five replaces equals the per-character map. */
  lemma {:induction false} EscapeDartIsPerCharMap(s: string)
    ensures EscapeDart(s) == EscapeMap(s)
    decreases |s|
  {
    if |s| > 0 {
      assert s == [s[0]] + s[1..];
      EscapeDartConcat([s[0]], s[1..]);
      EscapeDartOneChar(s[0]);
      EscapeDartIsPerCharMap(s[1..]);
    }
  }

  /** A string with none of the five characters is emitted unchanged. */
  lemma EscapeIdentityOnPlain(s: string)
    requires forall i :: 0 <= i < |s| ==> !NeedsEscape(s[i])
    ensures EscapeDart(s) == s
  {
  }

  /** The escaped text never contains a raw line feed, carriage return or tab. */
  lemma EscapeNoRawControl(s: string)
    ensures '\n' !in EscapeDart(s) && '\r' !in EscapeDart(s) && '\t' !in EscapeDart(s)
  {
    EscapeDartIsPerCharMap(s);
  }

  /** The character a Dart escape `\e` stands for; None for the hex forms `\x` and `\u`. */
  function DartEscapeValue(e: char): Option<char> {
    if e == 'n' then Some('\n')
    else if e == 'r' then Some('\r')
    else if e == 't' then Some('\t')
    else if e == 'b' then Some('\U{8}')
    else if e == 'f' then Some('\U{C}')
    else if e == 'v' then Some('\U{B}')
    else if e == 'x' || e == 'u' then None
    else Some(e)
  }

  function Prepend(c: char, r: Option<string>): Option<string> {
    if r.Some? then Some([c] + r.value) else None
  }

  /**
   * The value of the body of a Dart single-quoted string literal, or None when
   * the body is not a plain literal: a raw `'` would end it, a raw line break
   * is not allowed in it, `$` starts an interpolation, and a trailing lone
   * backslash has nothing to escape.
   */
  function DartUnescape(s: string): Option<string>
    decreases |s|
  {
    if |s| == 0 then Some([])
    else if s[0] == '\\' then
      if |s| == 1 then None
      else
        var d := DartEscapeValue(s[1]);
        if d.None? then None else Prepend(d.value, DartUnescape(s[2..]))
    else if s[0] == '\'' || s[0] == '\n' || s[0] == '\r' || s[0] == '$' then None
    else Prepend(s[0], DartUnescape(s[1..]))
  }

  lemma DartUnescapeEscapeChar(c: char, rest: string)
    requires c != '$'
    ensures DartUnescape(EscapeChar(c) + rest) == Prepend(c, DartUnescape(rest))
  {
    var t := EscapeChar(c) + rest;
    if NeedsEscape(c) {
      assert t[2..] == rest;
    } else {
      assert t[1..] == rest;
    }
  }

  lemma {:induction false} EscapeMapRoundTrip(s: string)
    requires '$' !in s
    ensures DartUnescape(EscapeMap(s)) == Some(s)
    decreases |s|
  {
    if |s| > 0 {
      EscapeMapRoundTrip(s[1..]);
      DartUnescapeEscapeChar(s[0], EscapeMap(s[1..]));
      assert [s[0]] + s[1..] == s;
    }
  }

  /** Reading the emitted literal body in Dart gives back the original string. */
  lemma EscapeRoundTrip(s: string)
    requires '$' !in s
    ensures DartUnescape(EscapeDart(s)) == Some(s)
  {
    EscapeDartIsPerCharMap(s);
    EscapeMapRoundTrip(s);
  }

  /** `$` is passed through unescaped, and Dart does not read it back as a plain character. */
  lemma DollarBreaksRoundTrip()
    ensures EscapeDart("$") == "$"
    ensures DartUnescape(EscapeDart("$")) == None
  {
  }
}

/**
 * Worked examples of both rewrites, proved on the model: each lemma fixes one
 * math string and states the template body the rewrite produces for it. The
 * proofs take the string apart into pieces (literal text, delimiters,
 * markers) and account for each piece with one of the piece lemmas. The
 * delimiters are parameters fixed by a precondition rather than literals, so
 * that the verifier does not evaluate the scan on literals. The `…Spelling` lemmas
 * only regroup a string literal into those pieces.
 */
module TemplateExamples {
  import Tok = DelimiterTokenizer
  import Mark = MarkerSubstitution
  import MarkerPlugin

  const JsMarker: string := MarkerPlugin.Defaults.expressionMarker

  // ---------------------------------------------------------------------
  // Delimiter tokenizer, default delimiters `\js{` and `}`
  // ---------------------------------------------------------------------

  /** A backslash not followed by `js{` is copied. */
  lemma CopyBackslash(rest: string, state: Tok.State, start: string, end: string)
    requires start == "\\js{" && end == "}"
    requires rest != [] && rest[0] != 'j'
    ensures Tok.Scan("\\" + rest, state, start, end) == "\\" + Tok.Scan(rest, state, start, end)
  {
    assert ("\\" + rest)[0] == '\\' && ("\\" + rest)[1] == rest[0];
    Tok.CopyPiece('\\', rest, state, start, end);
  }

  /** The literal prefix `\pi = ` is copied in state 'math'. */
  lemma PiPrefix(region: string, out: string, start: string, end: string)
    requires start == "\\js{" && end == "}"
    requires Tok.Scan(region, Tok.InMath, start, end) == out
    ensures Tok.Scan("\\" + ("pi = " + region), Tok.InMath, start, end) == "\\" + ("pi = " + out)
  {
    assert start[0] == '\\' && end[0] == '}' && '\\' !in "pi = " && '}' !in "pi = ";
    Tok.PlainPiece("pi = ", region, Tok.InMath, start, end);
    CopyBackslash("pi = " + region, Tok.InMath, start, end);
  }

  /** `\pi = \js{Math.PI}` becomes `\pi = ${Math.PI}`. */
  lemma PlaceholderForExpression(start: string, end: string)
    requires start == "\\js{" && end == "}"
    ensures Tok.TransformToTemplateString("\\pi = \\js{Math.PI}", start, end) == "\\pi = ${Math.PI}"
  {
    PlaceholderForExpressionSpelling(start, end);
    PlaceholderForExpressionSpelling2();
    PlaceholderRegion(start, end);
    PiPrefix(start + ("Math.PI" + (end + "")), "${" + ("Math.PI" + ("}" + "")), start, end);
  }

  lemma PlaceholderForExpressionSpelling(start: string, end: string)
    requires start == "\\js{" && end == "}"
    ensures "\\pi = \\js{Math.PI}" == "\\" + ("pi = " + (start + ("Math.PI" + (end + ""))))
  {
  }

  lemma PlaceholderForExpressionSpelling2()
    ensures "\\pi = ${Math.PI}" == "\\" + ("pi = " + ("${" + ("Math.PI" + ("}" + ""))))
  {
  }

  lemma PlaceholderRegion(start: string, end: string)
    requires start == "\\js{" && end == "}"
    ensures Tok.Scan(start + ("Math.PI" + (end + "")), Tok.InMath, start, end)
         == "${" + ("Math.PI" + ("}" + ""))
  {
    assert start[0] == '\\' && end[0] == '}' && '\\' !in "Math.PI" && '}' !in "Math.PI";
    assert Tok.Scan("", Tok.InMath, start, end) == "";
    Tok.EndPiece("", Tok.InJs, start, end);
    Tok.PlainPiece("Math.PI", end + "", Tok.InJs, start, end);
    Tok.StartPiece("Math.PI" + (end + ""), Tok.InMath, start, end);
  }

  /**
   * `\pi = \js{myFunc({ a: 10 })}` becomes `\pi = ${myFunc({ a: 10 })}`. The
   * inner `}` already ends the expression and the outer one is emitted as
   * `}` in state 'math', so the braces come out as they went in.
   */
  lemma NestedBracesInExpression(start: string, end: string)
    requires start == "\\js{" && end == "}"
    ensures Tok.TransformToTemplateString("\\pi = \\js{myFunc({ a: 10 })}", start, end)
         == "\\pi = ${myFunc({ a: 10 })}"
  {
    var region := start + ("myFunc({ a: 10 " + (end + (")" + (end + ""))));
    var out := "${" + ("myFunc({ a: 10 " + ("}" + (")" + ("}" + ""))));
    NestedBracesInExpressionSpelling(start, end);
    NestedBracesInExpressionSpelling2();
    NestedBracesRegion(start, end);
    PiPrefix(region, out, start, end);
  }

  lemma NestedBracesInExpressionSpelling(start: string, end: string)
    requires start == "\\js{" && end == "}"
    ensures "\\pi = \\js{myFunc({ a: 10 })}" == "\\" + ("pi = " + (start + ("myFunc({ a: 10 " + (end + (")" + (end + ""))))))
  {
  }

  lemma NestedBracesInExpressionSpelling2()
    ensures "\\pi = ${myFunc({ a: 10 })}" == "\\" + ("pi = " + ("${" + ("myFunc({ a: 10 " + ("}" + (")" + ("}" + ""))))))
  {
  }

  lemma NestedBracesRegion(start: string, end: string)
    requires start == "\\js{" && end == "}"
    ensures Tok.Scan(start + ("myFunc({ a: 10 " + (end + (")" + (end + "")))), Tok.InMath, start, end)
         == "${" + ("myFunc({ a: 10 " + ("}" + (")" + ("}" + ""))))
  {
    assert start[0] == '\\' && end[0] == '}' && '\\' !in ")" && '}' !in ")";
    assert '\\' !in "myFunc({ a: 10 " && '}' !in "myFunc({ a: 10 ";
    assert Tok.Scan("", Tok.InMath, start, end) == "";
    Tok.EndPiece("", Tok.InMath, start, end);
    Tok.PlainPiece(")", end + "", Tok.InMath, start, end);
    Tok.EndPiece(")" + (end + ""), Tok.InJs, start, end);
    Tok.PlainPiece("myFunc({ a: 10 ", end + (")" + (end + "")), Tok.InJs, start, end);
    Tok.StartPiece("myFunc({ a: 10 " + (end + (")" + (end + ""))), Tok.InMath, start, end);
  }

  /**
   * `\js{"\js{\js{1 + 1}}"}` becomes `${"\js{\js{1 + 1}}"}`: start delimiters
   * inside an expression are copied as they are, not nested.
   */
  lemma StartDelimiterInsideExpression(start: string, end: string)
    requires start == "\\js{" && end == "}"
    ensures Tok.TransformToTemplateString("\\js{\"\\js{\\js{1 + 1}}\"}", start, end)
         == "${\"\\js{\\js{1 + 1}}\"}"
  {
    var closing := end + (end + ("\"" + (end + "")));
    var closed := "}" + ("}" + ("\"" + ("}" + "")));
    StartDelimiterInsideExpressionSpelling(start, end);
    StartDelimiterInsideExpressionSpelling2(start, end);
    ClosingAfterNestedStarts(start, end);
    NestedStarts(closing, closed, start, end);
  }

  lemma StartDelimiterInsideExpressionSpelling(start: string, end: string)
    requires start == "\\js{" && end == "}"
    ensures "\\js{\"\\js{\\js{1 + 1}}\"}" == start + ("\"" + (start + (start + ("1 + 1" + (end + (end + ("\"" + (end + ""))))))))
  {
  }

  lemma StartDelimiterInsideExpressionSpelling2(start: string, end: string)
    requires start == "\\js{" && end == "}"
    ensures "${\"\\js{\\js{1 + 1}}\"}" == "${" + ("\"" + (start + (start + ("1 + 1" + ("}" + ("}" + ("\"" + ("}" + ""))))))))
  {
  }

  lemma NestedStarts(closing: string, closed: string, start: string, end: string)
    requires start == "\\js{" && end == "}"
    requires Tok.Scan(closing, Tok.InJs, start, end) == closed
    ensures Tok.Scan(start + ("\"" + (start + (start + ("1 + 1" + closing)))), Tok.InMath, start, end)
         == "${" + ("\"" + (start + (start + ("1 + 1" + closed))))
  {
    assert start[0] == '\\' && end[0] == '}' && '\\' !in "1 + 1" && '}' !in "1 + 1";
    assert '\\' !in "\"" && '}' !in "\"";
    Tok.PlainPiece("1 + 1", closing, Tok.InJs, start, end);
    Tok.StartPiece("1 + 1" + closing, Tok.InJs, start, end);
    Tok.StartPiece(start + ("1 + 1" + closing), Tok.InJs, start, end);
    Tok.PlainPiece("\"", start + (start + ("1 + 1" + closing)), Tok.InJs, start, end);
    Tok.StartPiece("\"" + (start + (start + ("1 + 1" + closing))), Tok.InMath, start, end);
  }

  lemma ClosingAfterNestedStarts(start: string, end: string)
    requires start == "\\js{" && end == "}"
    ensures Tok.Scan(end + (end + ("\"" + (end + ""))), Tok.InJs, start, end)
         == "}" + ("}" + ("\"" + ("}" + "")))
  {
    assert start[0] == '\\' && end[0] == '}' && '\\' !in "\"" && '}' !in "\"";
    assert Tok.Scan("", Tok.InMath, start, end) == "";
    Tok.EndPiece("", Tok.InMath, start, end);
    Tok.PlainPiece("\"", end + "", Tok.InMath, start, end);
    Tok.EndPiece("\"" + (end + ""), Tok.InMath, start, end);
    Tok.EndPiece(end + ("\"" + (end + "")), Tok.InJs, start, end);
  }

  /**
   * An unterminated expression is not an error of the rewrite:
   * `\pi = \js{Math.PI` becomes `\pi = ${Math.PI`, and only the parse of
   * that template can fail.
   */
  lemma UnterminatedExpression(start: string, end: string)
    requires start == "\\js{" && end == "}"
    ensures Tok.TransformToTemplateString("\\pi = \\js{Math.PI", start, end) == "\\pi = ${Math.PI"
  {
    UnterminatedExpressionSpelling(start, end);
    UnterminatedExpressionSpelling2();
    UnterminatedRegion(start, end);
    PiPrefix(start + ("Math.PI" + ""), "${" + ("Math.PI" + ""), start, end);
  }

  lemma UnterminatedExpressionSpelling(start: string, end: string)
    requires start == "\\js{" && end == "}"
    ensures "\\pi = \\js{Math.PI" == "\\" + ("pi = " + (start + ("Math.PI" + "")))
  {
  }

  lemma UnterminatedExpressionSpelling2()
    ensures "\\pi = ${Math.PI" == "\\" + ("pi = " + ("${" + ("Math.PI" + "")))
  {
  }

  lemma UnterminatedRegion(start: string, end: string)
    requires start == "\\js{" && end == "}"
    ensures Tok.Scan(start + ("Math.PI" + ""), Tok.InMath, start, end) == "${" + ("Math.PI" + "")
  {
    assert start[0] == '\\' && end[0] == '}' && '\\' !in "Math.PI" && '}' !in "Math.PI";
    assert Tok.Scan("", Tok.InJs, start, end) == "";
    Tok.PlainPiece("Math.PI", "", Tok.InJs, start, end);
    Tok.StartPiece("Math.PI" + "", Tok.InMath, start, end);
  }

  /**
   * `\frac{a}{b}` comes back unchanged: each `}` is an end delimiter, but
   * it is emitted as `}` again.
   */
  lemma PlainLatexUnchanged(start: string, end: string)
    requires start == "\\js{" && end == "}"
    ensures Tok.TransformToTemplateString("\\frac{a}{b}", start, end) == "\\frac{a}{b}"
  {
    var tex := "\\frac{a}{b}";
    assert tex + "" == tex && tex[1] == 'f' && '\\' !in tex[1..];
    NoStartInTex(tex, "", start);
    Tok.NoStartIsIdentity(tex, start);
  }

  /** In TeX whose only backslash opens a command other than `\js…`, the start delimiter never begins. */
  lemma NoStartInTex(lit: string, rest: string, start: string)
    requires start == "\\js{"
    requires |lit| >= 2 && lit[0] == '\\' && lit[1] != 'j' && '\\' !in lit[1..]
    ensures forall k :: 0 <= k < |lit| ==> !(start <= (lit + rest)[k..])
  {
    forall k | 0 <= k < |lit|
      ensures !(start <= (lit + rest)[k..])
    {
      if k == 0 {
        assert (lit + rest)[k..][1] == lit[1];
      } else {
        assert (lit + rest)[k..][0] == lit[k] == lit[1..][k - 1];
      }
    }
  }

  /**
   * `\frac{a}{b} = \js{x}` becomes `\frac{a}{b} = ${x}`: the braces of the
   * TeX before the expression are copied, and only the delimited expression
   * turns into a placeholder.
   */
  lemma BracedTexBeforeExpression(start: string, end: string)
    requires start == "\\js{" && end == "}"
    ensures Tok.TransformToTemplateString("\\frac{a}{b} = \\js{x}", start, end) == "\\frac{a}{b} = ${x}"
  {
    var lit := "\\frac{a}{b} = ";
    var region := start + ("x" + (end + ""));
    BracedTexBeforeExpressionSpelling(start, end);
    BracedTexBeforeExpressionSpelling2();
    assert lit[1] == 'f' && '\\' !in lit[1..];
    NoStartInTex(lit, region, start);
    Tok.LiteralTexPiece(lit, region, start);
    XRegion(start, end);
  }

  lemma BracedTexBeforeExpressionSpelling(start: string, end: string)
    requires start == "\\js{" && end == "}"
    ensures "\\frac{a}{b} = \\js{x}" == "\\frac{a}{b} = " + (start + ("x" + (end + "")))
  {
  }

  lemma BracedTexBeforeExpressionSpelling2()
    ensures "\\frac{a}{b} = ${x}" == "\\frac{a}{b} = " + ("${" + ("x" + ("}" + "")))
  {
  }

  lemma XRegion(start: string, end: string)
    requires start == "\\js{" && end == "}"
    ensures Tok.Scan(start + ("x" + (end + "")), Tok.InMath, start, end) == "${" + ("x" + ("}" + ""))
  {
    assert start[0] == '\\' && end[0] == '}' && '\\' !in "x" && '}' !in "x";
    assert Tok.Scan("", Tok.InMath, start, end) == "";
    Tok.EndPiece("", Tok.InJs, start, end);
    Tok.PlainPiece("x", end + "", Tok.InJs, start, end);
    Tok.StartPiece("x" + (end + ""), Tok.InMath, start, end);
  }

  /** `\pi = \js` comes back unchanged: `\js` without `{` is not a start delimiter. */
  lemma MarkerWithoutBraceKept(start: string, end: string)
    requires start == "\\js{" && end == "}"
    ensures Tok.TransformToTemplateString("\\pi = \\js", start, end) == "\\pi = \\js"
  {
    MarkerWithoutBraceKeptSpelling();
    TrailingMarker(start, end);
    PiPrefix("\\" + ("js" + ""), "\\" + ("js" + ""), start, end);
  }

  lemma MarkerWithoutBraceKeptSpelling()
    ensures "\\pi = \\js" == "\\" + ("pi = " + ("\\" + ("js" + "")))
  {
  }

  lemma TrailingMarker(start: string, end: string)
    requires start == "\\js{" && end == "}"
    ensures Tok.Scan("\\" + ("js" + ""), Tok.InMath, start, end) == "\\" + ("js" + "")
  {
    assert start[0] == '\\' && end[0] == '}' && '\\' !in "js" && '}' !in "js";
    assert |"\\" + ("js" + "")| < |start| && ("\\" + ("js" + ""))[0] != end[0];
    assert Tok.Scan("", Tok.InMath, start, end) == "";
    Tok.PlainPiece("js", "", Tok.InMath, start, end);
    Tok.CopyPiece('\\', "js" + "", Tok.InMath, start, end);
  }

  /** With the delimiters `[[` and `]]`, `\pi = [[Math.PI]]` becomes `\pi = ${Math.PI}`. */
  lemma CustomDelimiters(start: string, end: string)
    requires start == "[[" && end == "]]"
    ensures Tok.TransformToTemplateString("\\pi = [[Math.PI]]", start, end) == "\\pi = ${Math.PI}"
  {
    CustomDelimitersSpelling(start, end);
    CustomDelimitersSpelling2();
    CustomDelimiterPieces(start, end);
  }

  lemma CustomDelimitersSpelling(start: string, end: string)
    requires start == "[[" && end == "]]"
    ensures "\\pi = [[Math.PI]]" == "\\pi = " + (start + ("Math.PI" + (end + "")))
  {
  }

  lemma CustomDelimitersSpelling2()
    ensures "\\pi = ${Math.PI}" == "\\pi = " + ("${" + ("Math.PI" + ("}" + "")))
  {
  }

  lemma CustomDelimiterPieces(start: string, end: string)
    requires start == "[[" && end == "]]"
    ensures Tok.Scan("\\pi = " + (start + ("Math.PI" + (end + ""))), Tok.InMath, start, end)
         == "\\pi = " + ("${" + ("Math.PI" + ("}" + "")))
  {
    assert start[0] == '[' && end[0] == ']' && '[' !in "Math.PI" && ']' !in "Math.PI";
    assert '[' !in "\\pi = " && ']' !in "\\pi = ";
    assert Tok.Scan("", Tok.InMath, start, end) == "";
    Tok.EndPiece("", Tok.InJs, start, end);
    Tok.PlainPiece("Math.PI", end + "", Tok.InJs, start, end);
    Tok.StartPiece("Math.PI" + (end + ""), Tok.InMath, start, end);
    Tok.PlainPiece("\\pi = ", start + ("Math.PI" + (end + "")), Tok.InMath, start, end);
  }

  // ---------------------------------------------------------------------
  // Marker substitution, default marker `\js`
  // ---------------------------------------------------------------------

  /** The literal prefix `\pi = ` is copied. */
  lemma MarkerPiPrefix(rest: string, out: string, marker: string)
    requires marker == "\\js"
    requires Mark.ReplaceMarker(rest, marker) == out
    ensures Mark.ReplaceMarker("\\" + ("pi = " + rest), marker) == "\\" + ("pi = " + out)
  {
    assert (marker + "{")[0] == '\\' && '\\' !in "pi = ";
    assert ("\\" + ("pi = " + rest))[1] == 'p' && (marker + "{")[1] == 'j';
    Mark.PlainPiece("pi = ", rest, marker);
    Mark.CopyPiece('\\', "pi = " + rest, marker);
  }

  /** `\pi = \js{Math.PI}` becomes `\pi = ${Math.PI}`. */
  lemma MarkerBeforeExpression()
    ensures Mark.ReplaceMarker("\\pi = \\js{Math.PI}", JsMarker) == "\\pi = ${Math.PI}"
  {
    MarkerBeforeExpressionSpelling();
    MarkerBeforeExpressionSpelling2();
    MarkedExpression("{Math.PI}", JsMarker);
    MarkerPiPrefix(JsMarker + ("{Math.PI}" + ""), "$" + ("{Math.PI}" + ""), JsMarker);
  }

  lemma MarkerBeforeExpressionSpelling()
    ensures "\\pi = \\js{Math.PI}" == "\\" + ("pi = " + (JsMarker + ("{Math.PI}" + "")))
  {
  }

  lemma MarkerBeforeExpressionSpelling2()
    ensures "\\pi = ${Math.PI}" == "\\" + ("pi = " + ("$" + ("{Math.PI}" + "")))
  {
  }

  /** A marker before an expression free of backslashes becomes `$`; the expression is kept. */
  lemma MarkedExpression(expr: string, marker: string)
    requires marker == "\\js"
    requires expr != [] && expr[0] == '{' && '\\' !in expr
    ensures Mark.ReplaceMarker(marker + (expr + ""), marker) == "$" + (expr + "")
  {
    assert (marker + "{")[0] == '\\';
    assert Mark.ReplaceMarker("", marker) == "";
    Mark.PlainPiece(expr, "", marker);
    Mark.MarkerPiece(expr + "", marker);
  }

  /** `\pi = \js{myFunc({ a: 10 })}` becomes `\pi = ${myFunc({ a: 10 })}`. */
  lemma MarkerBeforeNestedBraces()
    ensures Mark.ReplaceMarker("\\pi = \\js{myFunc({ a: 10 })}", JsMarker) == "\\pi = ${myFunc({ a: 10 })}"
  {
    var expr := "{myFunc({ a: 10 })}";
    MarkerBeforeNestedBracesSpelling();
    MarkerBeforeNestedBracesSpelling2();
    assert '\\' !in expr;
    MarkedExpression(expr, JsMarker);
    MarkerPiPrefix(JsMarker + (expr + ""), "$" + (expr + ""), JsMarker);
  }

  lemma MarkerBeforeNestedBracesSpelling()
    ensures "\\pi = \\js{myFunc({ a: 10 })}" == "\\" + ("pi = " + (JsMarker + ("{myFunc({ a: 10 })}" + "")))
  {
  }

  lemma MarkerBeforeNestedBracesSpelling2()
    ensures "\\pi = ${myFunc({ a: 10 })}" == "\\" + ("pi = " + ("$" + ("{myFunc({ a: 10 })}" + "")))
  {
  }

  /** `\pi = \js` comes back unchanged: the marker is not followed by `{`. */
  lemma TrailingMarkerKept(marker: string)
    requires marker == "\\js"
    ensures Mark.ReplaceMarker("\\pi = \\js", marker) == "\\pi = \\js"
  {
    Mark.NoBraceIsIdentity("\\pi = \\js", marker);
  }

  /**
   * The marker rewrite knows nothing of `[[` and `]]`: `\pi = [[Math.PI]]`
   * holds no brace, so it comes back unchanged.
   */
  lemma MarkerIgnoresCustomDelimiters()
    ensures Mark.ReplaceMarker("\\pi = [[Math.PI]]", JsMarker) == "\\pi = [[Math.PI]]"
  {
    assert '{' !in "\\pi = [[Math.PI]]";
    Mark.NoBraceIsIdentity("\\pi = [[Math.PI]]", JsMarker);
  }

  /** `\frac{a}{b}` comes back unchanged. */
  lemma MarkerPlainLatexUnchanged()
    ensures Mark.ReplaceMarker("\\frac{a}{b}", JsMarker) == "\\frac{a}{b}"
  {
    MarkerPlainLatexUnchangedSpelling();
    PlainLatexMarker(JsMarker);
  }

  lemma MarkerPlainLatexUnchangedSpelling()
    ensures "\\frac{a}{b}" == "\\" + ("frac{a}{b}" + "")
  {
  }

  lemma PlainLatexMarker(marker: string)
    requires marker == "\\js"
    ensures Mark.ReplaceMarker("\\" + ("frac{a}{b}" + ""), marker) == "\\" + ("frac{a}{b}" + "")
  {
    assert (marker + "{")[0] == '\\' && '\\' !in "frac{a}{b}";
    assert ("\\" + ("frac{a}{b}" + ""))[1] == 'f' && (marker + "{")[1] == 'j';
    assert Mark.ReplaceMarker("", marker) == "";
    Mark.PlainPiece("frac{a}{b}", "", marker);
    Mark.CopyPiece('\\', "frac{a}{b}" + "", marker);
  }

  /**
   * `\js{"\js{\js{1 + 1}}"}` becomes `${"${${1 + 1}}"}`: the substitution
   * does not know where an expression starts or ends, so markers inside
   * the string literal are replaced too.
   */
  lemma MarkerInsideExpressionReplaced()
    ensures Mark.ReplaceMarker("\\js{\"\\js{\\js{1 + 1}}\"}", JsMarker) == "${\"${${1 + 1}}\"}"
  {
    var tail := "{1 + 1}}\"}";
    MarkerInsideExpressionReplacedSpelling();
    MarkerInsideExpressionReplacedSpelling2();
    assert tail[0] == '{' && '\\' !in tail;
    MarkedExpression(tail, JsMarker);
    ThreeMarkers(JsMarker + (tail + ""), "$" + (tail + ""), JsMarker);
  }

  lemma MarkerInsideExpressionReplacedSpelling()
    ensures "\\js{\"\\js{\\js{1 + 1}}\"}" == JsMarker + ("{\"" + (JsMarker + ("{" + (JsMarker + ("{1 + 1}}\"}" + "")))))
  {
  }

  lemma MarkerInsideExpressionReplacedSpelling2()
    ensures "${\"${${1 + 1}}\"}" == "$" + ("{\"" + ("$" + ("{" + ("$" + ("{1 + 1}}\"}" + "")))))
  {
  }

  lemma ThreeMarkers(rest: string, out: string, marker: string)
    requires marker == "\\js"
    requires Mark.ReplaceMarker(rest, marker) == out
    ensures Mark.ReplaceMarker(marker + ("{\"" + (marker + ("{" + rest))), marker)
         == "$" + ("{\"" + ("$" + ("{" + out)))
  {
    assert (marker + "{")[0] == '\\' && '\\' !in "{" && '\\' !in "{\"";
    Mark.PlainPiece("{", rest, marker);
    Mark.MarkerPiece("{" + rest, marker);
    Mark.PlainPiece("{\"", marker + ("{" + rest), marker);
    Mark.MarkerPiece("{\"" + (marker + ("{" + rest)), marker);
  }

  /**
   * The two plugins disagree on a marker inside an expression: only the
   * delimiter tokenizer leaves `\js{` inside a string literal alone.
   */
  lemma RewritesDisagreeInsideExpression(start: string, end: string, marker: string)
    requires start == "\\js{" && end == "}" && marker == JsMarker
    ensures var s := "\\js{\"\\js{\\js{1 + 1}}\"}";
      Tok.TransformToTemplateString(s, start, end) != Mark.ReplaceMarker(s, marker)
  {
    assert "${\"\\js{\\js{1 + 1}}\"}"[3] != "${\"${${1 + 1}}\"}"[3];
    StartDelimiterInsideExpression(start, end);
    MarkerInsideExpressionReplaced();
  }
}

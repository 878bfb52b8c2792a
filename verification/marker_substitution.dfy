/**
 * The template rewrite of `remarkMathMdx`: a global, left-to-right,
 * non-overlapping replacement of the expression marker by `$` wherever the
 * marker is immediately followed by `{`. The `{` is only looked at, not
 * consumed, and braces are not counted.
 */
module MarkerSubstitution {
  import opened LiteralRegex

  /**
   * `s.replace(/(marker)(?=\{)/g, '$')` for a literal `marker`. After a
   * non-empty match the scan resumes right after the marker; after an empty
   * match (empty marker) it copies one character and moves on, as the
   * JavaScript engine does.
   */
  function ReplaceMarker(s: string, marker: string): string
    decreases |s|
  {
    if s == [] then []
    else if marker + "{" <= s then
      if marker == [] then "$" + [s[0]] + ReplaceMarker(s[1..], marker)
      else "$" + ReplaceMarker(s[|marker|..], marker)
    else [s[0]] + ReplaceMarker(s[1..], marker)
  }

  /** The number of replacements `ReplaceMarker` makes. */
  function Replacements(s: string, marker: string): nat
    decreases |s|
  {
    if s == [] then 0
    else if marker + "{" <= s then
      1 + (if marker == [] then Replacements(s[1..], marker) else Replacements(s[|marker|..], marker))
    else Replacements(s[1..], marker)
  }

  /**
   * `transformToTemplateString(string, expressionMarker)`: the marker's first
   * backslash is escaped and the result used as a regular expression. For a
   * safe marker that expression matches the marker literally.
   */
  function TransformToTemplateString(s: string, marker: string): (r: string)
    requires SafeMarker(marker)
    ensures r == ReplaceMarker(s, marker)
  {
    EscapeFirstBackslashIsLiteral(marker);
    ReplaceMarker(s, LiteralOf(EscapeFirstBackslash(marker)).value)
  }

  /**
   * Each replacement turns the marker into the single character `$`, and
   * nothing else changes length.
   */
  lemma {:induction false} ReplaceMarkerLength(s: string, marker: string)
    ensures |ReplaceMarker(s, marker)| == |s| - (|marker| - 1) * Replacements(s, marker)
    decreases |s|
  {
    if s != [] {
      var m := |marker|;
      if marker + "{" <= s {
        var rest := if marker == [] then s[1..] else s[m..];
        var n := Replacements(rest, marker);
        ReplaceMarkerLength(rest, marker);
        assert Replacements(s, marker) == n + 1;
        assert |ReplaceMarker(s, marker)| == |rest| - (m - 1) * n + (if marker == [] then 2 else 1);
        MulSucc(m - 1, n);
      } else {
        ReplaceMarkerLength(s[1..], marker);
      }
    }
  }

  lemma MulSucc(a: int, n: int)
    ensures a * (n + 1) == a * n + a
  {
  }

  /** Text in which the marker is never followed by `{` comes back unchanged. */
  lemma {:induction false} NoMarkerIsIdentity(s: string, marker: string)
    requires forall k :: 0 <= k < |s| ==> !(marker + "{" <= s[k..])
    ensures ReplaceMarker(s, marker) == s
    ensures Replacements(s, marker) == 0
    decreases |s|
  {
    if s != [] {
      assert s[0..] == s;
      forall k | 0 <= k < |s[1..]|
        ensures !(marker + "{" <= s[1..][k..])
      {
        assert s[1..][k..] == s[k + 1..];
      }
      NoMarkerIsIdentity(s[1..], marker);
      assert s == [s[0]] + s[1..];
    }
  }

  /** Without any `{` nothing is replaced, whatever the marker; a trailing marker stays. */
  lemma NoBraceIsIdentity(s: string, marker: string)
    requires '{' !in s
    ensures ReplaceMarker(s, marker) == s
  {
    forall k | 0 <= k < |s|
      ensures !(marker + "{" <= s[k..])
    {
      if k + |marker| < |s| {
        assert s[k + |marker|] != '{';
        assert s[k..][|marker|] != (marker + "{")[|marker|];
      }
    }
    NoMarkerIsIdentity(s, marker);
  }

  /** Replace every `$` by the marker: undoes the substitution. */
  function RestoreMarker(r: string, marker: string): string
    decreases |r|
  {
    if r == [] then []
    else (if r[0] == '$' then marker else [r[0]]) + RestoreMarker(r[1..], marker)
  }

  lemma {:induction false} RestoreAppend(a: string, b: string, marker: string)
    ensures RestoreMarker(a + b, marker) == RestoreMarker(a, marker) + RestoreMarker(b, marker)
    decreases |a|
  {
    if a == [] {
      assert a + b == b;
    } else {
      assert (a + b)[0] == a[0];
      assert (a + b)[1..] == a[1..] + b;
      RestoreAppend(a[1..], b, marker);
    }
  }

  /**
   * The substitution loses nothing: when neither the text nor the marker
   * contains `$`, putting the marker back in place of every `$` recovers
   * the original text.
   */
  lemma {:induction false} RestoreAfterReplace(s: string, marker: string)
    requires '$' !in s && '$' !in marker
    ensures RestoreMarker(ReplaceMarker(s, marker), marker) == s
    decreases |s|
  {
    if s != [] {
      assert s[0] != '$';
      if marker + "{" <= s {
        if marker == [] {
          RestoreAfterReplace(s[1..], marker);
          RestoreAppend("$" + [s[0]], ReplaceMarker(s[1..], marker), marker);
          RestoreAppend("$", [s[0]], marker);
          assert s == [s[0]] + s[1..];
        } else {
          assert s[..|marker|] == marker;
          RestoreAfterReplace(s[|marker|..], marker);
          RestoreAppend("$", ReplaceMarker(s[|marker|..], marker), marker);
          assert s == marker + s[|marker|..];
        }
      } else {
        RestoreAfterReplace(s[1..], marker);
        RestoreAppend([s[0]], ReplaceMarker(s[1..], marker), marker);
        assert s == [s[0]] + s[1..];
      }
    }
  }

  /** The braces of a text, in order. */
  function Braces(s: string): string
    decreases |s|
  {
    if s == [] then [] else (if s[0] in "{}" then [s[0]] else []) + Braces(s[1..])
  }

  lemma {:induction false} BracesAppend(a: string, b: string)
    ensures Braces(a + b) == Braces(a) + Braces(b)
    decreases |a|
  {
    if a == [] {
      assert a + b == b;
    } else {
      assert (a + b)[0] == a[0];
      assert (a + b)[1..] == a[1..] + b;
      BracesAppend(a[1..], b);
    }
  }

  lemma {:induction false} BraceFreeHasNoBraces(a: string)
    requires '{' !in a && '}' !in a
    ensures Braces(a) == []
    decreases |a|
  {
    if a != [] {
      assert a[0] != '{' && a[0] != '}';
      assert '{' !in a[1..] && '}' !in a[1..];
      BraceFreeHasNoBraces(a[1..]);
    }
  }

  /**
   * The lookahead does not consume `{`: every brace of the input survives,
   * in the same order, whenever the marker itself has no brace.
   */
  lemma {:induction false} BracesPreserved(s: string, marker: string)
    requires '{' !in marker && '}' !in marker
    ensures Braces(ReplaceMarker(s, marker)) == Braces(s)
    decreases |s|
  {
    if s != [] {
      BraceFreeHasNoBraces("$");
      if marker + "{" <= s {
        if marker == [] {
          BracesPreserved(s[1..], marker);
          BracesAppend("$" + [s[0]], ReplaceMarker(s[1..], marker));
          BracesAppend("$", [s[0]]);
          BracesAppend([s[0]], s[1..]);
          assert s == [s[0]] + s[1..];
        } else {
          assert s[..|marker|] == marker;
          BracesPreserved(s[|marker|..], marker);
          BracesAppend("$", ReplaceMarker(s[|marker|..], marker));
          BraceFreeHasNoBraces(marker);
          BracesAppend(marker, s[|marker|..]);
          assert s == marker + s[|marker|..];
        }
      } else {
        BracesPreserved(s[1..], marker);
        BracesAppend([s[0]], ReplaceMarker(s[1..], marker));
        BracesAppend([s[0]], s[1..]);
        assert s == [s[0]] + s[1..];
      }
    }
  }

  // Replacing in a text built from pieces.

  /** A piece that does not contain the first character of `marker + "{"` is copied as is. */
  lemma {:induction false} PlainPiece(lit: string, rest: string, marker: string)
    requires (marker + "{")[0] !in lit
    ensures ReplaceMarker(lit + rest, marker) == lit + ReplaceMarker(rest, marker)
    decreases |lit|
  {
    if lit == [] {
      assert lit + rest == rest;
    } else {
      var s := lit + rest;
      assert s[0] == lit[0];
      assert !(marker + "{" <= s);
      assert s[1..] == lit[1..] + rest;
      PlainPiece(lit[1..], rest, marker);
      assert lit == [lit[0]] + lit[1..];
    }
  }

  /** A single character that does not start `marker + "{"` is copied. */
  lemma CopyPiece(c: char, rest: string, marker: string)
    requires !(marker + "{" <= [c] + rest)
    ensures ReplaceMarker([c] + rest, marker) == [c] + ReplaceMarker(rest, marker)
  {
    assert ([c] + rest)[1..] == rest;
  }

  /** A non-empty marker followed by `{` becomes `$`; the `{` stays for the rest. */
  lemma MarkerPiece(rest: string, marker: string)
    requires marker != [] && rest != [] && rest[0] == '{'
    ensures ReplaceMarker(marker + rest, marker) == "$" + ReplaceMarker(rest, marker)
  {
    assert (marker + rest)[..|marker| + 1] == marker + "{";
    assert (marker + rest)[|marker|..] == rest;
  }
}

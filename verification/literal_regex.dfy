/**
 * The fragment of JavaScript regular expressions that the two plugins build
 * from user configuration: a pattern made only of "literal atoms", each
 * either a plain character or a backslash followed by a metacharacter.
 * Such a pattern matches exactly one string, which `LiteralOf` computes.
 * Anything else (an unescaped metacharacter, a class escape such as `\d`)
 * is outside the fragment and `LiteralOf` returns `None`.
 */
module LiteralRegex {
  import opened Wrappers

  /** The characters that `escapeDelimiter` escapes: `| \ { } ( ) [ ] ^ $ + * ? .` */
  predicate IsMeta(c: char) {
    c in "|\\{}()[]^$+*?."
  }

  /** The literal string a pattern of literal atoms matches, if it is one. */
  function LiteralOf(p: string): Option<string>
    decreases |p|
  {
    if p == [] then Some([])
    else if p[0] == '\\' then
      if |p| >= 2 && IsMeta(p[1]) then
        match LiteralOf(p[2..])
        case Some(rest) => Some([p[1]] + rest)
        case None => None
      else None
    else if IsMeta(p[0]) then None
    else
      match LiteralOf(p[1..])
      case Some(rest) => Some([p[0]] + rest)
      case None => None
  }

  predicate IsLiteralPattern(p: string) {
    LiteralOf(p).Some?
  }

  /**
   * `input.match(new RegExp('^' + p))` for a literal pattern `p`: the
   * matched text when the input starts with the literal, otherwise no match.
   */
  function MatchAnchored(p: string, input: string): (m: Option<string>)
    requires IsLiteralPattern(p)
    ensures m.Some? <==> LiteralOf(p).value <= input
    ensures m.Some? ==> m.value == LiteralOf(p).value && m.value <= input
  {
    var lit := LiteralOf(p).value;
    if |lit| <= |input| && input[..|lit|] == lit then Some(lit) else None
  }

  /** `escapeDelimiter`: put a backslash in front of every metacharacter. */
  function EscapeDelimiter(d: string): string
    decreases |d|
  {
    if d == [] then []
    else if IsMeta(d[0]) then ['\\', d[0]] + EscapeDelimiter(d[1..])
    else [d[0]] + EscapeDelimiter(d[1..])
  }

  /**
   * Escaping makes any delimiter a literal pattern that matches exactly the
   * delimiter itself, which is why the tokenizer's delimiter patterns act as
   * plain prefix tests.
   */
  lemma {:induction false} EscapeDelimiterIsLiteral(d: string)
    ensures LiteralOf(EscapeDelimiter(d)) == Some(d)
    decreases |d|
  {
    if d != [] {
      EscapeDelimiterIsLiteral(d[1..]);
      var e := EscapeDelimiter(d);
      if IsMeta(d[0]) {
        assert e[2..] == EscapeDelimiter(d[1..]);
      } else {
        assert d[0] != '\\';
        assert e[1..] == EscapeDelimiter(d[1..]);
      }
      assert [d[0]] + d[1..] == d;
    }
  }

  /** `marker.replace(/\\/, '\\\\')`: doubles only the FIRST backslash. */
  function EscapeFirstBackslash(m: string): string
    decreases |m|
  {
    if m == [] then []
    else if m[0] == '\\' then ['\\', '\\'] + m[1..]
    else [m[0]] + EscapeFirstBackslash(m[1..])
  }

  /** Number of occurrences of `c` in `s`. */
  function Occurrences(s: string, c: char): nat
    decreases |s|
  {
    if s == [] then 0 else (if s[0] == c then 1 else 0) + Occurrences(s[1..], c)
  }

  /**
   * The markers for which escaping the first backslash is enough: at most one
   * backslash, and no other metacharacter.
   */
  predicate SafeMarker(m: string) {
    && Occurrences(m, '\\') <= 1
    && forall i :: 0 <= i < |m| && m[i] != '\\' ==> !IsMeta(m[i])
  }

  lemma {:induction false} PlainIsLiteral(m: string)
    requires forall i :: 0 <= i < |m| ==> !IsMeta(m[i])
    ensures LiteralOf(m) == Some(m)
    decreases |m|
  {
    if m != [] {
      assert !IsMeta(m[0]) && m[0] != '\\';
      PlainIsLiteral(m[1..]);
      assert [m[0]] + m[1..] == m;
    }
  }

  /** For a safe marker, the regex the marker plugin builds is the literal marker. */
  lemma {:induction false} EscapeFirstBackslashIsLiteral(m: string)
    requires SafeMarker(m)
    ensures LiteralOf(EscapeFirstBackslash(m)) == Some(m)
    decreases |m|
  {
    if m != [] {
      if m[0] == '\\' {
        assert Occurrences(m[1..], '\\') == 0;
        NoBackslashIsPlain(m[1..]);
        PlainIsLiteral(m[1..]);
        var e := EscapeFirstBackslash(m);
        assert e[0] == '\\' && e[1] == '\\' && IsMeta(e[1]);
        assert e[2..] == m[1..];
        assert LiteralOf(e) == Some([e[1]] + m[1..]);
        assert [e[1]] + m[1..] == m;
      } else {
        assert SafeMarker(m[1..]) by {
          assert forall i :: 0 <= i < |m[1..]| ==> m[1..][i] == m[i + 1];
        }
        EscapeFirstBackslashIsLiteral(m[1..]);
        assert !IsMeta(m[0]);
        var e := EscapeFirstBackslash(m);
        assert e[1..] == EscapeFirstBackslash(m[1..]);
        assert [m[0]] + m[1..] == m;
      }
    }
  }

  lemma {:induction false} NoBackslashIsPlain(m: string)
    requires Occurrences(m, '\\') == 0
    requires forall i :: 0 <= i < |m| && m[i] != '\\' ==> !IsMeta(m[i])
    ensures forall i :: 0 <= i < |m| ==> !IsMeta(m[i])
    decreases |m|
  {
    if m != [] {
      NoBackslashIsPlain(m[1..]);
      forall i | 0 <= i < |m|
        ensures !IsMeta(m[i])
      {
        if i > 0 {
          assert m[i] == m[1..][i - 1];
        }
      }
    }
  }
}

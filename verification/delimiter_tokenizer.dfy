/**
 * The delimiter tokenizer of `remarkMdxMathEnhanced`: a left-to-right scan
 * that reads one token at a time (start delimiter, else end delimiter, else
 * one arbitrary character) and feeds it to a two-state machine ('math' and
 * 'js') that rewrites the text of a math node into the body of a JavaScript
 * template literal.
 *
 * Reading a token does not depend on the state, so the model splits the scan
 * into `Lex` (the token stream) and `Run` (the state machine over it);
 * `Tokenize` is the source's interleaved loop and is proved equal to the
 * composition.
 */
module DelimiterTokenizer {
  import opened Wrappers
  import opened LiteralRegex

  /** The tokenizer's state: `'math'` (literal text) or `'js'` (inside an expression). */
  datatype State = InMath | InJs

  /** Which of the three patterns matched. */
  datatype Kind = StartDelimiter | EndDelimiter | Other

  datatype Token = Token(kind: Kind, text: string)

  /** The source does not check its delimiters; an empty one never advances the scan. */
  predicate ValidDelimiters(start: string, end: string) {
    start != [] && end != []
  }

  /** One row of `readToken`'s pattern table. */
  datatype Pattern =
    | Anchored(kind: Kind, regex: string)  // `new RegExp('^' + regex)`
    | AnyChar                              // `/^[\s\S]/`, the 'other' row

  /** The table `readToken` tries, in order. */
  function Patterns(start: string, end: string): seq<Pattern> {
    [Anchored(StartDelimiter, EscapeDelimiter(start)), Anchored(EndDelimiter, EscapeDelimiter(end)), AnyChar]
  }

  /** Every regex of the table lies in the literal fragment. */
  predicate LiteralRows(patterns: seq<Pattern>) {
    forall j :: 0 <= j < |patterns| && patterns[j].Anchored? ==> IsLiteralPattern(patterns[j].regex)
  }

  /**
   * The loop of `readToken` over its pattern table: the first row whose
   * regex matches at the front of `rest` gives the token; if none does, the
   * error "No pattern matched" is thrown.
   */
  function TryPatterns(patterns: seq<Pattern>, rest: string): Result<Token>
    requires LiteralRows(patterns)
    decreases |patterns|
  {
    if patterns == [] then Thrown("No pattern matched " + rest)
    else
      var row := patterns[0];
      var m := if row.AnyChar? then (if rest == [] then None else Some([rest[0]]))
               else MatchAnchored(row.regex, rest);
      match m
      case Some(text) => Ok(Token(if row.AnyChar? then Other else row.kind, text))
      case None => TryPatterns(patterns[1..], rest)
  }

  /**
   * With the escaped delimiters, the start row matches exactly when `rest`
   * begins with the start delimiter, the end row exactly when it begins with
   * the end delimiter, and the last row whenever `rest` is not empty: for
   * non-empty delimiters the token is never empty and nothing is thrown.
   */
  lemma TryPatternsReads(rest: string, start: string, end: string)
    requires rest != [] && ValidDelimiters(start, end)
    ensures LiteralRows(Patterns(start, end))
    ensures TryPatterns(Patterns(start, end), rest)
         == if start <= rest then Ok(Token(StartDelimiter, start))
            else if end <= rest then Ok(Token(EndDelimiter, end))
            else Ok(Token(Other, [rest[0]]))
  {
    EscapeDelimiterIsLiteral(start);
    EscapeDelimiterIsLiteral(end);
    var ps := Patterns(start, end);
    assert ps[1..][1..] == [AnyChar];
    assert TryPatterns([AnyChar], rest) == Ok(Token(Other, [rest[0]]));
  }

  /**
   * `readToken(input, i)`, given `rest = input.slice(i)`: the token of the
   * first matching row. The caller advances `i` by the length of its text.
   */
  function ReadToken(rest: string, start: string, end: string): (t: Token)
    requires rest != [] && ValidDelimiters(start, end)
    ensures 0 < |t.text| <= |rest|
  {
    TryPatternsReads(rest, start, end);
    TryPatterns(Patterns(start, end), rest).value
  }

  /**
   * The token read at the front of `rest` is a prefix of it: the start
   * delimiter exactly when `rest` begins with it, otherwise the end delimiter
   * exactly when `rest` begins with that, otherwise the single next
   * character.
   */
  lemma ReadTokenMatches(rest: string, start: string, end: string)
    requires rest != [] && ValidDelimiters(start, end)
    ensures var t := ReadToken(rest, start, end);
      && t.text == rest[..|t.text|]
      && (t.kind == StartDelimiter <==> start <= rest)
      && (t.kind == EndDelimiter <==> !(start <= rest) && end <= rest)
      && (t.kind == StartDelimiter ==> t.text == start)
      && (t.kind == EndDelimiter ==> t.text == end)
      && (t.kind == Other ==> t.text == [rest[0]])
  {
    TryPatternsReads(rest, start, end);
  }

  /** The tokens `readToken` yields, read from the front of `rest` until it is used up. */
  function Lex(rest: string, start: string, end: string): seq<Token>
    requires ValidDelimiters(start, end)
    decreases |rest|
  {
    if rest == [] then []
    else
      var t := ReadToken(rest, start, end);
      [t] + Lex(rest[|t.text|..], start, end)
  }

  /**
   * One row of the state table: the next state and the text emitted for `t`.
   * The machine enters 'js' only on a start delimiter and leaves it only on
   * an end delimiter; an end delimiter always emits `}`, a start delimiter
   * emits `${` when it opens an expression and itself inside one, and every
   * other token is copied.
   */
  function Step(state: State, t: Token): (r: (State, string))
    ensures (r.0 == InJs) <==> (t.kind != EndDelimiter && (state == InJs || t.kind == StartDelimiter))
    ensures t.kind == EndDelimiter ==> r.1 == "}"
    ensures t.kind == StartDelimiter ==> r.1 == if state == InMath then "${" else t.text
    ensures t.kind == Other ==> r.1 == t.text
  {
    match t.kind
    case StartDelimiter => if state == InMath then (InJs, "${") else (InJs, t.text)
    case EndDelimiter => (InMath, "}")
    case Other => (state, t.text)
  }

  /** The emissions of the state machine over a token stream, one per token. */
  function Run(ts: seq<Token>, state: State): (out: seq<string>)
    ensures |out| == |ts|
    decreases |ts|
  {
    if ts == [] then []
    else
      var (next, text) := Step(state, ts[0]);
      [text] + Run(ts[1..], next)
  }

  /** The state the machine is left in after `ts`. */
  function FinalState(ts: seq<Token>, state: State): State
    decreases |ts|
  {
    if ts == [] then state else FinalState(ts[1..], Step(state, ts[0]).0)
  }

  /** `join('')` */
  function Concat(parts: seq<string>): string
    decreases |parts|
  {
    if parts == [] then [] else parts[0] + Concat(parts[1..])
  }

  function Texts(ts: seq<Token>): (texts: seq<string>)
    ensures |texts| == |ts|
    ensures forall k :: 0 <= k < |ts| ==> texts[k] == ts[k].text
    decreases |ts|
  {
    if ts == [] then [] else [ts[0].text] + Texts(ts[1..])
  }

  /** The output produced for `rest` when the machine is in `state` at its front. */
  function Scan(rest: string, state: State, start: string, end: string): string
    requires ValidDelimiters(start, end)
  {
    Concat(Run(Lex(rest, start, end), state))
  }

  /** `transformToTemplateString(string, startDelimiter, endDelimiter)`, starting in state 'math'. */
  function TransformToTemplateString(s: string, start: string, end: string): string
    requires ValidDelimiters(start, end)
  {
    Scan(s, InMath, start, end)
  }

  /**
   * `tokenize`: the source's loop over positions, reading a token at `i` and
   * acting on it in the same pass. Its result is the state machine run over
   * the lexed token stream.
   */
  method Tokenize(s: string, start: string, end: string) returns (tokens: seq<string>)
    requires ValidDelimiters(start, end)
    ensures tokens == Run(Lex(s, start, end), InMath)
  {
    tokens := [];
    var state := InMath;
    var i := 0;
    assert s[0..] == s;
    while i < |s|
      invariant i <= |s|
      invariant tokens + Run(Lex(s[i..], start, end), state) == Run(Lex(s, start, end), InMath)
      decreases |s| - i
    {
      var token := ReadToken(s[i..], start, end);
      ghost var step := Step(state, token);
      ghost var before := tokens;
      ghost var old_state := state;
      if token.kind == StartDelimiter {
        if state == InMath {
          state := InJs;
          tokens := tokens + ["${"];
        } else {
          tokens := tokens + [token.text];
        }
      } else if token.kind == EndDelimiter {
        state := InMath;
        tokens := tokens + ["}"];
      } else {
        tokens := tokens + [token.text];
      }
      assert (state, tokens[|before|]) == step && tokens == before + [tokens[|before|]];
      TokenizeStep(s, i, old_state, before, token, state, tokens, start, end);
      ghost var rest := s[i + |token.text|..];
      i := i + |token.text|;
      assert s[i..] == rest;
    }
  }

  /**
   * `transformToTemplateString` as the source computes it: run `tokenize`,
   * then join the emitted pieces.
   */
  method ComputeTemplateString(s: string, start: string, end: string) returns (r: string)
    requires ValidDelimiters(start, end)
    ensures r == TransformToTemplateString(s, start, end)
  {
    var tokens := Tokenize(s, start, end);
    r := Concat(tokens);
  }

  lemma AppendAssoc<T>(a: seq<T>, b: seq<T>, c: seq<T>)
    ensures a + (b + c) == (a + b) + c
  {
  }

  /** One iteration of `Tokenize` keeps its loop invariant. */
  lemma TokenizeStep(s: string, i: nat, state: State, before: seq<string>, token: Token,
                     next: State, after: seq<string>, start: string, end: string)
    requires i < |s| && ValidDelimiters(start, end)
    requires token == ReadToken(s[i..], start, end)
    requires |after| == |before| + 1 && after == before + [after[|before|]]
    requires Step(state, token) == (next, after[|before|])
    requires before + Run(Lex(s[i..], start, end), state) == Run(Lex(s, start, end), InMath)
    ensures i + |token.text| <= |s|
    ensures after + Run(Lex(s[i + |token.text|..], start, end), next) == Run(Lex(s, start, end), InMath)
  {
    var text := after[|before|];
    RunLexStep(s, i, state, token, start, end);
    AppendAssoc(before, [text], Run(Lex(s[i + |token.text|..], start, end), next));
  }

  /** Unfolds one token of `Lex` at position `i` followed by one step of `Run`. */
  lemma RunLexStep(s: string, i: nat, state: State, token: Token, start: string, end: string)
    requires i < |s| && ValidDelimiters(start, end)
    requires token == ReadToken(s[i..], start, end)
    ensures i + |token.text| <= |s|
    ensures Run(Lex(s[i..], start, end), state)
         == [Step(state, token).1] + Run(Lex(s[i + |token.text|..], start, end), Step(state, token).0)
  {
    var t, next := LexFront(s[i..], start, end);
    assert t == token && next == |token.text|;
    assert s[i..][next..] == s[i + next..];
    var rest := Lex(s[i + |token.text|..], start, end);
    assert Lex(s[i..], start, end) == [token] + rest;
    RunCons(token, rest, state);
    var st := Step(state, token);
    assert Run(Lex(s[i..], start, end), state) == [st.1] + Run(rest, st.0);
  }

  lemma RunCons(t: Token, ts: seq<Token>, state: State)
    ensures Run([t] + ts, state) == [Step(state, t).1] + Run(ts, Step(state, t).0)
  {
    assert ([t] + ts)[0] == t;
    assert ([t] + ts)[1..] == ts;
  }

  // ---------------------------------------------------------------------
  // Properties
  // ---------------------------------------------------------------------

  lemma {:induction false} ConcatAppend(a: seq<string>, b: seq<string>)
    ensures Concat(a + b) == Concat(a) + Concat(b)
    decreases |a|
  {
    if a != [] {
      ConcatAppend(a[1..], b);
      assert (a + b)[0] == a[0];
      assert (a + b)[1..] == a[1..] + b;
      assert Concat(a + b) == a[0] + (Concat(a[1..]) + Concat(b));
      assert a[0] + (Concat(a[1..]) + Concat(b)) == (a[0] + Concat(a[1..])) + Concat(b);
    } else {
      assert a + b == b;
    }
  }

  /** The tokens cover the input exactly, in order: no character is lost or read twice. */
  lemma {:induction false} LexCoversInput(rest: string, start: string, end: string)
    requires ValidDelimiters(start, end)
    ensures Concat(Texts(Lex(rest, start, end))) == rest
    decreases |rest|
  {
    if rest != [] {
      var t, next := LexFront(rest, start, end);
      var tail := Lex(rest[next..], start, end);
      LexCoversInput(rest[next..], start, end);
      TextsCons(t, tail);
      ConcatCons(t.text, Texts(tail));
      SplitAt(rest, next);
    }
  }

  lemma SplitAt<T>(s: seq<T>, k: nat)
    requires k <= |s|
    ensures s[..k] + s[k..] == s
  {
  }

  lemma TextsCons(t: Token, ts: seq<Token>)
    ensures Texts([t] + ts) == [t.text] + Texts(ts)
  {
    assert ([t] + ts)[1..] == ts;
  }

  lemma ConcatCons(part: string, parts: seq<string>)
    ensures Concat([part] + parts) == part + Concat(parts)
  {
    assert ([part] + parts)[1..] == parts;
  }

  /** The first token of a non-empty text and what is left after it. */
  lemma LexFront(rest: string, start: string, end: string) returns (t: Token, next: nat)
    requires rest != [] && ValidDelimiters(start, end)
    ensures t == ReadToken(rest, start, end) && next == |t.text|
    ensures 0 < next <= |rest| && t.text == rest[..next]
    ensures Lex(rest, start, end) == [t] + Lex(rest[next..], start, end)
  {
    t := ReadToken(rest, start, end);
    next := |t.text|;
    ReadTokenMatches(rest, start, end);
  }

  /**
   * One step of the scan: a start delimiter opens a placeholder `${` only in
   * state 'math' and is copied in state 'js'; an end delimiter always emits
   * `}` and returns to 'math', whatever the state; any other character is
   * copied unchanged. The start delimiter is tried first.
   */
  lemma ScanStep(rest: string, state: State, start: string, end: string)
    requires rest != [] && ValidDelimiters(start, end)
    ensures start <= rest && state == InMath ==>
      Scan(rest, state, start, end) == "${" + Scan(rest[|start|..], InJs, start, end)
    ensures start <= rest && state == InJs ==>
      Scan(rest, state, start, end) == start + Scan(rest[|start|..], InJs, start, end)
    ensures !(start <= rest) && end <= rest ==>
      Scan(rest, state, start, end) == "}" + Scan(rest[|end|..], InMath, start, end)
    ensures !(start <= rest) && !(end <= rest) ==>
      Scan(rest, state, start, end) == [rest[0]] + Scan(rest[1..], state, start, end)
  {
    var t, next := LexFront(rest, start, end);
    ReadTokenMatches(rest, start, end);
  }

  /** Text holding neither delimiter is copied unchanged, in either state. */
  lemma {:induction false} NoDelimiterScanIsIdentity(rest: string, state: State, start: string, end: string)
    requires ValidDelimiters(start, end)
    requires forall k :: 0 <= k < |rest| ==> !(start <= rest[k..]) && !(end <= rest[k..])
    ensures Scan(rest, state, start, end) == rest
    decreases |rest|
  {
    if rest != [] {
      assert !(start <= rest[0..]) && !(end <= rest[0..]);
      assert rest[0..] == rest;
      ScanStep(rest, state, start, end);
      forall k | 0 <= k < |rest[1..]|
        ensures !(start <= rest[1..][k..]) && !(end <= rest[1..][k..])
      {
        assert rest[1..][k..] == rest[k + 1..];
      }
      NoDelimiterScanIsIdentity(rest[1..], state, start, end);
      assert rest == [rest[0]] + rest[1..];
    }
  }

  /** If neither delimiter occurs in the input, the template is the input itself. */
  lemma NoDelimiterIsIdentity(s: string, start: string, end: string)
    requires ValidDelimiters(start, end)
    requires forall k :: 0 <= k < |s| ==> !(start <= s[k..]) && !(end <= s[k..])
    ensures TransformToTemplateString(s, start, end) == s
  {
    NoDelimiterScanIsIdentity(s, InMath, start, end);
  }

  /**
   * With `}` as the end delimiter (the default), every end delimiter is
   * emitted as itself. So text in which the start delimiter never begins is
   * copied unchanged, braces included, whatever the state.
   */
  lemma {:induction false} NoStartScanIsIdentity(rest: string, state: State, start: string)
    requires ValidDelimiters(start, "}")
    requires forall k :: 0 <= k < |rest| ==> !(start <= rest[k..])
    ensures Scan(rest, state, start, "}") == rest
    decreases |rest|
  {
    if rest != [] {
      assert rest[0..] == rest;
      ScanStep(rest, state, start, "}");
      var next := if "}" <= rest then InMath else state;
      assert Scan(rest, state, start, "}") == [rest[0]] + Scan(rest[1..], next, start, "}");
      forall k | 0 <= k < |rest[1..]|
        ensures !(start <= rest[1..][k..])
      {
        assert rest[1..][k..] == rest[k + 1..];
      }
      NoStartScanIsIdentity(rest[1..], next, start);
      assert rest == [rest[0]] + rest[1..];
    }
  }

  /** With the default end delimiter, TeX in which the start delimiter never begins is its own template. */
  lemma NoStartIsIdentity(s: string, start: string)
    requires ValidDelimiters(start, "}")
    requires forall k :: 0 <= k < |s| ==> !(start <= s[k..])
    ensures TransformToTemplateString(s, start, "}") == s
  {
    NoStartScanIsIdentity(s, InMath, start);
  }

  /**
   * With `}` as the end delimiter, literal TeX in which the start delimiter
   * never begins (braces allowed) is copied in state 'math', and the scan
   * goes on in 'math' with what follows.
   */
  lemma {:induction false} LiteralTexPiece(lit: string, rest: string, start: string)
    requires ValidDelimiters(start, "}")
    requires forall k :: 0 <= k < |lit| ==> !(start <= (lit + rest)[k..])
    ensures Scan(lit + rest, InMath, start, "}") == lit + Scan(rest, InMath, start, "}")
    decreases |lit|
  {
    if lit != [] {
      var s := lit + rest;
      assert s[0..] == s;
      assert s[0] == lit[0];
      ScanStep(s, InMath, start, "}");
      assert Scan(s, InMath, start, "}") == [lit[0]] + Scan(s[1..], InMath, start, "}");
      assert s[1..] == lit[1..] + rest;
      forall k | 0 <= k < |lit[1..]|
        ensures !(start <= (lit[1..] + rest)[k..])
      {
        assert (lit[1..] + rest)[k..] == s[k + 1..];
      }
      LiteralTexPiece(lit[1..], rest, start);
      assert lit == [lit[0]] + lit[1..];
    } else {
      assert lit + rest == rest;
    }
  }

  /**
   * No nesting: once inside an expression, every token up to the next end
   * delimiter, start delimiters included, is copied verbatim and the state
   * stays 'js'.
   */
  lemma {:induction false} JsRegionIsVerbatim(ts: seq<Token>)
    requires forall k :: 0 <= k < |ts| ==> ts[k].kind != EndDelimiter
    ensures Concat(Run(ts, InJs)) == Concat(Texts(ts))
    ensures FinalState(ts, InJs) == InJs
    decreases |ts|
  {
    if ts != [] {
      JsRegionIsVerbatim(ts[1..]);
    }
  }

  // ---------------------------------------------------------------------
  // Scanning a text built from pieces
  // ---------------------------------------------------------------------

  /**
   * No delimiter begins at any position of `piece` when `after` follows it;
   * one may still begin inside `after`.
   */
  predicate DelimiterFree(piece: string, after: string, start: string, end: string) {
    forall k :: 0 <= k < |piece| ==> !(start <= (piece + after)[k..]) && !(end <= (piece + after)[k..])
  }

  /** A piece in which no delimiter begins is copied as is, in either state. */
  lemma {:induction false} PlainPiece(lit: string, rest: string, state: State, start: string, end: string)
    requires ValidDelimiters(start, end)
    requires DelimiterFree(lit, rest, start, end)
    ensures Scan(lit + rest, state, start, end) == lit + Scan(rest, state, start, end)
    decreases |lit|
  {
    if lit != [] {
      var s := lit + rest;
      assert s[0..] == s;
      assert !(start <= s) && !(end <= s);
      ScanStep(s, state, start, end);
      assert s[1..] == lit[1..] + rest;
      forall k | 0 <= k < |lit[1..]|
        ensures !(start <= (lit[1..] + rest)[k..]) && !(end <= (lit[1..] + rest)[k..])
      {
        assert (lit[1..] + rest)[k..] == s[k + 1..];
      }
      PlainPiece(lit[1..], rest, state, start, end);
      assert lit == [lit[0]] + lit[1..];
    } else {
      assert lit + rest == rest;
    }
  }

  /** A start delimiter at the front opens a placeholder in 'math' and is copied in 'js'. */
  lemma StartPiece(rest: string, state: State, start: string, end: string)
    requires ValidDelimiters(start, end)
    ensures Scan(start + rest, state, start, end)
         == (if state == InMath then "${" else start) + Scan(rest, InJs, start, end)
  {
    ScanStep(start + rest, state, start, end);
    assert (start + rest)[|start|..] == rest;
  }

  /**
   * An end delimiter at the front closes with `}` in either state, unless a
   * start delimiter also begins there (the start delimiter is tried first).
   */
  lemma EndPiece(rest: string, state: State, start: string, end: string)
    requires ValidDelimiters(start, end) && !(start <= end + rest)
    ensures Scan(end + rest, state, start, end) == "}" + Scan(rest, InMath, start, end)
  {
    ScanStep(end + rest, state, start, end);
    assert (end + rest)[|end|..] == rest;
  }

  /** A character that starts neither delimiter at this point is copied as is. */
  lemma CopyPiece(c: char, rest: string, state: State, start: string, end: string)
    requires ValidDelimiters(start, end)
    requires !(start <= [c] + rest) && !(end <= [c] + rest)
    ensures Scan([c] + rest, state, start, end) == [c] + Scan(rest, state, start, end)
  {
    ScanStep([c] + rest, state, start, end);
    assert ([c] + rest)[1..] == rest;
  }

  /**
   * A closed expression region: start delimiter, an expression in which no
   * delimiter begins, end delimiter (not read as a start delimiter). In
   * 'math' it becomes the placeholder `${expr}` and the scan resumes in
   * 'math'.
   */
  lemma ClosedRegion(expr: string, rest: string, start: string, end: string)
    requires ValidDelimiters(start, end) && !(start <= end + rest)
    requires DelimiterFree(expr, end + rest, start, end)
    ensures Scan(start + (expr + (end + rest)), InMath, start, end)
         == "${" + expr + "}" + Scan(rest, InMath, start, end)
  {
    EndPiece(rest, InJs, start, end);
    PlainPiece(expr, end + rest, InJs, start, end);
    StartPiece(expr + (end + rest), InMath, start, end);
  }

  /**
   * Literal text followed by one delimited expression turns into the same
   * literal text followed by one template placeholder.
   */
  lemma SinglePlaceholder(lit: string, expr: string, start: string, end: string)
    requires ValidDelimiters(start, end) && !(start <= end)
    requires DelimiterFree(lit, start + expr + end, start, end) && DelimiterFree(expr, end, start, end)
    ensures TransformToTemplateString(lit + start + expr + end, start, end) == lit + "${" + expr + "}"
  {
    assert end + "" == end && start + expr + end == start + (expr + (end + ""));
    ClosedRegion(expr, "", start, end);
    PlainPiece(lit, start + (expr + (end + "")), InMath, start, end);
    Nest4(lit, start, expr, end);
  }

  /** Regrouping `a + b + c + d` to the right, as the piece lemmas take it. */
  lemma Nest4<T>(a: seq<T>, b: seq<T>, c: seq<T>, d: seq<T>)
    ensures a + b + c + d == a + (b + (c + (d + [])))
  {
    assert d + [] == d;
    AppendAssoc(b, c, d);
    AppendAssoc(a, b, c + d);
    AppendAssoc(a + b, c, d);
  }
}

# remark-mdx-math-enhanced, modelled in Dafny

remark-mdx-math-enhanced is a remark plugin for MDX. It turns the math
nodes that remark-math produces (`math` for display math, `inlineMath` for
inline math) into MDX JSX elements. Those elements render the math at run
time, and JavaScript expressions can be embedded inside the TeX. The
repository ships two variants of the plugin:

- `src/remarkMdxMathEnhanced.ts` marks expressions with a start and an end
  delimiter (by default `\js{` and `}`). A two-state tokenizer rewrites each
  marked region into a template-literal placeholder `${…}`.
- `src/remarkMathMdx.ts` marks expressions with a marker (by default `\js`)
  that must be followed by `{`. A single global regular-expression
  replacement turns the marker into `$`.

Both variants merge the caller's options over their defaults. Both visit the
tree and build a template string from each math node's value. Each template
is parsed as the JavaScript program ``String.raw`<template>` ``. The visitor
then splices an `mdxJsxFlowElement` (for `math`, with the boolean attribute
`display`) or an `mdxJsxTextElement` (for `inlineMath`) into the parent, at
the node's own index. The element holds one MDX expression that carries the
template and its parse.

The modules follow that structure:

- `Wrappers`: `Option` and `Result`, where `Result` is a value or a thrown error.
- `LiteralRegex`: the fragment of JavaScript regular expressions the code
  builds from delimiters and markers. It covers escaping and anchored
  literal matching, and proves that each escape yields a regex denoting
  exactly the original text.
- `DelimiterTokenizer`: the tokenizer. The module covers:
  - `readToken` as a first-match pattern table;
  - `tokenize` as the source's loop;
  - a reference definition (`Lex`, then the state machine `Run`, then joining);
  - the proof that the loop computes the reference.
- `MarkerSubstitution`: the marker replacement, with its length, inverse,
  identity and brace-preservation properties.
- `Estree`: the parser boundary. The acorn parser is a function parameter,
  and `Program` is an opaque type.
- `Mdast`: the syntax-tree nodes involved, the element that replaces a math
  node, and `splice`.
- `MathVisitor`: the visitor shared by both plugins. The rewrite is a
  parameter.
- `EnhancedPlugin` and `MarkerPlugin`: the options, the defaults, the merge,
  and the transformer of each variant.
- `TemplateExamples` and `PluginExamples`: the test cases of
  `src/remarkMathMdx.spec.ts`, stated as lemmas and methods about the model.

Three behaviours of the code are worth stating:

- An end delimiter always emits `}` and returns the tokenizer to the 'math'
  state, even when no expression is open.
- Neither variant counts braces.
- Neither variant validates its options.

## Model

| member | source | states |
|---|---|---|
| LiteralRegex.MatchAnchored | src/remarkMdxMathEnhanced.ts:113-122 | A `^`-anchored literal regex matches the rest of the input exactly when the input begins with the text the regex denotes, and the match is that text |
| LiteralRegex.EscapeDelimiterIsLiteral | src/remarkMdxMathEnhanced.ts:161-163 | Escaping every regex metacharacter of a delimiter gives a pattern that denotes exactly the delimiter, for every delimiter |
| LiteralRegex.EscapeFirstBackslashIsLiteral | src/remarkMathMdx.ts:82 | Escaping only the first backslash of a marker gives a pattern denoting exactly the marker, provided the marker has at most one backslash and no other metacharacter |
| DelimiterTokenizer.TryPatternsReads | src/remarkMdxMathEnhanced.ts:111-130 | With escaped non-empty delimiters and non-empty input, the first matching row is the start delimiter when the input begins with it, else the end delimiter when the input begins with that, else one character; the "No pattern matched" error is never thrown |
| DelimiterTokenizer.ReadToken | src/remarkMdxMathEnhanced.ts:111-130 | A token is never empty and never longer than the remaining input, so the scan always advances and stops |
| DelimiterTokenizer.ReadTokenMatches | src/remarkMdxMathEnhanced.ts:111-130 | The token is a prefix of the input; it is a start delimiter iff the input begins with the start delimiter, an end delimiter iff it begins with the end delimiter but not the start delimiter, and otherwise the single next character |
| DelimiterTokenizer.Tokenize | src/remarkMdxMathEnhanced.ts:132-158 | The interleaved loop emits exactly the pieces of the state machine run, from 'math', over the token stream that `readToken` yields |
| DelimiterTokenizer.ComputeTemplateString | src/remarkMdxMathEnhanced.ts:104-109 | Tokenizing and then joining the pieces gives the template that the reference scan defines |
| DelimiterTokenizer.Step | src/remarkMdxMathEnhanced.ts:140-152 | The state table: 'js' is entered only on a start delimiter and left only on an end delimiter; an end delimiter emits `}`, a start delimiter emits `${` when it opens an expression and itself inside one, and every other token is copied |
| DelimiterTokenizer.ScanStep | src/remarkMdxMathEnhanced.ts:140-152 | A start delimiter emits `${` and enters 'js' in 'math', and is copied in 'js'; an end delimiter emits `}` and returns to 'math' in either state; any other character is copied and keeps the state |
| DelimiterTokenizer.LexCoversInput | src/remarkMdxMathEnhanced.ts:109-130 | The token texts joined in order are the input itself: tokenizing neither drops nor invents characters |
| DelimiterTokenizer.NoDelimiterScanIsIdentity | src/remarkMdxMathEnhanced.ts:150-152 | Text containing neither delimiter is copied unchanged, in either state |
| DelimiterTokenizer.NoDelimiterIsIdentity | src/remarkMdxMathEnhanced.ts:104-158 | Math containing neither delimiter becomes its own template, unchanged |
| DelimiterTokenizer.NoStartScanIsIdentity | src/remarkMdxMathEnhanced.ts:147-152 | With `}` as the end delimiter, text in which the start delimiter never begins is copied unchanged in either state, braces included, because each `}` is emitted as `}` |
| DelimiterTokenizer.NoStartIsIdentity | src/remarkMdxMathEnhanced.ts:104-158 | With `}` as the end delimiter, braced TeX in which the start delimiter never begins, such as `\frac{a}{b}`, is its own template |
| DelimiterTokenizer.LiteralTexPiece | src/remarkMdxMathEnhanced.ts:147-152 | With `}` as the end delimiter, literal TeX in which the start delimiter never begins, braces allowed, is copied in state 'math' and the scan goes on in 'math' with what follows |
| DelimiterTokenizer.JsRegionIsVerbatim | src/remarkMdxMathEnhanced.ts:140-146 | Once inside an expression, every token up to the next end delimiter is copied verbatim (nested start delimiters included), and the state stays 'js' |
| DelimiterTokenizer.StartPiece | src/remarkMdxMathEnhanced.ts:140-146 | A start delimiter at the front becomes `${` in 'math', stays itself in 'js', and leaves the tokenizer in 'js' |
| DelimiterTokenizer.EndPiece | src/remarkMdxMathEnhanced.ts:147-149 | An end delimiter at the front becomes `}` whatever the state, and the rest is read in 'math', unless a start delimiter also begins there (it is tried first) |
| DelimiterTokenizer.ClosedRegion | src/remarkMdxMathEnhanced.ts:140-149 | A start delimiter, an expression in which no delimiter begins, and an end delimiter not also read as a start delimiter become the placeholder `${expr}`, and the scan resumes in 'math' |
| DelimiterTokenizer.SinglePlaceholder | src/remarkMdxMathEnhanced.ts:104-158 | Literal TeX in which no delimiter begins (backslash commands included), followed by one delimited expression in which none begins, becomes the same TeX followed by one template placeholder, provided the start delimiter is not a prefix of the end delimiter |
| MarkerSubstitution.TransformToTemplateString | src/remarkMathMdx.ts:81-83 | For a marker in the literal fragment, the regex built from it replaces exactly the markers followed by `{`, scanning left to right without overlap; this is the reference replacement |
| MarkerSubstitution.ReplaceMarkerLength | src/remarkMathMdx.ts:82 | Each replacement shortens the text by the marker's length minus one, and nothing else changes the length |
| MarkerSubstitution.NoMarkerIsIdentity | src/remarkMathMdx.ts:82 | Text with no marker followed by `{` is returned unchanged, and no replacement happens |
| MarkerSubstitution.NoBraceIsIdentity | src/remarkMathMdx.ts:82 | Text without `{` is returned unchanged, e.g. a trailing marker |
| MarkerSubstitution.RestoreAfterReplace | src/remarkMathMdx.ts:82 | When neither text nor marker contains `$`, turning every `$` of the result back into the marker recovers the original text: the replacement loses nothing |
| MarkerSubstitution.BracesPreserved | src/remarkMathMdx.ts:82 | For a marker without braces, the sequence of `{` and `}` in the text is unchanged, since the lookahead brace is never consumed |
| MarkerSubstitution.MarkerPiece | src/remarkMathMdx.ts:82 | A non-empty marker at the front followed by `{` becomes `$`, and the `{` stays to be read next |
| MarkerSubstitution.CopyPiece | src/remarkMathMdx.ts:82 | A character that does not start a marker followed by `{` is copied unchanged |
| Estree.RawTemplateReadsBack | src/remarkMdxMathEnhanced.ts:93 | The parser's source is the template between ``String.raw` `` and a closing backtick, verbatim, so the template can be read back from it |
| Mdast.MathElement | src/remarkMdxMathEnhanced.ts:41-83 | `math` becomes a flow element with the single attribute `display`, and `inlineMath` becomes a text element without attributes; either holds one expression of the matching kind, with the template and its parse. The element keeps the node's content category and is no longer math |
| Mdast.Splice | src/remarkMdxMathEnhanced.ts:41 | Replacing the child at an index keeps the length and puts the new node at that index, leaving every other child unchanged |
| MathVisitor.RewriteOutcome | src/remarkMdxMathEnhanced.ts:33-84 | A math node's rewrite fails exactly when the parser rejects its template, with the parser's message. On success it is a JSX element named after the component, holding one expression with the template, in the node's content category and no longer math. Any other node is kept |
| MathVisitor.VisitChildren | src/remarkMdxMathEnhanced.ts:32-85 | The visit succeeds iff every math child's template parses. On success each child is replaced by its own rewrite at the same index and no math node remains; on failure the first unparsable math child's error is thrown |
| EnhancedPlugin.MergeOptions | src/remarkMdxMathEnhanced.ts:8-29 | Every option the caller gives wins, and every option left out takes its default (`Math`, `\js{`, `}`) |
| EnhancedPlugin.NoOptionsMeansDefaults | src/remarkMdxMathEnhanced.ts:28-29 | No options at all and an empty options object both give the defaults |
| EnhancedPlugin.MergeIsIdempotent | src/remarkMdxMathEnhanced.ts:29 | Passing the merged settings back as options gives the same settings |
| EnhancedPlugin.Transform | src/remarkMdxMathEnhanced.ts:28-86 | The transformer fails exactly when some math child's tokenized template does not parse, and then throws the first such error. Otherwise, among one parent's children, every math child becomes its element and every other child is returned as it is |
| MarkerPlugin.MergeOptions | src/remarkMathMdx.ts:8-28 | Every option the caller gives wins, and every option left out takes its default (`Math`, `\js`) |
| MarkerPlugin.NoOptionsMeansDefaults | src/remarkMathMdx.ts:25-28 | No options at all and an empty options object both give the defaults |
| MarkerPlugin.MergeIsIdempotent | src/remarkMathMdx.ts:28 | Passing the merged settings back as options gives the same settings |
| MarkerPlugin.DefaultMarkerIsSafe | src/remarkMathMdx.ts:8-11 | The default marker `\js` has one backslash and no other metacharacter, so its regex matches it literally |
| MarkerPlugin.Transform | src/remarkMathMdx.ts:25-75 | The transformer fails exactly when some math child's marker-substituted template does not parse, and then throws the first such error. Otherwise, among one parent's children, every math child becomes its element and every other child is returned as it is |
| TemplateExamples.PlainLatexUnchanged | src/remarkMathMdx.spec.ts:12-53 | With the delimiter tokenizer, `\frac{a}{b}` keeps its braces |
| TemplateExamples.BracedTexBeforeExpression | src/remarkMdxMathEnhanced.ts:104-158 | With the delimiter tokenizer, `\frac{a}{b} = \js{x}` becomes `\frac{a}{b} = ${x}`: braced TeX before an expression is copied and only the expression becomes a placeholder |
| TemplateExamples.PlaceholderForExpression | src/remarkMathMdx.spec.ts:55-98 | With the delimiter tokenizer, `\pi = \js{Math.PI}` becomes `\pi = ${Math.PI}` |
| TemplateExamples.NestedBracesInExpression | src/remarkMathMdx.spec.ts:167-207 | With the delimiter tokenizer, `\pi = \js{myFunc({ a: 10 })}` becomes `\pi = ${myFunc({ a: 10 })}`: the inner `}` closes a placeholder, the `{` is copied, and the braces still balance |
| TemplateExamples.StartDelimiterInsideExpression | src/remarkMathMdx.spec.ts:209-249 | With the delimiter tokenizer, start delimiters inside an open expression are copied, giving `${"\js{\js{1 + 1}}"}` |
| TemplateExamples.MarkerWithoutBraceKept | src/remarkMathMdx.spec.ts:251-291 | With the delimiter tokenizer, a trailing `\js` without `{` is kept |
| TemplateExamples.UnterminatedExpression | src/remarkMathMdx.spec.ts:293-309 | With the delimiter tokenizer, an expression that is never closed leaves the placeholder open: `\pi = ${Math.PI` |
| TemplateExamples.CustomDelimiters | src/remarkMathMdx.spec.ts:331-350 | With the delimiters `[[` and `]]`, `\pi = [[Math.PI]]` becomes `\pi = ${Math.PI}` |
| TemplateExamples.MarkerPlainLatexUnchanged | src/remarkMathMdx.spec.ts:12-53 | With the marker substitution, `\frac{a}{b}` is unchanged |
| TemplateExamples.MarkerBeforeExpression | src/remarkMathMdx.spec.ts:55-98 | With the marker substitution, `\pi = \js{Math.PI}` becomes `\pi = ${Math.PI}` |
| TemplateExamples.MarkerBeforeNestedBraces | src/remarkMathMdx.spec.ts:167-207 | With the marker substitution, `\pi = \js{myFunc({ a: 10 })}` becomes `\pi = ${myFunc({ a: 10 })}` |
| TemplateExamples.TrailingMarkerKept | src/remarkMathMdx.spec.ts:251-291 | With the marker substitution, a trailing `\js` without `{` is kept |
| TemplateExamples.MarkerInsideExpressionReplaced | src/remarkMathMdx.spec.ts:209-249 | With the marker substitution, every `\js` followed by `{` is replaced, including those inside the string: `${"${${1 + 1}}"}` |
| TemplateExamples.MarkerIgnoresCustomDelimiters | src/remarkMathMdx.spec.ts:331-350 | The marker substitution does not know the delimiters `[[` and `]]`, so `\pi = [[Math.PI]]` comes back unchanged |
| TemplateExamples.RewritesDisagreeInsideExpression | src/remarkMathMdx.spec.ts:209-249 | The two rewrites give different templates for `\js{"\js{\js{1 + 1}}"}` |
| PluginExamples.EnhancedDefaultTemplate | src/remarkMathMdx.spec.ts:100-165 | Shown with the delimiter variant (the test itself runs the marker plugin): under the default options, the enhanced plugin's template for `\pi = \js{Math.PI}` is `\pi = ${Math.PI}` |
| PluginExamples.EnhancedParagraphAndDisplay | src/remarkMdxMathEnhanced.ts:28-86 | With default options, inline math in a paragraph becomes a `Math` text element, and display math at the root becomes a `Math` flow element with `display`. Both hold the template and its parse |
| PluginExamples.EnhancedSimpleExpression | src/remarkMathMdx.spec.ts:100-165 | Shown with the delimiter variant (the test itself runs the marker plugin): the tree for `$\pi = \js{Math.PI}$` and `$$\pi = \js{Math.PI}$$` is exactly the expected paragraph with a text element, followed by a flow element |
| PluginExamples.EnhancedRejectedTemplateThrows | src/remarkMdxMathEnhanced.ts:33-39 | A math node whose template the parser rejects makes the transformer throw the parser's error |
| PluginExamples.UnclosedExpressionThrows | src/remarkMathMdx.spec.ts:293-309 | Shown with the delimiter variant (the test itself runs the marker plugin): `$$\pi = \js{Math.PI$$` throws whenever the parser rejects the unclosed template `\pi = ${Math.PI` |
| PluginExamples.MarkerCustomComponent | src/remarkMathMdx.ts:57-72 | Under the marker plugin with a custom component name, inline math becomes a text element of that name |
| PluginExamples.CustomComponentName | src/remarkMathMdx.spec.ts:311-329 | With `component: 'CustomMath'`, `$\pi = \js{Math.PI}$` becomes a `CustomMath` text element holding `\pi = ${Math.PI}` |

## Left out

- Parsing with acorn (`Parser.parse`) is a function parameter that returns a program or a syntax error. Its grammar, and the `ecmaVersion` and `sourceType` options, are not modelled.
- Tree traversal by `unist-util-visit` is modelled for one parent's children. Recursion into deeper subtrees, and the visitor's control signals, are not modelled; the plugins never use those signals.
- remark-parse, remark-math, remark-mdx and remark-stringify are outside the model, and so is the Markdown text they turn into and out of trees. The examples therefore state the trees and templates, not the rendered Markdown.
- JavaScript regular expressions are modelled only for the literal patterns the code builds: escaped metacharacters and plain characters, anchored with `^` or followed by the `(?=\{)` lookahead. A general regex engine is not modelled.
- MarkerSubstitution.TransformToTemplateString: requires the marker to have at most one backslash and no other regex metacharacter. The code escapes only the first backslash, so any other marker is read as a regular expression whose meaning the model does not cover.
- MarkerPlugin.Transform: carries the same marker requirement, for the same reason.
- DelimiterTokenizer.Tokenize: requires non-empty delimiters, which the code does not check. An empty delimiter matches the empty string and yields a token of length zero. With an empty start delimiter the loop stalls at the first position of any non-empty text. With an empty end delimiter it stalls at the first position where the start delimiter does not begin. The precondition also excludes inputs on which the code returns normally: empty text, and, for an empty end delimiter only, text made entirely of start delimiters.
- EnhancedPlugin.Transform: carries the same non-empty delimiter requirement. It therefore also excludes inputs on which the code returns normally: children without math nodes, for which the tokenizer is never called, and math whose text never reaches a stalling position.
- EnhancedPlugin.Transform: covers one parent's children. Non-math children are returned as they are, while the code's `visit` walks the whole tree and also rewrites the math nodes inside them, such as inline math in a paragraph.
- MarkerPlugin.Transform: covers one parent's children. Non-math children are returned as they are, while the code's `visit` walks the whole tree and also rewrites the math nodes inside them.
- An option passed explicitly as `undefined` overrides its default under object spread. The model's options only distinguish a given value from an absent key.
- Options of the wrong type (the tests pass them `as any`) are outside the model. So is the marker plugin silently ignoring `startDelimiter` and `endDelimiter`, apart from the example showing their effect.
- The visitor splices into the live `parent.children` array. When a later math child's parse throws, the earlier math children have already been replaced in the caller's tree. The model returns only the thrown error and does not describe that partly rewritten tree.
- JavaScript strings are sequences of UTF-16 code units: `/^[\s\S]/` reads one code unit and `.length` counts code units. The model's characters are Unicode scalar values, so a character outside the Basic Multilingual Plane is one character here and two code units in the source, and lone surrogates cannot be written. The templates agree on well-formed text.
- MarkerSubstitution.ReplaceMarkerLength: counts Unicode scalar values, not UTF-16 code units, so on text outside the Basic Multilingual Plane its lengths differ from the source's `.length`; the number of replacements is the same.
- The `data.estree` wrapper object becomes the expression node's `estree` field. Positions are not modelled, and the replacement nodes the code builds carry none.
- The repository's sample React components (`Katex.js`, `Math.js`), its render script and its jest configuration are not part of this model.

## Findings

| source | as written | input that shows it | evidently intended | confidence | as-written member | corrected member |
|---|---|---|---|---|---|---|
| src/remarkMathMdx.spec.ts:209-249 | The test imports the marker plugin (line 8), but expects the template the delimiter tokenizer produces | `$\js{"\js{\js{1 + 1}}"}$`: the marker plugin yields `${"${${1 + 1}}"}`, not the expected `${"\js{\js{1 + 1}}"}` | The expectation is that of `src/remarkMdxMathEnhanced.ts`, where start delimiters inside an open expression are copied | medium, not executed | TemplateExamples.MarkerInsideExpressionReplaced | TemplateExamples.StartDelimiterInsideExpression |
| src/remarkMathMdx.spec.ts:331-350 | The test passes `startDelimiter` and `endDelimiter` to the marker plugin, which reads neither option | `$\pi = [[Math.PI]]$` with `[[` and `]]`: the marker plugin leaves `\pi = [[Math.PI]]`, not the expected `\pi = ${Math.PI}` | The delimiter options of `src/remarkMdxMathEnhanced.ts`, under which the expected template results | medium, not executed | TemplateExamples.MarkerIgnoresCustomDelimiters | TemplateExamples.CustomDelimiters |

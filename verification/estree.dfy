/**
 * The boundary with the JavaScript parser. `Parser.parse` is external: the
 * model takes it as a function parameter from source text to either a
 * program tree, whose shape is never inspected, or a syntax error.
 */
module Estree {

  /** The program tree the parser returns. */
  type Program(==)

  datatype ParseResult = Parsed(program: Program) | SyntaxError(message: string)

  /** The source handed to the parser: the template wrapped as a `String.raw` tagged template. */
  function RawTemplateSource(template: string): string {
    "String.raw`" + template + "`"
  }

  /**
   * The template sits verbatim between the tag with its opening backtick and
   * the closing backtick, so it can be read back from the wrapped source.
   */
  lemma RawTemplateReadsBack(template: string)
    ensures var source := RawTemplateSource(template);
      && |source| == |template| + 12
      && source[..11] == "String.raw`" && source[|source| - 1] == '`'
      && source[11..|source| - 1] == template
  {
  }

  /** `transformMathToEstree`: parse the wrapped template. */
  function TransformMathToEstree(template: string, parse: string -> ParseResult): ParseResult {
    parse(RawTemplateSource(template))
  }
}

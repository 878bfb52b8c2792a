/**
 * The plugins run on small trees, with the parser left as a parameter: the
 * expected trees are stated in terms of whatever program tree the parser
 * returns for the expected template.
 */
module PluginExamples {
  import opened Wrappers
  import opened Estree
  import opened Mdast
  import EnhancedPlugin
  import MarkerPlugin
  import TemplateExamples
  import Mark = MarkerSubstitution

  /** The math source of the examples, with one JavaScript expression. */
  const PiSource: string := "\\pi = \\js{Math.PI}"

  /** The template both plugins make of it. */
  const PiTemplate: string := "\\pi = ${Math.PI}"

  /** With the default options, the enhanced plugin rewrites the source into the template. */
  lemma EnhancedDefaultTemplate(settings: EnhancedPlugin.Settings)
    requires settings == EnhancedPlugin.MergeOptions(None)
    ensures EnhancedPlugin.Template(PiSource, settings) == PiTemplate
  {
    TemplateExamples.PlaceholderForExpression(settings.startDelimiter, settings.endDelimiter);
  }

  /**
   * An inline math node in a paragraph, followed by a display math node at
   * the root, both holding `source`, with default options: the inline node
   * becomes a `Math` text element and the display node a `Math` flow element
   * with the `display` attribute, both holding the template and its parse.
   */
  method EnhancedParagraphAndDisplay(source: string, parse: string -> ParseResult)
    returns (root: Result<seq<Node>>)
    requires parse(RawTemplateSource(EnhancedPlugin.Template(source, EnhancedPlugin.Defaults))).Parsed?
    ensures var template := EnhancedPlugin.Template(source, EnhancedPlugin.Defaults);
      var estree := parse(RawTemplateSource(template)).program;
      root == Ok([
        Other("paragraph", [MdxJsxTextElement("Math", [], [MdxTextExpression(template, estree)])]),
        MdxJsxFlowElement("Math", [MdxJsxAttribute("display")], [MdxFlowExpression(template, estree)])])
  {
    EnhancedPlugin.NoOptionsMeansDefaults();
    ghost var template := EnhancedPlugin.Template(source, EnhancedPlugin.Defaults);
    ghost var estree := parse(RawTemplateSource(template)).program;
    ghost var text := MdxJsxTextElement("Math", [], [MdxTextExpression(template, estree)]);
    ghost var flow := MdxJsxFlowElement("Math", [MdxJsxAttribute("display")], [MdxFlowExpression(template, estree)]);
    var paragraph := EnhancedPlugin.Transform(None, [InlineMath(source)], parse);
    assert paragraph.Ok? && |paragraph.value| == 1;
    assert paragraph.value[0] == MathElement(InlineMath(source), "Math", template, estree) == text;
    assert paragraph.value == [text];
    var children := [Other("paragraph", paragraph.value), Math(source)];
    root := EnhancedPlugin.Transform(None, children, parse);
    assert root.Ok? && |root.value| == 2;
    assert root.value[0] == children[0];
    assert root.value[1] == MathElement(Math(source), "Math", template, estree) == flow;
    assert root.value == [Other("paragraph", [text]), flow];
  }

  /**
   * `$\pi = \js{Math.PI}$` in a paragraph and the same source as display
   * math: both become `Math` elements holding `\pi = ${Math.PI}`.
   */
  method EnhancedSimpleExpression(parse: string -> ParseResult) returns (root: Result<seq<Node>>)
    requires parse(RawTemplateSource(PiTemplate)).Parsed?
    ensures var estree := parse(RawTemplateSource(PiTemplate)).program;
      root == Ok([
        Other("paragraph", [MdxJsxTextElement("Math", [], [MdxTextExpression(PiTemplate, estree)])]),
        MdxJsxFlowElement("Math", [MdxJsxAttribute("display")], [MdxFlowExpression(PiTemplate, estree)])])
  {
    EnhancedDefaultTemplate(EnhancedPlugin.MergeOptions(None));
    EnhancedPlugin.NoOptionsMeansDefaults();
    root := EnhancedParagraphAndDisplay(PiSource, parse);
  }

  /**
   * A display math node whose template the parser rejects: the transformer
   * throws the parser's error.
   */
  method EnhancedRejectedTemplateThrows(source: string, parse: string -> ParseResult)
    returns (root: Result<seq<Node>>)
    requires parse(RawTemplateSource(EnhancedPlugin.Template(source, EnhancedPlugin.Defaults))).SyntaxError?
    ensures root == Thrown(parse(RawTemplateSource(EnhancedPlugin.Template(source, EnhancedPlugin.Defaults))).message)
  {
    EnhancedPlugin.NoOptionsMeansDefaults();
    var children := [Math(source)];
    assert IsMath(children[0]) && children[0].value == source;
    root := EnhancedPlugin.Transform(None, children, parse);
    if root.Thrown? {
      var i :| 0 <= i < |children| && IsMath(children[i])
               && TransformMathToEstree(EnhancedPlugin.Template(children[i].value, EnhancedPlugin.Defaults), parse)
                  == SyntaxError(root.message);
      assert i == 0;
    }
  }

  /**
   * `$$\pi = \js{Math.PI$$`: the expression is never closed, so the template
   * `\pi = ${Math.PI` leaves a placeholder open; when the parser rejects it,
   * the transformer throws.
   */
  method UnclosedExpressionThrows(parse: string -> ParseResult) returns (root: Result<seq<Node>>)
    requires parse(RawTemplateSource("\\pi = ${Math.PI")).SyntaxError?
    ensures root == Thrown(parse(RawTemplateSource("\\pi = ${Math.PI")).message)
  {
    TemplateExamples.UnterminatedExpression(EnhancedPlugin.Defaults.startDelimiter, EnhancedPlugin.Defaults.endDelimiter);
    root := EnhancedRejectedTemplateThrows("\\pi = \\js{Math.PI", parse);
  }

  /**
   * An inline math node under the marker plugin with a custom component
   * name and the default marker: the text element carries that name.
   */
  method MarkerCustomComponent(component: string, source: string, parse: string -> ParseResult)
    returns (root: Result<seq<Node>>)
    requires parse(RawTemplateSource(Mark.ReplaceMarker(source, MarkerPlugin.Defaults.expressionMarker))).Parsed?
    ensures var template := Mark.ReplaceMarker(source, MarkerPlugin.Defaults.expressionMarker);
      root == Ok([MdxJsxTextElement(component, [], [MdxTextExpression(template, parse(RawTemplateSource(template)).program)])])
  {
    MarkerPlugin.DefaultMarkerIsSafe();
    ghost var template := Mark.ReplaceMarker(source, MarkerPlugin.Defaults.expressionMarker);
    ghost var estree := parse(RawTemplateSource(template)).program;
    var options := Some(MarkerPlugin.Options(Some(component), None));
    assert MarkerPlugin.MergeOptions(options) == MarkerPlugin.Settings(component, MarkerPlugin.Defaults.expressionMarker);
    var children := [InlineMath(source)];
    assert IsMath(children[0]) && children[0].value == source;
    root := MarkerPlugin.Transform(options, children, parse);
    assert root.Ok? && |root.value| == 1;
    assert root.value[0] == MathElement(InlineMath(source), component, template, estree)
                         == MdxJsxTextElement(component, [], [MdxTextExpression(template, estree)]);
    assert root.value == [root.value[0]];
  }

  /**
   * `$\pi = \js{Math.PI}$` with the component `CustomMath`: a `CustomMath`
   * text element holding `\pi = ${Math.PI}`.
   */
  method CustomComponentName(parse: string -> ParseResult) returns (root: Result<seq<Node>>)
    requires parse(RawTemplateSource(PiTemplate)).Parsed?
    ensures root == Ok([MdxJsxTextElement("CustomMath", [],
                          [MdxTextExpression(PiTemplate, parse(RawTemplateSource(PiTemplate)).program)])])
  {
    TemplateExamples.MarkerBeforeExpression();
    MarkerPlugin.DefaultMarkerIsSafe();
    root := MarkerCustomComponent("CustomMath", PiSource, parse);
  }
}

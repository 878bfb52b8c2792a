/**
 * `remarkMdxMathEnhancedPlugin`: options with a start and an end delimiter,
 * and a tree transformer that rewrites math nodes with the delimiter
 * tokenizer.
 */
module EnhancedPlugin {
  import opened Wrappers
  import opened Estree
  import opened Mdast
  import Tok = DelimiterTokenizer
  import MathVisitor

  /** The options object a caller may pass; an omitted key is `None`. */
  datatype Options = Options(component: Option<string>, startDelimiter: Option<string>, endDelimiter: Option<string>)

  /** The options in effect once the defaults are filled in. */
  datatype Settings = Settings(component: string, startDelimiter: string, endDelimiter: string)

  /** `DEFAULT_OPTIONS` */
  const Defaults: Settings := Settings("Math", "\\js{", "}")

  /**
   * `{ ...DEFAULT_OPTIONS, ...options }`: each key the caller gives wins, and
   * each key the caller leaves out keeps its default. No value is checked.
   */
  function MergeOptions(options: Option<Options>): (s: Settings)
    ensures options.Some? && options.value.component.Some? ==> s.component == options.value.component.value
    ensures options.Some? && options.value.startDelimiter.Some? ==> s.startDelimiter == options.value.startDelimiter.value
    ensures options.Some? && options.value.endDelimiter.Some? ==> s.endDelimiter == options.value.endDelimiter.value
    ensures (options.None? || options.value.component.None?) ==> s.component == "Math"
    ensures (options.None? || options.value.startDelimiter.None?) ==> s.startDelimiter == "\\js{"
    ensures (options.None? || options.value.endDelimiter.None?) ==> s.endDelimiter == "}"
  {
    var given := options.GetOr(Options(None, None, None));
    Settings(
      given.component.GetOr(Defaults.component),
      given.startDelimiter.GetOr(Defaults.startDelimiter),
      given.endDelimiter.GetOr(Defaults.endDelimiter))
  }

  /** Leaving the options out and passing an empty options object both give the defaults. */
  lemma NoOptionsMeansDefaults()
    ensures MergeOptions(None) == Defaults
    ensures MergeOptions(Some(Options(None, None, None))) == Defaults
  {
  }

  /**
   * Handing the settings in effect back as options changes nothing: every
   * key is then given, and each given key wins.
   */
  lemma MergeIsIdempotent(options: Option<Options>)
    ensures var s := MergeOptions(options);
      MergeOptions(Some(Options(Some(s.component), Some(s.startDelimiter), Some(s.endDelimiter)))) == s
  {
  }

  /** Settings whose delimiters the tokenizer can work with: neither is empty. */
  predicate ValidSettings(settings: Settings) {
    Tok.ValidDelimiters(settings.startDelimiter, settings.endDelimiter)
  }

  /** The rewrite of one math string under the given delimiters. */
  function Template(value: string, settings: Settings): string
    requires ValidSettings(settings)
  {
    Tok.TransformToTemplateString(value, settings.startDelimiter, settings.endDelimiter)
  }

  /**
   * The transformer the plugin returns, applied to one parent's children:
   * every math child is replaced, at its own index, by the element carrying
   * its tokenized template and the parse of that template; every other child
   * stays. It throws exactly when some math child's template does not parse,
   * and then with the parser's error for the first such child.
   */
  method Transform(options: Option<Options>, children: seq<Node>, parse: string -> ParseResult)
    returns (r: Result<seq<Node>>)
    requires ValidSettings(MergeOptions(options))
    ensures var s := MergeOptions(options);
      r.Ok? <==> forall j :: 0 <= j < |children| && IsMath(children[j]) ==>
        TransformMathToEstree(Template(children[j].value, s), parse).Parsed?
    ensures var s := MergeOptions(options);
      r.Ok? ==> && |r.value| == |children|
                && forall j :: 0 <= j < |children| ==>
                     r.value[j] == if IsMath(children[j]) then
                       var template := Template(children[j].value, s);
                       MathElement(children[j], s.component, template, TransformMathToEstree(template, parse).program)
                     else children[j]
    ensures var s := MergeOptions(options);
      r.Thrown? ==>
        exists i :: && 0 <= i < |children| && IsMath(children[i])
                    && TransformMathToEstree(Template(children[i].value, s), parse) == SyntaxError(r.message)
                    && forall j :: 0 <= j < i && IsMath(children[j]) ==>
                         TransformMathToEstree(Template(children[j].value, s), parse).Parsed?
  {
    var settings := MergeOptions(options);
    var transform := value => Template(value, settings);
    r := MathVisitor.VisitChildren(children, settings.component, transform, parse);
    if r.Thrown? {
      var i :| && 0 <= i < |children|
               && MathVisitor.AllRewrite(children[..i], settings.component, transform, parse)
               && MathVisitor.Rewrite(children[i], settings.component, transform, parse) == Thrown(r.message);
      assert forall j :: 0 <= j < i ==> children[..i][j] == children[j];
    }
  }
}

/**
 * The default export of `src/remarkMathMdx.ts`, which that file also names
 * `remarkMdxMathEnhancedPlugin`: options with an expression marker, and a
 * tree transformer that rewrites math nodes with the marker substitution.
 */
module MarkerPlugin {
  import opened Wrappers
  import opened Estree
  import opened Mdast
  import opened LiteralRegex
  import Mark = MarkerSubstitution
  import MathVisitor

  /** The options object a caller may pass; an omitted key is `None`. */
  datatype Options = Options(component: Option<string>, expressionMarker: Option<string>)

  /** The options in effect once the defaults are filled in. */
  datatype Settings = Settings(component: string, expressionMarker: string)

  /** `DEFAULT_OPTIONS` */
  const Defaults: Settings := Settings("Math", "\\js")

  /**
   * `{ ...DEFAULT_OPTIONS, ...options }`: each key the caller gives wins, and
   * each key the caller leaves out keeps its default. No value is checked.
   */
  function MergeOptions(options: Option<Options>): (s: Settings)
    ensures options.Some? && options.value.component.Some? ==> s.component == options.value.component.value
    ensures options.Some? && options.value.expressionMarker.Some? ==> s.expressionMarker == options.value.expressionMarker.value
    ensures (options.None? || options.value.component.None?) ==> s.component == "Math"
    ensures (options.None? || options.value.expressionMarker.None?) ==> s.expressionMarker == "\\js"
  {
    var given := options.GetOr(Options(None, None));
    Settings(given.component.GetOr(Defaults.component), given.expressionMarker.GetOr(Defaults.expressionMarker))
  }

  /** Leaving the options out and passing an empty options object both give the defaults. */
  lemma NoOptionsMeansDefaults()
    ensures MergeOptions(None) == Defaults
    ensures MergeOptions(Some(Options(None, None))) == Defaults
  {
  }

  /**
   * Handing the settings in effect back as options changes nothing: every
   * key is then given, and each given key wins.
   */
  lemma MergeIsIdempotent(options: Option<Options>)
    ensures var s := MergeOptions(options);
      MergeOptions(Some(Options(Some(s.component), Some(s.expressionMarker)))) == s
  {
  }

  /** The default marker `\js` lies in the fragment the substitution models. */
  lemma DefaultMarkerIsSafe()
    ensures SafeMarker(Defaults.expressionMarker)
  {
    var m := Defaults.expressionMarker;
    assert m == ['\\'] + "js" && m[1..] == "js";
    assert Occurrences(m[1..], '\\') == 0 by {
      assert m[1..][1..] == "s" && "s"[1..] == [];
    }
    assert !IsMeta('j') && !IsMeta('s');
  }

  /** The rewrite of one math string with the given marker. */
  function Template(value: string, settings: Settings): string
    requires SafeMarker(settings.expressionMarker)
  {
    Mark.TransformToTemplateString(value, settings.expressionMarker)
  }

  /**
   * The transformer the plugin returns, applied to one parent's children:
   * every math child is replaced, at its own index, by the element carrying
   * its marker-substituted template and the parse of that template; every
   * other child stays. It throws exactly when some math child's template
   * does not parse, and then with the parser's error for the first such child.
   */
  method Transform(options: Option<Options>, children: seq<Node>, parse: string -> ParseResult)
    returns (r: Result<seq<Node>>)
    requires SafeMarker(MergeOptions(options).expressionMarker)
    ensures var s := MergeOptions(options);
      r.Ok? <==> forall j :: 0 <= j < |children| && IsMath(children[j]) ==>
        TransformMathToEstree(Mark.ReplaceMarker(children[j].value, s.expressionMarker), parse).Parsed?
    ensures var s := MergeOptions(options);
      r.Ok? ==> && |r.value| == |children|
                && forall j :: 0 <= j < |children| ==>
                     r.value[j] == if IsMath(children[j]) then
                       var template := Mark.ReplaceMarker(children[j].value, s.expressionMarker);
                       MathElement(children[j], s.component, template, TransformMathToEstree(template, parse).program)
                     else children[j]
    ensures var s := MergeOptions(options);
      r.Thrown? ==>
        exists i :: && 0 <= i < |children| && IsMath(children[i])
                    && TransformMathToEstree(Mark.ReplaceMarker(children[i].value, s.expressionMarker), parse) == SyntaxError(r.message)
                    && forall j :: 0 <= j < i && IsMath(children[j]) ==>
                         TransformMathToEstree(Mark.ReplaceMarker(children[j].value, s.expressionMarker), parse).Parsed?
  {
    var settings := MergeOptions(options);
    var transform := value => Template(value, settings);
    r := MathVisitor.VisitChildren(children, settings.component, transform, parse);
    if r.Thrown? {
      var i :| && 0 <= i < |children|
               && MathVisitor.AllRewrite(children[..i], settings.component, transform, parse)
               && MathVisitor.Rewrite(children[i], settings.component, transform, parse) == Thrown(r.message);
      assert forall j :: 0 <= j < i ==> children[..i][j] == children[j];
    }
  }
}

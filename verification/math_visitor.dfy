/**
 * The visitor both plugins install: every `math` and `inlineMath` child of a
 * parent is rewritten into a template string, parsed, and spliced back as
 * an MDX JSX element at the same index. The two plugins differ only in the
 * rewrite, which is a parameter here; the parser is a parameter too.
 */
module MathVisitor {
  import opened Wrappers
  import opened Estree
  import opened Mdast

  /**
   * What the visitor makes of one node: a math node becomes its element if
   * the template parses, and the parser's error is thrown otherwise; any
   * other node is left as it is.
   */
  function Rewrite(node: Node, component: string, transform: string -> string,
                   parse: string -> ParseResult): Result<Node>
  {
    if !IsMath(node) then Ok(node)
    else
      var template := transform(node.value);
      match TransformMathToEstree(template, parse)
      case Parsed(estree) => Ok(MathElement(node, component, template, estree))
      case SyntaxError(message) => Thrown(message)
  }

  /**
   * A math node's rewrite fails exactly when the parser rejects its
   * template, with the parser's message; when it succeeds the result is a
   * JSX element named after the component, holding one expression with that
   * template, standing in the node's content category, and no longer math.
   * Any other node is kept.
   */
  lemma RewriteOutcome(node: Node, component: string, transform: string -> string,
                       parse: string -> ParseResult)
    ensures var r := Rewrite(node, component, transform, parse);
      && (!IsMath(node) ==> r == Ok(node))
      && (IsMath(node) ==> (r.Thrown? <==> TransformMathToEstree(transform(node.value), parse).SyntaxError?))
      && (r.Thrown? ==> TransformMathToEstree(transform(node.value), parse) == SyntaxError(r.message))
      && (r.Ok? && IsMath(node) ==>
        && (r.value.MdxJsxFlowElement? || r.value.MdxJsxTextElement?)
        && r.value.name == component && |r.value.children| == 1
        && (r.value.children[0].MdxFlowExpression? || r.value.children[0].MdxTextExpression?)
        && r.value.children[0].value == transform(node.value)
        && !IsMath(r.value) && IsFlow(r.value) == IsFlow(node) && IsPhrasing(r.value) == IsPhrasing(node))
  {
  }

  /** Every child is rewritten without an error. */
  predicate AllRewrite(children: seq<Node>, component: string, transform: string -> string,
                       parse: string -> ParseResult)
  {
    forall j :: 0 <= j < |children| ==> Rewrite(children[j], component, transform, parse).Ok?
  }

  /**
   * The visit of one parent's children, in order. At each math child the
   * template is built and parsed, and the element is spliced in at the same
   * index; the first parse error propagates and ends the visit. On success
   * the children keep their number and order, each is its own rewrite, and
   * no math node is left. The visit fails exactly when some math child's
   * template does not parse, and then with the error of the first such child.
   */
  method VisitChildren(children: seq<Node>, component: string, transform: string -> string,
                       parse: string -> ParseResult) returns (r: Result<seq<Node>>)
    ensures r.Ok? <==> AllRewrite(children, component, transform, parse)
    ensures r.Ok? ==> |r.value| == |children|
    ensures r.Ok? ==> forall j :: 0 <= j < |children| ==>
      r.value[j] == Rewrite(children[j], component, transform, parse).value
    ensures r.Ok? ==> forall j :: 0 <= j < |r.value| ==> !IsMath(r.value[j])
    ensures r.Thrown? ==>
      exists i :: && 0 <= i < |children|
                  && AllRewrite(children[..i], component, transform, parse)
                  && Rewrite(children[i], component, transform, parse) == Thrown(r.message)
  {
    var current := children;
    var index := 0;
    while index < |current|
      invariant |current| == |children| && index <= |children|
      invariant AllRewrite(children[..index], component, transform, parse)
      invariant forall j :: 0 <= j < index ==>
        current[j] == Rewrite(children[j], component, transform, parse).value && !IsMath(current[j])
      invariant forall j :: index <= j < |children| ==> current[j] == children[j]
    {
      var node := current[index];
      if node.Math? || node.InlineMath? {
        var template := transform(node.value);
        var estree := TransformMathToEstree(template, parse);
        if estree.SyntaxError? {
          return Thrown(estree.message);
        }
        current := Splice(current, index, MathElement(node, component, template, estree.program));
      }
      assert children[..index + 1] == children[..index] + [children[index]];
      index := index + 1;
    }
    assert children[..index] == children;
    return Ok(current);
  }
}

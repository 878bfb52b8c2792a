/**
 * The part of the markdown syntax tree (mdast, with the MDX extensions) that
 * the plugins read and write: the two math nodes that remark-math produces,
 * and the MDX JSX elements and expressions that replace them. Every other
 * node is kept opaque.
 */
module Mdast {
  import opened Estree

  /** A JSX attribute without a value, such as the boolean `display`. */
  datatype Attribute = MdxJsxAttribute(name: string)

  datatype Node =
    | Math(value: string)
    | InlineMath(value: string)
    | MdxJsxFlowElement(name: string, attributes: seq<Attribute>, children: seq<Node>)
    | MdxJsxTextElement(name: string, attributes: seq<Attribute>, children: seq<Node>)
    | MdxFlowExpression(value: string, estree: Program)
    | MdxTextExpression(value: string, estree: Program)
    | Other(kind: string, children: seq<Node>)

  /** The nodes the visitor rewrites. */
  predicate IsMath(n: Node) {
    n.Math? || n.InlineMath?
  }

  /** Nodes that may only stand where block (flow) content is allowed. */
  predicate IsFlow(n: Node) {
    n.Math? || n.MdxJsxFlowElement? || n.MdxFlowExpression?
  }

  /** Nodes that may only stand inside a paragraph (phrasing content). */
  predicate IsPhrasing(n: Node) {
    n.InlineMath? || n.MdxJsxTextElement? || n.MdxTextExpression?
  }

  /**
   * The JSX element that replaces a math node: a `math` node becomes a flow
   * element carrying the single attribute `display`, an `inlineMath` node a
   * text element without attributes. Either way the element is named after
   * the component and holds one expression, of the matching flow or text
   * kind, whose source is the template and whose parsed tree is `estree`.
   * The element is of the same content category (flow or phrasing) as the
   * node it replaces, so it may stand where the node stood, and it is not
   * itself a math node.
   */
  function MathElement(node: Node, component: string, template: string, estree: Program): (r: Node)
    requires IsMath(node)
    ensures r.MdxJsxFlowElement? <==> node.Math?
    ensures r.MdxJsxTextElement? <==> node.InlineMath?
    ensures r.name == component
    ensures node.Math? ==> r.attributes == [MdxJsxAttribute("display")]
    ensures node.InlineMath? ==> r.attributes == []
    ensures |r.children| == 1
    ensures r.children[0].MdxFlowExpression? <==> node.Math?
    ensures r.children[0].MdxTextExpression? <==> node.InlineMath?
    ensures r.children[0].value == template && r.children[0].estree == estree
    ensures IsFlow(r) == IsFlow(node) == IsFlow(r.children[0])
    ensures IsPhrasing(r) == IsPhrasing(node) == IsPhrasing(r.children[0])
    ensures !IsMath(r) && !IsMath(r.children[0])
  {
    if node.Math? then
      MdxJsxFlowElement(component, [MdxJsxAttribute("display")], [MdxFlowExpression(template, estree)])
    else
      MdxJsxTextElement(component, [], [MdxTextExpression(template, estree)])
  }

  /**
   * `children.splice(index, 1, item)`: removes the element at `index` and
   * inserts `item` in its place.
   */
  function Splice<T>(children: seq<T>, index: nat, item: T): (r: seq<T>)
    requires index < |children|
    ensures |r| == |children|
    ensures r[index] == item
    ensures forall j :: 0 <= j < |children| && j != index ==> r[j] == children[j]
  {
    children[..index] + [item] + children[index + 1..]
  }
}

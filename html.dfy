/**
 * The parsed document tree the extractors walk. A node has a kind, its data
 * (the tag name of an element, the text of a text node) and its children in
 * document order; a node's first child is `children[0]`. Attributes and
 * namespaces are not part of this model.
 */
module Html {

  /** The node kinds of the HTML tree. */
  datatype NodeType = ErrorNode | TextNode | DocumentNode | ElementNode | CommentNode | DoctypeNode | RawNode

  datatype Node = Node(kind: NodeType, data: string, children: seq<Node>)

  /** Every node of the tree rooted at `n` in pre-order: the node, then its children's trees from left to right. */
  function Preorder(n: Node): (s: seq<Node>)
    ensures s != [] && s[0] == n
    decreases n
  {
    [n] + PreorderOf(n.children)
  }

  /** The pre-order walks of the trees rooted at `cs`, one after the other. */
  function PreorderOf(cs: seq<Node>): seq<Node>
    decreases cs
  {
    if cs == [] then [] else Preorder(cs[0]) + PreorderOf(cs[1..])
  }

  /** An element with the given tag and children. */
  function Element(tag: string, children: seq<Node>): Node {
    Node(ElementNode, tag, children)
  }

  /** A text node. */
  function Text(text: string): Node {
    Node(TextNode, text, [])
  }
}

/** The slice of the IPLD data model that the traversal set-up code reads:
    node kinds, nodes with an optional schema-typed view, links,
    prototypes and path segments. Node internals are abstract: a node
    carries its kind, the values its scalar accessors return, when it is
    schema-typed its representation node, and, when it is a typed link
    node, its declared link-target prototype. */
module Datamodel {
  import opened Wrappers

  /** The signed 64-bit integers that `AsInt` returns. */
  newtype Int64 = x: int | -0x8000_0000_0000_0000 <= x < 0x8000_0000_0000_0000

  /** The kinds of the IPLD data model, including the invalid zero kind. */
  datatype Kind =
    | InvalidKind
    | MapKind
    | ListKind
    | NullKind
    | BoolKind
    | IntKind
    | FloatKind
    | StringKind
    | BytesKind
    | LinkKind

  /** An opaque, comparable reference to another node graph. */
  datatype Link = Link(cid: nat)

  /** An opaque node prototype: the shape a loaded node is built into. */
  datatype Prototype = Prototype(id: nat)

  /** A node. `text` is what `AsString` yields when the kind is
      `StringKind`, `number` what `AsInt` yields when it is `IntKind`.
      `repr` is present exactly when the node is schema-typed, and holds
      its representation node; `linkTarget` is present exactly when the
      node is a typed link node, and holds the prototype its link target
      is declared to have. The two are independent of each other. */
  datatype Node = Node(
    kind: Kind,
    text: string,
    number: Int64,
    repr: Option<Node>,
    linkTarget: Option<Prototype>)

  /** One step of a path: a map key or a list index. */
  datatype PathSegment = StringSegment(s: string) | IntSegment(i: Int64)

  /** Holds when the node implements the typed-node interface. */
  predicate IsTyped(n: Node) {
    n.repr.Some?
  }

  /** Holds when the node implements the typed-link-node interface. */
  predicate IsTypedLinkNode(n: Node) {
    n.linkTarget.Some?
  }

  function Representation(n: Node): Node
    requires IsTyped(n)
  {
    n.repr.value
  }

  function LinkTargetNodePrototype(n: Node): Prototype
    requires IsTypedLinkNode(n)
  {
    n.linkTarget.value
  }

  /** The plain (untyped) node that carries a segment's key or index. */
  function PlainKeyNode(seg: PathSegment): (n: Node)
    ensures !IsTyped(n)
    ensures seg.StringSegment? <==> n.kind == StringKind
    ensures seg.IntSegment? <==> n.kind == IntKind
  {
    match seg
    case StringSegment(s) => Node(StringKind, s, 0, None, None)
    case IntSegment(i) => Node(IntKind, "", i, None, None)
  }
}

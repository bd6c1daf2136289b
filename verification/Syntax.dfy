/** Kinds, trees, and the preorder in which a tree is written as flat events. */
module Syntax {
  import opened Wrappers

  /** The kinds the tree builder tells apart; every other one is `Other`. */
  datatype Kind =
    | Whitespace
    | LineComment
    | BlockComment
    | DirectiveTrivia
    | Eof
    | Verbatim
    | Other(id: nat)

  predicate IsTrivia(kind: Kind) {
    kind.Whitespace? || kind.LineComment? || kind.BlockComment? || kind.DirectiveTrivia?
  }

  datatype Tree =
    | Leaf(kind: Kind)
    | Node(kind: Kind, children: seq<Tree>)

  datatype Event =
    | Start(kind: Kind, forward: Option<nat>)
    | Tombstone
    | Token(kind: Kind)
    | Finish

  function Preorder(tree: Tree): seq<Event>
    decreases tree, 1
  {
    match tree
    case Leaf(kind) => [Token(kind)]
    case Node(kind, children) => [Start(kind, None)] + PreorderAll(children) + [Finish]
  }

  function PreorderAll(trees: seq<Tree>): seq<Event>
    decreases trees, 0
  {
    if trees == [] then [] else Preorder(trees[0]) + PreorderAll(trees[1..])
  }
}

/**
 The document as a finite tree. A node is named by its path from the root: the
 child indexes to follow. The parent and sibling links of the browser are then
 functions of the path and of the shape of the tree.
 */
module Dom {
  import opened Wrappers

  datatype Kind = ElementNode | TextNode | CommentNode | InstructionNode | DocumentNode | FragmentNode

  datatype Tree = Tree(kind: Kind, name: string, children: seq<Tree>)

  type Node = seq<nat>

  predicate InTree(t: Tree, p: Node)
    decreases |p|
  {
    p == [] || (p[0] < |t.children| && InTree(t.children[p[0]], p[1..]))
  }

  function At(t: Tree, p: Node): Tree
    requires InTree(t, p)
    decreases |p|
  {
    if p == [] then t else At(t.children[p[0]], p[1..])
  }

  predicate IsElement(t: Tree, p: Node) {
    InTree(t, p) && At(t, p).kind == ElementNode
  }

  /** Only elements and roots have children, as in every document a browser builds. */
  ghost predicate WellFormed(t: Tree) {
    forall p :: InTree(t, p) && p != [] && At(t, p).children != [] ==> At(t, p).kind == ElementNode
  }

  function Init(p: Node): Node
    requires p != []
  {
    p[..|p| - 1]
  }

  function Last(p: Node): nat
    requires p != []
  {
    p[|p| - 1]
  }

  function ParentNode(p: Node): Option<Node> {
    if p == [] then None else Some(Init(p))
  }

  function PreviousSibling(p: Node): Option<Node> {
    if p == [] || Last(p) == 0 then None else Some(Init(p) + [Last(p) - 1])
  }

  function NextSibling(t: Tree, p: Node): Option<Node>
    requires InTree(t, p)
  {
    if p == [] then None else
    ChildOf(t, p);
    if Last(p) + 1 < |At(t, Init(p)).children| then Some(Init(p) + [Last(p) + 1]) else None
  }

  /** A node and the entry its parent holds for it are the same. */
  lemma {:induction false} ChildOf(t: Tree, p: Node)
    requires InTree(t, p) && p != []
    ensures InTree(t, Init(p))
    ensures Last(p) < |At(t, Init(p)).children|
    ensures At(t, p) == At(t, Init(p)).children[Last(p)]
    decreases |p|
  {
    if |p| > 1 {
      ChildOf(t.children[p[0]], p[1..]);
      assert Init(p)[1..] == Init(p[1..]);
    }
  }

  /** Every entry a node of the tree holds is a node of the tree. */
  lemma {:induction false} ParentOf(t: Tree, p: Node, i: nat)
    requires InTree(t, p) && i < |At(t, p).children|
    ensures InTree(t, p + [i]) && At(t, p + [i]) == At(t, p).children[i]
    decreases |p|
  {
    if p != [] {
      ParentOf(t.children[p[0]], p[1..], i);
      assert (p + [i])[1..] == p[1..] + [i];
    }
  }

  lemma {:induction false} AncestorInTree(t: Tree, p: Node, k: nat)
    requires InTree(t, p) && k <= |p|
    ensures InTree(t, p[..k])
    decreases |p| - k
  {
    if k < |p| {
      ChildOf(t, p);
      AncestorInTree(t, Init(p), k);
      assert Init(p)[..k] == p[..k];
    } else {
      assert p[..k] == p;
    }
  }
}

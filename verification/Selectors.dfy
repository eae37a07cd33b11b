/**
 What a complex selector means (Selectors Level 3, section 8): a chain of nodes, one
 for each compound selector, related pairwise by the combinators between them.
 */
module Selectors {
  import opened Wrappers
  import opened Dom

  datatype Combinator = Child | Descendant | NextSibling | Subsequent

  /** A token is a combinator or one simple selector, already turned into its filter. */
  datatype Token = Relative(c: Combinator) | Simple(accepts: Node -> bool)

  /** The context of a query: one node, or a list of nodes. */
  datatype Context = One(node: Node) | Many(nodes: seq<Node>)

  /** `a` stands to the left of combinator `c`, `b` to its right; `c` looks at elements only. */
  ghost predicate Related(dom: Tree, c: Combinator, a: Node, b: Node) {
    && IsElement(dom, a)
    && match c
       case Descendant => |a| < |b| && b[..|a|] == a
       case Child => |b| == |a| + 1 && b[..|a|] == a
       case Subsequent => Precedes(a, b)
       case NextSibling => Precedes(a, b) && forall x :: Precedes(a, x) && Precedes(x, b) ==> !IsElement(dom, x)
  }

  /** `a` is an earlier sibling of `b`. */
  predicate Precedes(a: Node, b: Node) {
    a != [] && b != [] && Init(a) == Init(b) && Last(a) < Last(b)
  }

  /** The combinators by the links between nodes, whatever kinds of nodes the ends are. */
  ghost predicate Linked(dom: Tree, c: Combinator, a: Node, b: Node) {
    match c
    case Child => ParentNode(b) == Some(a)
    case Descendant => |a| < |b| && a == b[..|a|]
    case Subsequent => b != [] && exists j: nat :: j < Last(b) && a == Init(b) + [j]
    case NextSibling =>
      b != [] && exists j: nat :: j < Last(b) && a == Init(b) + [j] && NoElementBetween(dom, Init(b), j, Last(b))
  }

  /** No element among the children between the two. */
  predicate NoElementBetween(dom: Tree, parent: Node, from: nat, to: nat) {
    forall k :: from < k < to ==> !IsElement(dom, parent + [k])
  }

  /** Left of a combinator stands an element linked to what stands right of it. */
  lemma RelatedIsLinked(dom: Tree, c: Combinator, a: Node, b: Node)
    ensures Related(dom, c, a, b) <==> IsElement(dom, a) && Linked(dom, c, a, b)
    ensures RelatedToContext(dom, c, a, b) <==>
              Linked(dom, c, a, b) && (c.NextSibling? || c.Subsequent? ==> IsElement(dom, a))
  {
    if b != [] {
      assert b[..|b| - 1] == Init(b);
      assert Precedes(a, b) ==> a == Init(b) + [Last(a)];
      assert forall j: nat :: j < Last(b) && a == Init(b) + [j] ==> Precedes(a, b) && j == Last(a);
      if Precedes(a, b) {
        forall x | Precedes(a, x) && Precedes(x, b) ensures x == Init(b) + [Last(x)] && Last(a) < Last(x) < Last(b) {
        }
        forall k: nat | Last(a) < k < Last(b) ensures Precedes(a, Init(b) + [k]) && Precedes(Init(b) + [k], b) {
        }
      }
    }
  }

  /** The relation of the leftmost compound to its context; a document may be the parent. */
  ghost predicate RelatedToContext(dom: Tree, c: Combinator, a: Node, b: Node) {
    match c
    case Descendant => |a| < |b| && b[..|a|] == a
    case Child => |b| == |a| + 1 && b[..|a|] == a
    case Subsequent => Related(dom, c, a, b)
    case NextSibling => Related(dom, c, a, b)
  }

  function Leading(tokens: seq<Token>): nat {
    if tokens != [] && tokens[0].Relative? then 1 else 0
  }

  /** The index of the compound that token `i` belongs to, or, for a combinator, follows. */
  function Compound(tokens: seq<Token>, i: nat): nat
    requires Leading(tokens) <= i <= |tokens|
  {
    if i == Leading(tokens) then 0 else Compound(tokens, i - 1) + if tokens[i - 1].Relative? then 1 else 0
  }

  predicate InContext(context: Context, a: Node) {
    match context
    case One(n) => a == n
    case Many(ns) => a in ns
  }

  /** The combinator between the context and the leftmost compound. */
  function Implicit(tokens: seq<Token>): Combinator {
    if Leading(tokens) == 1 then tokens[0].c else Descendant
  }

  /**
   `ws` is a chain for the first `n` tokens, ending at `ws[|ws| - 1]`. With `anchored`,
   its first node is related to a node of the context.
   */
  ghost predicate Chain(dom: Tree, tokens: seq<Token>, n: nat, context: Context, anchored: bool, ws: seq<Node>)
    requires Leading(tokens) <= n <= |tokens|
  {
    && |ws| == Compound(tokens, n) + 1
    && (forall i :: Leading(tokens) <= i < n ==> TokenHolds(dom, tokens, i, ws))
    && (anchored ==> exists a :: InContext(context, a) && RelatedToContext(dom, Implicit(tokens), a, ws[0]))
  }

  ghost predicate TokenHolds(dom: Tree, tokens: seq<Token>, i: nat, ws: seq<Node>)
    requires Leading(tokens) <= i < |tokens|
  {
    var k := Compound(tokens, i);
    match tokens[i]
    case Simple(f) => k < |ws| && f(ws[k])
    case Relative(c) => k + 1 < |ws| && Related(dom, c, ws[k], ws[k + 1])
  }

  /** Some chain for the first `n` tokens ends at `p`. */
  ghost predicate Selects(dom: Tree, tokens: seq<Token>, n: nat, context: Context, anchored: bool, p: Node)
    requires Leading(tokens) <= n <= |tokens|
  {
    exists ws :: Chain(dom, tokens, n, context, anchored, ws) && ws[|ws| - 1] == p
  }

  lemma {:induction false} CompoundMonotone(tokens: seq<Token>, i: nat, j: nat)
    requires Leading(tokens) <= i <= j <= |tokens|
    ensures Compound(tokens, i) <= Compound(tokens, j)
    ensures i < j && tokens[i].Relative? ==> Compound(tokens, i) < Compound(tokens, j)
    decreases j - i
  {
    if i < j {
      CompoundMonotone(tokens, i, j - 1);
    }
  }

  /** A further simple selector narrows the node the chain ends at. */
  lemma {:induction false} SelectsSimple(dom: Tree, tokens: seq<Token>, n: nat, context: Context, anchored: bool,
                                         p: Node)
    requires Leading(tokens) <= n < |tokens| && tokens[n].Simple?
    ensures Selects(dom, tokens, n + 1, context, anchored, p)
            <==> Selects(dom, tokens, n, context, anchored, p) && tokens[n].accepts(p)
  {
    if Selects(dom, tokens, n + 1, context, anchored, p) {
      var ws :| Chain(dom, tokens, n + 1, context, anchored, ws) && ws[|ws| - 1] == p;
      assert TokenHolds(dom, tokens, n, ws);
      assert Chain(dom, tokens, n, context, anchored, ws);
    }
    if Selects(dom, tokens, n, context, anchored, p) && tokens[n].accepts(p) {
      var ws :| Chain(dom, tokens, n, context, anchored, ws) && ws[|ws| - 1] == p;
      assert TokenHolds(dom, tokens, n, ws);
      assert Chain(dom, tokens, n + 1, context, anchored, ws);
    }
  }

  /** Tokens before `n` look only at the nodes up to the compound of `n`. */
  lemma TokenHoldsLocally(dom: Tree, tokens: seq<Token>, i: nat, n: nat, ws: seq<Node>, p: Node)
    requires Leading(tokens) <= i < n <= |tokens| && |ws| == Compound(tokens, n) + 1
    ensures TokenHolds(dom, tokens, i, ws) <==> TokenHolds(dom, tokens, i, ws + [p])
  {
    CompoundMonotone(tokens, i, n);
    var k := Compound(tokens, i);
    assert ws[k] == (ws + [p])[k];
    assert tokens[i].Relative? ==> ws[k + 1] == (ws + [p])[k + 1];
  }

  /** A chain grows by a combinator exactly when the new end is related to the old one. */
  lemma {:induction false} ChainGrows(dom: Tree, tokens: seq<Token>, n: nat, context: Context, anchored: bool,
                                      ws: seq<Node>, p: Node)
    requires Leading(tokens) <= n < |tokens| && tokens[n].Relative? && ws != []
    ensures Chain(dom, tokens, n + 1, context, anchored, ws + [p])
            <==> Chain(dom, tokens, n, context, anchored, ws) && Related(dom, tokens[n].c, ws[|ws| - 1], p)
  {
    var longer := ws + [p];
    if |ws| == Compound(tokens, n) + 1 {
      forall i | Leading(tokens) <= i < n
        ensures TokenHolds(dom, tokens, i, ws) <==> TokenHolds(dom, tokens, i, longer)
      {
        TokenHoldsLocally(dom, tokens, i, n, ws, p);
      }
      assert TokenHolds(dom, tokens, n, longer) <==> Related(dom, tokens[n].c, ws[|ws| - 1], p);
      assert longer[0] == ws[0];
    }
  }

  /** A further combinator moves the end of the chain to a related node. */
  lemma {:induction false} SelectsRelative(dom: Tree, tokens: seq<Token>, n: nat, context: Context, anchored: bool,
                                           p: Node)
    requires Leading(tokens) <= n < |tokens| && tokens[n].Relative?
    ensures Selects(dom, tokens, n + 1, context, anchored, p)
            <==> exists q :: Related(dom, tokens[n].c, q, p) && Selects(dom, tokens, n, context, anchored, q)
  {
    if Selects(dom, tokens, n + 1, context, anchored, p) {
      var ws :| Chain(dom, tokens, n + 1, context, anchored, ws) && ws[|ws| - 1] == p;
      var shorter := ws[..|ws| - 1];
      assert ws == shorter + [p];
      ChainGrows(dom, tokens, n, context, anchored, shorter, p);
      assert Selects(dom, tokens, n, context, anchored, shorter[|shorter| - 1]);
    }
    if q :| Related(dom, tokens[n].c, q, p) && Selects(dom, tokens, n, context, anchored, q) {
      var ws :| Chain(dom, tokens, n, context, anchored, ws) && ws[|ws| - 1] == q;
      ChainGrows(dom, tokens, n, context, anchored, ws, p);
      assert (ws + [p])[|ws + [p]| - 1] == p;
    }
  }
}

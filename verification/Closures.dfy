/**
 The closures Sizzle builds from a selector, and what each returns on a node when
 nothing is cached.
 */
module Closures {
  import opened Wrappers
  import opened Dom
  import opened Selectors

  datatype Dir = Up | Left

  /**
   `Walk` is the function `addCombinator` returns: `done` is its `doneName`, `inner` the
   matchers that `elementMatcher` runs at each node it stops at. `Gate` is the
   foundational matcher that ties the leftmost compound to the context.
   */
  datatype Closure =
    | Filter(accepts: Node -> bool)
    | Walk(done: nat, dir: Dir, first: bool, base: bool, inner: seq<Closure>)
    | IsContext
    | AmongContexts
    | Gate(leading: bool, one: Closure, any: Closure)

  /** `outermost` says that the context is the `outermostContext` of the running query. */
  datatype Query = Query(dom: Tree, context: Context, xml: bool, outermost: bool)

  function DirOf(c: Combinator): Dir {
    if c.Child? || c.Descendant? then Up else Left
  }

  function FirstOnly(c: Combinator): bool {
    c.Child? || c.NextSibling?
  }

  function Step(dir: Dir, p: Node): Option<Node> {
    if dir.Up? then ParentNode(p) else PreviousSibling(p)
  }

  /** How many steps a walk can still take. */
  function Room(dir: Dir, p: Node): nat {
    if dir.Up? then |p| else if p == [] then 0 else Last(p)
  }

  predicate Stops(q: Query, w: Closure, p: Node)
    requires w.Walk?
  {
    IsElement(q.dom, p) || (w.base && w.dir.Up?)
  }

  predicate Matches(q: Query, m: Closure, p: Node)
    decreases m, 1, 0
  {
    match m
    case Filter(f) => f(p)
    case Walk(_, _, _, _, _) => WalkMatches(q, m, p)
    case IsContext => q.context.One? && p == q.context.node
    case AmongContexts => q.context.Many? && p in q.context.nodes
    case Gate(leading, one, any) =>
      (!leading && (q.xml || !q.outermost)) || (if q.context.One? then Matches(q, one, p) else Matches(q, any, p))
  }

  /** `elementMatcher`: every matcher accepts, the last one asked first. */
  predicate MatchesAll(q: Query, ms: seq<Closure>, p: Node)
    decreases ms, 0, 0
  {
    ms == [] || (Matches(q, ms[|ms| - 1], p) && MatchesAll(q, ms[..|ms| - 1], p))
  }

  predicate WalkMatches(q: Query, w: Closure, p: Node)
    requires w.Walk?
    decreases w, 0, Room(w.dir, p)
  {
    match Step(w.dir, p)
    case None => false
    case Some(n) =>
      if Stops(q, w, n) then MatchesAll(q, w.inner, n) || (!w.first && WalkMatches(q, w, n))
      else WalkMatches(q, w, n)
  }

  // ---------- Which nodes a walk visits ----------

  predicate Reaches(q: Query, w: Closure, p: Node, n: Node)
    requires w.Walk?
    decreases Room(w.dir, p)
  {
    match Step(w.dir, p)
    case None => false
    case Some(m) => (n == m && Stops(q, w, m)) || (!(w.first && Stops(q, w, m)) && Reaches(q, w, m, n))
  }

  /** A walk succeeds at a node it reaches and at which all its matchers accept ... */
  lemma {:induction false} ReachedNode(q: Query, w: Closure, p: Node) returns (n: Node)
    requires w.Walk? && WalkMatches(q, w, p)
    ensures Reaches(q, w, p, n) && MatchesAll(q, w.inner, n)
    decreases Room(w.dir, p)
  {
    var m := Step(w.dir, p).value;
    if Stops(q, w, m) && MatchesAll(q, w.inner, m) {
      n := m;
    } else {
      n := ReachedNode(q, w, m);
    }
  }

  /** ... and at any such node. */
  lemma {:induction false} ReachingMatches(q: Query, w: Closure, p: Node, n: Node)
    requires w.Walk? && Reaches(q, w, p, n) && MatchesAll(q, w.inner, n)
    ensures WalkMatches(q, w, p)
    decreases Room(w.dir, p)
  {
    var m := Step(w.dir, p).value;
    if n != m || !Stops(q, w, m) {
      ReachingMatches(q, w, m, n);
    }
  }

  lemma {:induction false} ReachesUp(q: Query, w: Closure, p: Node, n: Node)
    requires w.Walk? && w.dir.Up? && !w.first
    ensures Reaches(q, w, p, n) <==> |n| < |p| && p[..|n|] == n && Stops(q, w, n)
    decreases |p|
  {
    if p != [] {
      ReachesUp(q, w, Init(p), n);
      if |n| < |p| { assert Init(p)[..|n|] == p[..|n|]; }
    }
  }

  lemma {:induction false} ReachesParent(q: Query, w: Closure, p: Node, n: Node)
    requires w.Walk? && w.dir.Up? && w.first
    requires WellFormed(q.dom) && InTree(q.dom, p)
    ensures Reaches(q, w, p, n) <==> |p| == |n| + 1 && p[..|n|] == n && Stops(q, w, n)
  {
    if p != [] {
      ChildOf(q.dom, p);
      assert Init(p) == [] || IsElement(q.dom, Init(p));
    }
  }

  lemma {:induction false} ReachesLeft(q: Query, w: Closure, p: Node, n: Node)
    requires w.Walk? && w.dir.Left? && !w.first
    ensures Reaches(q, w, p, n) <==> Precedes(n, p) && Stops(q, w, n)
    decreases Room(w.dir, p)
  {
    var s := PreviousSibling(p);
    if s.Some? {
      ReachesLeft(q, w, s.value, n);
      Neighbours(p, n);
    }
  }

  /** The siblings before `p` are the one next to it and those before that one. */
  lemma Neighbours(p: Node, n: Node)
    requires PreviousSibling(p).Some?
    ensures Precedes(n, p) <==> n == PreviousSibling(p).value || Precedes(n, PreviousSibling(p).value)
  {
    if n != [] {
      assert n == Init(n) + [Last(n)];
    }
  }

  lemma {:induction false} ReachesNext(q: Query, w: Closure, p: Node, n: Node)
    requires w.Walk? && w.dir.Left? && w.first
    ensures Reaches(q, w, p, n)
            <==> Precedes(n, p) && Stops(q, w, n) && forall x :: Precedes(n, x) && Precedes(x, p) ==> !Stops(q, w, x)
    decreases Room(w.dir, p)
  {
    var s := PreviousSibling(p);
    if s.Some? {
      var m := s.value;
      ReachesNext(q, w, m, n);
      forall x ensures Precedes(x, p) <==> x == m || Precedes(x, m) {
        Neighbours(p, x);
      }
      assert Precedes(m, p);
    }
  }

  /** A walk for combinator `c` reaches the nodes that `c` relates to `p`. */
  lemma {:induction false} ReachesRelated(q: Query, w: Closure, c: Combinator, p: Node, n: Node)
    requires w.Walk? && w.dir == DirOf(c) && w.first == FirstOnly(c)
    requires WellFormed(q.dom) && InTree(q.dom, p)
    ensures Reaches(q, w, p, n)
            <==> if w.base then RelatedToContext(q.dom, c, n, p) else Related(q.dom, c, n, p)
  {
    match c
    case Descendant => ReachesUp(q, w, p, n);
    case Child => ReachesParent(q, w, p, n);
    case Subsequent => ReachesLeft(q, w, p, n);
    case NextSibling =>
      ReachesNext(q, w, p, n);
  }
}

/**
 The Sizzle engine: compiling tokens into matchers, running them with results cached
 on the nodes, and the loop over the candidate elements of a query.
 */
module Sizzle {
  import opened Wrappers
  import opened Dom
  import opened Selectors
  import opened Closures

  datatype Verdict = Unset | Hit | Missed(run: nat)

  /** The array stored on a node for one direction: `[dirkey, verdict]`. */
  datatype Slot = Slot(dirruns: nat, done: nat, verdict: Verdict)

  type Key = (Node, Dir)

  /**
   The matcher uses only walks registered in `made`, each under its own `doneName`
   below `bound` and above those of the walks inside it. In an `elementMatcher` only
   the matcher asked last can be anything but a filter.
   */
  ghost predicate Wellmade(made: map<nat, Closure>, m: Closure, bound: nat)
    decreases m
  {
    match m
    case Filter(_) => true
    case Walk(done, _, _, _, inner) =>
      && done < bound && done in made && made[done] == m
      && forall i :: 0 <= i < |inner| ==> (i == 0 || inner[i].Filter?) && Wellmade(made, inner[i], done)
    case IsContext => true
    case AmongContexts => true
    case Gate(_, one, any) => Wellmade(made, one, bound) && Wellmade(made, any, bound)
  }

  ghost predicate AllWellmade(made: map<nat, Closure>, ms: seq<Closure>, bound: nat) {
    forall i :: 0 <= i < |ms| ==> (i == 0 || ms[i].Filter?) && Wellmade(made, ms[i], bound)
  }

  ghost predicate Extends(made: map<nat, Closure>, made': map<nat, Closure>) {
    forall k :: k in made ==> k in made' && made'[k] == made[k]
  }

  lemma {:induction false} WellmadeExtends(made: map<nat, Closure>, made': map<nat, Closure>, m: Closure, b: nat,
                                           b': nat)
    requires Wellmade(made, m, b) && Extends(made, made') && b <= b'
    ensures Wellmade(made', m, b')
    decreases m
  {
    match m
    case Walk(done, _, _, _, inner) =>
      forall i | 0 <= i < |inner| ensures Wellmade(made', inner[i], done) {
        WellmadeExtends(made, made', inner[i], done, done);
      }
    case Gate(_, one, any) =>
      WellmadeExtends(made, made', one, b, b');
      WellmadeExtends(made, made', any, b, b');
    case _ =>
  }

  /** The matcher means: the first `n` tokens select the node. */
  ghost predicate Means(tokens: seq<Token>, n: nat, ms: seq<Closure>)
    requires Leading(tokens) <= n <= |tokens|
  {
    forall q: Query, p: Node :: WellFormed(q.dom) && InTree(q.dom, p) ==>
      (MatchesAll(q, ms, p) <==> Selects(q.dom, tokens, n, q.context, Anchored(q, tokens), p))
  }

  /** Whether the leftmost compound is checked against the context. */
  predicate Anchored(q: Query, tokens: seq<Token>) {
    Leading(tokens) == 1 || (!q.xml && q.outermost)
  }

  lemma AppendMatcher(q: Query, ms: seq<Closure>, m: Closure, p: Node)
    ensures MatchesAll(q, ms + [m], p) <==> Matches(q, m, p) && MatchesAll(q, ms, p)
  {
    assert (ms + [m])[..|ms|] == ms;
  }

  lemma SingleMatcher(q: Query, m: Closure, p: Node)
    ensures MatchesAll(q, [m], p) <==> Matches(q, m, p)
  {
    AppendMatcher(q, [], m, p);
    assert [] + [m] == [m];
  }

  /** The foundational walks, from the leftmost compound to the context. */
  ghost predicate IsFoundation(tokens: seq<Token>, w: Closure, test: Closure) {
    && w.Walk? && w.base && w.inner == [test]
    && w.dir == DirOf(Implicit(tokens)) && w.first == FirstOnly(Implicit(tokens))
  }

  lemma FoundationMatches(tokens: seq<Token>, q: Query, w: Closure, p: Node)
    requires IsFoundation(tokens, w, if q.context.One? then IsContext else AmongContexts)
    requires WellFormed(q.dom) && InTree(q.dom, p)
    ensures Matches(q, w, p) <==> exists n :: InContext(q.context, n) && RelatedToContext(q.dom, Implicit(tokens), n, p)
  {
    forall n
      ensures Reaches(q, w, p, n) && MatchesAll(q, w.inner, n)
              <==> InContext(q.context, n) && RelatedToContext(q.dom, Implicit(tokens), n, p)
    {
      ReachesRelated(q, w, Implicit(tokens), p, n);
      SingleMatcher(q, w.inner[0], n);
    }
    if WalkMatches(q, w, p) {
      var n := ReachedNode(q, w, p);
      assert InContext(q.context, n) && RelatedToContext(q.dom, Implicit(tokens), n, p);
    }
    if n :| InContext(q.context, n) && RelatedToContext(q.dom, Implicit(tokens), n, p) {
      ReachingMatches(q, w, p, n);
    }
  }

  lemma SelectsNothingYet(q: Query, tokens: seq<Token>, p: Node)
    ensures Selects(q.dom, tokens, Leading(tokens), q.context, Anchored(q, tokens), p)
            <==> (Anchored(q, tokens) ==>
                    exists n :: InContext(q.context, n) && RelatedToContext(q.dom, Implicit(tokens), n, p))
  {
    if Selects(q.dom, tokens, Leading(tokens), q.context, Anchored(q, tokens), p) {
      var ws :| Chain(q.dom, tokens, Leading(tokens), q.context, Anchored(q, tokens), ws) && ws[|ws| - 1] == p;
      assert ws[0] == p;
    }
    if Anchored(q, tokens) ==> exists n :: InContext(q.context, n) && RelatedToContext(q.dom, Implicit(tokens), n, p) {
      assert Chain(q.dom, tokens, Leading(tokens), q.context, Anchored(q, tokens), [p]);
      assert [p][|[p]| - 1] == p;
    }
  }

  lemma GateMeans(tokens: seq<Token>, gate: Closure)
    requires gate.Gate? && gate.leading == (Leading(tokens) == 1)
    requires IsFoundation(tokens, gate.one, IsContext) && IsFoundation(tokens, gate.any, AmongContexts)
    ensures Means(tokens, Leading(tokens), [gate])
  {
    forall q: Query, p: Node | WellFormed(q.dom) && InTree(q.dom, p)
      ensures MatchesAll(q, [gate], p) <==> Selects(q.dom, tokens, Leading(tokens), q.context, Anchored(q, tokens), p)
    {
      SingleMatcher(q, gate, p);
      FoundationMatches(tokens, q, if q.context.One? then gate.one else gate.any, p);
      SelectsNothingYet(q, tokens, p);
    }
  }

  lemma SimpleMeans(tokens: seq<Token>, n: nat, ms: seq<Closure>)
    requires Leading(tokens) <= n < |tokens| && tokens[n].Simple? && Means(tokens, n, ms)
    ensures Means(tokens, n + 1, ms + [Filter(tokens[n].accepts)])
  {
    forall q: Query, p | WellFormed(q.dom) && InTree(q.dom, p)
      ensures MatchesAll(q, ms + [Filter(tokens[n].accepts)], p)
              <==> Selects(q.dom, tokens, n + 1, q.context, Anchored(q, tokens), p)
    {
      AppendMatcher(q, ms, Filter(tokens[n].accepts), p);
      SelectsSimple(q.dom, tokens, n, q.context, Anchored(q, tokens), p);
    }
  }

  lemma RelativeMatches(tokens: seq<Token>, n: nat, ms: seq<Closure>, w: Closure, q: Query, p: Node)
    requires Leading(tokens) <= n < |tokens| && tokens[n].Relative? && Means(tokens, n, ms)
    requires w.Walk? && !w.base && w.inner == ms
    requires w.dir == DirOf(tokens[n].c) && w.first == FirstOnly(tokens[n].c)
    requires WellFormed(q.dom) && InTree(q.dom, p)
    ensures WalkMatches(q, w, p) <==> Selects(q.dom, tokens, n + 1, q.context, Anchored(q, tokens), p)
  {
    var c, anchored := tokens[n].c, Anchored(q, tokens);
    SelectsRelative(q.dom, tokens, n, q.context, anchored, p);
    forall m ensures Reaches(q, w, p, m) && MatchesAll(q, ms, m)
                     <==> Related(q.dom, c, m, p) && Selects(q.dom, tokens, n, q.context, anchored, m) {
      ReachesRelated(q, w, c, p, m);
    }
    if WalkMatches(q, w, p) {
      var m := ReachedNode(q, w, p);
      assert Related(q.dom, c, m, p) && Selects(q.dom, tokens, n, q.context, anchored, m);
    }
    if m :| Related(q.dom, c, m, p) && Selects(q.dom, tokens, n, q.context, anchored, m) {
      ReachingMatches(q, w, p, m);
    }
  }

  lemma RelativeMeans(tokens: seq<Token>, n: nat, ms: seq<Closure>, w: Closure)
    requires Leading(tokens) <= n < |tokens| && tokens[n].Relative? && Means(tokens, n, ms)
    requires w.Walk? && !w.base && w.inner == ms
    requires w.dir == DirOf(tokens[n].c) && w.first == FirstOnly(tokens[n].c)
    ensures Means(tokens, n + 1, [w])
  {
    forall q: Query, p: Node | WellFormed(q.dom) && InTree(q.dom, p)
      ensures MatchesAll(q, [w], p) <==> Selects(q.dom, tokens, n + 1, q.context, Anchored(q, tokens), p)
    {
      SingleMatcher(q, w, p);
      RelativeMatches(tokens, n, ms, w, q, p);
    }
  }

  predicate MatchesAny(q: Query, groups: seq<seq<Closure>>, p: Node) {
    exists j :: 0 <= j < |groups| && MatchesAll(q, groups[j], p)
  }

  function Matching(q: Query, groups: seq<seq<Closure>>, elems: seq<Node>): seq<Node> {
    if elems == [] then []
    else
      Matching(q, groups, elems[..|elems| - 1])
      + if MatchesAny(q, groups, elems[|elems| - 1]) then [elems[|elems| - 1]] else []
  }

  class Engine {
    /** The counters of the source: the next `doneName`, the number of the query, of the element. */
    var done: nat
    var dirruns: nat
    var cachedruns: nat
    /** What the nodes carry under `expando`, by node and direction. */
    var slots: map<Key, Slot>
    /** Every function `addCombinator` has returned, by `doneName`. */
    ghost var made: map<nat, Closure>

    ghost predicate Valid()
      reads this
    {
      && (forall k :: k in made ==> k < done)
      && (forall key :: key in slots ==> slots[key].dirruns <= dirruns)
    }

    constructor ()
      ensures Valid()
    {
      done, dirruns, cachedruns, slots, made := 0, 0, 0, map[], map[];
    }

    // ---------- Compiling ----------

    method AddCombinator(inner: seq<Closure>, c: Combinator, base: bool) returns (w: Closure)
      requires Valid() && AllWellmade(made, inner, done)
      modifies this`done, this`made
      ensures Valid() && Extends(old(made), made) && done == old(done) + 1
      ensures w == Walk(old(done), DirOf(c), FirstOnly(c), base, inner)
      ensures Wellmade(made, w, done)
    {
      w := Walk(done, DirOf(c), FirstOnly(c), base, inner);
      made := made[done := w];
      done := done + 1;
      forall i | 0 <= i < |inner| ensures Wellmade(made, inner[i], w.done) {
        WellmadeExtends(old(made), made, inner[i], w.done, w.done);
      }
    }

    /** The compiled matcher accepts a node exactly when the tokens select it. */
    method MatcherFromTokens(tokens: seq<Token>) returns (matchers: seq<Closure>)
      requires Valid() && tokens != []
      modifies this`done, this`made
      ensures Valid() && Extends(old(made), made) && done >= old(done)
      ensures AllWellmade(made, matchers, done)
      ensures Means(tokens, |tokens|, matchers)
    {
      hide Means, AllWellmade;
      var i := if tokens[0].Relative? then 1 else 0;
      matchers := Foundation(tokens);
      while i < |tokens|
        invariant Leading(tokens) <= i <= |tokens|
        invariant Valid() && Extends(old(made), made) && done >= old(done)
        invariant AllWellmade(made, matchers, done)
        invariant Means(tokens, i, matchers)
      {
        matchers := AddToken(tokens, i, matchers);
        i := i + 1;
      }
    }

    /** The foundational matcher, which ties the leftmost compound to the context. */
    method Foundation(tokens: seq<Token>) returns (matchers: seq<Closure>)
      requires Valid() && tokens != []
      modifies this`done, this`made
      ensures Valid() && Extends(old(made), made) && done >= old(done)
      ensures AllWellmade(made, matchers, done) && Means(tokens, Leading(tokens), matchers)
    {
      var leadingRelative := tokens[0].Relative?;
      var implicitRelative := if leadingRelative then tokens[0].c else Descendant;
      var matchContext := AddCombinator([IsContext], implicitRelative, true);
      label OneMade:
      var matchAnyContext := AddCombinator([AmongContexts], implicitRelative, true);
      WellmadeExtends(old@OneMade(made), made, matchContext, old@OneMade(done), done);
      matchers := [Gate(leadingRelative, matchContext, matchAnyContext)];
      GateMeans(tokens, matchers[0]);
    }

    /** One turn of the loop over the tokens. */
    method AddToken(tokens: seq<Token>, i: nat, matchers: seq<Closure>) returns (next: seq<Closure>)
      requires Valid() && Leading(tokens) <= i < |tokens|
      requires AllWellmade(made, matchers, done) && Means(tokens, i, matchers)
      modifies this`done, this`made
      ensures Valid() && Extends(old(made), made) && done >= old(done)
      ensures AllWellmade(made, next, done) && Means(tokens, i + 1, next)
    {
      match tokens[i] {
        case Relative(c) =>
          var w := AddCombinator(matchers, c, false);
          RelativeMeans(tokens, i, matchers, w);
          next := [w];
        case Simple(accepts) =>
          SimpleMeans(tokens, i, matchers);
          next := matchers + [Filter(accepts)];
      }
    }

    // ---------- Running with caches ----------

    /** What a slot of the current query says of the walk that wrote it. */
    ghost predicate Truthful(q: Query, key: Key, slot: Slot)
      reads this
    {
      slot.done in made ==>
        var w := made[slot.done];
        && w.Walk? && w.dir == key.1 && !w.first
        && match slot.verdict
           case Unset => false
           case Hit => MatchesAll(q, w.inner, key.0)
           case Missed(run) => !MatchesAll(q, w.inner, key.0) && run <= cachedruns
    }

    /** A walk that missed a node while matching the current element found nothing beyond it either. */
    ghost predicate Exhausted(q: Query, key: Key, slot: Slot)
      reads this
    {
      slot.done in made && made[slot.done].Walk? && slot.verdict == Missed(cachedruns) ==>
        !WalkMatches(q, made[slot.done], key.0)
    }

    ghost predicate Current(key: Key, lo: nat, hi: nat)
      reads this
    {
      key in slots && slots[key].dirruns == dirruns && lo <= slots[key].done < hi
    }

    ghost predicate Sound(q: Query, lo: nat, hi: nat)
      reads this
    {
      forall key :: Current(key, lo, hi) ==> Truthful(q, key, slots[key])
    }

    ghost predicate Trusted(q: Query, lo: nat, hi: nat)
      reads this
    {
      forall key :: Current(key, lo, hi) ==> Truthful(q, key, slots[key]) && Exhausted(q, key, slots[key])
    }

    /** Slots of walks from `b` on were at most replaced by others, and none of this query has gone. */
    twostate predicate LeavesFrom(b: nat)
      reads this
    {
      && (forall key :: key in slots && slots[key].dirruns == dirruns && slots[key].done >= b
            ==> key in old(slots) && slots[key] == old(slots)[key])
      && (forall key :: key in slots ==> slots[key].dirruns <= dirruns)
      && (forall key :: key in old(slots) && old(slots)[key].dirruns == dirruns ==>
            key in slots && slots[key].dirruns == dirruns)
    }

    method Run(q: Query, m: Closure, p: Node, ghost b: nat) returns (r: bool)
      requires Valid() && Wellmade(made, m, b) && Trusted(q, 0, b)
      modifies this`slots
      ensures r == Matches(q, m, p)
      ensures LeavesFrom(b) && Sound(q, 0, b)
      ensures !r || m.Filter? ==> Trusted(q, 0, b)
      decreases m, 2
    {
      match m {
        case Filter(f) =>
          r := f(p);
        case Walk(_, _, first, _, _) =>
          if first || q.xml {
            r := PlainWalk(q, m, p, b);
          } else {
            r := CachedWalk(q, m, p, b);
          }
        case IsContext =>
          r := q.context.One? && p == q.context.node;
        case AmongContexts =>
          r := q.context.Many? && p in q.context.nodes;
        case Gate(leading, one, any) =>
          if !leading && (q.xml || !q.outermost) {
            r := true;
          } else if q.context.One? {
            r := Run(q, one, p, b);
          } else {
            r := Run(q, any, p, b);
          }
      }
    }

    method RunAll(q: Query, ms: seq<Closure>, p: Node, ghost b: nat) returns (r: bool)
      requires Valid() && AllWellmade(made, ms, b) && Trusted(q, 0, b)
      modifies this`slots
      ensures r == MatchesAll(q, ms, p)
      ensures LeavesFrom(b) && Sound(q, 0, b)
      ensures !r ==> Trusted(q, 0, b)
      decreases ms, 0
    {
      var i := |ms|;
      assert ms[..i] == ms;
      while i > 0
        invariant 0 <= i <= |ms|
        invariant LeavesFrom(b) && Sound(q, 0, b)
        invariant i > 0 ==> Trusted(q, 0, b)
        invariant MatchesAll(q, ms, p) == MatchesAll(q, ms[..i], p)
      {
        i := i - 1;
        assert ms[..i + 1][..i] == ms[..i];
        var ok := Run(q, ms[i], p, b);
        if !ok {
          return false;
        }
      }
      return true;
    }

    /** `>` and `+`, and every walk over XML nodes. */
    method PlainWalk(q: Query, w: Closure, p: Node, ghost b: nat) returns (r: bool)
      requires Valid() && Wellmade(made, w, b) && Trusted(q, 0, b)
      requires w.Walk?
      modifies this`slots
      ensures r == WalkMatches(q, w, p)
      ensures LeavesFrom(b) && Sound(q, 0, b)
      ensures !r ==> Trusted(q, 0, b)
      decreases w, 0
    {
      var at := p;
      var elem := Step(w.dir, at);
      while elem.Some?
        invariant elem == Step(w.dir, at) && WalkMatches(q, w, p) == WalkMatches(q, w, at)
        invariant LeavesFrom(b) && Trusted(q, 0, b)
        decreases Room(w.dir, at)
      {
        at := elem.value;
        if Stops(q, w, at) {
          r := RunAll(q, w.inner, at, w.done);
          if w.first || r {
            return;
          }
        }
        elem := Step(w.dir, at);
      }
      return false;
    }

    /**
     Runs the matchers inside `w` at a node without a usable slot, and stores the verdict if
     the slot is still there.
     */
    method Ask(q: Query, w: Closure, at: Node, ghost b: nat) returns (r: bool)
      requires Valid() && Wellmade(made, w, b) && w.Walk? && !w.first
      requires Trusted(q, 0, w.done)
      requires !Current((at, w.dir), w.done, w.done + 1)
      modifies this`slots
      ensures r == MatchesAll(q, w.inner, at)
      ensures Sound(q, 0, w.done) && (!r ==> Trusted(q, 0, w.done))
      ensures forall key :: Current(key, w.done, w.done + 1) && key != (at, w.dir) ==>
                key in old(slots) && slots[key] == old(slots)[key]
      ensures Current((at, w.dir), w.done, w.done + 1) ==>
                slots[(at, w.dir)].verdict == if r then Hit else Missed(cachedruns)
      ensures LeavesFrom(w.done + 1) && (at, w.dir) in slots && slots[(at, w.dir)].dirruns == dirruns
      decreases w.inner, 1
    {
      var key := (at, w.dir);
      slots := slots[key := Slot(dirruns, w.done, Unset)];
      r := RunAll(q, w.inner, at, w.done);
      if key in slots && slots[key] == Slot(dirruns, w.done, Unset) {
        slots := slots[key := Slot(dirruns, w.done, if r then Hit else Missed(cachedruns))];
      }
    }

    /** Descendant and general sibling combinators over HTML nodes. */
    method CachedWalk(q: Query, w: Closure, p: Node, ghost b: nat) returns (r: bool)
      requires Valid() && Wellmade(made, w, b) && Trusted(q, 0, b)
      requires w.Walk? && !w.first
      modifies this`slots
      ensures r == WalkMatches(q, w, p)
      ensures LeavesFrom(b) && Sound(q, 0, b)
      ensures !r ==> Trusted(q, 0, b)
      decreases w, 1
    {
      var at := p;
      var elem := Step(w.dir, at);
      while elem.Some?
        invariant elem == Step(w.dir, at) && WalkMatches(q, w, p) == WalkMatches(q, w, at)
        invariant LeavesFrom(b) && Walking(q, w, p, Room(w.dir, at), b)
        decreases Room(w.dir, at)
      {
        at := elem.value;
        if Stops(q, w, at) {
          var answer := Visit(q, w, p, at, b);
          if answer.Some? {
            return answer.value;
          }
        }
        elem := Step(w.dir, at);
      }
      return false;
    }

    /** One node of the loop: the answer of the whole walk if it is known now. */
    method Visit(q: Query, w: Closure, ghost p: Node, at: Node, ghost b: nat) returns (answer: Option<bool>)
      requires Valid() && Wellmade(made, w, b) && w.Walk? && !w.first
      requires Walking(q, w, p, Room(w.dir, at) + 1, b)
      requires WalkMatches(q, w, p) == (MatchesAll(q, w.inner, at) || WalkMatches(q, w, at))
      modifies this`slots
      ensures LeavesFrom(b)
      ensures answer.Some? ==>
                answer.value == WalkMatches(q, w, p) && Sound(q, 0, b) && (!answer.value ==> Trusted(q, 0, b))
      ensures answer.None? ==> WalkMatches(q, w, p) == WalkMatches(q, w, at) && Walking(q, w, p, Room(w.dir, at), b)
      decreases w, 0
    {
      hide MatchesAll, WalkMatches, Stops;
      var key := (at, w.dir);
      if key in slots && slots[key].dirruns == dirruns && slots[key].done == w.done {
        assert Current(key, w.done, w.done + 1);
        var data := slots[key].verdict;
        if data == Hit || data == Missed(cachedruns) {
          return Some(data == Hit);
        }
      } else {
        var r := Ask(q, w, at, b);
        if r {
          return Some(true);
        }
      }
      return None;
    }

    /** While `w` walks from `p`: everything else is trusted, and its own misses of this element lie behind it. */
    ghost predicate Walking(q: Query, w: Closure, p: Node, room: nat, b: nat)
      requires w.Walk?
      reads this
    {
      && Trusted(q, 0, w.done) && Trusted(q, w.done + 1, b) && Sound(q, w.done, w.done + 1)
      && Pending(q, w, p, room)
    }

    /**
     A node that `w` missed for the current element either was exhausted by an earlier
     walk, or was passed by this walk, with `room` steps left or more.
     */
    ghost predicate Pending(q: Query, w: Closure, p: Node, room: nat)
      requires w.Walk?
      reads this
    {
      forall key :: Current(key, w.done, w.done + 1) && slots[key].verdict == Missed(cachedruns) ==>
        !WalkMatches(q, w, key.0) || (Room(w.dir, key.0) >= room && WalkMatches(q, w, key.0) == WalkMatches(q, w, p))
    }

    // ---------- A query over its candidates ----------

    /**
     `superMatcher`, the outermost run with element matchers only. `matcherCachedRuns` is
     the count its closure keeps from one query to the next.
     */
    method SuperMatch(dom: Tree, context: Context, xml: bool, isDocument: bool,
                      elems: seq<Node>, groups: seq<seq<Closure>>, matcherCachedRuns: nat)
      returns (results: seq<Node>, runs: nat)
      requires Valid() && forall j :: 0 <= j < |groups| ==> AllWellmade(made, groups[j], done)
      modifies this`slots, this`dirruns, this`cachedruns
      ensures Valid() && dirruns == old(dirruns) + 1 && runs == matcherCachedRuns + |elems|
      ensures results == Matching(Query(dom, context, xml, !isDocument), groups, elems)
    {
      hide MatchesAll;
      dirruns := dirruns + 1;
      cachedruns := matcherCachedRuns;
      runs := matcherCachedRuns;
      var q := Query(dom, context, xml, !isDocument);
      results := [];
      var i := 0;
      while i < |elems|
        invariant i <= |elems| && runs == cachedruns == matcherCachedRuns + i && dirruns == old(dirruns) + 1
        invariant forall key :: key in slots ==> slots[key].dirruns <= dirruns
        invariant Trusted(q, 0, done)
        invariant results == Matching(q, groups, elems[..i])
      {
        var elem := elems[i];
        var j, matched := 0, false;
        while j < |groups| && !matched
          invariant j <= |groups| && runs == cachedruns && dirruns == old(dirruns) + 1
          invariant Valid() && Sound(q, 0, done) && (!matched ==> Trusted(q, 0, done))
          invariant !matched ==> forall k :: 0 <= k < j ==> !MatchesAll(q, groups[k], elem)
          invariant matched ==> MatchesAny(q, groups, elem)
          decreases |groups| - j, if matched then 0 else 1
        {
          matched := RunAll(q, groups[j], elem, done);
          j := j + 1;
        }
        if matched {
          results := results + [elem];
        }
        runs := runs + 1;
        cachedruns := runs;
        assert elems[..i + 1][..i] == elems[..i];
        i := i + 1;
      }
      assert elems[..|elems|] == elems;
    }

    /** Compiles a selector list, its groups last to first, and runs it: the results are what it selects. */
    method Find(selector: seq<seq<Token>>, dom: Tree, context: Context, xml: bool, isDocument: bool, elems: seq<Node>)
      returns (results: seq<Node>)
      requires Valid() && WellFormed(dom)
      requires forall g :: 0 <= g < |selector| ==> selector[g] != []
      requires forall e :: e in elems ==> InTree(dom, e)
      modifies this
      ensures Valid()
      ensures results == SelectedBy(Query(dom, context, xml, !isDocument), selector, elems)
    {
      var q := Query(dom, context, xml, !isDocument);
      var matchers: seq<seq<Closure>> := [];
      var i := |selector|;
      while i > 0
        invariant 0 <= i <= |selector| && |matchers| == |selector| - i
        invariant Valid()
        invariant forall j :: 0 <= j < |matchers| ==> AllWellmade(made, matchers[j], done)
        invariant forall j :: 0 <= j < |matchers| ==>
                    Means(selector[|selector| - 1 - j], |selector[|selector| - 1 - j]|, matchers[j])
      {
        i := i - 1;
        label Before:
        var m := MatcherFromTokens(selector[i]);
        forall j | 0 <= j < |matchers| ensures AllWellmade(made, matchers[j], done) {
          forall k | 0 <= k < |matchers[j]| ensures Wellmade(made, matchers[j][k], done) {
            WellmadeExtends(old@Before(made), made, matchers[j][k], old@Before(done), done);
          }
        }
        matchers := matchers + [m];
      }
      var runs;
      results, runs := SuperMatch(dom, context, xml, isDocument, elems, matchers, 0);
      MatchingIsSelected(q, selector, matchers, elems);
    }
  }

  /** The tokens select the node, in the reading of the context that the gate has for the query. */
  ghost predicate SelectsIn(q: Query, tokens: seq<Token>, p: Node) {
    Selects(q.dom, tokens, |tokens|, q.context, Anchored(q, tokens), p)
  }

  ghost predicate SelectedByAny(q: Query, selector: seq<seq<Token>>, p: Node) {
    exists g :: 0 <= g < |selector| && GroupSelects(q, selector, g, p)
  }

  ghost predicate GroupSelects(q: Query, selector: seq<seq<Token>>, g: nat, p: Node)
    requires g < |selector|
  {
    SelectsIn(q, selector[g], p)
  }

  /** The elements some group of the selector selects, in their order. */
  ghost function SelectedBy(q: Query, selector: seq<seq<Token>>, elems: seq<Node>): seq<Node> {
    if elems == [] then []
    else SelectedBy(q, selector, elems[..|elems| - 1])
         + if SelectedByAny(q, selector, elems[|elems| - 1]) then [elems[|elems| - 1]] else []
  }

  lemma AnyGroupSelects(q: Query, selector: seq<seq<Token>>, groups: seq<seq<Closure>>, p: Node)
    requires WellFormed(q.dom) && InTree(q.dom, p) && |groups| == |selector|
    requires forall j :: 0 <= j < |groups| ==>
               Means(selector[|selector| - 1 - j], |selector[|selector| - 1 - j]|, groups[j])
    ensures MatchesAny(q, groups, p) <==> SelectedByAny(q, selector, p)
  {
    forall j | 0 <= j < |groups|
      ensures MatchesAll(q, groups[j], p) <==> GroupSelects(q, selector, |selector| - 1 - j, p)
    {
      assert Means(selector[|selector| - 1 - j], |selector[|selector| - 1 - j]|, groups[j]);
    }
    if g :| 0 <= g < |selector| && GroupSelects(q, selector, g, p) {
      assert MatchesAll(q, groups[|selector| - 1 - g], p);
    }
  }

  lemma {:induction false} MatchingIsSelected(q: Query, selector: seq<seq<Token>>, groups: seq<seq<Closure>>,
                                              elems: seq<Node>)
    requires WellFormed(q.dom) && (forall e :: e in elems ==> InTree(q.dom, e))
    requires |groups| == |selector|
    requires forall j :: 0 <= j < |groups| ==>
               Means(selector[|selector| - 1 - j], |selector[|selector| - 1 - j]|, groups[j])
    ensures Matching(q, groups, elems) == SelectedBy(q, selector, elems)
  {
    if elems != [] {
      MatchingIsSelected(q, selector, groups, elems[..|elems| - 1]);
      AnyGroupSelects(q, selector, groups, elems[|elems| - 1]);
    }
  }

  lemma {:induction false} SelectedConcat(q: Query, selector: seq<seq<Token>>, a: seq<Node>, b: seq<Node>)
    ensures SelectedBy(q, selector, a + b) == SelectedBy(q, selector, a) + SelectedBy(q, selector, b)
  {
    if b == [] {
      assert a + b == a;
    } else {
      assert (a + b)[..|a + b| - 1] == a + b[..|b| - 1];
      SelectedConcat(q, selector, a, b[..|b| - 1]);
    }
  }

  lemma {:induction false} SelectedTimes(q: Query, selector: seq<seq<Token>>, elems: seq<Node>, p: Node)
    ensures multiset(SelectedBy(q, selector, elems))[p]
            == if SelectedByAny(q, selector, p) then multiset(elems)[p] else 0
  {
    hide SelectedByAny;
    if elems != [] {
      SelectedTimes(q, selector, elems[..|elems| - 1], p);
      assert elems == elems[..|elems| - 1] + [elems[|elems| - 1]];
    }
  }

  /** A candidate is a result, each time it occurs, exactly if some group of the selector selects it. */
  lemma SelectedExactly(q: Query, selector: seq<seq<Token>>, elems: seq<Node>, p: Node)
    ensures multiset(SelectedBy(q, selector, elems))[p]
            == if exists g :: 0 <= g < |selector| && SelectsIn(q, selector[g], p) then multiset(elems)[p] else 0
  {
    hide SelectedBy, SelectsIn;
    SelectedTimes(q, selector, elems, p);
    if SelectedByAny(q, selector, p) {
      var g :| 0 <= g < |selector| && GroupSelects(q, selector, g, p);
      assert SelectsIn(q, selector[g], p);
    }
    if g :| 0 <= g < |selector| && SelectsIn(q, selector[g], p) {
      assert GroupSelects(q, selector, g, p);
    }
  }

  // ---------- Selectors of one and of two compounds ----------

  /** A node of the context is linked to `p`; beside it only an element can stand. */
  ghost predicate FromContext(q: Query, c: Combinator, p: Node) {
    exists a ::
      && (if q.context.One? then a == q.context.node else a in q.context.nodes)
      && Linked(q.dom, c, a, p) && (c.NextSibling? || c.Subsequent? ==> IsElement(q.dom, a))
  }

  lemma StartsFrom(q: Query, tokens: seq<Token>, p: Node)
    ensures (exists n :: InContext(q.context, n) && RelatedToContext(q.dom, Implicit(tokens), n, p))
            <==> FromContext(q, Implicit(tokens), p)
  {
    forall a
      ensures RelatedToContext(q.dom, Implicit(tokens), a, p) <==>
                && Linked(q.dom, Implicit(tokens), a, p)
                && (Implicit(tokens).NextSibling? || Implicit(tokens).Subsequent? ==> IsElement(q.dom, a))
    {
      RelatedIsLinked(q.dom, Implicit(tokens), a, p);
    }
  }

  /** `f`: below the context, unless the nodes are XML or the context is the document. */
  lemma FindsOne(q: Query, f: Node -> bool, p: Node)
    ensures SelectsIn(q, [Simple(f)], p) <==> f(p) && (q.xml || !q.outermost || FromContext(q, Descendant, p))
  {
    var tokens := [Simple(f)];
    SelectsSimple(q.dom, tokens, 0, q.context, Anchored(q, tokens), p);
    SelectsNothingYet(q, tokens, p);
    StartsFrom(q, tokens, p);
  }

  /** A leading combinator ties `f` to the context in every query. */
  lemma FindsFromContext(q: Query, c: Combinator, f: Node -> bool, p: Node)
    ensures SelectsIn(q, [Relative(c), Simple(f)], p) <==> f(p) && FromContext(q, c, p)
  {
    var tokens := [Relative(c), Simple(f)];
    SelectsSimple(q.dom, tokens, 1, q.context, Anchored(q, tokens), p);
    SelectsNothingYet(q, tokens, p);
    StartsFrom(q, tokens, p);
  }

  /** `f` and `g` with a combinator between them. */
  lemma FindsPair(q: Query, f: Node -> bool, c: Combinator, g: Node -> bool, p: Node)
    ensures SelectsIn(q, [Simple(f), Relative(c), Simple(g)], p) <==>
              g(p) && exists n :: Linked(q.dom, c, n, p) && IsElement(q.dom, n) && f(n)
                                  && (q.xml || !q.outermost || FromContext(q, Descendant, n))
  {
    hide Selects, Linked, Related, RelatedToContext, FromContext, InContext, IsElement;
    var tokens := [Simple(f), Relative(c), Simple(g)];
    var anchored := Anchored(q, tokens);
    SelectsSimple(q.dom, tokens, 2, q.context, anchored, p);
    SelectsRelative(q.dom, tokens, 1, q.context, anchored, p);
    forall n
      ensures Related(q.dom, c, n, p) && Selects(q.dom, tokens, 1, q.context, anchored, n) <==>
                && Linked(q.dom, c, n, p) && IsElement(q.dom, n) && f(n)
                && (q.xml || !q.outermost || FromContext(q, Descendant, n))
    {
      RelatedIsLinked(q.dom, c, n, p);
      SelectsSimple(q.dom, tokens, 0, q.context, anchored, n);
      SelectsNothingYet(q, tokens, n);
      StartsFrom(q, tokens, n);
    }
    if n :| Related(q.dom, c, n, p) && Selects(q.dom, tokens, 1, q.context, anchored, n) {
      assert Linked(q.dom, c, n, p);
    }
  }

  // ---------- HTML against XML ----------

  /**
   An HTML query selects no more than the same query over XML nodes, and the same when the
   selector starts with a combinator or the context is the document: then the gate treats
   them alike.
   */
  lemma HtmlAgainstXml(dom: Tree, context: Context, outermost: bool, tokens: seq<Token>, p: Node)
    ensures var html, xml := Query(dom, context, false, outermost), Query(dom, context, true, outermost);
            && (SelectsIn(html, tokens, p) ==> SelectsIn(xml, tokens, p))
            && (Leading(tokens) == 1 || !outermost ==> (SelectsIn(html, tokens, p) <==> SelectsIn(xml, tokens, p)))
  {
    var html, xml := Query(dom, context, false, outermost), Query(dom, context, true, outermost);
    if SelectsIn(html, tokens, p) {
      var ws :| Chain(dom, tokens, |tokens|, context, Anchored(html, tokens), ws) && ws[|ws| - 1] == p;
      assert Chain(dom, tokens, |tokens|, context, Anchored(xml, tokens), ws);
    }
  }

  /** Otherwise they can differ: for `div p` under the `div` itself, XML lets the `div` match. */
  lemma XmlSkipsTheContext()
    ensures var dom := Tree(DocumentNode, "", [Tree(ElementNode, "div", [Tree(ElementNode, "p", [])])]);
            var tokens := [Simple(n => n == [0]), Relative(Descendant), Simple(n => n == [0, 0])];
            && SelectsIn(Query(dom, One([0]), true, true), tokens, [0, 0])
            && !SelectsIn(Query(dom, One([0]), false, true), tokens, [0, 0])
  {
    var dom := Tree(DocumentNode, "", [Tree(ElementNode, "div", [Tree(ElementNode, "p", [])])]);
    var tokens := [Simple(n => n == [0]), Relative(Descendant), Simple(n => n == [0, 0])];
    var ws: seq<Node> := [[0], [0, 0]];
    assert Compound(tokens, 0) == 0 && Compound(tokens, 1) == 0 && Compound(tokens, 2) == 1 && Compound(tokens, 3) == 1;
    assert At(dom, [0]).kind == ElementNode;
    assert Related(dom, Descendant, [0], [0, 0]);
    assert Chain(dom, tokens, 3, One([0]), false, ws) && ws[|ws| - 1] == [0, 0];
    forall vs: seq<Node> ensures !Chain(dom, tokens, 3, One([0]), true, vs) {
      assert TokenHolds(dom, tokens, 0, vs) ==> 0 < |vs| && vs[0] == [0];
    }
  }
}

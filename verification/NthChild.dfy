/**
 The `CHILD` filter of Sizzle: `:first-child`, `:nth-child(an+b)`, `:nth-last-of-type(an+b)`
 and the rest (Selectors Level 3, sections 6.6.5.2 to 6.6.5.11), with the two caches it
 keeps for `:nth-child` and `:nth-last-child`. What the code counts and what the standard
 counts are told apart.
 */
module NthChild {
  import opened Wrappers
  import opened Dom

  datatype Which = OnlyKid | FirstKid | LastKid | Nth | NthLast

  /** The arguments of the filter; `a` and `b` are read by `Nth` and `NthLast` only. */
  datatype Test = Test(which: Which, ofType: bool, a: int, b: int)

  /** Entries stored on a parent and on an element, under the name of the test. */
  datatype Seek = Seek(dirruns: nat, nodeIndex: nat, diff: nat)
  datatype Rank = Rank(dirruns: nat, diff: nat)

  // ---------- What the filter counts ----------

  function LowerChar(c: char): char {
    if 'A' <= c <= 'Z' then c - 'A' + 'a' else c
  }

  /** `toLowerCase`, of a name in ASCII. */
  function Lower(s: string): string {
    if s == "" then "" else [LowerChar(s[0])] + Lower(s[1..])
  }

  /** The siblings the code counts: elements, or for `of-type` every node with that name in lower case. */
  predicate Counted(test: Test, name: string, kid: Tree) {
    if test.ofType then Lower(kid.name) == name else kid.kind == ElementNode
  }

  function Count(test: Test, name: string, kids: seq<Tree>): nat {
    if kids == [] then 0
    else Count(test, name, kids[..|kids| - 1]) + if Counted(test, name, kids[|kids| - 1]) then 1 else 0
  }

  /** The 1-based position of child `i` among the counted siblings. */
  function Position(test: Test, name: string, kids: seq<Tree>, i: nat): nat
    requires i < |kids|
  {
    Count(test, name, kids[..i + 1])
  }

  function PositionFromEnd(test: Test, name: string, kids: seq<Tree>, i: nat): nat
    requires i < |kids|
  {
    Count(test, name, kids[i..])
  }

  ghost predicate InSeries(a: int, b: int, pos: int) {
    exists n: nat :: a * n + b == pos
  }

  ghost predicate Accepted(test: Test, name: string, kids: seq<Tree>, i: nat)
    requires i < |kids|
  {
    match test.which
    case FirstKid => Position(test, name, kids, i) == 1
    case LastKid => PositionFromEnd(test, name, kids, i) == 1
    case OnlyKid => Position(test, name, kids, i) == 1 && PositionFromEnd(test, name, kids, i) == 1
    case Nth => InSeries(test.a, test.b, Position(test, name, kids, i))
    case NthLast => InSeries(test.a, test.b, PositionFromEnd(test, name, kids, i))
  }

  // ---------- Counting ----------

  lemma {:induction false} CountConcat(test: Test, name: string, xs: seq<Tree>, ys: seq<Tree>)
    ensures Count(test, name, xs + ys) == Count(test, name, xs) + Count(test, name, ys)
  {
    if ys == [] {
      assert xs + ys == xs;
    } else {
      CountConcat(test, name, xs, ys[..|ys| - 1]);
      assert (xs + ys)[..|xs + ys| - 1] == xs + ys[..|ys| - 1];
    }
  }

  lemma {:induction false} CountZero(test: Test, name: string, kids: seq<Tree>)
    ensures Count(test, name, kids) == 0 <==> forall i :: 0 <= i < |kids| ==> !Counted(test, name, kids[i])
  {
    if kids != [] {
      CountZero(test, name, kids[..|kids| - 1]);
    }
  }

  lemma CountNext(test: Test, name: string, kids: seq<Tree>, i: nat)
    requires i < |kids|
    ensures Count(test, name, kids[..i + 1])
            == Count(test, name, kids[..i]) + if Counted(test, name, kids[i]) then 1 else 0
  {
    assert kids[..i + 1][..i] == kids[..i];
  }

  lemma CountBack(test: Test, name: string, kids: seq<Tree>, i: nat)
    requires i < |kids|
    ensures Count(test, name, kids[i..])
            == Count(test, name, kids[i + 1..]) + if Counted(test, name, kids[i]) then 1 else 0
  {
    assert kids[i..] == [kids[i]] + kids[i + 1..];
    CountConcat(test, name, [kids[i]], kids[i + 1..]);
    CountNext(test, name, [kids[i]], 0);
    assert [kids[i]][..0] == [] && [kids[i]][..1] == [kids[i]];
  }

  // ---------- The final test ----------

  /** The remainder of a truncating division, as `%` computes it; undefined for a zero divisor. */
  function Remainder(x: int, y: int): Option<int> {
    if y == 0 then None
    else
      var ax, ay := if x < 0 then -x else x, if y < 0 then -y else y;
      Some(if x < 0 then -(ax % ay) else ax % ay)
  }

  /** `diff / first >= 0`, for a nonzero divisor. */
  predicate NonNegativeQuotient(x: int, y: int) {
    x == 0 || (x > 0) == (y > 0)
  }

  predicate CycleTest(diff: int, first: int) {
    diff == first || (Remainder(diff, first) == Some(0) && NonNegativeQuotient(diff, first))
  }

  lemma MultipleBound(d: int, k: int)
    requires d > 0
    ensures k >= 1 ==> d * k >= d
    ensures k <= -1 ==> d * k <= -d
  {
  }

  lemma MultipleHasNoRemainder(d: int, n: nat)
    requires d > 0
    ensures (d * n) % d == 0
  {
    var q, r := d * n / d, d * n % d;
    assert d * (n - q) == r;
    MultipleBound(d, n - q);
  }

  lemma CycleTestGivesStep(diff: int, a: int) returns (n: nat)
    requires CycleTest(diff, a)
    ensures a * n == diff
  {
    if diff == a {
      n := 1;
    } else if a > 0 {
      n := diff / a;
    } else {
      n := (-diff) / (-a);
      assert -diff == (-a) * n;
    }
  }

  lemma StepPassesCycleTest(a: int, n: nat)
    ensures CycleTest(a * n, a)
  {
    if a > 0 {
      MultipleHasNoRemainder(a, n);
    } else if a < 0 {
      MultipleHasNoRemainder(-a, n);
      assert (-a) * n == -(a * n);
    }
  }

  /** The final arithmetic of the filter decides membership in the series `an+b`, also for `a <= 0`. */
  lemma {:induction false} CycleTestIsSeries(a: int, b: int, pos: int)
    ensures CycleTest(pos - b, a) <==> InSeries(a, b, pos)
  {
    if CycleTest(pos - b, a) {
      var n := CycleTestGivesStep(pos - b, a);
      assert a * n + b == pos;
    }
    if n: nat :| a * n + b == pos {
      StepPassesCycleTest(a, n);
      assert pos - b == a * n;
    }
  }

  lemma ShortcutAlways(pos: int)
    ensures InSeries(1, 0, pos) <==> pos >= 0
  {
    if pos >= 0 {
      assert 1 * pos + 0 == pos;
    }
  }

  // ---------- What the filter should count ----------

  /** A sibling in the sense of the standard: an element, for `of-type` one of the same element name. */
  predicate Sibling(test: Test, name: string, kid: Tree) {
    kid.kind == ElementNode && (test.ofType ==> kid.name == name)
  }

  function CountSiblings(test: Test, name: string, kids: seq<Tree>): nat {
    if kids == [] then 0
    else CountSiblings(test, name, kids[..|kids| - 1]) + if Sibling(test, name, kids[|kids| - 1]) then 1 else 0
  }

  /**
   Selectors Level 3, sections 6.6.5.2 to 6.6.5.11, for child `i`: its parent is an element, and
   its position among its siblings is one that the test names.
   */
  ghost predicate Standard(test: Test, parent: Tree, i: nat)
    requires i < |parent.children|
  {
    parent.kind == ElementNode && StandardPosition(test, parent.children, i)
  }

  ghost predicate StandardPosition(test: Test, kids: seq<Tree>, i: nat)
    requires i < |kids|
  {
    var name := kids[i].name;
    var position, fromEnd := CountSiblings(test, name, kids[..i + 1]), CountSiblings(test, name, kids[i..]);
    match test.which
    case FirstKid => position == 1
    case LastKid => fromEnd == 1
    case OnlyKid => position == 1 && fromEnd == 1
    case Nth => InSeries(test.a, test.b, position)
    case NthLast => InSeries(test.a, test.b, fromEnd)
  }

  /** The same name, but for the case of its letters. */
  predicate SameIgnoringCase(s: string, t: string) {
    |s| == |t| && forall i :: 0 <= i < |s| ==> s[i] == t[i] || CaseOf(s[i], t[i]) || CaseOf(t[i], s[i])
  }

  predicate CaseOf(upper: char, lower: char) {
    'A' <= upper <= 'Z' && 'a' <= lower <= 'z' && upper as int - 'A' as int == lower as int - 'a' as int
  }

  lemma {:induction false} LowerIgnoresCase(s: string, t: string)
    ensures Lower(s) == Lower(t) <==> SameIgnoringCase(s, t)
  {
    if s != "" && t != "" {
      LowerIgnoresCase(s[1..], t[1..]);
      assert Lower(s) == [LowerChar(s[0])] + Lower(s[1..]) && Lower(t) == [LowerChar(t[0])] + Lower(t[1..]);
      assert Lower(s)[1..] == Lower(s[1..]) && Lower(t)[1..] == Lower(t[1..]);
      assert LowerChar(s[0]) == LowerChar(t[0])
        <==> s[0] == t[0] || CaseOf(s[0], t[0]) || CaseOf(t[0], s[0]);
      if SameIgnoringCase(s, t) {
        assert forall i :: 0 <= i < |s| - 1 ==> s[1..][i] == s[i + 1] && t[1..][i] == t[i + 1];
      }
      if SameIgnoringCase(s[1..], t[1..]) {
        assert forall i :: 1 <= i < |s| ==> s[i] == s[1..][i - 1] && t[i] == t[1..][i - 1];
      }
    }
  }

  /**
   For the `of-type` forms an impostor is a node that bears the name, but for the case of its
   letters, and is no element or does not bear exactly that name; the `child` forms meet none.
   */
  lemma ImpostorIs(test: Test, name: string, kid: Tree)
    ensures Impostor(test, name, kid) <==>
              && test.ofType && SameIgnoringCase(kid.name, name)
              && (kid.kind != ElementNode || kid.name != name)
  {
    LowerIgnoresCase(kid.name, name);
  }

  /** Counted by the code, and no sibling: another kind of node, or a name that differs in case. */
  predicate Impostor(test: Test, name: string, kid: Tree) {
    Counted(test, Lower(name), kid) && !Sibling(test, name, kid)
  }

  predicate Honest(test: Test, name: string, kids: seq<Tree>) {
    forall k :: 0 <= k < |kids| ==> !Impostor(test, name, kids[k])
  }

  lemma {:induction false} ImpostorsAreExtra(test: Test, name: string, kids: seq<Tree>)
    ensures Count(test, Lower(name), kids) >= CountSiblings(test, name, kids)
    ensures Count(test, Lower(name), kids) == CountSiblings(test, name, kids) <==> Honest(test, name, kids)
  {
    if kids != [] {
      var front, last := kids[..|kids| - 1], kids[|kids| - 1];
      ImpostorsAreExtra(test, name, front);
      assert Honest(test, name, kids) <==> Honest(test, name, front) && !Impostor(test, name, last) by {
        assert forall k :: 0 <= k < |front| ==> kids[k] == front[k];
      }
    }
  }

  /** What the filter answers about child `i`, whatever its parent is. */
  ghost predicate Answer(test: Test, parent: Tree, i: nat)
    requires i < |parent.children|
  {
    Accepted(test, Lower(parent.children[i].name), parent.children, i)
  }

  /** Without impostors the positions are right; the `child` forms never meet one. */
  lemma {:induction false} RightPositions(test: Test, kids: seq<Tree>, i: nat)
    requires i < |kids| && (!test.ofType || Honest(test, kids[i].name, kids))
    ensures Accepted(test, Lower(kids[i].name), kids, i) <==> StandardPosition(test, kids, i)
  {
    var name := kids[i].name;
    assert Honest(test, name, kids);
    ImpostorsAreExtra(test, name, kids[..i + 1]);
    ImpostorsAreExtra(test, name, kids[i..]);
  }

  /** An impostor on one side makes `:nth-of-type` or `:nth-last-of-type` wrong for the true position. */
  lemma WrongWithImpostor(parent: Tree, i: nat, k: nat) returns (test: Test)
    requires i < |parent.children| && k < |parent.children| && parent.kind == ElementNode
    requires Impostor(Test(Nth, true, 0, 0), parent.children[i].name, parent.children[k])
    ensures test.ofType && Standard(test, parent, i) && !Answer(test, parent, i)
  {
    var kids, name := parent.children, parent.children[i].name;
    var side := if k <= i then kids[..i + 1] else kids[i..];
    var any := Test(if k <= i then Nth else NthLast, true, 0, 0);
    var position := CountSiblings(any, name, side);
    test := any.(b := position);
    ImpostorsAreExtra(test, name, side);
    assert side[if k <= i then k else k - i] == kids[k];
    assert Impostor(test, name, kids[k]) && !Honest(test, name, side);
    SameSiblings(any, test, name, side);
    assert 0 * 0 + test.b == position;
  }

  lemma {:induction false} SameSiblings(t: Test, u: Test, name: string, kids: seq<Tree>)
    requires t.ofType == u.ofType
    ensures CountSiblings(t, name, kids) == CountSiblings(u, name, kids)
  {
    if kids != [] {
      SameSiblings(t, u, name, kids[..|kids| - 1]);
    }
  }

  /** Under a document or a fragment no position counts: the filter is wrong exactly where it accepts. */
  lemma WrongParent(test: Test, parent: Tree, i: nat)
    requires i < |parent.children| && parent.kind != ElementNode
    ensures (Answer(test, parent, i) <==> Standard(test, parent, i)) <==> !Answer(test, parent, i)
  {
  }

  /** ... and some test of either form accepts. */
  lemma AlwaysAccepted(ofType: bool, parent: Tree, i: nat)
    requires i < |parent.children|
    ensures Answer(Test(Nth, ofType, 1, 0), parent, i)
  {
    ShortcutAlways(Position(Test(Nth, ofType, 1, 0), Lower(parent.children[i].name), parent.children, i));
  }

  /** The `child` forms answer as the standard says, whatever their arguments, exactly when the parent is an element. */
  lemma {:induction false} ChildIsRight(parent: Tree, i: nat)
    requires i < |parent.children|
    ensures (forall test: Test :: !test.ofType ==> (Answer(test, parent, i) <==> Standard(test, parent, i)))
            <==> parent.kind == ElementNode
  {
    if parent.kind == ElementNode {
      forall test: Test | !test.ofType ensures Answer(test, parent, i) <==> Standard(test, parent, i) {
        RightPositions(test, parent.children, i);
      }
    } else {
      AlwaysAccepted(false, parent, i);
      WrongParent(Test(Nth, false, 1, 0), parent, i);
    }
  }

  /**
   The `of-type` forms answer as the standard says, whatever their arguments, exactly when the
   parent is an element and no child is taken for a sibling of the type that is none: no node
   that is not an element and no element of another name shares the name in lower case.
   */
  lemma {:induction false} OfTypeIsRight(parent: Tree, i: nat)
    requires i < |parent.children|
    ensures (forall test: Test :: test.ofType ==> (Answer(test, parent, i) <==> Standard(test, parent, i)))
            <==> parent.kind == ElementNode
                 && Honest(Test(Nth, true, 0, 0), parent.children[i].name, parent.children)
  {
    var kids, name := parent.children, parent.children[i].name;
    var any := Test(Nth, true, 0, 0);
    if parent.kind != ElementNode {
      AlwaysAccepted(true, parent, i);
      WrongParent(Test(Nth, true, 1, 0), parent, i);
    } else if Honest(any, name, kids) {
      forall test: Test | test.ofType ensures Answer(test, parent, i) <==> Standard(test, parent, i) {
        assert forall k :: 0 <= k < |kids| ==> (Impostor(test, name, kids[k]) <==> Impostor(any, name, kids[k]));
        RightPositions(test, kids, i);
      }
    } else {
      var k :| 0 <= k < |kids| && Impostor(any, name, kids[k]);
      var test := WrongWithImpostor(parent, i, k);
    }
  }

  /** `html:first-child`: the document is the parent, so the standard says no, and the filter says yes. */
  lemma DocumentIsNoElement()
    ensures var dom := Tree(DocumentNode, "#document", [Tree(ElementNode, "html", [])]);
            var test := Test(FirstKid, false, 0, 0);
            Answer(test, dom, 0) && !Standard(test, dom, 0)
  {
    var dom := Tree(DocumentNode, "#document", [Tree(ElementNode, "html", [])]);
    var test := Test(FirstKid, false, 0, 0);
    assert dom.children[..1] == dom.children && dom.children[..0] == [];
    CountNext(test, Lower("html"), dom.children, 0);
    assert Count(test, Lower("html"), []) == 0;
  }

  /** A processing instruction that bears the element's name is counted: `:first-of-type` misses the first `p`. */
  lemma InstructionIsCounted()
    ensures var dom := Tree(ElementNode, "div", [Tree(InstructionNode, "p", []), Tree(ElementNode, "p", [])]);
            var test := Test(FirstKid, true, 0, 0);
            Standard(test, dom, 1) && !Answer(test, dom, 1)
  {
    var kids := [Tree(InstructionNode, "p", []), Tree(ElementNode, "p", [])];
    var test := Test(FirstKid, true, 0, 0);
    assert Lower("p") == "p";
    var front := [kids[0]];
    assert kids[..2] == kids && kids[..|kids| - 1] == front && front[..0] == [];
    assert !Sibling(test, "p", kids[0]) && Sibling(test, "p", kids[1]);
    assert Counted(test, "p", kids[0]) && Counted(test, "p", kids[1]);
    assert CountSiblings(test, "p", []) == 0 && Count(test, "p", []) == 0;
    assert CountSiblings(test, "p", front) == 0 && Count(test, "p", front) == 1;
    assert CountSiblings(test, "p", kids) == 1 && Count(test, "p", kids) == 2;
  }

  /** In XML a `P` is no `p`, but is counted as one: `:first-of-type` misses the `p` behind it. */
  lemma CaseIsIgnored()
    ensures var dom := Tree(ElementNode, "div", [Tree(ElementNode, "P", []), Tree(ElementNode, "p", [])]);
            var test := Test(FirstKid, true, 0, 0);
            Standard(test, dom, 1) && !Answer(test, dom, 1)
  {
    var kids := [Tree(ElementNode, "P", []), Tree(ElementNode, "p", [])];
    var test := Test(FirstKid, true, 0, 0);
    assert Lower("p") == "p" && Lower("P") == "p";
    var front := [kids[0]];
    assert kids[..2] == kids && kids[..|kids| - 1] == front && front[..0] == [];
    assert !Sibling(test, "p", kids[0]) && Sibling(test, "p", kids[1]);
    assert Counted(test, "p", kids[0]) && Counted(test, "p", kids[1]);
    assert CountSiblings(test, "p", []) == 0 && Count(test, "p", []) == 0;
    assert CountSiblings(test, "p", front) == 0 && Count(test, "p", front) == 1;
    assert CountSiblings(test, "p", kids) == 1 && Count(test, "p", kids) == 2;
  }

  // ---------- The filter and its caches ----------

  class ChildFilter {
    const dom: Tree
    var dirruns: nat
    /** `parent[expando]["nth"]` and `elem[expando]["nth-last"]`. */
    var seeks: map<Node, Seek>
    var ranks: map<Node, Rank>

    const children := Test(Nth, false, 0, 0)

    function Kids(parent: Node): seq<Tree> {
      if InTree(dom, parent) then At(dom, parent).children else []
    }

    /** Entries of the current query give true positions. */
    ghost predicate Valid()
      reads this
    {
      && (forall p :: p in seeks && seeks[p].dirruns == dirruns ==>
            seeks[p].nodeIndex < |Kids(p)| && seeks[p].diff == Position(children, "", Kids(p), seeks[p].nodeIndex))
      && (forall p :: p in ranks && ranks[p].dirruns == dirruns ==>
            p != [] && Last(p) < |Kids(Init(p))|
            && ranks[p].diff == PositionFromEnd(children, "", Kids(Init(p)), Last(p)))
      && (forall p :: p in seeks ==> seeks[p].dirruns <= dirruns)
      && (forall p :: p in ranks ==> ranks[p].dirruns <= dirruns)
    }

    constructor (dom: Tree)
      ensures Valid() && this.dom == dom
    {
      this.dom := dom;
      dirruns, seeks, ranks := 0, map[], map[];
    }

    /** A new query: everything stored so far goes stale at once. */
    method NextQuery()
      requires Valid()
      modifies this`dirruns
      ensures Valid() && dirruns == old(dirruns) + 1
    {
      dirruns := dirruns + 1;
    }

    method Check(elem: Node, xml: bool, test: Test) returns (accepted: bool)
      requires Valid() && IsElement(dom, elem)
      modifies this`seeks, this`ranks
      ensures Valid()
      ensures elem == [] ==> !accepted
      ensures elem != [] ==> InTree(dom, Init(elem)) && Last(elem) < |Kids(Init(elem))|
      ensures elem != [] ==> (accepted <==> Answer(test, At(dom, Init(elem)), Last(elem)))
      ensures elem != [] && IsElement(dom, Init(elem))
              && (!test.ofType || Honest(test, At(dom, elem).name, Kids(Init(elem)))) ==>
                (accepted <==> Standard(test, At(dom, Init(elem)), Last(elem)))
      ensures elem != [] && !IsElement(dom, Init(elem)) ==> !Standard(test, At(dom, Init(elem)), Last(elem))
    {
      if elem != [] {
        ChildOf(dom, elem);
        if !test.ofType || Honest(test, At(dom, elem).name, Kids(Init(elem))) {
          RightPositions(test, Kids(Init(elem)), Last(elem));
        }
      }
      accepted := Decide(elem, xml, test);
    }

    /** The filter by what it counts. */
    method Decide(elem: Node, xml: bool, test: Test) returns (accepted: bool)
      requires Valid() && IsElement(dom, elem)
      modifies this`seeks, this`ranks
      ensures Valid()
      ensures elem == [] ==> !accepted
      ensures elem != [] ==> Last(elem) < |Kids(Init(elem))|
      ensures elem != [] ==> (accepted <==> Accepted(test, Lower(At(dom, elem).name), Kids(Init(elem)), Last(elem)))
    {
      if elem == [] {
        return false;
      }
      ChildOf(dom, elem);
      var parent, name := Init(elem), Lower(At(dom, elem).name);
      ghost var kids, i := Kids(parent), Last(elem);
      assert Counted(test, name, kids[i]);
      if !test.which.Nth? && !test.which.NthLast? {
        accepted := Simple(elem, test, name);
        return;
      }
      if test.a == 1 && test.b == 0 {
        ShortcutAlways(Position(test, name, kids, i));
        ShortcutAlways(PositionFromEnd(test, name, kids, i));
        return true;
      }
      var useCache := !xml && !test.ofType;
      var diff;
      if test.which.Nth? && useCache {
        diff := SeekForward(elem);
        SameCount(test, children, name, "", kids[..i + 1]);
      } else if useCache && elem in ranks && ranks[elem].dirruns == dirruns {
        diff := ranks[elem].diff;
        SameCount(test, children, name, "", kids[i..]);
      } else {
        diff := Scan(elem, test, name, useCache);
      }
      var offset := diff - test.b;
      CycleTestIsSeries(test.a, test.b, diff);
      return CycleTest(offset, test.a);
    }

    /** `:first-*`, `:last-*` and `:only-*`: no counted sibling on one side, or on both. */
    method Simple(elem: Node, test: Test, name: string) returns (accepted: bool)
      requires elem != [] && InTree(dom, Init(elem)) && Last(elem) < |Kids(Init(elem))|
      requires test.which.OnlyKid? || test.which.FirstKid? || test.which.LastKid?
      requires Counted(test, name, Kids(Init(elem))[Last(elem)])
      ensures accepted <==> Accepted(test, name, Kids(Init(elem)), Last(elem))
    {
      var kids, i := Kids(Init(elem)), Last(elem);
      CountNext(test, name, kids, i);
      CountBack(test, name, kids, i);
      var backward := !test.which.LastKid?;
      accepted := ClearSide(kids, i, test, name, backward);
      if accepted && test.which.OnlyKid? {
        accepted := ClearSide(kids, i, test, name, false);
      }
    }

    /** Walks the siblings on one side of child `i`: is none of them counted? */
    method ClearSide(kids: seq<Tree>, i: nat, test: Test, name: string, backward: bool) returns (clear: bool)
      requires i < |kids|
      ensures clear <==> Count(test, name, if backward then kids[..i] else kids[i + 1..]) == 0
    {
      var side := if backward then kids[..i] else kids[i + 1..];
      CountZero(test, name, side);
      var node := i;
      while if backward then node > 0 else node + 1 < |kids|
        invariant 0 <= node < |kids| && if backward then node <= i else i <= node
        invariant forall k :: 0 <= k < |side| && (if backward then node <= k else k < node - i) ==>
                    !Counted(test, name, side[k])
        decreases if backward then node else |kids| - node
      {
        node := if backward then node - 1 else node + 1;
        assert kids[node] == side[if backward then node else node - i - 1];
        if Counted(test, name, kids[node]) {
          return false;
        }
      }
      return true;
    }

    method SeekForward(elem: Node) returns (diff: nat)
      requires Valid() && IsElement(dom, elem) && elem != []
      requires InTree(dom, Init(elem)) && Last(elem) < |Kids(Init(elem))|
      requires Kids(Init(elem))[Last(elem)].kind == ElementNode
      modifies this`seeks
      ensures Valid()
      ensures diff == Position(children, "", Kids(Init(elem)), Last(elem))
      ensures seeks == old(seeks)[Init(elem) := Seek(dirruns, Last(elem), diff)]
    {
      var parent := Init(elem);
      var nodeIndex;
      if parent in seeks && seeks[parent].dirruns == dirruns {
        nodeIndex, diff := SeekFrom(Kids(parent), Last(elem), seeks[parent].nodeIndex, seeks[parent].diff);
      } else {
        nodeIndex, diff := SeekFrom(Kids(parent), Last(elem), 0, 0);
      }
      seeks := seeks[parent := Seek(dirruns, nodeIndex, diff)];
    }

    /** Seeks child `i` from a cached index, and if need be once more from the start. Index 0 is as good as none. */
    method SeekFrom(kids: seq<Tree>, i: nat, cachedIndex: nat, cachedDiff: nat) returns (nodeIndex: nat, diff: nat)
      requires i < |kids| && kids[i].kind == ElementNode
      requires cachedIndex > 0 ==> cachedIndex < |kids| && cachedDiff == Position(children, "", kids, cachedIndex)
      ensures nodeIndex == i && diff == Position(children, "", kids, i)
    {
      var start := true;
      var node: Option<nat> := if cachedIndex == 0 then None else Some(cachedIndex);
      nodeIndex, diff := cachedIndex, cachedDiff;
      while true
        invariant node.Some? ==> node.value == nodeIndex < |kids| && diff == Count(children, "", kids[..nodeIndex + 1])
        invariant node.None? ==> start
        invariant !start ==> node.value < i
        decreases start, if node.Some? then |kids| - node.value else |kids|
      {
        nodeIndex := nodeIndex + 1;
        node := if node.Some? && node.value + 1 < |kids| then Some(node.value + 1) else None;
        if node.None? {
          diff, nodeIndex := 0, 0;
          start, node := false, Some(0);
          assert kids[..0] == [];
        }
        CountNext(children, "", kids, node.value);
        if kids[node.value].kind == ElementNode {
          diff := diff + 1;
          if node.value == i {
            return;
          }
        }
      }
    }

    method StoreRank(parent: Node, node: nat, diff: nat)
      requires Valid() && node < |Kids(parent)| && diff == PositionFromEnd(children, "", Kids(parent), node)
      modifies this`ranks
      ensures Valid() && ranks == old(ranks)[parent + [node] := Rank(dirruns, diff)]
      ensures Init(parent + [node]) == parent
      ensures forall from :: node < from && old(RankedFrom(parent, from)) ==> RankedFrom(parent, from)
      ensures Ranked(parent, node)
    {
      assert Init(parent + [node]) == parent && Last(parent + [node]) == node;
      ranks := ranks[parent + [node] := Rank(dirruns, diff)];
    }

    /** Every element among the children from `from` on has its rank stored for this query. */
    ghost predicate RankedFrom(parent: Node, from: nat)
      reads this
    {
      forall k :: from <= k < |Kids(parent)| && Kids(parent)[k].kind == ElementNode ==> Ranked(parent, k)
    }

    ghost predicate Ranked(parent: Node, k: nat)
      requires k < |Kids(parent)|
      reads this
    {
      && parent + [k] in ranks && ranks[parent + [k]].dirruns == dirruns
      && ranks[parent + [k]].diff == PositionFromEnd(children, "", Kids(parent), k)
    }

    /** Counts from the first child, or for `nth-last` from the last one; then every element met is given its rank. */
    method Scan(elem: Node, test: Test, name: string, useCache: bool) returns (diff: nat)
      requires Valid() && elem != [] && InTree(dom, Init(elem)) && Last(elem) < |Kids(Init(elem))|
      requires test.which.Nth? || test.which.NthLast?
      requires Counted(test, name, Kids(Init(elem))[Last(elem)])
      requires useCache ==> test.which.NthLast? && !test.ofType
      modifies this`ranks
      ensures Valid()
      ensures diff == if test.which.Nth? then Position(test, name, Kids(Init(elem)), Last(elem))
                      else PositionFromEnd(test, name, Kids(Init(elem)), Last(elem))
      ensures !useCache ==> ranks == old(ranks)
      ensures useCache ==> RankedFrom(Init(elem), Last(elem))
      ensures forall p :: p in old(ranks) && (p == [] || Init(p) != Init(elem)) ==>
                p in ranks && ranks[p] == old(ranks)[p]
    {
      hide Count, Counted;
      var parent := Init(elem);
      var kids, i := Kids(parent), Last(elem);
      var forward := test.which.Nth?;
      var node := if forward then 0 else |kids| - 1;
      diff := 0;
      assert kids[..0] == [] && kids[|kids|..] == [];
      CountZero(test, name, []);
      while true
        invariant 0 <= node < |kids| && Valid()
        invariant forward ==> node <= i && diff == Count(test, name, kids[..node])
        invariant !forward ==> i <= node && diff == Count(test, name, kids[node + 1..])
        invariant !useCache ==> ranks == old(ranks)
        invariant useCache ==> RankedFrom(parent, node + 1)
        invariant forall p :: p in old(ranks) && (p == [] || Init(p) != parent) ==>
                    p in ranks && ranks[p] == old(ranks)[p]
        decreases if forward then |kids| - node else node
      {
        CountNext(test, name, kids, node);
        CountBack(test, name, kids, node);
        CountedElement(test, name, kids[node]);
        if Counted(test, name, kids[node]) {
          diff := diff + 1;
          if useCache {
            SameCount(test, children, name, "", kids[node..]);
            StoreRank(parent, node, diff);
          }
          if node == i {
            return;
          }
        }
        node := if forward then node + 1 else node - 1;
      }
    }
  }

  lemma CountedElement(test: Test, name: string, kid: Tree)
    ensures !test.ofType ==> (Counted(test, name, kid) <==> kid.kind == ElementNode)
  {
  }

  /** When elements are counted the name plays no part. */
  lemma {:induction false} SameCount(t: Test, u: Test, name: string, name': string, kids: seq<Tree>)
    requires t.ofType == u.ofType == false
    ensures Count(t, name, kids) == Count(u, name', kids)
  {
    if kids != [] {
      SameCount(t, u, name, name', kids[..|kids| - 1]);
    }
  }
}

/**
 Sorting nodes into document order: the comparator `sortOrder` for browsers
 without `compareDocumentPosition`, `siblingCheck`, and `uniqueSort`.
 */
module DocumentOrder {
  import opened Wrappers
  import opened Dom

  /** A node of one of several trees; two different roots never share a node. */
  datatype Ref = Ref(tree: nat, path: Node)

  /** `doc`, `preferredDoc` (both document roots) and `sortInput`. */
  datatype Env = Env(forest: seq<Tree>, doc: nat, preferredDoc: nat, sortInput: Option<seq<Ref>>)

  predicate Known(env: Env, a: Ref) {
    a.tree < |env.forest| && InTree(env.forest[a.tree], a.path)
  }

  // ---------- The order the comparator should give ----------

  /** The nodes of a tree in the order their start tags appear. */
  ghost function Preorder(t: Tree): seq<Node>
    decreases t, |t.children| + 2
  {
    [[]] + PreorderFrom(t, 0)
  }

  ghost function PreorderFrom(t: Tree, i: nat): seq<Node>
    requires i <= |t.children|
    decreases t, |t.children| - i + 1
  {
    if i == |t.children| then [] else Under(i, Preorder(t.children[i])) + PreorderFrom(t, i + 1)
  }

  ghost function Under(i: nat, ps: seq<Node>): (r: seq<Node>)
    ensures |r| == |ps| && forall k :: 0 <= k < |r| ==> r[k] == [i] + ps[k]
  {
    seq(|ps|, k requires 0 <= k < |ps| => [i] + ps[k])
  }

  /** An ancestor comes before its descendants, an earlier branch before a later one. */
  predicate Before(a: Node, b: Node)
    decreases |a|
  {
    b != [] && (a == [] || a[0] < b[0] || (a[0] == b[0] && Before(a[1..], b[1..])))
  }

  /** The traversal meets exactly the nodes of the tree. */
  lemma {:induction false} PreorderCovers(t: Tree, p: Node)
    ensures InTree(t, p) <==> p in Preorder(t)
    decreases t, |t.children| + 2
  {
    if p == [] {
      assert Preorder(t)[0] == [];
    } else {
      PreorderFromCovers(t, 0, p);
      assert p in Preorder(t) <==> p in PreorderFrom(t, 0);
    }
  }

  lemma {:induction false} PreorderFromCovers(t: Tree, i: nat, p: Node)
    requires i <= |t.children|
    ensures p in PreorderFrom(t, i) <==> p != [] && p[0] >= i && InTree(t, p)
    decreases t, |t.children| - i + 1
  {
    if i < |t.children| {
      PreorderFromCovers(t, i + 1, p);
      var inner := Preorder(t.children[i]);
      if p != [] && p[0] == i {
        PreorderCovers(t.children[i], p[1..]);
        assert p == [i] + p[1..];
        if p[1..] in inner {
          var k :| 0 <= k < |inner| && inner[k] == p[1..];
          assert Under(i, inner)[k] == p;
        }
      }
      if p in Under(i, inner) {
        var k :| 0 <= k < |inner| && Under(i, inner)[k] == p;
        assert p[1..] == inner[k];
      }
    }
  }

  /** ... each once, and in the order `Before`. */
  lemma {:induction false} PreorderIncreases(t: Tree, i: nat, j: nat)
    requires i < j < |Preorder(t)|
    ensures Before(Preorder(t)[i], Preorder(t)[j])
    decreases t, |t.children| + 2
  {
    var rest := PreorderFrom(t, 0);
    assert rest[j - 1] in rest;
    PreorderFromCovers(t, 0, rest[j - 1]);
    if i > 0 {
      PreorderFromIncreases(t, 0, i - 1, j - 1);
    }
  }

  lemma {:induction false} PreorderFromIncreases(t: Tree, c: nat, i: nat, j: nat)
    requires c <= |t.children| && i < j < |PreorderFrom(t, c)|
    ensures Before(PreorderFrom(t, c)[i], PreorderFrom(t, c)[j])
    decreases t, |t.children| - c + 1
  {
    var inner := Preorder(t.children[c]);
    var head := Under(c, inner);
    var rest := PreorderFrom(t, c + 1);
    if j < |head| {
      PreorderIncreases(t.children[c], i, j);
      assert head[i][1..] == inner[i] && head[j][1..] == inner[j];
    } else {
      if i < |head| {
        assert rest[j - |head|] in rest;
        PreorderFromCovers(t, c + 1, rest[j - |head|]);
      } else {
        PreorderFromIncreases(t, c + 1, i - |head|, j - |head|);
      }
    }
  }

  lemma {:induction false} BeforeTotal(a: Node, b: Node)
    ensures Before(a, b) || Before(b, a) || a == b
    ensures !(Before(a, b) && Before(b, a))
    ensures a == b ==> !Before(a, b)
    decreases |a|
  {
    if a != [] && b != [] && a[0] == b[0] {
      BeforeTotal(a[1..], b[1..]);
      if a[1..] == b[1..] {
        assert a == [a[0]] + a[1..] && b == [b[0]] + b[1..];
      }
    }
  }

  lemma {:induction false} BeforeTransitive(a: Node, b: Node, c: Node)
    requires Before(a, b) && Before(b, c)
    ensures Before(a, c)
    decreases |a|
  {
    if a != [] && a[0] == b[0] == c[0] {
      BeforeTransitive(a[1..], b[1..], c[1..]);
    }
  }

  // ---------- The comparator ----------

  function CommonLength(a: Node, b: Node): (n: nat)
    ensures n <= |a| && n <= |b| && a[..n] == b[..n]
    ensures n < |a| && n < |b| ==> a[n] != b[n]
    decreases |a|
  {
    if a == [] || b == [] || a[0] != b[0] then 0
    else
      var n := CommonLength(a[1..], b[1..]);
      assert a[..n + 1] == [a[0]] + a[1..][..n] && b[..n + 1] == [b[0]] + b[1..][..n];
      n + 1
  }

  lemma {:induction false} CommonLengthIs(a: Node, b: Node, n: nat)
    requires n <= |a| && n <= |b| && a[..n] == b[..n]
    requires n < |a| && n < |b| ==> a[n] != b[n]
    ensures CommonLength(a, b) == n
    decreases n
  {
    if n > 0 {
      assert a[0] == a[..n][0] && b[0] == b[..n][0];
      assert a[1..][..n - 1] == a[..n][1..] && b[1..][..n - 1] == b[..n][1..];
      CommonLengthIs(a[1..], b[1..], n - 1);
    }
  }

  /** `siblingCheck` on entries `i` of two ancestor lists, either possibly past its end. */
  function SiblingOrder(a: Option<Node>, b: Option<Node>): int
    requires a.Some? && b.Some? ==> a.value != [] && b.value != []
  {
    if a.Some? && b.Some? && Last(a.value) < Last(b.value) then -1 else if a.Some? then 1 else -1
  }

  function IndexIn(s: seq<Ref>, a: Ref): int {
    if s == [] then -1 else if s[0] == a then 0
    else var k := IndexIn(s[1..], a); if k < 0 then -1 else k + 1
  }

  function Ancestry(p: Node, i: nat): Option<Node> {
    if i <= |p| then Some(p[..i]) else None
  }

  /** The value `sortOrder` returns. */
  function Compare(env: Env, a: Ref, b: Ref): int {
    if a == b then 0
    else if a.path == [] || b.path == [] then
      if a == Ref(env.doc, []) then -1
      else if b == Ref(env.doc, []) then 1
      else if a.path != [] then -1
      else if b.path != [] then 1
      else if env.sortInput.Some? then IndexIn(env.sortInput.value, a) - IndexIn(env.sortInput.value, b)
      else 0
    else if a.tree == b.tree then
      if Init(a.path) == Init(b.path) then SiblingOrder(Some(a.path), Some(b.path))
      else
        var i := CommonLength(a.path, b.path) + 1;
        SiblingOrder(Ancestry(a.path, i), Ancestry(b.path, i))
    else if a.tree == env.preferredDoc then -1
    else if b.tree == env.preferredDoc then 1
    else 0
  }

  /** Walks the following siblings of `a` in search of `b`. */
  method SiblingCheck(t: Tree, a: Option<Node>, b: Option<Node>) returns (r: int)
    requires a.Some? ==> InTree(t, a.value)
    requires b.Some? ==> InTree(t, b.value)
    requires a.Some? && b.Some? ==> a.value != [] && b.value != [] && Init(a.value) == Init(b.value) && a != b
    ensures r == SiblingOrder(a, b)
  {
    if a.Some? && b.Some? {
      ChildOf(t, a.value);
      ChildOf(t, b.value);
      ghost var kids := |At(t, Init(a.value)).children|;
      assert a.value == Init(a.value) + [Last(a.value)] && b.value == Init(b.value) + [Last(b.value)];
      var cur := NextSibling(t, a.value);
      ghost var i := Last(a.value) + 1;
      while cur.Some?
        invariant Last(a.value) < i <= kids
        invariant cur == if i < kids then Some(Init(a.value) + [i]) else None
        invariant !(Last(a.value) < Last(b.value) < i)
        decreases kids - i
      {
        if cur == b {
          return -1;
        }
        ParentOf(t, Init(a.value), i);
        cur := NextSibling(t, cur.value);
        i := i + 1;
      }
    }
    return if a.Some? then 1 else -1;
  }

  /** The list of a node and its ancestors, the root first. */
  method AncestorList(a: Node) returns (ap: seq<Node>)
    ensures |ap| == |a| + 1 && forall k :: 0 <= k < |ap| ==> ap[k] == a[..k]
  {
    ap := [a];
    var cur := ParentNode(a);
    while cur.Some?
      invariant |ap| <= |a| + 1
      invariant cur == if |ap| <= |a| then Some(a[..|a| - |ap|]) else None
      invariant forall k :: 0 <= k < |ap| ==> ap[k] == a[..|a| + 1 - |ap| + k]
      decreases |a| + 1 - |ap|
    {
      assert |cur.value| > 0 ==> Init(cur.value) == a[..|a| - |ap| - 1];
      ap := [cur.value] + ap;
      cur := ParentNode(cur.value);
    }
  }

  /** Where the loop down the two ancestor lists stops. */
  lemma FirstDiscrepancy(t: Tree, p: Node, q: Node, n: nat)
    requires InTree(t, p) && InTree(t, q) && n <= |p| && n <= |q| && p[..n] == q[..n]
    requires n < |p| && n < |q| ==> p[..n + 1] != q[..n + 1]
    ensures CommonLength(p, q) == n
    ensures var a, b := Ancestry(p, n + 1), Ancestry(q, n + 1);
            && (a.Some? ==> InTree(t, a.value)) && (b.Some? ==> InTree(t, b.value))
            && (a.Some? && b.Some? ==> Init(a.value) == Init(b.value) && a != b)
  {
    assert n < |p| && n < |q| ==> p[..n + 1] == p[..n] + [p[n]] && q[..n + 1] == q[..n] + [q[n]];
    CommonLengthIs(p, q, n);
    if n < |p| { AncestorInTree(t, p, n + 1); }
    if n < |q| { AncestorInTree(t, q, n + 1); }
    assert n < |p| && n < |q| ==> Init(p[..n + 1]) == p[..n] && Init(q[..n + 1]) == q[..n];
  }

  method SortOrder(env: Env, a: Ref, b: Ref) returns (r: int)
    requires Known(env, a) && Known(env, b)
    ensures r == Compare(env, a, b)
  {
    hide CommonLength;
    if a == b {
      return 0;
    } else if a.path == [] || b.path == [] {
      return if a == Ref(env.doc, []) then -1
             else if b == Ref(env.doc, []) then 1
             else if a.path != [] then -1
             else if b.path != [] then 1
             else if env.sortInput.Some? then IndexIn(env.sortInput.value, a) - IndexIn(env.sortInput.value, b)
             else 0;
    } else if a.tree == b.tree && Init(a.path) == Init(b.path) {
      r := SiblingCheck(env.forest[a.tree], Some(a.path), Some(b.path));
      return;
    }
    var ap := AncestorList(a.path);
    var bp := AncestorList(b.path);
    var i := 0;
    while a.tree == b.tree && i < |ap| && i < |bp| && ap[i] == bp[i]
      invariant i <= |ap| && i <= |bp|
      invariant i > 0 ==> a.tree == b.tree
      invariant forall k :: 0 <= k < i ==> a.path[..k] == b.path[..k]
    {
      i := i + 1;
    }
    if i > 0 {
      FirstDiscrepancy(env.forest[a.tree], a.path, b.path, i - 1);
      r := SiblingCheck(env.forest[a.tree], Ancestry(a.path, i), Ancestry(b.path, i));
    } else {
      return if a.tree == env.preferredDoc then -1 else if b.tree == env.preferredDoc then 1 else 0;
    }
  }

  // ---------- What the comparator means ----------

  lemma {:induction false} BeforeByFirstDifference(a: Node, b: Node)
    requires a != b
    ensures var n := CommonLength(a, b);
            Before(a, b) <==> n < |b| && (n == |a| || a[n] < b[n])
    decreases |a|
  {
    if a != [] && b != [] && a[0] == b[0] {
      assert a == [a[0]] + a[1..] && b == [b[0]] + b[1..];
      BeforeByFirstDifference(a[1..], b[1..]);
    }
  }

  lemma SiblingsDifferLast(p: Node, q: Node)
    requires p != [] && q != [] && p != q && Init(p) == Init(q)
    ensures CommonLength(p, q) == |p| - 1 == |q| - 1 && p[|p| - 1] != q[|q| - 1]
  {
    assert p == Init(p) + [Last(p)] && q == Init(q) + [Last(q)];
    CommonLengthIs(p, q, |p| - 1);
  }

  /** The entries behind the common ancestors decide: one is missing, or they are siblings. */
  lemma DiscrepancyDecides(p: Node, q: Node)
    requires p != q
    ensures var n := CommonLength(p, q);
            SiblingOrder(Ancestry(p, n + 1), Ancestry(q, n + 1))
            == if n < |q| && (n == |p| || p[n] < q[n]) then -1 else 1
  {
    var n := CommonLength(p, q);
    if n < |p| && n < |q| {
      assert Last(p[..n + 1]) == p[n] && Last(q[..n + 1]) == q[n];
    } else {
      assert n == |p| ==> p == p[..n];
      assert n == |q| ==> q == q[..n];
    }
  }

  lemma {:induction false} CompareBelowRoot(env: Env, a: Ref, b: Ref)
    requires a.tree == b.tree && a != b && a.path != [] && b.path != []
    ensures Compare(env, a, b) == if Before(a.path, b.path) then -1 else 1
  {
    hide Before, CommonLength;
    var p, q := a.path, b.path;
    BeforeByFirstDifference(p, q);
    if Init(p) == Init(q) {
      SiblingsDifferLast(p, q);
    } else {
      DiscrepancyDecides(p, q);
    }
  }

  /**
   The comparator agrees with document order on two nodes of one tree exactly when the
   tree is the document's own, or neither node is the root (or they are one node).
   */
  lemma {:induction false} AgreesWithPreorder(env: Env, i: nat, j: nat, t: nat)
    requires t < |env.forest| && i < |Preorder(env.forest[t])| && j < |Preorder(env.forest[t])|
    ensures var pre := Preorder(env.forest[t]);
            var c := Compare(env, Ref(t, pre[i]), Ref(t, pre[j]));
            ((c < 0 <==> i < j) && (c == 0 <==> i == j) && (c > 0 <==> i > j))
            <==> (t == env.doc || (pre[i] != [] && pre[j] != []) || i == j)
  {
    var pre := Preorder(env.forest[t]);
    if i < j { PreorderIncreases(env.forest[t], i, j); }
    if j < i { PreorderIncreases(env.forest[t], j, i); }
    BeforeTotal(pre[i], pre[j]);
    if i != j && pre[i] != [] && pre[j] != [] {
      CompareBelowRoot(env, Ref(t, pre[i]), Ref(t, pre[j]));
    }
  }

  /** In a detached tree the root is sorted behind its own descendants. */
  lemma DetachedRootSortsLast()
    ensures var t := Tree(ElementNode, "div", [Tree(ElementNode, "p", [])]);
            var env := Env([Tree(DocumentNode, "", []), t], 0, 0, None);
            Before([], [0]) && Compare(env, Ref(1, []), Ref(1, [0])) == 1
  {
  }

  /** Even so, on any one tree the comparator is a strict total order. */
  lemma {:induction false} StrictTotalOrder(env: Env, a: Ref, b: Ref, c: Ref)
    requires a.tree == b.tree == c.tree
    ensures Compare(env, a, b) == 0 <==> a == b
    ensures Compare(env, a, b) < 0 <==> Compare(env, b, a) > 0
    ensures Compare(env, a, b) < 0 && Compare(env, b, c) < 0 ==> Compare(env, a, c) < 0
  {
    BeforeTotal(a.path, b.path);
    BeforeTotal(a.path, c.path);
    if a.path != [] && b.path != [] && a != b { CompareBelowRoot(env, a, b); CompareBelowRoot(env, b, a); }
    if b.path != [] && c.path != [] && b != c { CompareBelowRoot(env, b, c); }
    if a.path != [] && c.path != [] && a != c { CompareBelowRoot(env, a, c); }
    if Before(a.path, b.path) && Before(b.path, c.path) { BeforeTransitive(a.path, b.path, c.path); }
  }

  // ---------- Nodes of two trees ----------

  lemma {:induction false} IndexInIs(s: seq<Ref>, a: Ref)
    ensures IndexIn(s, a) == -1 <==> a !in s
    ensures a in s ==> 0 <= IndexIn(s, a) < |s| && s[IndexIn(s, a)] == a && a !in s[..IndexIn(s, a)]
  {
    if s != [] && s[0] != a {
      IndexInIs(s[1..], a);
      var k := IndexIn(s[1..], a);
      assert k >= 0 ==> s[..k + 1] == [s[0]] + s[1..][..k];
    }
  }

  /** `a` stands in the list before `b`, or only `b` stands in it. */
  ghost predicate Sooner(s: seq<Ref>, a: Ref, b: Ref) {
    b in s && (a !in s || exists i :: 0 <= i < |s| && s[i] == a && b !in s[..i])
  }

  /**
   The nodes of the document being searched come before those of any other tree exactly if it
   is the preferred one or one of the two nodes is a root.
   */
  lemma DocumentFirst(env: Env, a: Ref, b: Ref)
    requires a.tree == env.doc && b.tree != env.doc
    ensures Compare(env, a, b) < 0 <==> env.doc == env.preferredDoc || a.path == [] || b.path == []
    ensures Compare(env, a, b) > 0 <==> b.tree == env.preferredDoc && a.path != [] && b.path != []
    ensures Compare(env, b, a) == -Compare(env, a, b)
  {
  }

  /**
   Of two other trees, a node inside one comes before the root of the other; inside both, the
   preferred document decides; and two roots come in the order of the nodes to be sorted.
   */
  lemma OtherTrees(env: Env, a: Ref, b: Ref)
    requires a.tree != b.tree && a.tree != env.doc && b.tree != env.doc
    ensures a.path != [] && b.path == [] ==> Compare(env, a, b) < 0 < Compare(env, b, a)
    ensures a.path != [] && b.path != [] ==> (Compare(env, a, b) < 0 <==> a.tree == env.preferredDoc)
    ensures a.path == [] && b.path == [] ==>
              (Compare(env, a, b) < 0 <==> env.sortInput.Some? && Sooner(env.sortInput.value, a, b))
    ensures Compare(env, b, a) == -Compare(env, a, b)
  {
    if env.sortInput.Some? {
      var s := env.sortInput.value;
      IndexInIs(s, a);
      IndexInIs(s, b);
      if a.path == [] && b.path == [] && a in s && b in s {
        var i, j := IndexIn(s, a), IndexIn(s, b);
        assert i < j ==> b !in s[..i] by {
          if i < j { assert forall k :: 0 <= k < i ==> s[k] == s[..j][k]; }
        }
        assert forall k :: 0 <= k < |s| && s[k] == a ==> i <= k by {
          forall k | 0 <= k < i ensures s[k] != a { assert s[..i][k] == s[k]; }
        }
        if j < i {
          forall k | 0 <= k < |s| && s[k] == a ensures b in s[..k] { assert s[..k][j] == b; }
        }
      }
    }
  }

  /** So between nodes inside detached trees it decides nothing, which keeps it from being an order over several. */
  lemma UndecidedIsNoOrder(env: Env, a: Ref, b: Ref, c: Ref)
    requires a.tree == c.tree != b.tree && env.preferredDoc != a.tree && env.preferredDoc != b.tree
    requires a.path != [] && b.path != [] && c.path != [] && Before(c.path, a.path)
    ensures Compare(env, a, b) == 0 && Compare(env, b, c) == 0 && Compare(env, a, c) > 0
  {
    BeforeTotal(a.path, c.path);
    CompareBelowRoot(env, a, c);
  }

  // ---------- uniqueSort ----------

  ghost predicate OneTree(s: seq<Ref>) {
    forall i, j :: 0 <= i < |s| && 0 <= j < |s| ==> s[i].tree == s[j].tree
  }

  ghost predicate SortedBy(env: Env, s: seq<Ref>) {
    forall i, j :: 0 <= i < j < |s| ==> Compare(env, s[i], s[j]) <= 0
  }

  ghost predicate StrictlySorted(env: Env, s: seq<Ref>) {
    forall i, j :: 0 <= i < j < |s| ==> Compare(env, s[i], s[j]) < 0
  }

  predicate Repeats(s: seq<Ref>, k: nat) {
    0 < k < |s| && s[k] == s[k - 1]
  }

  ghost function Kept(s: seq<Ref>, i: nat): seq<Ref>
    requires i <= |s|
    decreases |s| - i
  {
    if i == |s| then [] else (if Repeats(s, i) then [] else [s[i]]) + Kept(s, i + 1)
  }

  lemma {:induction false} KeptAll(s: seq<Ref>, i: nat)
    requires i <= |s| && forall k: nat :: !Repeats(s, k)
    ensures Kept(s, i) == s[i..]
    decreases |s| - i
  {
    if i < |s| {
      KeptAll(s, i + 1);
    }
  }

  lemma {:induction false} KeptMembers(s: seq<Ref>, i: nat, x: Ref)
    requires i <= |s|
    ensures x in Kept(s, i) ==> x in s[i..]
    ensures x in s[i..] ==> x in Kept(s, i) || (0 < i && s[i - 1] == x)
    decreases |s| - i
  {
    if i < |s| {
      KeptMembers(s, i + 1, x);
      assert s[i..] == [s[i]] + s[i + 1..];
    }
  }

  lemma {:induction false} KeptStrict(env: Env, s: seq<Ref>, i: nat)
    requires OneTree(s) && SortedBy(env, s) && i <= |s|
    ensures StrictlySorted(env, Kept(s, i))
    ensures forall k :: 0 <= k < |Kept(s, i)| && i > 0 ==> Compare(env, s[i - 1], Kept(s, i)[k]) < 0
    decreases |s| - i
  {
    if i < |s| {
      KeptStrict(env, s, i + 1);
      var rest := Kept(s, i + 1);
      if i > 0 {
        StrictTotalOrder(env, s[i - 1], s[i], s[i]);
        forall k | 0 <= k < |rest| ensures Compare(env, s[i - 1], rest[k]) < 0 {
          KeptMembers(s, i + 1, rest[k]);
          assert rest[k] in s[i + 1..];
          StrictTotalOrder(env, s[i - 1], s[i], rest[k]);
        }
      }
      assert Repeats(s, i) ==> Kept(s, i) == rest;
      assert !Repeats(s, i) ==> Kept(s, i) == [s[i]] + rest;
    }
  }

  /** The positions up to `i` that repeat their predecessor. */
  ghost function Marks(s: seq<Ref>, i: nat): seq<nat> {
    if i == 0 then [] else Marks(s, i - 1) + if Repeats(s, i) then [i] else []
  }

  ghost function Past(s: seq<Ref>, i: nat): nat {
    if i < |s| then i + 1 else |s|
  }

  /** The last mark `d`: behind it nothing repeats up to `i`. */
  lemma {:induction false} LastMark(s: seq<Ref>, i: nat) returns (d: nat)
    requires i <= |s| && Marks(s, i) != []
    ensures 0 < d <= i && Repeats(s, d) && Marks(s, i) == Marks(s, d - 1) + [d]
    ensures Kept(s, d + 1) == s[d + 1..Past(s, i)] + Kept(s, Past(s, i))
  {
    if Repeats(s, i) {
      d := i;
    } else {
      assert Marks(s, i) == Marks(s, i - 1);
      d := LastMark(s, i - 1);
      if i < |s| {
        var front, rest := s[d + 1..i], Kept(s, i + 1);
        assert s[d + 1..i + 1] == front + [s[i]];
        assert front + ([s[i]] + rest) == front + [s[i]] + rest;
      }
    }
  }

  lemma {:induction false} NoMark(s: seq<Ref>, i: nat)
    requires i <= |s| && Marks(s, i) == []
    ensures Kept(s, 0) == s[..Past(s, i)] + Kept(s, Past(s, i))
  {
    if i > 0 {
      NoMark(s, i - 1);
      if i < |s| {
        assert s[..i + 1] == s[..i] + [s[i]];
      }
    }
  }

  method FindRepeats(results: seq<Ref>) returns (duplicates: seq<nat>)
    ensures duplicates == Marks(results, |results|)
  {
    duplicates := [];
    var i := 0;
    while i < |results|
      invariant i <= |results| && duplicates == Marks(results, i)
    {
      var elem := results[i];
      i := i + 1;
      if i < |results| && elem == results[i] {
        duplicates := duplicates + [i];
      }
    }
  }

  /** Removing the repeat at `d` from a list already cleaned behind it. */
  lemma SpliceOne(s: seq<Ref>, d: nat, e: nat)
    requires d < e <= |s| && Repeats(s, d) && Kept(s, d + 1) == s[d + 1..e] + Kept(s, e)
    ensures var r := s[..e] + Kept(s, e); r[..d] + r[d + 1..] == s[..d] + Kept(s, d)
  {
    var r := s[..e] + Kept(s, e);
    assert Kept(s, d) == Kept(s, d + 1);
    assert r[..d] == s[..d];
    assert r[d + 1..] == s[d + 1..e] + Kept(s, e);
  }

  method SpliceRepeats(sorted: seq<Ref>, duplicates: seq<nat>) returns (results: seq<Ref>)
    requires duplicates == Marks(sorted, |sorted|)
    ensures results == Kept(sorted, 0)
  {
    results := sorted;
    var j := |duplicates|;
    ghost var m: nat := |sorted|;
    assert duplicates[..j] == duplicates;
    assert sorted == sorted[..|sorted|] + Kept(sorted, |sorted|);
    while j > 0
      invariant 0 <= j <= |duplicates| && m <= |sorted|
      invariant duplicates[..j] == Marks(sorted, m)
      invariant results == sorted[..Past(sorted, m)] + Kept(sorted, Past(sorted, m))
    {
      ghost var d := LastMark(sorted, m);
      assert duplicates[..j] == duplicates[..j - 1] + [duplicates[j - 1]];
      j := j - 1;
      assert duplicates[j] == d && duplicates[..j] == Marks(sorted, d - 1);
      SpliceOne(sorted, d, Past(sorted, m));
      results := results[..duplicates[j]] + results[duplicates[j] + 1..];
      m := d - 1;
    }
    NoMark(sorted, m);
  }

  /**
   `uniqueSort` on nodes of one tree. `sorted` is what the engine's `sort` left behind;
   `hasDuplicate` was raised if that sort met a repeated node, or is assumed.
   */
  method UniqueSort(env: Env, ghost input: seq<Ref>, sorted: seq<Ref>, hasDuplicate: bool) returns (results: seq<Ref>)
    requires OneTree(input) && multiset(sorted) == multiset(input) && SortedBy(env, sorted)
    requires (exists k: nat :: Repeats(sorted, k)) ==> hasDuplicate
    ensures StrictlySorted(env, results)
    ensures forall x :: x in results <==> x in input
  {
    forall x ensures x in sorted <==> x in input {
      assert x in sorted <==> x in multiset(sorted);
      assert x in input <==> x in multiset(input);
    }
    assert OneTree(sorted) by {
      forall i, j | 0 <= i < |sorted| && 0 <= j < |sorted| ensures sorted[i].tree == sorted[j].tree {
        assert sorted[i] in input && sorted[j] in input;
      }
    }
    KeptStrict(env, sorted, 0);
    forall x ensures x in Kept(sorted, 0) <==> x in sorted { KeptMembers(sorted, 0, x); }
    if hasDuplicate {
      var duplicates := FindRepeats(sorted);
      results := SpliceRepeats(sorted, duplicates);
    } else {
      results := sorted;
      KeptAll(sorted, 0);
    }
  }
}

/**
 What a grouped `DataView` displays: which data rows appear, and under which headers.
 */
module Display {
  import opened SlickCore
  import opened GroupKeys
  import opened Grouping

  /** The rows whose path is `p`, in their order. */
  function RowsAt(infos: Infos, p: seq<string>, rows: seq<Item>): seq<Item> {
    if rows == [] then []
    else RowsAt(infos, p, rows[..|rows| - 1]) + if PathOf(infos, rows[|rows| - 1]) == p then [rows[|rows| - 1]] else []
  }

  /** Some group on the path `p`, from `level` on, is collapsed. */
  ghost predicate Hidden(infos: Infos, toggles: Toggles, level: nat, p: seq<string>)
    requires |infos| == |p| && |infos| <= |toggles|
  {
    exists l :: level <= l < |infos| && Shut(infos, toggles, l, p)
  }

  predicate Shut(infos: Infos, toggles: Toggles, l: nat, p: seq<string>)
    requires l < |infos| == |p| && |infos| <= |toggles|
  {
    CollapsedAt(infos, toggles, l, Join(p[..l + 1]))
  }

  // ---------- Reading the flat list back ----------

  /** The rows of the leaf on the path `p`, unless a group on the way is collapsed. */
  function Leaves(groups: seq<Group>, level: nat, p: seq<string>): seq<Item>
    decreases groups
  {
    if groups == [] then []
    else Leaves(groups[..|groups| - 1], level, p) + LeavesOne(groups[|groups| - 1], level, p)
  }

  function LeavesOne(g: Group, level: nat, p: seq<string>): seq<Item>
    decreases g
  {
    if level >= |p| || g.value != p[level] || g.collapsed then []
    else if g.groups.Listed? then Leaves(g.groups.list, level + 1, p)
    else g.rows
  }

  lemma {:induction false} FlattenShows(infos: Infos, groups: seq<Group>, level: nat, path: seq<string>, p: seq<string>)
    requires Nested(infos, groups, level) && level <= |path| && |p| == |infos| && level <= |infos|
    ensures level <= |PathAfter(Flatten(infos, groups, level), path)|
    ensures PathAfter(Flatten(infos, groups, level), path)[..level] == path[..level]
    ensures ShownUnder(Flatten(infos, groups, level), path, p)
            == if path[..level] == p[..level] then Leaves(groups, level, p) else []
    decreases groups
  {
    if groups != [] {
      var front, g := groups[..|groups| - 1], groups[|groups| - 1];
      var before := Flatten(infos, front, level);
      FlattenShows(infos, front, level, path, p);
      FlattenOneShows(infos, g, level, PathAfter(before, path), p);
      PathAfterConcat(before, FlattenOne(infos, g, level), path);
      ShownConcat(before, FlattenOne(infos, g, level), path, p);
    }
  }

  lemma HeaderShows(g: Group, path: seq<string>, p: seq<string>)
    ensures PathAfter([Header(g)], path) == Truncate(path, g.level) + [g.value]
    ensures ShownUnder([Header(g)], path, p) == []
    ensures PathAfter([Totals(g)], path) == Truncate(path, g.level) && ShownUnder([Totals(g)], path, p) == []
    ensures PathAfter([], path) == path && ShownUnder([], path, p) == []
  {
    assert [Header(g)][..0] == [] && [Totals(g)][..0] == [];
  }

  /** What stands between the header of a group and its totals row. */
  function Inside(infos: Infos, g: Group, level: nat): seq<Row> {
    if g.collapsed then [] else if g.groups.Listed? then Flatten(infos, g.groups.list, level + 1) else DataRows(g.rows)
  }

  lemma {:induction false} InsideShows(infos: Infos, g: Group, level: nat, under: seq<string>, p: seq<string>)
    requires level < |infos| == |p| && |under| == level + 1 && under[level] == g.value
    requires g.groups.Listed? <==> level + 1 < |infos|
    requires g.groups.Listed? ==> Nested(infos, g.groups.list, level + 1)
    ensures level <= |PathAfter(Inside(infos, g, level), under)|
    ensures PathAfter(Inside(infos, g, level), under)[..level] == under[..level]
    ensures ShownUnder(Inside(infos, g, level), under, p)
            == if under[..level] == p[..level] then LeavesOne(g, level, p) else []
    decreases g, 0
  {
    hide ShownUnder, PathAfter, Leaves, Flatten, DataRows;
    assert under == under[..level] + [g.value] && p[..level + 1] == p[..level] + [p[level]];
    if g.collapsed {
      HeaderShows(g, under, p);
    } else {
      if g.groups.Listed? {
        FlattenShows(infos, g.groups.list, level + 1, under, p);
        var after := PathAfter(Inside(infos, g, level), under);
        assert after[..level] == after[..level + 1][..level] && under[..level + 1] == under;
      } else {
        assert p[..level + 1] == p;
        ShownData(g.rows, under, p);
      }
    }
  }

  function TotalsRow(infos: Infos, g: Group, level: nat): seq<Row>
    requires level < |infos|
  {
    if g.totals && infos[level].displayTotalsRow && (!g.collapsed || infos[level].aggregateCollapsed) then [Totals(g)]
    else []
  }

  lemma FlattenOneParts(infos: Infos, g: Group, level: nat, last: seq<Row>)
    requires level < |infos|
    requires last == TotalsRow(infos, g, level)
    ensures FlattenOne(infos, g, level) == [Header(g)] + Inside(infos, g, level) + last
  {
  }

  lemma {:induction false} FlattenOneShows(infos: Infos, g: Group, level: nat, path: seq<string>, p: seq<string>)
    requires level < |infos| == |p| && g.level == level && level <= |path|
    requires g.groups.Listed? <==> level + 1 < |infos|
    requires g.groups.Listed? ==> Nested(infos, g.groups.list, level + 1)
    ensures level <= |PathAfter(FlattenOne(infos, g, level), path)|
    ensures PathAfter(FlattenOne(infos, g, level), path)[..level] == path[..level]
    ensures ShownUnder(FlattenOne(infos, g, level), path, p)
            == if path[..level] == p[..level] then LeavesOne(g, level, p) else []
    decreases g, 1
  {
    hide ShownUnder, PathAfter, LeavesOne, Leaves, Inside, Flatten;
    var under := path[..level] + [g.value];
    var inner := Inside(infos, g, level);
    var last := TotalsRow(infos, g, level);
    FlattenOneParts(infos, g, level, last);
    HeaderShows(g, path, p);
    HeaderShows(g, PathAfter(inner, under), p);
    InsideShows(infos, g, level, under, p);
    PathAfterConcat([Header(g)], inner, path);
    ShownConcat([Header(g)], inner, path, p);
    PathAfterConcat([Header(g)] + inner, last, path);
    ShownConcat([Header(g)] + inner, last, path, p);
  }

  // ---------- From the groups to the rows ----------

  lemma {:induction false} LeavesAbsent(groups: seq<Group>, level: nat, p: seq<string>)
    requires level < |p| && !HasValue(groups, p[level])
    ensures Leaves(groups, level, p) == []
  {
    if groups != [] {
      assert groups[|groups| - 1].value != p[level];
      assert forall k :: 0 <= k < |groups| - 1 ==> groups[..|groups| - 1][k] == groups[k];
      LeavesAbsent(groups[..|groups| - 1], level, p);
    }
  }

  lemma {:induction false} LeavesUnique(groups: seq<Group>, level: nat, p: seq<string>, k: nat)
    requires level < |p| && k < |groups| && DistinctValues(groups) && groups[k].value == p[level]
    ensures Leaves(groups, level, p) == LeavesOne(groups[k], level, p)
  {
    var front := groups[..|groups| - 1];
    if k == |groups| - 1 {
      forall j | 0 <= j < |front| ensures front[j].value != p[level] {
        assert groups[j].value != groups[k].value;
      }
      LeavesAbsent(front, level, p);
    } else {
      assert groups[|groups| - 1].value != groups[k].value;
      LeavesUnique(front, level, p, k);
    }
  }

  /** The rows that agree with `p` at every level from `level` on. */
  function Narrow(infos: Infos, level: nat, p: seq<string>, rows: seq<Item>): seq<Item>
    requires |infos| == |p|
    decreases |infos| - level
  {
    if level >= |infos| then rows else Narrow(infos, level + 1, p, Select(infos[level].getter, p[level], rows))
  }

  lemma {:induction false} NarrowNothing(infos: Infos, level: nat, p: seq<string>)
    requires |infos| == |p|
    ensures Narrow(infos, level, p, []) == []
    decreases |infos| - level
  {
    if level < |infos| {
      NarrowNothing(infos, level + 1, p);
    }
  }

  lemma {:induction false} NarrowLast(infos: Infos, level: nat, p: seq<string>, rows: seq<Item>, r: Item)
    requires |infos| == |p| && level <= |p|
    ensures Narrow(infos, level, p, rows + [r])
            == Narrow(infos, level, p, rows) + if PathOf(infos, r)[level..] == p[level..] then [r] else []
    decreases |infos| - level
  {
    if level < |infos| {
      var getter := infos[level].getter;
      assert (rows + [r])[..|rows|] == rows;
      assert PathOf(infos, r)[level..] == [getter(r)] + PathOf(infos, r)[level + 1..];
      assert p[level..] == [p[level]] + p[level + 1..];
      if getter(r) == p[level] {
        NarrowLast(infos, level + 1, p, Select(getter, p[level], rows), r);
      } else {
        assert PathOf(infos, r)[level..][0] != p[level..][0];
        assert Select(getter, p[level], rows + [r]) == Select(getter, p[level], rows);
      }
    }
  }

  lemma {:induction false} NarrowIsRowsAt(infos: Infos, p: seq<string>, rows: seq<Item>)
    requires |infos| == |p|
    ensures Narrow(infos, 0, p, rows) == RowsAt(infos, p, rows)
  {
    if rows == [] {
      NarrowNothing(infos, 0, p);
    } else {
      var front, r := rows[..|rows| - 1], rows[|rows| - 1];
      NarrowIsRowsAt(infos, p, front);
      NarrowLast(infos, 0, p, front, r);
      assert rows == front + [r] && PathOf(infos, r)[0..] == PathOf(infos, r) && p[0..] == p;
    }
  }

  lemma MarkedKeeps(infos: Infos, toggles: Toggles, g: Group, level: nat)
    requires level < |infos| <= |toggles|
    ensures var m := Marked(infos, toggles, g, level);
            && m.value == g.value && m.rows == g.rows
            && (!g.collapsed ==> m.collapsed == CollapsedAt(infos, toggles, level, g.groupingKey))
            && (!g.collapsed ==>
                  m.groups
                  == if g.groups.Listed? then Listed(MarkedAll(infos, toggles, g.groups.list, level + 1)) else g.groups)
  {
  }

  lemma {:induction false} MarkedLeaves(infos: Infos, toggles: Toggles, rows: seq<Item>, level: nat, p: seq<string>,
                                        groups: seq<Group>)
    requires level < |infos| == |p| && |infos| <= |toggles| && Grouped(infos, rows, level, p[..level], groups)
    ensures Leaves(MarkedAll(infos, toggles, groups, level), level, p)
            == if Hidden(infos, toggles, level, p) then [] else Narrow(infos, level, p, rows)
    decreases |infos| - level
  {
    var marked := MarkedAll(infos, toggles, groups, level);
    var v := p[level];
    forall k | 0 <= k < |groups| ensures marked[k].value == groups[k].value {
      MarkedKeeps(infos, toggles, groups[k], level);
    }
    if HasValue(groups, v) {
      var k :| 0 <= k < |groups| && groups[k].value == v;
      LeavesUnique(marked, level, p, k);
      MarkedLeaf(infos, toggles, rows, level, p, groups[k]);
    } else {
      LeavesAbsent(marked, level, p);
      SelectNone(infos[level].getter, v, rows);
      NarrowNothing(infos, level + 1, p);
    }
  }

  lemma {:induction false} MarkedLeaf(infos: Infos, toggles: Toggles, rows: seq<Item>, level: nat, p: seq<string>,
                                      g: Group)
    requires level < |infos| == |p| && |infos| <= |toggles| && GroupOk(infos, rows, level, p[..level], g)
    requires g.value == p[level]
    ensures LeavesOne(Marked(infos, toggles, g, level), level, p)
            == if Hidden(infos, toggles, level, p) then [] else Narrow(infos, level, p, rows)
    decreases |infos| - level, 0
  {
    assert p[..level] + [p[level]] == p[..level + 1];
    var shut := CollapsedAt(infos, toggles, level, Join(p[..level + 1]));
    MarkedKeeps(infos, toggles, g, level);
    assert g.groupingKey == g.(groups := Absent).groupingKey == Join(p[..level + 1]);
    assert !g.(groups := Absent).collapsed && g.rows == g.(groups := Absent).rows;
    assert shut <==> Shut(infos, toggles, level, p);
    assert Hidden(infos, toggles, level, p) <==> shut || Hidden(infos, toggles, level + 1, p);
    if level + 1 < |infos| {
      MarkedLeaves(infos, toggles, Select(infos[level].getter, g.value, rows), level + 1, p, g.groups.list);
    }
  }

  /**
   Extracting groups, adding totals and flattening displays, under the headers `p`, exactly
   the rows with those values in their order, and nothing if a group on the way is collapsed.
   */
  lemma {:induction false} DisplayIsExact(infos: Infos, toggles: Toggles, rows: seq<Item>, groups: seq<Group>,
                                          p: seq<string>)
    requires 0 < |infos| == |p| && |infos| <= |toggles| && Grouped(infos, rows, 0, [], groups)
    ensures ShownUnder(Flatten(infos, MarkedAll(infos, toggles, groups, 0), 0), [], p)
            == if Hidden(infos, toggles, 0, p) then [] else RowsAt(infos, p, rows)
  {
    GroupedNested(infos, rows, 0, [], groups);
    MarkedNested(infos, toggles, groups, 0);
    FlattenShows(infos, MarkedAll(infos, toggles, groups, 0), 0, [], p);
    assert p[..0] == [];
    MarkedLeaves(infos, toggles, rows, 0, p, groups);
    NarrowIsRowsAt(infos, p, rows);
  }

  // ---------- Each data row stands under its own headers ----------

  /** Every data row has a header for each level above it. */
  ghost predicate Deep(rows: seq<Row>, path: seq<string>, depth: nat) {
    forall i :: 0 <= i < |rows| && rows[i].Data? ==> |PathAfter(rows[..i], path)| == depth
  }

  lemma DeepConcat(a: seq<Row>, b: seq<Row>, path: seq<string>, depth: nat)
    requires Deep(a, path, depth) && Deep(b, PathAfter(a, path), depth)
    ensures Deep(a + b, path, depth)
  {
    var rows := a + b;
    forall i | 0 <= i < |rows| && rows[i].Data? ensures |PathAfter(rows[..i], path)| == depth {
      if i < |a| {
        assert rows[..i] == a[..i];
      } else {
        assert rows[..i] == a + b[..i - |a|];
        PathAfterConcat(a, b[..i - |a|], path);
      }
    }
  }

  lemma DeepRows(items: seq<Item>, path: seq<string>)
    ensures Deep(DataRows(items), path, |path|)
  {
    forall i | 0 <= i < |items| ensures PathAfter(DataRows(items)[..i], path) == path {
      assert DataRows(items)[..i] == DataRows(items[..i]);
      ShownData(items[..i], path, path);
    }
  }

  lemma {:induction false} FlattenDeep(infos: Infos, groups: seq<Group>, level: nat, path: seq<string>)
    requires Nested(infos, groups, level) && level <= |path| && level <= |infos|
    ensures Deep(Flatten(infos, groups, level), path, |infos|)
    decreases groups
  {
    hide PathAfter, ShownUnder;
    if groups != [] {
      var front, g := groups[..|groups| - 1], groups[|groups| - 1];
      var before := Flatten(infos, front, level);
      FlattenDeep(infos, front, level, path);
      FlattenShows(infos, front, level, path, seq(|infos|, i => ""));
      FlattenOneDeep(infos, g, level, PathAfter(before, path));
      DeepConcat(before, FlattenOne(infos, g, level), path, |infos|);
    }
  }

  lemma {:induction false} FlattenOneDeep(infos: Infos, g: Group, level: nat, path: seq<string>)
    requires level < |infos| && g.level == level && level <= |path|
    requires g.groups.Listed? <==> level + 1 < |infos|
    requires g.groups.Listed? ==> Nested(infos, g.groups.list, level + 1)
    ensures Deep(FlattenOne(infos, g, level), path, |infos|)
    decreases g, 1
  {
    hide PathAfter, ShownUnder, Flatten;
    var under := path[..level] + [g.value];
    var inner := Inside(infos, g, level);
    var last := TotalsRow(infos, g, level);
    FlattenOneParts(infos, g, level, last);
    HeaderShows(g, path, []);
    if g.collapsed {
    } else if g.groups.Listed? {
      FlattenDeep(infos, g.groups.list, level + 1, under);
    } else {
      DeepRows(g.rows, under);
    }
    DeepConcat([Header(g)], inner, path, |infos|);
    DeepConcat([Header(g)] + inner, last, path, |infos|);
  }

  lemma {:induction false} ShownMember(rows: seq<Row>, path: seq<string>, i: nat)
    requires i < |rows| && rows[i].Data?
    ensures rows[i].item in ShownUnder(rows, path, PathAfter(rows[..i], path))
  {
    if i < |rows| - 1 {
      ShownMember(rows[..|rows| - 1], path, i);
      assert rows[..|rows| - 1][..i] == rows[..i];
    }
  }

  lemma {:induction false} RowsAtMember(infos: Infos, p: seq<string>, rows: seq<Item>, x: Item)
    ensures x in RowsAt(infos, p, rows) <==> x in rows && PathOf(infos, x) == p
  {
    if rows != [] {
      RowsAtMember(infos, p, rows[..|rows| - 1], x);
      assert rows == rows[..|rows| - 1] + [rows[|rows| - 1]];
    }
  }

  /**
   Each data row displayed stands under the headers of its own values, at every level, none
   of them collapsed, and is one of the rows given.
   */
  lemma {:induction false} EachUnderItsHeaders(infos: Infos, toggles: Toggles, rows: seq<Item>, groups: seq<Group>,
                                               i: nat)
    requires 0 < |infos| <= |toggles| && Grouped(infos, rows, 0, [], groups)
    requires var flat := Flatten(infos, MarkedAll(infos, toggles, groups, 0), 0); i < |flat| && flat[i].Data?
    ensures var flat := Flatten(infos, MarkedAll(infos, toggles, groups, 0), 0);
            var p := PathAfter(flat[..i], []);
            p == PathOf(infos, flat[i].item) && !Hidden(infos, toggles, 0, p) && flat[i].item in rows
  {
    hide PathAfter, ShownUnder, Flatten;
    var marked := MarkedAll(infos, toggles, groups, 0);
    var flat := Flatten(infos, marked, 0);
    GroupedNested(infos, rows, 0, [], groups);
    MarkedNested(infos, toggles, groups, 0);
    FlattenDeep(infos, marked, 0, []);
    var p := PathAfter(flat[..i], []);
    assert |p| == |infos|;
    ShownMember(flat, [], i);
    DisplayIsExact(infos, toggles, rows, groups, p);
    RowsAtMember(infos, p, rows, flat[i].item);
  }

  // ---------- The leaves partition the rows ----------

  function LeafRows(groups: seq<Group>): seq<Item>
    decreases groups
  {
    if groups == [] then [] else LeafRows(groups[..|groups| - 1]) + LeafRowsOne(groups[|groups| - 1])
  }

  function LeafRowsOne(g: Group): seq<Item>
    decreases g
  {
    if g.groups.Listed? then LeafRows(g.groups.list) else g.rows
  }

  ghost function Shares(getter: Item -> string, groups: seq<Group>, rows: seq<Item>): multiset<Item> {
    if groups == [] then multiset{}
    else Shares(getter, groups[..|groups| - 1], rows) + multiset(Select(getter, groups[|groups| - 1].value, rows))
  }

  lemma {:induction false} SharesNothing(getter: Item -> string, groups: seq<Group>)
    ensures Shares(getter, groups, []) == multiset{}
  {
    if groups != [] {
      SharesNothing(getter, groups[..|groups| - 1]);
    }
  }

  lemma HasValueLast(groups: seq<Group>, v: string)
    requires groups != []
    ensures HasValue(groups, v) <==> HasValue(groups[..|groups| - 1], v) || groups[|groups| - 1].value == v
  {
    var front := groups[..|groups| - 1];
    if k :| 0 <= k < |groups| && groups[k].value == v {
      assert k < |front| ==> front[k].value == v;
    }
    if k :| 0 <= k < |front| && front[k].value == v {
      assert groups[k].value == v;
    }
  }

  lemma SelectLast(getter: Item -> string, value: string, rows: seq<Item>, r: Item)
    ensures multiset(Select(getter, value, rows + [r]))
            == multiset(Select(getter, value, rows)) + if getter(r) == value then multiset{r} else multiset{}
  {
    assert (rows + [r])[..|rows|] == rows;
  }

  lemma MultisetSwap(a: multiset<Item>, b: multiset<Item>, c: multiset<Item>)
    ensures (a + c) + b == (a + b) + c && a + (b + c) == (a + b) + c
  {
  }

  /** One more row belongs to the share of one group, if the groups differ in value. */
  lemma {:induction false} SharesLast(getter: Item -> string, groups: seq<Group>, rows: seq<Item>, r: Item)
    requires DistinctValues(groups)
    ensures HasValue(groups, getter(r)) ==>
              Shares(getter, groups, rows + [r]) == Shares(getter, groups, rows) + multiset{r}
    ensures !HasValue(groups, getter(r)) ==> Shares(getter, groups, rows + [r]) == Shares(getter, groups, rows)
  {
    if groups != [] {
      var front, g := groups[..|groups| - 1], groups[|groups| - 1];
      SharesLast(getter, front, rows, r);
      HasValueLast(groups, getter(r));
      SelectLast(getter, g.value, rows, r);
      MultisetSwap(Shares(getter, front, rows), multiset(Select(getter, g.value, rows)), multiset{r});
      if g.value == getter(r) {
        assert !HasValue(front, getter(r));
      } else {
        assert multiset(Select(getter, g.value, rows)) + multiset{} == multiset(Select(getter, g.value, rows));
      }
    }
  }

  lemma {:induction false} SharesAll(getter: Item -> string, groups: seq<Group>, rows: seq<Item>)
    requires DistinctValues(groups) && forall i :: 0 <= i < |rows| ==> HasValue(groups, getter(rows[i]))
    ensures Shares(getter, groups, rows) == multiset(rows)
  {
    if rows == [] {
      SharesNothing(getter, groups);
    } else {
      var front, r := rows[..|rows| - 1], rows[|rows| - 1];
      SharesAll(getter, groups, front);
      SharesLast(getter, groups, front, r);
      assert rows == front + [r];
    }
  }

  lemma {:induction false} LeafShares(infos: Infos, rows: seq<Item>, level: nat, prefix: seq<string>,
                                      groups: seq<Group>)
    requires level < |infos| && forall k :: 0 <= k < |groups| ==> GroupOk(infos, rows, level, prefix, groups[k])
    ensures multiset(LeafRows(groups)) == Shares(infos[level].getter, groups, rows)
    decreases |infos| - level, |groups|
  {
    if groups != [] {
      var front, g := groups[..|groups| - 1], groups[|groups| - 1];
      LeafShares(infos, rows, level, prefix, front);
      var mine := Select(infos[level].getter, g.value, rows);
      if level + 1 < |infos| {
        LeavesPartition(infos, mine, level + 1, prefix + [g.value], g.groups.list);
      } else {
        assert g.rows == g.(groups := Absent).rows;
      }
    }
  }

  /** At any depth, the leaf groups together hold the rows they were made from, each as often. */
  lemma {:induction false} LeavesPartition(infos: Infos, rows: seq<Item>, level: nat, prefix: seq<string>,
                                           groups: seq<Group>)
    requires level < |infos| && Grouped(infos, rows, level, prefix, groups)
    ensures multiset(LeafRows(groups)) == multiset(rows)
    decreases |infos| - level, |groups| + 1
  {
    LeafShares(infos, rows, level, prefix, groups);
    SharesAll(infos[level].getter, groups, rows);
  }
}

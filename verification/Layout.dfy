/**
 The headers and totals rows of a grouped `DataView`: what `addTotals` makes of each group,
 and what stands, in order, directly under the headers of each path.
 */
module Layout {
  import opened Wrappers
  import opened SlickCore
  import opened GroupKeys
  import opened Grouping
  import opened Display

  // ---------- What a group is shown as ----------

  /**
   `m` is what the group `g` is shown as: its title made from all else that it shows, its
   subgroups included. A group already collapsed may be left as it is.
   */
  ghost predicate Presents(infos: Infos, toggles: Toggles, g: Group, m: Group, level: nat)
    requires |infos| <= |toggles|
    decreases g, 0
  {
    if level >= |infos| || (g.collapsed && !infos[level].aggregateCollapsed) then m == g
    else
      && m.value == g.value && m.level == g.level && m.groupingKey == g.groupingKey
      && m.count == g.count && m.rows == g.rows
      && (m.collapsed <==> infos[level].collapsed != (g.groupingKey in toggles[level] && toggles[level][g.groupingKey]))
      && (m.totals <==> g.totals || Totalled(infos[level], m))
      && TitleOf(infos[level], g.title, m)
      && (match g.groups
          case Absent => m.groups.Absent?
          case Listed(list) => m.groups.Listed? && PresentsAll(infos, toggles, list, m.groups.list, level + 1))
  }

  /** A group gets totals if there are aggregators, and it has rows or subgroups or empty ones get them too. */
  predicate Totalled(info: GroupingInfo, m: Group) {
    && info.aggregators > 0
    && (info.aggregateEmpty || m.rows != [] || (m.groups.Listed? && m.groups.list != []))
  }

  /** The title comes from the formatter, given the group as it is shown, or is the value. */
  ghost predicate TitleOf(info: GroupingInfo, before: string, m: Group) {
    m.title == match info.formatter case Some(f) => f(m.(title := before)) case None => m.value
  }

  ghost predicate PresentsAll(infos: Infos, toggles: Toggles, groups: seq<Group>, shown: seq<Group>, level: nat)
    requires |infos| <= |toggles|
    decreases groups, 0
  {
    |groups| == |shown| && forall k :: 0 <= k < |groups| ==> Presents(infos, toggles, groups[k], shown[k], level)
  }

  lemma {:induction false} AllMarked(infos: Infos, toggles: Toggles, groups: seq<Group>, level: nat)
    requires |infos| <= |toggles|
    ensures PresentsAll(infos, toggles, groups, MarkedAll(infos, toggles, groups, level), level)
    decreases groups, 1
  {
    hide Marked;
    forall k | 0 <= k < |groups|
      ensures Presents(infos, toggles, groups[k], Marked(infos, toggles, groups[k], level), level)
    {
      OneMarked(infos, toggles, groups[k], level);
    }
  }

  lemma {:induction false} OneMarked(infos: Infos, toggles: Toggles, g: Group, level: nat)
    requires |infos| <= |toggles|
    ensures Presents(infos, toggles, g, Marked(infos, toggles, g, level), level)
    decreases g, 1
  {
    hide PresentsAll, MarkedAll;
    if g.groups.Listed? { AllMarked(infos, toggles, g.groups.list, level + 1); }
  }

  // ---------- What stands directly under each path ----------

  /** The path a row belongs to: a header to that of its parent, a totals row to that of its group. */
  function Place(r: Row, before: seq<string>): seq<string> {
    match r
    case Header(g) => Truncate(before, g.level)
    case Totals(g) => Truncate(before, g.level + 1)
    case Data(_) => before
  }

  /** The rows that belong to the path `p`, in the order in which they stand. */
  function Under(rows: seq<Row>, path: seq<string>, p: seq<string>): seq<Row> {
    if rows == [] then []
    else
      var front, r := rows[..|rows| - 1], rows[|rows| - 1];
      Under(front, path, p) + if Place(r, PathAfter(front, path)) == p then [r] else []
  }

  function Headers(groups: seq<Group>): (r: seq<Row>)
    ensures |r| == |groups| && forall i :: 0 <= i < |r| ==> r[i] == Header(groups[i])
  {
    seq(|groups|, i requires 0 <= i < |groups| => Header(groups[i]))
  }

  /** An open group holds the headers of its subgroups or its rows; its totals row, if it is shown, comes last. */
  function Contents(info: GroupingInfo, g: Group): seq<Row> {
    (if g.collapsed then [] else if g.groups.Listed? then Headers(g.groups.list) else DataRows(g.rows))
    + if g.totals && info.displayTotalsRow && (!g.collapsed || info.aggregateCollapsed) then [Totals(g)] else []
  }

  /** What belongs to the path `p`: the contents of its group, unless one on the way to it is collapsed. */
  function Standing(infos: Infos, groups: seq<Group>, level: nat, p: seq<string>): seq<Row>
    decreases groups
  {
    if groups == [] then []
    else
      Standing(infos, groups[..|groups| - 1], level, p) + StandingIn(infos, groups[|groups| - 1], level, p)
  }

  function StandingIn(infos: Infos, g: Group, level: nat, p: seq<string>): seq<Row>
    decreases g
  {
    if level >= |infos| || level >= |p| || g.value != p[level] then []
    else if |p| == level + 1 then Contents(infos[level], g)
    else if g.collapsed || g.groups.Absent? then []
    else Standing(infos, g.groups.list, level + 1, p)
  }

  lemma {:induction false} UnderConcat(a: seq<Row>, b: seq<Row>, path: seq<string>, p: seq<string>)
    ensures Under(a + b, path, p) == Under(a, path, p) + Under(b, PathAfter(a, path), p)
  {
    if b == [] {
      assert a + b == a;
    } else {
      assert (a + b)[..|a + b| - 1] == a + b[..|b| - 1];
      UnderConcat(a, b[..|b| - 1], path, p);
      PathAfterConcat(a, b[..|b| - 1], path);
    }
  }

  lemma UnderOne(r: Row, path: seq<string>, p: seq<string>)
    ensures Under([r], path, p) == if Place(r, path) == p then [r] else []
    ensures Under([], path, p) == []
  {
    assert [r][..0] == [];
  }

  lemma {:induction false} UnderData(items: seq<Item>, path: seq<string>, p: seq<string>)
    ensures Under(DataRows(items), path, p) == if path == p then DataRows(items) else []
  {
    if items != [] {
      UnderData(items[..|items| - 1], path, p);
      ShownData(items[..|items| - 1], path, p);
      assert DataRows(items)[..|items| - 1] == DataRows(items[..|items| - 1]);
    }
  }

  /** Under a path: the headers of the groups, if it is theirs; what stands within them, if it goes on from there. */
  function Belonging(infos: Infos, groups: seq<Group>, level: nat, path: seq<string>, p: seq<string>): seq<Row>
    requires level <= |path|
  {
    if |p| < level || path[..level] != p[..level] then []
    else if |p| == level then Headers(groups)
    else Standing(infos, groups, level, p)
  }

  function BelongingTo(infos: Infos, g: Group, level: nat, path: seq<string>, p: seq<string>): seq<Row>
    requires level <= |path|
  {
    if |p| < level || path[..level] != p[..level] then []
    else if |p| == level then [Header(g)]
    else StandingIn(infos, g, level, p)
  }

  lemma BelongingLast(infos: Infos, groups: seq<Group>, level: nat, path: seq<string>, path': seq<string>,
                      p: seq<string>)
    requires groups != [] && level <= |path| && level <= |path'| && path[..level] == path'[..level]
    ensures Belonging(infos, groups, level, path, p)
            == Belonging(infos, groups[..|groups| - 1], level, path, p)
               + BelongingTo(infos, groups[|groups| - 1], level, path', p)
  {
    hide StandingIn;
    assert Headers(groups) == Headers(groups[..|groups| - 1]) + [Header(groups[|groups| - 1])];
  }

  lemma BelongingNone(infos: Infos, level: nat, path: seq<string>, p: seq<string>)
    requires level <= |path|
    ensures Belonging(infos, [], level, path, p) == [] && Under([], path, p) == []
  {
  }

  lemma {:induction false} FlattenUnder(infos: Infos, groups: seq<Group>, level: nat, path: seq<string>, p: seq<string>)
    requires Nested(infos, groups, level) && level <= |path| && level <= |infos|
    ensures Under(Flatten(infos, groups, level), path, p) == Belonging(infos, groups, level, path, p)
    decreases groups
  {
    hide PathAfter, Under, FlattenOne, Belonging, BelongingTo, ShownUnder, Nested;
    if groups == [] {
      BelongingNone(infos, level, path, p);
    } else {
      var front, g := groups[..|groups| - 1], groups[|groups| - 1];
      var before := Flatten(infos, front, level);
      NestedLast(infos, groups, level);
      FlattenUnder(infos, front, level, path, p);
      FlattenShows(infos, front, level, path, seq(|infos|, i => ""));
      FlattenOneUnder(infos, g, level, PathAfter(before, path), p);
      UnderConcat(before, FlattenOne(infos, g, level), path, p);
      BelongingLast(infos, groups, level, path, PathAfter(before, path), p);
    }
  }

  lemma NestedLast(infos: Infos, groups: seq<Group>, level: nat)
    requires groups != [] && Nested(infos, groups, level)
    ensures var g := groups[|groups| - 1];
            && Nested(infos, groups[..|groups| - 1], level)
            && level < |infos| && g.level == level && (g.groups.Listed? <==> level + 1 < |infos|)
            && (g.groups.Listed? ==> Nested(infos, g.groups.list, level + 1))
  {
    var front, g := groups[..|groups| - 1], groups[|groups| - 1];
    assert g.groups.Listed? ==> Nested(infos, g.groups.list, level + 1);
    forall k | 0 <= k < |front|
      ensures level < |infos| && front[k].level == level && (front[k].groups.Listed? <==> level + 1 < |infos|)
      ensures front[k].groups.Listed? ==> Nested(infos, front[k].groups.list, level + 1)
    {
      assert front[k] == groups[k];
    }
  }

  lemma {:induction false} InsideUnder(infos: Infos, g: Group, level: nat, under: seq<string>, p: seq<string>)
    requires level < |infos| && |under| == level + 1
    requires g.groups.Listed? <==> level + 1 < |infos|
    requires g.groups.Listed? ==> Nested(infos, g.groups.list, level + 1)
    ensures var inner := Inside(infos, g, level);
            && Truncate(PathAfter(inner, under), level + 1) == under
            && Under(inner, under, p)
               == if g.collapsed then []
                  else if g.groups.Listed? then Belonging(infos, g.groups.list, level + 1, under, p)
                  else if under == p then DataRows(g.rows) else []
    decreases g, 0
  {
    hide PathAfter, Under, Flatten, Standing, DataRows;
    if g.collapsed {
      UnderOne(Data(Item(None, 0)), under, p);
      HeaderShows(g, under, p);
    } else if g.groups.Listed? {
      FlattenUnder(infos, g.groups.list, level + 1, under, p);
      FlattenShows(infos, g.groups.list, level + 1, under, seq(|infos|, i => ""));
      assert under[..level + 1] == under;
    } else {
      UnderData(g.rows, under, p);
      ShownData(g.rows, under, p);
    }
  }

  lemma {:induction false} FlattenOneUnder(infos: Infos, g: Group, level: nat, path: seq<string>, p: seq<string>)
    requires level < |infos| && g.level == level && level <= |path|
    requires g.groups.Listed? <==> level + 1 < |infos|
    requires g.groups.Listed? ==> Nested(infos, g.groups.list, level + 1)
    ensures Under(FlattenOne(infos, g, level), path, p) == BelongingTo(infos, g, level, path, p)
    decreases g, 1
  {
    hide PathAfter, Under, Flatten, FlattenOne, Inside, Belonging, BelongingTo, DataRows, Headers, ShownUnder, Nested;
    var under := path[..level] + [g.value];
    var inner, last := Inside(infos, g, level), TotalsRow(infos, g, level);
    FlattenOneParts(infos, g, level, last);
    HeaderShows(g, path, p);
    InsideUnder(infos, g, level, under, p);
    UnderOne(Header(g), path, p);
    UnderOne(Totals(g), PathAfter(inner, under), p);
    UnderConcat([Header(g)], inner, path, p);
    UnderConcat([Header(g)] + inner, last, path, p);
    PathAfterConcat([Header(g)], inner, path);
    PartsBelong(infos, g, level, path, p);
  }

  /** The header, what is inside and the totals row are what belongs to a path. */
  lemma PartsBelong(infos: Infos, g: Group, level: nat, path: seq<string>, p: seq<string>)
    requires level < |infos| && level <= |path|
    ensures var under := path[..level] + [g.value];
            BelongingTo(infos, g, level, path, p)
            == (if path[..level] == p then [Header(g)] else [])
               + (if g.collapsed then []
                  else if g.groups.Listed? then Belonging(infos, g.groups.list, level + 1, under, p)
                  else if under == p then DataRows(g.rows) else [])
               + (if under == p then TotalsRow(infos, g, level) else [])
  {
    hide Standing, DataRows, Headers;
    var under := path[..level] + [g.value];
    assert |under| == level + 1 && under[..level + 1] == under;
    if |p| > level {
      assert p[..level + 1] == p[..level] + [p[level]];
      assert |p| == level + 1 ==> p[..level + 1] == p;
    } else if |p| == level {
      assert p[..level] == p;
    }
  }

  // ---------- Which groups there are, and what they show ----------

  /** The rows of a page that have the values `p` from `level` on. */
  function Within(infos: Infos, level: nat, p: seq<string>, rows: seq<Item>): seq<Item>
    requires |p| <= |infos|
    decreases |p| - level
  {
    if level >= |p| then rows else Within(infos, level + 1, p, Select(infos[level].getter, p[level], rows))
  }

  /** Each value on the path is predefined or occurs among the rows that have the values before it. */
  predicate Exists(infos: Infos, level: nat, p: seq<string>, rows: seq<Item>)
    requires |p| <= |infos|
    decreases |p| - level
  {
    level < |p| ==>
      && p[level] in ValuesMet(infos[level], rows)
      && Exists(infos, level + 1, p, Select(infos[level].getter, p[level], rows))
  }

  /** Some group above that of the path `p`, from `level` on, is collapsed. */
  ghost predicate Closed(infos: Infos, toggles: Toggles, level: nat, p: seq<string>)
    requires |p| <= |infos| <= |toggles|
  {
    exists l :: level <= l && l + 1 < |p| && ShutAt(infos, toggles, l, p)
  }

  /** The group of the first `l + 1` values is collapsed: by default, unless it was toggled. */
  predicate ShutAt(infos: Infos, toggles: Toggles, l: nat, p: seq<string>)
    requires l < |p| <= |infos| <= |toggles|
  {
    var key := Join(p[..l + 1]);
    infos[l].collapsed != (key in toggles[l] && toggles[l][key])
  }

  /** The group of the path `p`, as it is shown, with `rows` the rows of the page that have those values. */
  ghost predicate GroupShown(infos: Infos, toggles: Toggles, p: seq<string>, rows: seq<Item>, m: Group)
    requires 0 < |p| <= |infos| <= |toggles|
  {
    var level := |p| - 1;
    && m.value == p[level] && m.level == level && m.groupingKey == Join(p) && m.rows == rows && m.count == |rows|
    && (m.collapsed <==> ShutAt(infos, toggles, level, p))
    && (m.totals <==> Totalled(infos[level], m))
    && TitleOf(infos[level], "", m)
    && (m.groups.Listed? <==> level + 1 < |infos|)
    && (m.groups.Listed? ==>
          exists groups :: MadeInto(infos, toggles, p, rows, groups, m.groups.list))
  }

  /** `shown` is what groups made of the rows below the path `p` are shown as. */
  ghost predicate MadeInto(infos: Infos, toggles: Toggles, p: seq<string>, rows: seq<Item>, groups: seq<Group>,
                           shown: seq<Group>)
    requires |p| < |infos| <= |toggles|
  {
    Grouped(infos, rows, |p|, p, groups) && PresentsAll(infos, toggles, groups, shown, |p|)
  }

  /** Under the path `p` stand the contents of its group, if there is one and none above it is collapsed. */
  ghost predicate StandsAt(infos: Infos, toggles: Toggles, rows: seq<Item>, level: nat, p: seq<string>,
                           standing: seq<Row>)
    requires level < |p| <= |infos| <= |toggles|
  {
    if !Exists(infos, level, p, rows) || Closed(infos, toggles, level, p) then standing == []
    else
      exists m ::
        GroupShown(infos, toggles, p, Within(infos, level, p, rows), m) && standing == Contents(infos[|p| - 1], m)
  }

  lemma {:induction false} StandingNone(infos: Infos, groups: seq<Group>, level: nat, p: seq<string>)
    requires level < |p| && !HasValue(groups, p[level])
    ensures Standing(infos, groups, level, p) == []
  {
    if groups != [] {
      assert groups[|groups| - 1].value != p[level];
      assert forall k :: 0 <= k < |groups| - 1 ==> groups[..|groups| - 1][k] == groups[k];
      StandingNone(infos, groups[..|groups| - 1], level, p);
    }
  }

  lemma {:induction false} StandingUnique(infos: Infos, groups: seq<Group>, level: nat, p: seq<string>, k: nat)
    requires level < |p| && k < |groups| && DistinctValues(groups) && groups[k].value == p[level]
    ensures Standing(infos, groups, level, p) == StandingIn(infos, groups[k], level, p)
  {
    var front := groups[..|groups| - 1];
    if k == |groups| - 1 {
      forall j | 0 <= j < |front| ensures front[j].value != p[level] {
        assert groups[j].value != groups[k].value;
      }
      StandingNone(infos, front, level, p);
    } else {
      assert groups[|groups| - 1].value != groups[k].value;
      StandingUnique(infos, front, level, p, k);
    }
  }

  lemma PresentsKeeps(infos: Infos, toggles: Toggles, g: Group, m: Group, level: nat)
    requires |infos| <= |toggles| && Presents(infos, toggles, g, m, level)
    ensures m.value == g.value
  {
  }

  /** The groups made of the rows include one for the value, exactly if it is met. */
  lemma ValueMet(infos: Infos, rows: seq<Item>, level: nat, prefix: seq<string>, groups: seq<Group>, v: string)
    requires level < |infos| && Made(infos, rows, level, prefix, groups)
    ensures HasValue(groups, v) <==> v in ValuesMet(infos[level], rows)
  {
    if v in ValuesMet(infos[level], rows) && v !in Own(infos[level].predefinedValues) {
      var i :| 0 <= i < |rows| && ValuesOf(infos[level].getter, rows)[i] == v;
      assert HasValue(groups, infos[level].getter(rows[i]));
    }
  }

  /** What a group made of the rows is shown as. */
  lemma ShownGroup(infos: Infos, toggles: Toggles, rows: seq<Item>, level: nat, p: seq<string>, g: Group, m: Group)
    requires |p| == level + 1 && |p| <= |infos| <= |toggles| && g.value == p[level]
    requires GroupOk(infos, rows, level, p[..level], g) && Presents(infos, toggles, g, m, level)
    ensures GroupShown(infos, toggles, p, Select(infos[level].getter, p[level], rows), m)
  {
    hide Grouped, Select, PresentsAll;
    assert p[..level] + [p[level]] == p && p[..level + 1] == p;
    var b := Bucket(level, p[..level], g.value, Select(infos[level].getter, g.value, rows));
    assert g.(groups := Absent) == b;
    assert !g.collapsed && g.groupingKey == Join(p) && !g.totals && g.title == "";
    if g.groups.Listed? {
      assert MadeInto(infos, toggles, p, Select(infos[level].getter, p[level], rows), g.groups.list, m.groups.list);
    }
  }

  lemma ClosedStep(infos: Infos, toggles: Toggles, level: nat, p: seq<string>)
    requires level + 1 < |p| <= |infos| <= |toggles|
    ensures Closed(infos, toggles, level, p) <==>
              ShutAt(infos, toggles, level, p) || Closed(infos, toggles, level + 1, p)
  {
  }

  lemma {:induction false} StandsInGroups(infos: Infos, toggles: Toggles, rows: seq<Item>, level: nat, p: seq<string>,
                                          groups: seq<Group>, shown: seq<Group>)
    requires level < |p| <= |infos| <= |toggles|
    requires Grouped(infos, rows, level, p[..level], groups) && PresentsAll(infos, toggles, groups, shown, level)
    ensures StandsAt(infos, toggles, rows, level, p, Standing(infos, shown, level, p))
    decreases |p| - level, 1
  {
    hide GroupOk, Presents, StandingIn, GroupShown, Closed, Contents;
    ValueMet(infos, rows, level, p[..level], groups, p[level]);
    forall k | 0 <= k < |groups| ensures shown[k].value == groups[k].value {
      PresentsKeeps(infos, toggles, groups[k], shown[k], level);
    }
    if HasValue(groups, p[level]) {
      var k :| 0 <= k < |groups| && groups[k].value == p[level];
      StandingUnique(infos, shown, level, p, k);
      StandsInGroup(infos, toggles, rows, level, p, groups[k], shown[k]);
    } else {
      StandingNone(infos, shown, level, p);
    }
  }

  lemma {:induction false} StandsInGroup(infos: Infos, toggles: Toggles, rows: seq<Item>, level: nat, p: seq<string>,
                                         g: Group, m: Group)
    requires level < |p| <= |infos| <= |toggles| && g.value == p[level]
    requires p[level] in ValuesMet(infos[level], rows)
    requires GroupOk(infos, rows, level, p[..level], g) && Presents(infos, toggles, g, m, level)
    ensures StandsAt(infos, toggles, rows, level, p, StandingIn(infos, m, level, p))
    decreases |p| - level, 0
  {
    hide Contents, Grouped, Select, Standing, ValuesMet;
    var q, mine := p[..level + 1], Select(infos[level].getter, p[level], rows);
    assert q[..level] == p[..level];
    ShownGroup(infos, toggles, rows, level, q, g, m);
    if |p| == level + 1 {
      assert q == p && !Closed(infos, toggles, level, p);
      assert GroupShown(infos, toggles, p, mine, m);
      assert Within(infos, level + 1, p, mine) == mine && Exists(infos, level + 1, p, mine);
      assert Exists(infos, level, p, rows) && Within(infos, level, p, rows) == mine;
    } else {
      ClosedStep(infos, toggles, level, p);
      assert p[..level] + [g.value] == q;
      assert g.groups.Listed? && !g.(groups := Absent).collapsed;
      StandsInGroups(infos, toggles, mine, level + 1, p, g.groups.list, m.groups.list);
      assert Exists(infos, level, p, rows) <==> Exists(infos, level + 1, p, mine);
      assert Within(infos, level, p, rows) == Within(infos, level + 1, p, mine);
      assert m.collapsed <==> ShutAt(infos, toggles, level, p);
    }
  }

  /**
   The rows are laid out from groups of the page, at every level in the comparer's order: the
   headers of the top groups, as `addTotals` leaves them, stand first to last, and directly
   under each path stand the contents of its group.
   */
  ghost predicate LaidOutFrom(infos: Infos, toggles: Toggles, page: seq<Item>, rows: seq<Row>, groups: seq<Group>,
                              shown: seq<Group>)
    requires 0 < |infos| <= |toggles|
  {
    && Grouped(infos, page, 0, [], groups) && PresentsAll(infos, toggles, groups, shown, 0)
    && rows == Flatten(infos, shown, 0) && Under(rows, [], []) == Headers(shown)
    && (forall p :: 0 < |p| <= |infos| ==> StandsAt(infos, toggles, page, 0, p, Under(rows, [], p)))
    && (forall p :: |p| > |infos| ==> Under(rows, [], p) == [])
  }

  lemma {:induction false} StandingDeep(infos: Infos, groups: seq<Group>, level: nat, p: seq<string>)
    requires |p| > |infos|
    ensures Standing(infos, groups, level, p) == []
    decreases groups
  {
    if groups != [] {
      var g := groups[|groups| - 1];
      StandingDeep(infos, groups[..|groups| - 1], level, p);
      if g.groups.Listed? { StandingDeep(infos, g.groups.list, level + 1, p); }
    }
  }

  lemma LayoutIsExact(infos: Infos, toggles: Toggles, page: seq<Item>, groups: seq<Group>)
    requires 0 < |infos| <= |toggles| && Grouped(infos, page, 0, [], groups)
    ensures var shown := MarkedAll(infos, toggles, groups, 0);
            LaidOutFrom(infos, toggles, page, Flatten(infos, shown, 0), groups, shown)
  {
    hide Grouped, PresentsAll, StandsAt, Under, Flatten, MarkedAll, Standing;
    var shown := MarkedAll(infos, toggles, groups, 0);
    AllMarked(infos, toggles, groups, 0);
    GroupedNested(infos, page, 0, [], groups);
    MarkedNested(infos, toggles, groups, 0);
    FlattenUnder(infos, shown, 0, [], []);
    forall p: seq<string> | 0 < |p| <= |infos|
      ensures StandsAt(infos, toggles, page, 0, p, Under(Flatten(infos, shown, 0), [], p))
    {
      FlattenUnder(infos, shown, 0, [], p);
      assert p[..0] == [];
      StandsInGroups(infos, toggles, page, 0, p, groups, shown);
    }
    forall p: seq<string> | |p| > |infos| ensures Under(Flatten(infos, shown, 0), [], p) == [] {
      FlattenUnder(infos, shown, 0, [], p);
      assert p[..0] == [];
      StandingDeep(infos, shown, 0, p);
    }
  }

  /** A row is what stands under the place it belongs to. */
  lemma {:induction false} UnderMember(rows: seq<Row>, path: seq<string>, i: nat)
    requires i < |rows|
    ensures rows[i] in Under(rows, path, Place(rows[i], PathAfter(rows[..i], path)))
  {
    if i < |rows| - 1 {
      UnderMember(rows[..|rows| - 1], path, i);
      assert rows[..|rows| - 1][..i] == rows[..i];
    }
  }

  lemma {:induction false} WithinMore(infos: Infos, level: nat, p: seq<string>, v: string, rows: seq<Item>)
    requires |p| < |infos| && level <= |p|
    ensures Within(infos, level, p + [v], rows) == Select(infos[|p|].getter, v, Within(infos, level, p, rows))
    ensures Exists(infos, level, p + [v], rows) <==>
              Exists(infos, level, p, rows) && v in ValuesMet(infos[|p|], Within(infos, level, p, rows))
    decreases |p| - level
  {
    hide Select, ValuesMet;
    var q := p + [v];
    if level < |p| {
      WithinMore(infos, level + 1, p, v, Select(infos[level].getter, p[level], rows));
    } else {
      assert Within(infos, level + 1, q, Select(infos[level].getter, v, rows)) == Select(infos[level].getter, v, rows);
      assert Exists(infos, level + 1, q, Select(infos[level].getter, v, rows));
    }
  }

  /** The path of a group in the page, as it is shown, with no collapsed group above it. */
  ghost predicate ShownOf(infos: Infos, toggles: Toggles, page: seq<Item>, p: seq<string>, m: Group)
    requires |infos| <= |toggles|
  {
    && 0 < |p| <= |infos| && Exists(infos, 0, p, page) && !Closed(infos, toggles, 0, p)
    && GroupShown(infos, toggles, p, Within(infos, 0, p, page), m)
  }

  /** The subgroups of a group that is shown open. */
  lemma SubgroupShown(infos: Infos, toggles: Toggles, page: seq<Item>, q: seq<string>, groups: seq<Group>,
                      shown: seq<Group>, k: nat)
    requires |q| < |infos| <= |toggles| && k < |shown|
    requires Exists(infos, 0, q, page) && forall l :: 0 <= l < |q| ==> !ShutAt(infos, toggles, l, q)
    requires MadeInto(infos, toggles, q, Within(infos, 0, q, page), groups, shown)
    ensures ShownOf(infos, toggles, page, q + [shown[k].value], shown[k])
  {
    hide Presents, GroupShown, GroupOk, Select, ValuesMet;
    var mine := Within(infos, 0, q, page);
    assert Presents(infos, toggles, groups[k], shown[k], |q|);
    PresentsKeeps(infos, toggles, groups[k], shown[k], |q|);
    var v := shown[k].value;
    assert HasValue(groups, v);
    ValueMet(infos, mine, |q|, q, groups, v);
    WithinMore(infos, 0, q, v, page);
    assert (q + [v])[..|q|] == q;
    ShownGroup(infos, toggles, mine, |q|, q + [v], groups[k], shown[k]);
    forall l | 0 <= l < |q| ensures !ShutAt(infos, toggles, l, q + [v]) {
      assert (q + [v])[..l + 1] == q[..l + 1] && !ShutAt(infos, toggles, l, q);
    }
  }

  /** Every header and totals row stands for a group of the page, with its rows, count, title and totals right. */
  lemma EachGroupRow(infos: Infos, toggles: Toggles, page: seq<Item>, rows: seq<Row>, groups: seq<Group>,
                     shown: seq<Group>, i: nat)
    requires 0 < |infos| <= |toggles| && LaidOutFrom(infos, toggles, page, rows, groups, shown)
    requires i < |rows| && !rows[i].Data?
    ensures exists p :: ShownOf(infos, toggles, page, p, rows[i].group)
  {
    hide Under, Flatten, Grouped, PresentsAll, ShownOf, Closed;
    var q := Place(rows[i], PathAfter(rows[..i], []));
    UnderMember(rows, [], i);
    var under := Under(rows, [], q);
    if q == [] {
      GroupAtTop(infos, toggles, page, groups, shown, rows[i]);
    } else {
      assert |q| <= |infos|;
      GroupInContents(infos, toggles, page, q, under, rows[i]);
    }
  }

  lemma GroupAtTop(infos: Infos, toggles: Toggles, page: seq<Item>, groups: seq<Group>, shown: seq<Group>, r: Row)
    requires 0 < |infos| <= |toggles| && Grouped(infos, page, 0, [], groups)
    requires PresentsAll(infos, toggles, groups, shown, 0) && r in Headers(shown)
    ensures exists p :: ShownOf(infos, toggles, page, p, r.group)
  {
    hide ShownOf, Grouped, PresentsAll;
    var k :| 0 <= k < |shown| && r == Header(shown[k]);
    SubgroupShown(infos, toggles, page, [], groups, shown, k);
  }

  lemma GroupInContents(infos: Infos, toggles: Toggles, page: seq<Item>, q: seq<string>, under: seq<Row>, r: Row)
    requires 0 < |q| <= |infos| <= |toggles| && StandsAt(infos, toggles, page, 0, q, under)
    requires r in under && !r.Data?
    ensures exists p :: ShownOf(infos, toggles, page, p, r.group)
  {
    hide Grouped, PresentsAll, Within, Exists, MadeInto;
    var mine := Within(infos, 0, q, page);
    var m :| GroupShown(infos, toggles, q, mine, m) && under == Contents(infos[|q| - 1], m);
    if r.Totals? {
      assert ShownOf(infos, toggles, page, q, m);
    } else {
      var k :| 0 <= k < |m.groups.list| && r == Header(m.groups.list[k]);
      var groups :| MadeInto(infos, toggles, q, mine, groups, m.groups.list);
      assert forall l :: 0 <= l < |q| ==> !ShutAt(infos, toggles, l, q);
      SubgroupShown(infos, toggles, page, q, groups, m.groups.list, k);
    }
  }
}

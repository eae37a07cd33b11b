/**
 Grouping in `DataView`: `extractGroups` sorts rows into nested groups, `addTotals` marks
 them collapsed, `flattenGroupedRows` lays them out for display.
 */
module Grouping {
  import opened Wrappers
  import opened SlickCore
  import opened GroupKeys
  import opened IdIndex
  import opened Sorting

  type Infos = seq<GroupingInfo>

  // ---------- What extractGroups should build ----------

  /** The rows whose value at one level is `value`, in order. */
  function Select(getter: Item -> string, value: string, rows: seq<Item>): seq<Item> {
    if rows == [] then []
    else
      Select(getter, value, rows[..|rows| - 1])
      + if getter(rows[|rows| - 1]) == value then [rows[|rows| - 1]] else []
  }

  ghost predicate DistinctValues(groups: seq<Group>) {
    forall i, j :: 0 <= i < j < |groups| ==> groups[i].value != groups[j].value
  }

  ghost predicate HasValue(groups: seq<Group>, v: string) {
    exists k :: 0 <= k < |groups| && groups[k].value == v
  }

  /** A group below `prefix`, before its subgroups are made. */
  function Bucket(level: nat, prefix: seq<string>, value: string, rows: seq<Item>): Group {
    Group(value, level, Join(prefix + [value]), |rows|, rows, Absent, false, "", false)
  }

  /**
   The values in the order in which `extractGroups` meets them. `groupsByVal` is a plain object:
   a predefined value that it inherits passes for one that has its group.
   */
  function ValuesMet(info: GroupingInfo, rows: seq<Item>): seq<string> {
    Own(info.predefinedValues) + ValuesOf(info.getter, rows)
  }

  function Own(values: seq<string>): seq<string> {
    if values == [] then []
    else Own(values[..|values| - 1]) + if Inherited(values[|values| - 1]) then [] else [values[|values| - 1]]
  }

  lemma {:induction false} OwnMembers(values: seq<string>, v: string)
    ensures v in Own(values) <==> v in values && !Inherited(v)
  {
    if values != [] {
      OwnMembers(values[..|values| - 1], v);
      assert values == values[..|values| - 1] + [values[|values| - 1]];
    }
  }

  /** No row has an inherited name for a value, from `level` on: otherwise the source throws. */
  ghost predicate Groupable(infos: Infos, rows: seq<Item>, level: nat) {
    forall x, l :: x in rows && level <= l < |infos| ==> !Inherited(infos[l].getter(x))
  }

  function ValuesOf(getter: Item -> string, rows: seq<Item>): (r: seq<string>)
    ensures |r| == |rows| && forall i :: 0 <= i < |r| ==> r[i] == getter(rows[i])
  {
    seq(|rows|, i requires 0 <= i < |rows| => getter(rows[i]))
  }

  function FirstAt(values: seq<string>, v: string): (i: nat)
    ensures i <= |values| && (i < |values| <==> v in values)
    ensures v in values ==> values[i] == v
  {
    if values == [] || values[0] == v then 0 else FirstAt(values[1..], v) + 1
  }

  /** The place of a group among the values met. */
  function Rank(values: seq<string>): Group -> int {
    (g: Group) => FirstAt(values, g.value)
  }

  /**
   The groups at one level below the path `prefix`, in the order of the comparer; those that
   compare equal in the order in which their values are met.
   */
  ghost predicate Grouped(infos: Infos, rows: seq<Item>, level: nat, prefix: seq<string>, groups: seq<Group>)
    requires level < |infos|
    decreases |infos| - level, 2
  {
    && Made(infos, rows, level, prefix, groups)
    && (TotalPreorder(infos[level].comparer) ==>
          Ascending(infos[level].comparer, groups)
          && TiesByRank(infos[level].comparer, Rank(ValuesMet(infos[level], rows)), groups))
  }

  /**
   One group for each value that is predefined or occurs, with exactly the rows of that value
   in their order, and with the same again inside for the next level.
   */
  ghost predicate Made(infos: Infos, rows: seq<Item>, level: nat, prefix: seq<string>, groups: seq<Group>)
    requires level < |infos|
    decreases |infos| - level, 1
  {
    var info := infos[level];
    && DistinctValues(groups)
    && (forall v :: v in Own(info.predefinedValues) ==> HasValue(groups, v))
    && (forall i :: 0 <= i < |rows| ==> HasValue(groups, info.getter(rows[i])))
    && (forall k :: 0 <= k < |groups| ==> groups[k].value in ValuesMet(info, rows))
    && (forall k :: 0 <= k < |groups| ==> GroupOk(infos, rows, level, prefix, groups[k]))
  }

  ghost predicate GroupOk(infos: Infos, rows: seq<Item>, level: nat, prefix: seq<string>, g: Group)
    requires level < |infos|
    decreases |infos| - level, 0
  {
    var mine := Select(infos[level].getter, g.value, rows);
    && g.(groups := Absent) == Bucket(level, prefix, g.value, mine)
    && (level + 1 < |infos| ==> g.groups.Listed? && Grouped(infos, mine, level + 1, prefix + [g.value], g.groups.list))
    && (level + 1 == |infos| ==> g.groups.Absent?)
  }

  // ---------- extractGroups ----------

  function Handed(level: nat, prefix: seq<string>, getter: Item -> string, rows: seq<Item>, value: string): Group {
    Bucket(level, prefix, value, Select(getter, value, rows))
  }

  /** `groups` and `groupsByVal` while rows are handed out. */
  ghost predicate Handing(level: nat, prefix: seq<string>, getter: Item -> string, rows: seq<Item>, groups: seq<Group>,
                          byVal: map<string, nat>) {
    && (forall v :: v in byVal ==> byVal[v] < |groups| && groups[byVal[v]].value == v)
    && (forall k :: 0 <= k < |groups| ==> groups[k].value in byVal && byVal[groups[k].value] == k
                                          && groups[k] == Handed(level, prefix, getter, rows, groups[k].value))
    && (forall i :: 0 <= i < |rows| ==> getter(rows[i]) in byVal)
  }

  /** ... in the order in which their values were met. */
  ghost predicate Ordered(met: seq<string>, groups: seq<Group>, byVal: map<string, nat>) {
    && (forall v :: v in met <==> v in byVal) && (forall v :: v in met ==> !Inherited(v))
    && RanksIncrease(Rank(met), groups)
  }

  lemma {:induction false} FirstAtGrows(values: seq<string>, v: string, w: string)
    ensures w in values ==> FirstAt(values + [v], w) == FirstAt(values, w)
    ensures v !in values ==> FirstAt(values + [v], v) == |values|
  {
    if values != [] {
      assert (values + [v])[1..] == values[1..] + [v];
      FirstAtGrows(values[1..], v, w);
    }
  }

  /** Meeting a value: a new one is last. */
  lemma OrderGrows(met: seq<string>, v: string, groups: seq<Group>, byVal: map<string, nat>, g: Group)
    requires Ordered(met, groups, byVal) && g.value == v && !Inherited(v)
    requires forall k :: 0 <= k < |groups| ==> groups[k].value in byVal
    ensures v in byVal ==> Ordered(met + [v], groups, byVal)
    ensures v !in byVal ==> Ordered(met + [v], groups + [g], byVal[v := |groups|])
  {
    forall k | 0 <= k < |groups| ensures FirstAt(met + [v], groups[k].value) == FirstAt(met, groups[k].value) {
      FirstAtGrows(met, v, groups[k].value);
    }
    FirstAtGrows(met, v, v);
    if v in byVal {
      forall i, j | 0 <= i < j < |groups| ensures Rank(met + [v])(groups[i]) < Rank(met + [v])(groups[j]) {
        assert Rank(met)(groups[i]) < Rank(met)(groups[j]);
      }
    } else {
      var more := groups + [g];
      forall i, j | 0 <= i < j < |more| ensures Rank(met + [v])(more[i]) < Rank(met + [v])(more[j]) {
        if j < |groups| {
          assert Rank(met)(groups[i]) < Rank(met)(groups[j]);
        }
      }
    }
  }

  function NewGroup(parent: Option<Group>, level: nat, value: string): Group {
    var key := (if parent.Some? then parent.value.groupingKey + DELIMITER else "") + value;
    Group(value, level, key, 0, [], Absent, false, "", false)
  }

  ghost predicate PrefixOf(parent: Option<Group>, level: nat, prefix: seq<string>) {
    && |prefix| == level
    && match parent
       case None => level == 0
       case Some(p) => p.level + 1 == level && p.groupingKey == Join(prefix)
  }

  lemma {:induction false} SelectNone(getter: Item -> string, value: string, rows: seq<Item>)
    requires forall i :: 0 <= i < |rows| ==> getter(rows[i]) != value
    ensures Select(getter, value, rows) == []
  {
    if rows != [] {
      SelectNone(getter, value, rows[..|rows| - 1]);
    }
  }

  /** A value met for the first time gets an empty group. */
  lemma HandNew(parent: Option<Group>, level: nat, prefix: seq<string>, getter: Item -> string, rows: seq<Item>,
                groups: seq<Group>, byVal: map<string, nat>, value: string)
    requires Handing(level, prefix, getter, rows, groups, byVal) && PrefixOf(parent, level, prefix) && value !in byVal
    ensures Handing(level, prefix, getter, rows, groups + [NewGroup(parent, level, value)], byVal[value := |groups|])
  {
    SelectNone(getter, value, rows);
    var g := NewGroup(parent, level, value);
    assert (prefix + [value])[..|prefix|] == prefix;
    assert g == Bucket(level, prefix, value, []);
  }

  /** A row joins the group of its value. */
  lemma HandRow(level: nat, prefix: seq<string>, getter: Item -> string, rows: seq<Item>, groups: seq<Group>,
                byVal: map<string, nat>, r: Item)
    requires Handing(level, prefix, getter, rows, groups, byVal) && getter(r) in byVal
    ensures var k := byVal[getter(r)];
            var more := groups[k := groups[k].(rows := groups[k].rows + [r], count := groups[k].count + 1)];
            Handing(level, prefix, getter, rows + [r], more, byVal)
  {
    hide Select, Join;
    var k := byVal[getter(r)];
    forall v ensures Select(getter, v, rows + [r]) == Select(getter, v, rows) + if getter(r) == v then [r] else [] {
      SelectOneMore(getter, v, rows, r);
    }
    forall j | 0 <= j < |groups| && j != k
      ensures Handed(level, prefix, getter, rows + [r], groups[j].value) == groups[j]
    {
      assert groups[j].value != getter(r);
    }
  }

  lemma SelectOneMore(getter: Item -> string, value: string, rows: seq<Item>, r: Item)
    ensures Select(getter, value, rows + [r]) == Select(getter, value, rows) + if getter(r) == value then [r] else []
  {
    assert (rows + [r])[..|rows|] == rows;
  }

  /** `ok` is false where the source throws. */
  method ExtractGroups(infos: Infos, rows: seq<Item>, parent: Option<Group>, ghost prefix: seq<string>)
    returns (groups: seq<Group>, ok: bool)
    requires |prefix| < |infos| && PrefixOf(parent, |prefix|, prefix)
    ensures ok <==> Groupable(infos, rows, |prefix|)
    ensures ok ==> Grouped(infos, rows, |prefix|, prefix, groups)
    decreases |infos| - |prefix|, 2
  {
    var level := if parent.Some? then parent.value.level + 1 else 0;
    var flat, byVal;
    flat, byVal, ok := HandOut(infos[level], level, rows, parent, prefix);
    groups := flat;
    if ok && level < |infos| - 1 {
      groups, ok := ExtractInner(infos, rows, level, prefix, flat, byVal);
    }
    GroupableByLevel(infos, rows, level);
    if ok {
      GroupsMade(infos, infos[level], rows, level, prefix, flat, byVal, groups);
      SameRanks(ValuesMet(infos[level], rows), flat, groups);
      SortGroups(infos, rows, level, prefix, groups);
      groups := Sort(infos[level].comparer, groups);
    }
  }

  lemma GroupableByLevel(infos: Infos, rows: seq<Item>, level: nat)
    requires level < |infos|
    ensures Groupable(infos, rows, level)
            <==> (forall x :: x in rows ==> !Inherited(infos[level].getter(x))) && Groupable(infos, rows, level + 1)
  {
  }

  lemma SameRanks(met: seq<string>, flat: seq<Group>, groups: seq<Group>)
    requires RanksIncrease(Rank(met), flat)
    requires |groups| == |flat| && forall k :: 0 <= k < |groups| ==> groups[k].(groups := Absent) == flat[k]
    ensures RanksIncrease(Rank(met), groups)
  {
    forall k | 0 <= k < |groups| ensures groups[k].value == flat[k].value {
      assert groups[k].(groups := Absent).value == flat[k].value;
    }
    forall i, j | 0 <= i < j < |groups| ensures Rank(met)(groups[i]) < Rank(met)(groups[j]) {
      assert Rank(met)(flat[i]) < Rank(met)(flat[j]);
    }
  }

  lemma {:induction false} SelectMember(getter: Item -> string, value: string, rows: seq<Item>, x: Item)
    ensures x in Select(getter, value, rows) <==> x in rows && getter(x) == value
  {
    if rows != [] {
      SelectMember(getter, value, rows[..|rows| - 1], x);
      assert rows == rows[..|rows| - 1] + [rows[|rows| - 1]];
    }
  }

  /** The rows can be grouped further exactly when those of every group can. */
  lemma GroupableByGroup(infos: Infos, rows: seq<Item>, level: nat, prefix: seq<string>, flat: seq<Group>,
                         byVal: map<string, nat>)
    requires level < |infos| && Handing(level, prefix, infos[level].getter, rows, flat, byVal)
    ensures Groupable(infos, rows, level + 1)
            <==> forall k :: 0 <= k < |flat| ==> Groupable(infos, flat[k].rows, level + 1)
  {
    hide Inherited, Select;
    var getter := infos[level].getter;
    forall k, x | 0 <= k < |flat| ensures x in flat[k].rows <==> x in rows && getter(x) == flat[k].value {
      assert flat[k] == Handed(level, prefix, getter, rows, flat[k].value);
      SelectMember(getter, flat[k].value, rows, x);
    }
    if Groupable(infos, rows, level + 1) {
      forall k | 0 <= k < |flat| ensures Groupable(infos, flat[k].rows, level + 1) {
        assert forall x :: x in flat[k].rows ==> x in rows;
      }
    }
    if forall k :: 0 <= k < |flat| ==> Groupable(infos, flat[k].rows, level + 1) {
      forall x, l | x in rows && level + 1 <= l < |infos| ensures !Inherited(infos[l].getter(x)) {
        var i :| 0 <= i < |rows| && rows[i] == x;
        var k := byVal[getter(x)];
        assert Groupable(infos, flat[k].rows, level + 1) && x in flat[k].rows;
      }
    }
  }

  lemma FlatIsFlat(level: nat, prefix: seq<string>, getter: Item -> string, rows: seq<Item>, flat: seq<Group>,
                   byVal: map<string, nat>)
    requires Handing(level, prefix, getter, rows, flat, byVal)
    ensures forall k :: 0 <= k < |flat| ==> flat[k].(groups := Absent) == flat[k]
  {
  }

  /** The loop that makes the subgroups. */
  method ExtractInner(infos: Infos, ghost rows: seq<Item>, level: nat, ghost prefix: seq<string>, flat: seq<Group>,
                      ghost byVal: map<string, nat>) returns (groups: seq<Group>, ok: bool)
    requires |prefix| == level < |infos| - 1 && Handing(level, prefix, infos[level].getter, rows, flat, byVal)
    ensures |groups| == |flat| && forall k :: 0 <= k < |groups| ==> groups[k].(groups := Absent) == flat[k]
    ensures ok <==> Groupable(infos, rows, level + 1)
    ensures ok ==> forall k :: 0 <= k < |groups| ==> GroupOk(infos, rows, level, prefix, groups[k])
    decreases |infos| - |prefix|, 1
  {
    hide Groupable, Grouped, Sort, GroupOk, Handed;
    GroupableByGroup(infos, rows, level, prefix, flat, byVal);
    FlatIsFlat(level, prefix, infos[level].getter, rows, flat, byVal);
    groups := flat;
    var i := 0;
    while i < |groups|
      invariant 0 <= i <= |groups| == |flat|
      invariant forall k :: 0 <= k < |groups| ==> groups[k].(groups := Absent) == flat[k]
      invariant forall k :: 0 <= k < i ==> Groupable(infos, flat[k].rows, level + 1)
      invariant forall k :: 0 <= k < i ==> GroupOk(infos, rows, level, prefix, groups[k])
      invariant forall k :: i <= k < |groups| ==> groups[k] == flat[k]
    {
      var g;
      g, ok := ExtractOne(infos, rows, level, prefix, groups[i]);
      if !ok {
        return;
      }
      groups := groups[i := g];
      i := i + 1;
    }
    ok := true;
  }

  /** One turn of the loop. */
  method ExtractOne(infos: Infos, ghost rows: seq<Item>, level: nat, ghost prefix: seq<string>, group: Group)
    returns (g: Group, ok: bool)
    requires |prefix| == level < |infos| - 1 && group == Handed(level, prefix, infos[level].getter, rows, group.value)
    ensures g.(groups := Absent) == group
    ensures ok <==> Groupable(infos, group.rows, level + 1)
    ensures ok ==> GroupOk(infos, rows, level, prefix, g)
    decreases |infos| - |prefix|, 0
  {
    hide Groupable, Grouped, Select;
    var inner;
    inner, ok := ExtractGroups(infos, group.rows, Some(group), prefix + [group.value]);
    g := group.(groups := Listed(inner));
    if ok {
      GroupFilled(infos, rows, level, prefix, group, inner);
    } else {
      g := group;
    }
  }

  lemma GroupFilled(infos: Infos, rows: seq<Item>, level: nat, prefix: seq<string>, g: Group, inner: seq<Group>)
    requires level + 1 < |infos| && g == Bucket(level, prefix, g.value, Select(infos[level].getter, g.value, rows))
    requires Grouped(infos, g.rows, level + 1, prefix + [g.value], inner)
    ensures GroupOk(infos, rows, level, prefix, g.(groups := Listed(inner)))
  {
  }

  lemma GroupsMade(infos: Infos, info: GroupingInfo, rows: seq<Item>, level: nat, prefix: seq<string>, flat: seq<Group>,
                   byVal: map<string, nat>, groups: seq<Group>)
    requires level < |infos| && info == infos[level] && Handing(level, prefix, info.getter, rows, flat, byVal)
    requires forall v :: v in ValuesMet(info, rows) <==> v in byVal
    requires |groups| == |flat| && forall k :: 0 <= k < |groups| ==> groups[k].(groups := Absent) == flat[k]
    requires level + 1 < |infos| ==> forall k :: 0 <= k < |groups| ==> GroupOk(infos, rows, level, prefix, groups[k])
    requires level + 1 == |infos| ==> groups == flat
    ensures Made(infos, rows, level, prefix, groups)
  {
    forall k | 0 <= k < |groups| ensures groups[k].value == flat[k].value && flat[k].groups == Absent {
      assert groups[k].(groups := Absent) == flat[k];
    }
    forall v | v in byVal ensures HasValue(groups, v) {
      assert groups[byVal[v]].value == v;
    }
    forall i | 0 <= i < |rows| ensures HasValue(groups, info.getter(rows[i])) {
    }
  }

  /** The two loops that hand out predefined values and rows. */
  method HandOut(info: GroupingInfo, level: nat, rows: seq<Item>, parent: Option<Group>, ghost prefix: seq<string>)
    returns (groups: seq<Group>, byVal: map<string, nat>, ok: bool)
    requires PrefixOf(parent, level, prefix)
    ensures ok <==> forall x :: x in rows ==> !Inherited(info.getter(x))
    ensures ok ==> Handing(level, prefix, info.getter, rows, groups, byVal)
    ensures ok ==> Ordered(ValuesMet(info, rows), groups, byVal)
  {
    hide Handing, Ordered, Select, Inherited;
    groups, byVal := HandPredefined(info, level, parent, prefix);
    assert ValuesMet(info, []) == Own(info.predefinedValues);
    var i := 0;
    while i < |rows|
      invariant 0 <= i <= |rows|
      invariant forall k :: 0 <= k < i ==> !Inherited(info.getter(rows[k]))
      invariant Handing(level, prefix, info.getter, rows[..i], groups, byVal)
      invariant Ordered(ValuesMet(info, rows[..i]), groups, byVal)
    {
      assert rows[..i + 1] == rows[..i] + [rows[i]];
      assert ValuesMet(info, rows[..i + 1]) == ValuesMet(info, rows[..i]) + [info.getter(rows[i])];
      ghost var met := ValuesMet(info, rows[..i]);
      groups, byVal, ok := HandOne(info.getter, level, parent, prefix, rows[..i], met, groups, byVal, rows[i]);
      if !ok {
        return;
      }
      i := i + 1;
    }
    assert rows[..|rows|] == rows;
    ok := true;
  }

  /** One turn of the second loop: an inherited function or object takes no rows. */
  method HandOne(getter: Item -> string, level: nat, parent: Option<Group>, ghost prefix: seq<string>,
                 ghost rows: seq<Item>, ghost met: seq<string>, groups: seq<Group>, byVal: map<string, nat>, r: Item)
    returns (groups': seq<Group>, byVal': map<string, nat>, ok: bool)
    requires PrefixOf(parent, level, prefix) && Handing(level, prefix, getter, rows, groups, byVal)
    requires Ordered(met, groups, byVal)
    ensures ok <==> !Inherited(getter(r))
    ensures ok ==> Handing(level, prefix, getter, rows + [r], groups', byVal')
    ensures ok ==> Ordered(met + [getter(r)], groups', byVal')
  {
    var val := getter(r);
    groups', byVal' := Provide(getter, level, parent, prefix, rows, met, groups, byVal, val);
    ok := val in byVal';
    if ok {
      ghost var provided := groups';
      HandRow(level, prefix, getter, rows, groups', byVal', r);
      var k := byVal'[val];
      groups' := groups'[k := groups'[k].(rows := groups'[k].rows + [r], count := groups'[k].count + 1)];
      SameValuesSameOrder(met + [val], provided, groups', byVal');
    }
  }

  lemma SameValuesSameOrder(met: seq<string>, a: seq<Group>, b: seq<Group>, byVal: map<string, nat>)
    requires Ordered(met, a, byVal) && |a| == |b| && forall k :: 0 <= k < |a| ==> a[k].value == b[k].value
    ensures Ordered(met, b, byVal)
  {
    forall i, j | 0 <= i < j < |b| ensures Rank(met)(b[i]) < Rank(met)(b[j]) {
      assert Rank(met)(a[i]) < Rank(met)(a[j]);
    }
  }

  method HandPredefined(info: GroupingInfo, level: nat, parent: Option<Group>, ghost prefix: seq<string>)
    returns (groups: seq<Group>, byVal: map<string, nat>)
    requires PrefixOf(parent, level, prefix)
    ensures Handing(level, prefix, info.getter, [], groups, byVal)
    ensures Ordered(Own(info.predefinedValues), groups, byVal)
  {
    hide Inherited;
    var values := info.predefinedValues;
    groups, byVal := [], map[];
    var i := 0;
    while i < |values|
      invariant 0 <= i <= |values|
      invariant Handing(level, prefix, info.getter, [], groups, byVal)
      invariant Ordered(Own(values[..i]), groups, byVal)
    {
      assert values[..i + 1][..i] == values[..i];
      ghost var met := Own(values[..i]);
      groups, byVal := Provide(info.getter, level, parent, prefix, [], met, groups, byVal, values[i]);
      i := i + 1;
    }
    assert values[..i] == values;
  }

  /** Makes the group of a value unless one is found, be it an inherited function or object. */
  method Provide(ghost getter: Item -> string, level: nat, parent: Option<Group>, ghost prefix: seq<string>,
                 ghost rows: seq<Item>, ghost met: seq<string>, groups: seq<Group>, byVal: map<string, nat>,
                 val: string)
    returns (groups': seq<Group>, byVal': map<string, nat>)
    requires PrefixOf(parent, level, prefix) && Handing(level, prefix, getter, rows, groups, byVal)
    requires Ordered(met, groups, byVal)
    ensures Handing(level, prefix, getter, rows, groups', byVal')
    ensures Ordered(met + if Inherited(val) then [] else [val], groups', byVal')
    ensures val in byVal' <==> !Inherited(val)
  {
    groups', byVal' := groups, byVal;
    if !Inherited(val) {
      OrderGrows(met, val, groups, byVal, NewGroup(parent, level, val));
    } else {
      assert met + [] == met;
    }
    if val !in byVal && !Inherited(val) {
      HandNew(parent, level, prefix, getter, rows, groups, byVal, val);
      groups', byVal' := groups + [NewGroup(parent, level, val)], byVal[val := |groups|];
    }
  }

  lemma {:induction false} SortKeepsDistinct(cmp: (Group, Group) -> int, groups: seq<Group>)
    requires DistinctValues(groups)
    ensures DistinctValues(Sort(cmp, groups))
  {
    if groups != [] {
      var front, last := groups[..|groups| - 1], groups[|groups| - 1];
      SortKeepsDistinct(cmp, front);
      SortMembers(cmp, front);
      var sorted := Sort(cmp, front);
      forall i | 0 <= i < |sorted| ensures sorted[i].value != last.value {
        assert sorted[i] in multiset(sorted);
        assert sorted[i] in front;
      }
      InsertDistinct(cmp, sorted, last);
    }
  }

  lemma {:induction false} InsertDistinct(cmp: (Group, Group) -> int, groups: seq<Group>, g: Group)
    requires DistinctValues(groups) && forall i :: 0 <= i < |groups| ==> groups[i].value != g.value
    ensures DistinctValues(Insert(cmp, groups, g))
  {
    if groups != [] && cmp(groups[0], g) <= 0 {
      InsertDistinct(cmp, groups[1..], g);
      InsertMembers(cmp, groups[1..], g);
      var rest := Insert(cmp, groups[1..], g);
      forall i | 0 <= i < |rest| ensures rest[i].value != groups[0].value {
        assert rest[i] in multiset(rest);
        if rest[i] != g {
          var k :| 0 <= k < |groups[1..]| && groups[1..][k] == rest[i];
          assert groups[1 + k] == rest[i];
        }
      }
    }
  }

  lemma SortGroups(infos: Infos, rows: seq<Item>, level: nat, prefix: seq<string>, groups: seq<Group>)
    requires level < |infos| && Made(infos, rows, level, prefix, groups)
    requires RanksIncrease(Rank(ValuesMet(infos[level], rows)), groups)
    ensures Grouped(infos, rows, level, prefix, Sort(infos[level].comparer, groups))
  {
    hide GroupOk, Sort, Rank, RanksIncrease, TiesByRank, Ascending, DistinctValues, ValuesMet;
    if TotalPreorder(infos[level].comparer) {
      SortAscending(infos[level].comparer, groups);
      SortTies(infos[level].comparer, Rank(ValuesMet(infos[level], rows)), groups);
    }
    var sorted := Sort(infos[level].comparer, groups);
    SortKeepsDistinct(infos[level].comparer, groups);
    SortMembers(infos[level].comparer, groups);
    forall v | HasValue(groups, v) ensures HasValue(sorted, v) {
      var k :| 0 <= k < |groups| && groups[k].value == v;
      assert groups[k] in multiset(sorted);
    }
    forall k | 0 <= k < |sorted|
      ensures sorted[k].value in ValuesMet(infos[level], rows) && GroupOk(infos, rows, level, prefix, sorted[k])
    {
      assert sorted[k] in multiset(groups);
    }
  }

  /** A row whose value every object inherits as a name makes `extractGroups` throw, at whatever level. */
  lemma InheritedCannotBeGrouped(infos: Infos, rows: seq<Item>, x: Item, l: nat)
    requires l < |infos| && x in rows
    requires infos[l].getter(x) in {"constructor", "toString", "valueOf", "hasOwnProperty", "__proto__"}
    ensures !Groupable(infos, rows, 0)
  {
  }

  // ---------- The order of groups that compare equal ----------

  lemma {:induction false} FirstAtConcat(a: seq<string>, b: seq<string>, v: string)
    ensures FirstAt(a + b, v) == if v in a then FirstAt(a, v) else |a| + FirstAt(b, v)
  {
    if a == [] {
      assert a + b == b;
    } else {
      assert (a + b)[1..] == a[1..] + b;
      FirstAtConcat(a[1..], b, v);
    }
  }

  /** In the list itself the one that comes first in `Own` comes first, too. */
  lemma {:induction false} OwnOrder(values: seq<string>, v: string, w: string) returns (k: nat)
    requires v in Own(values) && !Inherited(w) && FirstAt(Own(values), v) < FirstAt(Own(values), w)
    ensures k < |values| && values[k] == v && w !in values[..k]
  {
    var front, last := values[..|values| - 1], values[|values| - 1];
    if Inherited(last) {
      assert Own(values) == Own(front);
      k := OwnOrder(front, v, w);
      assert front[..k] == values[..k];
    } else {
      FirstAtConcat(Own(front), [last], v);
      FirstAtConcat(Own(front), [last], w);
      if v in Own(front) {
        k := OwnOrder(front, v, w);
        assert front[..k] == values[..k];
      } else {
        k := |values| - 1;
        OwnMembers(front, w);
      }
    }
  }

  lemma {:induction false} FirstAtFirst(values: seq<string>, v: string)
    ensures v !in values[..FirstAt(values, v)]
  {
    if values != [] && values[0] != v {
      FirstAtFirst(values[1..], v);
      var k := FirstAt(values[1..], v);
      assert values[..k + 1] == [values[0]] + values[1..][..k];
    }
  }

  predicate Predefined(info: GroupingInfo, v: string) {
    v in info.predefinedValues && !Inherited(v)
  }

  /**
   Of two groups that compare equal the first is the one whose value comes first in the list of
   predefined values, or else, predefined values going before others, that of the earlier row.
   */
  lemma TiesAsMet(infos: Infos, rows: seq<Item>, level: nat, prefix: seq<string>, groups: seq<Group>, i: nat, j: nat)
    requires level < |infos| && Grouped(infos, rows, level, prefix, groups) && i < j < |groups|
    requires TotalPreorder(infos[level].comparer) && infos[level].comparer(groups[i], groups[j]) == 0
    requires Groupable(infos, rows, level)
    ensures var info, v, w := infos[level], groups[i].value, groups[j].value;
            if Predefined(info, v)
            then exists k :: 0 <= k < |info.predefinedValues| && info.predefinedValues[k] == v
                             && w !in info.predefinedValues[..k]
            else !Predefined(info, w)
                 && exists k :: 0 <= k < |rows| && info.getter(rows[k]) == v
                                && forall l :: 0 <= l < k ==> info.getter(rows[l]) != w
  {
    hide Made, Inherited, Groupable;
    var info, v, w := infos[level], groups[i].value, groups[j].value;
    var own, seen := Own(info.predefinedValues), ValuesOf(info.getter, rows);
    MadeMet(infos, rows, level, prefix, groups, i);
    MadeMet(infos, rows, level, prefix, groups, j);
    assert FirstAt(own + seen, v) < FirstAt(own + seen, w) by {
      assert Rank(ValuesMet(info, rows))(groups[i]) < Rank(ValuesMet(info, rows))(groups[j]);
    }
    FirstAtConcat(own, seen, v);
    FirstAtConcat(own, seen, w);
    OwnMembers(info.predefinedValues, v);
    OwnMembers(info.predefinedValues, w);
    if v in own {
      var k := OwnOrder(info.predefinedValues, v, w);
    } else {
      var k := FirstAt(seen, v);
      FirstAtFirst(seen, w);
      forall l | 0 <= l < k ensures info.getter(rows[l]) != w {
        assert seen[l] == seen[..FirstAt(seen, w)][l];
      }
    }
  }

  lemma MadeMet(infos: Infos, rows: seq<Item>, level: nat, prefix: seq<string>, groups: seq<Group>, k: nat)
    requires level < |infos| && Made(infos, rows, level, prefix, groups) && k < |groups|
    requires Groupable(infos, rows, level)
    ensures groups[k].value in ValuesMet(infos[level], rows) && !Inherited(groups[k].value)
  {
    hide Inherited, Own, GroupOk, HasValue, DistinctValues;
    var info, v := infos[level], groups[k].value;
    assert v in ValuesMet(info, rows);
    OwnMembers(info.predefinedValues, v);
    if v !in Own(info.predefinedValues) {
      var i :| 0 <= i < |rows| && ValuesOf(info.getter, rows)[i] == v;
      assert rows[i] in rows && info.getter(rows[i]) == v;
    }
  }

  // ---------- addTotals ----------

  type Toggles = seq<map<string, bool>>

  function XorToggle(base: bool, toggles: map<string, bool>, key: string): bool {
    base != (key in toggles && toggles[key])
  }

  /** Whether the group with this key is shown collapsed. */
  predicate CollapsedAt(infos: Infos, toggles: Toggles, level: nat, key: string)
    requires level < |infos| <= |toggles|
  {
    XorToggle(infos[level].collapsed, toggles[level], key)
  }

  /** One group after `addTotals`; a group already collapsed may be left as it is. */
  function Marked(infos: Infos, toggles: Toggles, g: Group, level: nat): Group
    requires |infos| <= |toggles|
    decreases g
  {
    if level >= |infos| || (g.collapsed && !infos[level].aggregateCollapsed) then g
    else
      var info := infos[level];
      var inner := if g.groups.Listed? then g.(groups := Listed(MarkedAll(infos, toggles, g.groups.list, level + 1)))
                   else g;
      var totalled := if info.aggregators > 0
                         && (info.aggregateEmpty || inner.rows != []
                             || (inner.groups.Listed? && inner.groups.list != []))
                      then inner.(totals := true) else inner;
      var shown := totalled.(collapsed := XorToggle(info.collapsed, toggles[level], totalled.groupingKey));
      shown.(title := if info.formatter.Some? then info.formatter.value(shown) else shown.value)
  }

  function MarkedAll(infos: Infos, toggles: Toggles, groups: seq<Group>, level: nat): (r: seq<Group>)
    requires |infos| <= |toggles|
    ensures |r| == |groups| && forall i :: 0 <= i < |groups| ==> r[i] == Marked(infos, toggles, groups[i], level)
    decreases groups
  {
    if groups == [] then []
    else
      MarkedAll(infos, toggles, groups[..|groups| - 1], level)
      + [Marked(infos, toggles, groups[|groups| - 1], level)]
  }

  method AddTotals(infos: Infos, toggles: Toggles, groups: seq<Group>, level: nat) returns (marked: seq<Group>)
    requires level < |infos| <= |toggles| && Nested(infos, groups, level)
    ensures marked == MarkedAll(infos, toggles, groups, level)
    decreases groups
  {
    marked := groups;
    var idx := |groups|;
    while idx > 0
      invariant 0 <= idx <= |groups| == |marked|
      invariant forall k :: 0 <= k < idx ==> marked[k] == groups[k]
      invariant forall k :: idx <= k < |groups| ==> marked[k] == Marked(infos, toggles, groups[k], level)
    {
      idx := idx - 1;
      var g := Mark(infos, toggles, marked[idx], level);
      marked := marked[idx := g];
    }
  }

  /** One turn of the loop; subgroups come first. */
  method Mark(infos: Infos, toggles: Toggles, group: Group, level: nat) returns (g: Group)
    requires level < |infos| <= |toggles| && Nested(infos, [group], level)
    ensures g == Marked(infos, toggles, group, level)
    decreases group
  {
    var info := infos[level];
    g := group;
    assert [group][0] == group;
    if g.collapsed && !info.aggregateCollapsed {
      return;
    }
    if g.groups.Listed? {
      var inner := AddTotals(infos, toggles, g.groups.list, level + 1);
      g := g.(groups := Listed(inner));
    }
    if info.aggregators > 0 && (info.aggregateEmpty || g.rows != [] || (g.groups.Listed? && g.groups.list != [])) {
      g := g.(totals := true);
    }
    g := g.(collapsed := XorToggle(info.collapsed, toggles[level], g.groupingKey));
    g := g.(title := if info.formatter.Some? then info.formatter.value(g) else g.value);
  }

  /** Groups nest exactly as deep as there are grouping levels. */
  ghost predicate Nested(infos: Infos, groups: seq<Group>, level: nat)
    decreases groups
  {
    forall k :: 0 <= k < |groups| ==>
      && level < |infos| && groups[k].level == level
      && (groups[k].groups.Listed? <==> level + 1 < |infos|)
      && (groups[k].groups.Listed? ==> Nested(infos, groups[k].groups.list, level + 1))
  }

  lemma {:induction false} GroupedNested(infos: Infos, rows: seq<Item>, level: nat, prefix: seq<string>,
                                         groups: seq<Group>)
    requires level < |infos| && Grouped(infos, rows, level, prefix, groups)
    ensures Nested(infos, groups, level)
    decreases |infos| - level
  {
    forall k | 0 <= k < |groups|
      ensures groups[k].level == level && (groups[k].groups.Listed? <==> level + 1 < |infos|)
      ensures groups[k].groups.Listed? ==> Nested(infos, groups[k].groups.list, level + 1)
    {
      var g := groups[k];
      assert GroupOk(infos, rows, level, prefix, g);
      assert g.(groups := Absent).level == g.level;
      if g.groups.Listed? {
        GroupedNested(infos, Select(infos[level].getter, g.value, rows), level + 1, prefix + [g.value], g.groups.list);
      }
    }
  }

  lemma {:induction false} MarkedNested(infos: Infos, toggles: Toggles, groups: seq<Group>, level: nat)
    requires |infos| <= |toggles| && Nested(infos, groups, level)
    ensures Nested(infos, MarkedAll(infos, toggles, groups, level), level)
    decreases groups
  {
    var marked := MarkedAll(infos, toggles, groups, level);
    forall k | 0 <= k < |groups| && groups[k].groups.Listed?
      ensures marked[k].groups.Listed? && Nested(infos, marked[k].groups.list, level + 1)
    {
      MarkedNested(infos, toggles, groups[k].groups.list, level + 1);
    }
  }

  // ---------- flattenGroupedRows ----------

  function DataRows(items: seq<Item>): (r: seq<Row>)
    ensures |r| == |items| && forall i :: 0 <= i < |r| ==> r[i] == Data(items[i])
  {
    seq(|items|, i requires 0 <= i < |items| => Data(items[i]))
  }

  function Flatten(infos: Infos, groups: seq<Group>, level: nat): seq<Row>
    decreases groups
  {
    if groups == [] then []
    else Flatten(infos, groups[..|groups| - 1], level) + FlattenOne(infos, groups[|groups| - 1], level)
  }

  function FlattenOne(infos: Infos, g: Group, level: nat): seq<Row>
    decreases g
  {
    if level >= |infos| then []
    else
      var inner := if g.groups.Listed? then Flatten(infos, g.groups.list, level + 1) else DataRows(g.rows);
      [Header(g)] + (if g.collapsed then [] else inner)
      + if g.totals && infos[level].displayTotalsRow && (!g.collapsed || infos[level].aggregateCollapsed)
        then [Totals(g)] else []
  }

  method FlattenGroupedRows(infos: Infos, groups: seq<Group>, level: nat) returns (groupedRows: seq<Row>)
    requires level < |infos| && Nested(infos, groups, level)
    ensures groupedRows == Flatten(infos, groups, level)
    decreases groups
  {
    groupedRows := [];
    var i := 0;
    while i < |groups|
      invariant 0 <= i <= |groups| && groupedRows == Flatten(infos, groups[..i], level)
    {
      assert groups[..i + 1][..i] == groups[..i];
      var rows := LayOut(infos, groups[i], level);
      groupedRows := groupedRows + rows;
      i := i + 1;
    }
    assert groups[..|groups|] == groups;
  }

  /** One turn of the loop: the header, what is inside unless collapsed, the totals row. */
  method LayOut(infos: Infos, g: Group, level: nat) returns (rows: seq<Row>)
    requires level < |infos| && Nested(infos, [g], level)
    ensures rows == FlattenOne(infos, g, level)
    decreases g
  {
    assert [g][0] == g;
    rows := [Header(g)];
    if !g.collapsed {
      if g.groups.Listed? {
        var inner := FlattenGroupedRows(infos, g.groups.list, level + 1);
        rows := rows + inner;
      } else {
        rows := rows + DataRows(g.rows);
      }
    }
    if g.totals && infos[level].displayTotalsRow && (!g.collapsed || infos[level].aggregateCollapsed) {
      rows := rows + [Totals(g)];
    }
  }

  // ---------- What is displayed ----------

  /** The path a row belongs to: its value at every level. */
  function PathOf(infos: Infos, r: Item): (p: seq<string>)
    ensures |p| == |infos| && forall l :: 0 <= l < |infos| ==> p[l] == infos[l].getter(r)
  {
    seq(|infos|, l requires 0 <= l < |infos| => infos[l].getter(r))
  }

  function Truncate(path: seq<string>, n: nat): seq<string> {
    if n <= |path| then path[..n] else path
  }

  /** The headers in force after reading rows from the top; a totals row closes its group. */
  function PathAfter(rows: seq<Row>, path: seq<string>): seq<string> {
    if rows == [] then path
    else
      var before := PathAfter(rows[..|rows| - 1], path);
      match rows[|rows| - 1]
      case Header(g) => Truncate(before, g.level) + [g.value]
      case Totals(g) => Truncate(before, g.level)
      case Data(_) => before
  }

  /** The data rows that stand under exactly the headers `p`, in order. */
  function ShownUnder(rows: seq<Row>, path: seq<string>, p: seq<string>): seq<Item> {
    if rows == [] then []
    else
      ShownUnder(rows[..|rows| - 1], path, p)
      + match rows[|rows| - 1]
        case Data(item) => if PathAfter(rows[..|rows| - 1], path) == p then [item] else []
        case _ => []
  }

  lemma {:induction false} PathAfterConcat(a: seq<Row>, b: seq<Row>, path: seq<string>)
    ensures PathAfter(a + b, path) == PathAfter(b, PathAfter(a, path))
  {
    if b == [] {
      assert a + b == a;
    } else {
      assert (a + b)[..|a + b| - 1] == a + b[..|b| - 1];
      PathAfterConcat(a, b[..|b| - 1], path);
    }
  }

  lemma {:induction false} ShownConcat(a: seq<Row>, b: seq<Row>, path: seq<string>, p: seq<string>)
    ensures ShownUnder(a + b, path, p) == ShownUnder(a, path, p) + ShownUnder(b, PathAfter(a, path), p)
  {
    if b == [] {
      assert a + b == a;
    } else {
      assert (a + b)[..|a + b| - 1] == a + b[..|b| - 1];
      ShownConcat(a, b[..|b| - 1], path, p);
      PathAfterConcat(a, b[..|b| - 1], path);
    }
  }

  lemma {:induction false} ShownData(items: seq<Item>, path: seq<string>, p: seq<string>)
    ensures PathAfter(DataRows(items), path) == path
    ensures ShownUnder(DataRows(items), path, p) == if path == p then items else []
  {
    if items != [] {
      ShownData(items[..|items| - 1], path, p);
      assert DataRows(items)[..|items| - 1] == DataRows(items[..|items| - 1]);
    }
  }
}

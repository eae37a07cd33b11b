/** A client at work on a `DataView`: any of its operations, in any order, suspended or not. */
module Sessions {
  import opened Wrappers
  import opened SlickCore
  import opened Grouping
  import opened GroupKeys
  import opened Filtering
  import opened IdIndex
  import opened Paging
  import opened RowDiffs
  import opened Sorting
  import opened DataView
  import Collapse

  datatype Op =
    | BeginUpdate
    | EndUpdate
    | SetRefreshHints(hints: Hints)
    | SetFilterArgs(args: int)
    | SetFilter(test: Option<(Item, int) -> bool>)
    | SetPaging(pageSize: Option<nat>, pageNum: Option<int>)
    | SetGrouping(infos: Infos)
    | Toggle(path: seq<string>, shut: bool)        // collapseGroup, expandGroup
    | ToggleAll(level: Option<int>, shut: bool)    // collapseAllGroups, expandAllGroups
    | SetItems(data: seq<Item>)
    | InsertItem(insertBefore: int, item: Item)
    | AddItem(item: Item)
    | UpdateItem(id: string, item: Item)
    | DeleteItem(id: string)
    | SortItems(comparer: (Item, Item) -> int, ascending: bool)

  /**
   The index is exact, what is filtered is what the plain filter keeps, the mirror shows the
   rows, and the rows are no array that is changed in place.
   */
  ghost predicate InOrder(v: View)
    reads v
  {
    v.Valid() && v.Synced() && v.Mirrored() && IndexOk(v.idxById, v.items) && !v.rowsIsItems
  }

  /** A refresh now, with these settings, would not make the rows the array `items`. */
  predicate KeepsApart(v: View, f: Filter, pagesize: nat, infos: Infos)
    reads v
  {
    !RowsShared(ItemsShared(v.refreshHints, f, pagesize > 0, v.filteredIsItems), pagesize, infos, v.filteredItems)
  }

  /** ... would get no false hint, suppress no part of its report and not throw. */
  ghost predicate Trusty(v: View, f: Filter, infos: Infos)
    reads v
  {
    && HintsHonest(v.refreshHints, v.lastFilter, f, v.items, v.touched) && NothingIgnored(v.refreshHints)
    && Groupable(infos, v.items, 0)
  }

  /** A change of the items to these meets no hint, and can be grouped. */
  ghost predicate Smooth(v: View, items: seq<Item>)
    reads v
  {
    v.Quiet() && (v.suspend || Groupable(v.collapse.infos, items, 0))
  }

  /** A new item: its id is not in use, can be indexed, and was not in use with another content. */
  ghost predicate Newcomer(v: View, item: Item)
    reads v
  {
    Indexable(v.idxById, item) && Agrees(v.ledger, item)
  }

  /**
   What a client owes: honest hints, distinct ids, new contents only through `updateItem`,
   positions within the list, no deleting or grouping by an inherited name ...
   */
  ghost predicate Careful(v: View, op: Op)
    reads v
  {
    match op
    case BeginUpdate => true
    case SetRefreshHints(_) => true
    case SetFilterArgs(_) => true
    case SetItems(data) => Smooth(v, data) && DistinctIds(data) && AllAgree(v.ledger, data)
    case InsertItem(at, item) => Smooth(v, v.items + [item]) && Newcomer(v, item) && 0 <= at <= |v.items|
    case AddItem(item) => Smooth(v, v.items + [item]) && Newcomer(v, item)
    case UpdateItem(_, item) => Smooth(v, v.items + [item])
    case DeleteItem(id) => Smooth(v, v.items) && (id in v.idxById || !Inherited(id))
    case SortItems(_, _) => Smooth(v, v.items)
    case _ => Due(v, op) ==> Trusty(v, FilterAfter(v, op), InfosAfter(v, op))
  }

  /** The operation refreshes, and not for a change of the items. */
  predicate Due(v: View, op: Op)
    reads v
  {
    op.EndUpdate?
    || (!v.suspend && (op.SetFilter? || op.SetPaging? || op.SetGrouping? || op.Toggle? || op.ToggleAll?))
  }

  function FilterAfter(v: View, op: Op): Filter
    reads v
  {
    if op.SetFilter? then v.filter.(test := op.test) else v.filter
  }

  function InfosAfter(v: View, op: Op): Infos
    reads v
  {
    if op.SetGrouping? then op.infos else v.collapse.infos
  }

  function SizeAfter(v: View, op: Op): nat
    reads v
  {
    if op.SetPaging? then Options(v.pagesize, v.pagenum, v.totalRows, op.pageSize, op.pageNum).0 else v.pagesize
  }

  /** ... and rows kept apart from the items. */
  ghost predicate Fair(v: View, op: Op)
    reads v
  {
    Careful(v, op) && (Due(v, op) ==> KeepsApart(v, FilterAfter(v, op), SizeAfter(v, op), InfosAfter(v, op)))
  }

  /** A rule for that: no `isFilterUnchanged` for a refresh that follows one without a filter. */
  ghost predicate FollowsRule(v: View, op: Op)
    reads v
  {
    Due(v, op) && FilterAfter(v, op).test.Some? && Unchanged(v.refreshHints) ==> v.lastFilter.test.Some?
  }

  /** If the filtered items are the items, then because nothing was filtered at the last refresh. */
  ghost predicate Tidy(v: View)
    reads v
  {
    !v.touched && v.filteredIsItems ==> v.lastFilter.test.None?
  }

  /** Of a careful client, the rule is enough ... */
  lemma RuleKeepsApart(v: View, op: Op)
    requires Tidy(v) && Careful(v, op) && FollowsRule(v, op)
    ensures Fair(v, op)
  {
  }

  lemma RuleUnshares(v: View, op: Op)
    requires Tidy(v) && Careful(v, op) && FollowsRule(v, op)
    ensures Due(v, op) && FilterAfter(v, op).test.Some? && Unchanged(v.refreshHints) ==> !v.filteredIsItems
  {
  }

  /** Operations that end in a refresh. */
  predicate Refreshes(op: Op) {
    !op.BeginUpdate? && !op.SetRefreshHints? && !op.SetFilterArgs?
  }

  /** After a refresh: all settings are shown, and the next hints are about what is shown now. */
  ghost predicate Refreshed(v: View)
    requires v.Valid()
    reads v
  {
    v.Displayed() && v.filteredItems == Keep(v.filter, v.items) && v.lastFilter == v.filter && !v.touched
  }

  /** What a fair operation may still fail for: it names a level, or an id, that does not exist. */
  ghost predicate Misses(v: View, op: Op)
    reads v
  {
    match op
    case Toggle(path, _) => !(0 <= Target(path).0 < |v.collapse.infos|)
    case ToggleAll(level, _) => level.Some? && !(0 <= level.value < |v.collapse.infos|)
    case UpdateItem(id, item) => !v.Finds(id) || item.id != Some(id)
    case DeleteItem(id) => !v.Finds(id)
    case _ => false
  }

  /** What an operation makes of the items. */
  ghost predicate ItemsDone(op: Op, before: seq<Item>, items: seq<Item>) {
    match op
    case SetItems(data) => items == data
    case InsertItem(at, item) => 0 <= at <= |before| && items == before[..at] + [item] + before[at..]
    case AddItem(item) => items == before + [item]
    case UpdateItem(id, item) =>
      && |items| == |before|
      && forall i :: 0 <= i < |before| ==> items[i] == if before[i].id == Some(id) then item else before[i]
    case DeleteItem(id) =>
      exists k :: 0 <= k < |before| && before[k].id == Some(id) && items == before[..k] + before[k + 1..]
    case SortItems(comparer, ascending) =>
      items == if ascending then Sort(comparer, before) else SortDescending(comparer, before)
    case _ => items == before
  }

  /** ... and of the grouping and its collapse state. */
  ghost predicate GroupingDone(op: Op, before: Collapse.State, collapse: Collapse.State) {
    match op
    case SetGrouping(infos) => collapse == Collapse.State(infos, seq(|infos|, i => map[]))
    case Toggle(path, shut) =>
      collapse == Collapse.Apply(before, Collapse.One(Target(path).0, Target(path).1, shut))
    case ToggleAll(level, shut) => collapse == Collapse.Apply(before, Collapse.All(level, shut))
    case _ => collapse == before
  }

  /** ... and of the other settings, a page that lies behind the end giving way in the refresh. */
  twostate predicate SettingsDone(v: View, op: Op)
    reads v
  {
    var (size, page) := if op.SetPaging? then old(Options(v.pagesize, v.pagenum, v.totalRows, op.pageSize, op.pageNum))
                        else old((v.pagesize, v.pagenum));
    && v.suspend == (op.BeginUpdate? || (old(v.suspend) && !op.EndUpdate?))
    && v.filter == (match op
                    case SetFilter(test) => old(v.filter).(test := test)
                    case SetFilterArgs(args) => old(v.filter).(args := args)
                    case _ => old(v.filter))
    && v.refreshHints == (if op.SetRefreshHints? then op.hints
                          else if Refreshes(op) && !v.suspend then NO_HINTS else old(v.refreshHints))
    && v.pagesize == size
    && v.pagenum == if Refreshes(op) && !v.suspend then PageNumber(page, size, |v.filteredItems|) else page
  }

  /** The operation has had its effect, and no other. */
  twostate predicate Done(v: View, op: Op)
    reads v
  {
    && ItemsDone(op, old(v.items), v.items) && GroupingDone(op, old(v.collapse), v.collapse)
    && SettingsDone(v, op)
  }

  lemma GroupableSome(infos: Infos, items: seq<Item>, some: seq<Item>)
    requires Groupable(infos, items, 0) && forall x :: x in some ==> x in items
    ensures Groupable(infos, some, 0)
  {
  }

  /** What is shown comes from the items, so it can be grouped if they can. */
  lemma ShownGroups(v: View)
    requires v.filteredItems == Keep(v.filter, v.items) && Groupable(v.collapse.infos, v.items, 0)
    ensures v.CanGroup()
  {
    forall x | x in v.Shown() ensures x in v.items {
      PageMembers(v.filteredItems, v.pagesize, v.pagenum, x);
      KeepMembers(v.filter, v.items, x);
    }
    GroupableSome(v.collapse.infos, v.items, v.Shown());
  }

  /**
   Whatever a fair client does keeps everything in order and succeeds unless it names what does
   not exist; unless recalculation is suspended, the rows then show the items as filtered,
   paged, grouped and collapsed.
   */
  method Perform(v: View, op: Op) returns (ok: bool)
    requires InOrder(v) && Fair(v, op)
    modifies v
    ensures InOrder(v)
    ensures ok && Refreshes(op) && !v.suspend ==> Refreshed(v)
    ensures ok <==> !old(Misses(v, op))
    ensures if ok then Done(v, op) else unchanged(v)
    ensures old(Tidy(v) && FollowsRule(v, op)) ==> Tidy(v)
  {
    hide ItemsRecorded, RowsRecorded, Shows, Keep, DistinctIds, IndexOk, HintsHonest, FilterSynced;
    hide ShowsPage, LaidOut, DataFrom, Sifted, Redrawn, Groupable;
    ok := true;
    match op
    case BeginUpdate => v.BeginUpdate();
    case EndUpdate => ok := Resume(v);
    case SetRefreshHints(hints) => v.SetRefreshHints(hints);
    case SetFilterArgs(args) => v.SetFilterArgs(args);
    case SetFilter(test) => ok := Sieve(v, test);
    case SetPaging(pageSize, pageNum) => ok := Turn(v, pageSize, pageNum);
    case SetGrouping(infos) => ok := Regroup(v, infos);
    case Toggle(path, shut) => ok := CollapseOne(v, path, shut);
    case ToggleAll(level, shut) => ok := CollapseAll(v, level, shut);
    case SetItems(data) => ok := Load(v, data);
    case InsertItem(at, item) => ok := Insert(v, at, item);
    case AddItem(item) => ok := Append(v, item);
    case SortItems(comparer, ascending) => ok := Rearrange(v, comparer, ascending);
    case UpdateItem(id, item) => ok := Update(v, id, item);
    case DeleteItem(id) => ok := Delete(v, id);
  }

  /** The end of a suspension. */
  method Resume(v: View) returns (ok: bool)
    requires InOrder(v) && Fair(v, EndUpdate)
    modifies v
    ensures InOrder(v) && ok && (!v.suspend ==> Refreshed(v)) && Done(v, EndUpdate)
    ensures old(Tidy(v) && FollowsRule(v, EndUpdate)) ==> Tidy(v)
  {
    hide ItemsRecorded, RowsRecorded, Shows, Keep, DistinctIds, IndexOk, HintsHonest, FilterSynced;
    hide ShowsPage, LaidOut, DataFrom, Sifted, Redrawn, Groupable, Options, PageIsRows, PageNumber, PageOf;
    if Tidy(v) && FollowsRule(v, EndUpdate) { RuleUnshares(v, EndUpdate); }
    ok := v.EndUpdate();
    if !v.suspend { ShownGroups(v); }
  }

  /** A new filter. */
  method Sieve(v: View, test: Option<(Item, int) -> bool>) returns (ok: bool)
    requires InOrder(v) && Fair(v, SetFilter(test))
    modifies v
    ensures InOrder(v) && ok && (!v.suspend ==> Refreshed(v)) && Done(v, SetFilter(test))
    ensures old(Tidy(v) && FollowsRule(v, SetFilter(test))) ==> Tidy(v)
  {
    hide ItemsRecorded, RowsRecorded, Shows, Keep, DistinctIds, IndexOk, HintsHonest, FilterSynced;
    hide ShowsPage, LaidOut, DataFrom, Sifted, Redrawn, Groupable, Options, PageIsRows, PageNumber, PageOf;
    if Tidy(v) && FollowsRule(v, SetFilter(test)) { RuleUnshares(v, SetFilter(test)); }
    ok := v.SetFilter(test);
    if !v.suspend { ShownGroups(v); }
  }

  method Turn(v: View, pageSize: Option<nat>, pageNum: Option<int>) returns (ok: bool)
    requires InOrder(v) && Fair(v, SetPaging(pageSize, pageNum))
    modifies v
    ensures InOrder(v) && ok && (!v.suspend ==> Refreshed(v)) && Done(v, SetPaging(pageSize, pageNum))
    ensures old(Tidy(v) && FollowsRule(v, SetPaging(pageSize, pageNum))) ==> Tidy(v)
  {
    hide ItemsRecorded, RowsRecorded, Shows, Keep, DistinctIds, IndexOk, HintsHonest, FilterSynced;
    hide ShowsPage, LaidOut, DataFrom, Sifted, Redrawn, Groupable, Options, PageIsRows, PageNumber, PageOf;
    if Tidy(v) && FollowsRule(v, SetPaging(pageSize, pageNum)) { RuleUnshares(v, SetPaging(pageSize, pageNum)); }
    ok := v.SetPaging(pageSize, pageNum);
    if !v.suspend { ShownGroups(v); }
  }

  method Regroup(v: View, infos: Infos) returns (ok: bool)
    requires InOrder(v) && Fair(v, SetGrouping(infos))
    modifies v
    ensures InOrder(v) && ok && (!v.suspend ==> Refreshed(v)) && Done(v, SetGrouping(infos))
    ensures old(Tidy(v) && FollowsRule(v, SetGrouping(infos))) ==> Tidy(v)
  {
    hide ItemsRecorded, RowsRecorded, Shows, Keep, DistinctIds, IndexOk, HintsHonest, FilterSynced;
    hide ShowsPage, LaidOut, DataFrom, Sifted, Redrawn, Groupable, Options, PageIsRows, PageNumber, PageOf;
    if Tidy(v) && FollowsRule(v, SetGrouping(infos)) { RuleUnshares(v, SetGrouping(infos)); }
    ok := v.SetGrouping(infos);
    if !v.suspend { ShownGroups(v); }
  }

  method CollapseOne(v: View, path: seq<string>, shut: bool) returns (ok: bool)
    requires InOrder(v) && Fair(v, Toggle(path, shut))
    modifies v
    ensures InOrder(v)
    ensures ok && !v.suspend ==> Refreshed(v)
    ensures ok <==> !old(Misses(v, Toggle(path, shut)))
    ensures if ok then Done(v, Toggle(path, shut)) else unchanged(v)
    ensures old(Tidy(v) && FollowsRule(v, Toggle(path, shut))) ==> Tidy(v)
  {
    hide ItemsRecorded, RowsRecorded, Shows, Keep, DistinctIds, IndexOk, HintsHonest, FilterSynced;
    hide ShowsPage, LaidOut, DataFrom, Sifted, Redrawn, Groupable, Collapse.Apply, PageIsRows, Target;
    if Tidy(v) && FollowsRule(v, Toggle(path, shut)) { RuleUnshares(v, Toggle(path, shut)); }
    CollapsingKeeps(v.collapse, Collapse.One(Target(path).0, Target(path).1, shut), v.items);
    ok := v.ExpandCollapseGroup(path, shut);
    if !v.suspend && !old(Misses(v, Toggle(path, shut))) { ShownGroups(v); }
  }

  method CollapseAll(v: View, level: Option<int>, shut: bool) returns (ok: bool)
    requires InOrder(v) && Fair(v, ToggleAll(level, shut))
    modifies v
    ensures InOrder(v)
    ensures ok && !v.suspend ==> Refreshed(v)
    ensures ok <==> !old(Misses(v, ToggleAll(level, shut)))
    ensures if ok then Done(v, ToggleAll(level, shut)) else unchanged(v)
    ensures old(Tidy(v) && FollowsRule(v, ToggleAll(level, shut))) ==> Tidy(v)
  {
    hide ItemsRecorded, RowsRecorded, Shows, Keep, DistinctIds, IndexOk, HintsHonest, FilterSynced;
    hide ShowsPage, LaidOut, DataFrom, Sifted, Redrawn, Groupable, Collapse.Apply, PageIsRows, Target;
    if Tidy(v) && FollowsRule(v, ToggleAll(level, shut)) { RuleUnshares(v, ToggleAll(level, shut)); }
    CollapsingKeeps(v.collapse, Collapse.All(level, shut), v.items);
    ok := v.ExpandCollapseAllGroups(level, shut);
    if !v.suspend && !old(Misses(v, ToggleAll(level, shut))) { ShownGroups(v); }
  }

  /** What is grouped, and whether the rows are the page itself, does not depend on what is collapsed. */
  lemma CollapsingKeeps(s: Collapse.State, op: Collapse.Op, page: seq<Item>)
    requires Collapse.Shape(s)
    ensures PageIsRows(Collapse.Apply(s, op).infos, page) == PageIsRows(s.infos, page)
    ensures Groupable(Collapse.Apply(s, op).infos, page, 0) == Groupable(s.infos, page, 0)
  {
    if op.All? && op.where.None? {
      LevelsKeep(s, |s.infos|, op.collapse);
    }
    SameGetters(s.infos, Collapse.Apply(s, op).infos, page);
  }

  ghost predicate SameButCollapsed(a: Infos, b: Infos) {
    |a| == |b| && forall l :: 0 <= l < |a| ==> a[l].(collapsed := false) == b[l].(collapsed := false)
  }

  lemma {:induction false} LevelsKeep(s: Collapse.State, n: nat, collapse: bool)
    ensures SameButCollapsed(s.infos, Collapse.SetLevels(s, n, collapse).infos)
  {
    if n > 0 {
      LevelsKeep(s, n - 1, collapse);
    }
  }

  lemma SameGetters(a: Infos, b: Infos, page: seq<Item>)
    requires SameButCollapsed(a, b)
    ensures PageIsRows(a, page) == PageIsRows(b, page) && Groupable(a, page, 0) == Groupable(b, page, 0)
  {
    forall l | 0 <= l < |a|
      ensures a[l].getter == b[l].getter && a[l].predefinedValues == b[l].predefinedValues
    {
      assert a[l].(collapsed := false).getter == b[l].(collapsed := false).getter;
      assert a[l].(collapsed := false).predefinedValues == b[l].(collapsed := false).predefinedValues;
    }
  }

  /** New items. */
  method Load(v: View, data: seq<Item>) returns (ok: bool)
    requires InOrder(v) && Fair(v, SetItems(data))
    modifies v
    ensures InOrder(v) && ok && (!v.suspend ==> Refreshed(v)) && Done(v, SetItems(data))
    ensures old(Tidy(v) && FollowsRule(v, SetItems(data))) ==> Tidy(v)
  {
    hide ItemsRecorded, RowsRecorded, Shows, Keep, DistinctIds, IndexOk, FilterSynced;
    hide ShowsPage, LaidOut, DataFrom, Sifted, Redrawn, Groupable, PageIsRows, PageNumber, PageOf;
    ok := v.SetItems(data);
    if !v.suspend { ShownGroups(v); }
  }

  method Insert(v: View, at: int, item: Item) returns (ok: bool)
    requires InOrder(v) && Fair(v, InsertItem(at, item))
    modifies v
    ensures InOrder(v) && ok && (!v.suspend ==> Refreshed(v)) && Done(v, InsertItem(at, item))
    ensures old(Tidy(v) && FollowsRule(v, InsertItem(at, item))) ==> Tidy(v)
  {
    hide ItemsRecorded, RowsRecorded, Shows, Keep, DistinctIds, IndexOk, FilterSynced;
    hide ShowsPage, LaidOut, DataFrom, Sifted, Redrawn, Groupable, PageIsRows, PageNumber, PageOf;
    ok := v.InsertItem(at, item);
    if !v.suspend { GroupableSome(v.collapse.infos, old(v.items) + [item], v.items); }
    if !v.suspend { ShownGroups(v); }
  }

  method Append(v: View, item: Item) returns (ok: bool)
    requires InOrder(v) && Fair(v, AddItem(item))
    modifies v
    ensures InOrder(v) && ok && (!v.suspend ==> Refreshed(v)) && Done(v, AddItem(item))
    ensures old(Tidy(v) && FollowsRule(v, AddItem(item))) ==> Tidy(v)
  {
    hide ItemsRecorded, RowsRecorded, Shows, Keep, DistinctIds, IndexOk, FilterSynced;
    hide ShowsPage, LaidOut, DataFrom, Sifted, Redrawn, Groupable, PageIsRows, PageNumber, PageOf;
    ok := v.AddItem(item);
    if !v.suspend { ShownGroups(v); }
  }

  method Rearrange(v: View, comparer: (Item, Item) -> int, ascending: bool) returns (ok: bool)
    requires InOrder(v) && Fair(v, SortItems(comparer, ascending))
    modifies v
    ensures InOrder(v) && ok && (!v.suspend ==> Refreshed(v)) && Done(v, SortItems(comparer, ascending))
    ensures old(Tidy(v) && FollowsRule(v, SortItems(comparer, ascending))) ==> Tidy(v)
  {
    hide ItemsRecorded, RowsRecorded, Shows, Keep, DistinctIds, IndexOk, FilterSynced;
    hide ShowsPage, LaidOut, DataFrom, Sifted, Redrawn, Groupable, Sort, SortDescending, PageIsRows;
    IndexOkDistinct(v.idxById, v.items);
    SortedMembers(comparer, v.items, ascending);
    ok := v.SortItems(comparer, ascending);
    if !v.suspend {
      GroupableSome(v.collapse.infos, old(v.items), v.items);
      ShownGroups(v);
    }
  }

  /** With the index exact, an id finds the one item that has it. */
  lemma FoundById(m: Index, items: seq<Item>, id: string, item: Item)
    requires IndexOk(m, items)
    ensures ItemsDone(UpdateItem(id, item), items, if id in m then items[m[id] := item] else items)
    ensures id in m ==> ItemsDone(DeleteItem(id), items, items[..m[id]] + items[m[id] + 1..])
  {
    var t := if id in m then items[m[id] := item] else items;
    forall i | 0 <= i < |items| ensures t[i] == if items[i].id == Some(id) then item else items[i] {
      assert items[i].id.value in m && m[items[i].id.value] == i;
    }
  }

  method Update(v: View, id: string, item: Item) returns (ok: bool)
    requires InOrder(v) && Fair(v, UpdateItem(id, item))
    modifies v
    ensures InOrder(v)
    ensures ok && !v.suspend ==> Refreshed(v)
    ensures ok <==> !old(Misses(v, UpdateItem(id, item)))
    ensures if ok then Done(v, UpdateItem(id, item)) else unchanged(v)
    ensures old(Tidy(v) && FollowsRule(v, UpdateItem(id, item))) ==> Tidy(v)
  {
    hide ItemsRecorded, RowsRecorded, Shows, Keep, DistinctIds, IndexOk, FilterSynced;
    hide ShowsPage, LaidOut, DataFrom, Sifted, Redrawn, Groupable, Inherited, ItemsDone, PageOf, PageNumber;
    FoundById(v.idxById, v.items, id, item);
    ok := v.UpdateItem(id, item);
    if !v.suspend && !old(Misses(v, UpdateItem(id, item))) {
      GroupableSome(v.collapse.infos, old(v.items) + [item], v.items);
      ShownGroups(v);
    }
  }

  method Delete(v: View, id: string) returns (ok: bool)
    requires InOrder(v) && Fair(v, DeleteItem(id))
    modifies v
    ensures InOrder(v)
    ensures ok && !v.suspend ==> Refreshed(v)
    ensures ok <==> !old(Misses(v, DeleteItem(id)))
    ensures if ok then Done(v, DeleteItem(id)) else unchanged(v)
    ensures old(Tidy(v) && FollowsRule(v, DeleteItem(id))) ==> Tidy(v)
  {
    hide ItemsRecorded, RowsRecorded, Shows, Keep, DistinctIds, IndexOk, FilterSynced;
    hide ShowsPage, LaidOut, DataFrom, Sifted, Redrawn, Groupable, Inherited, ItemsDone, PageOf, PageNumber;
    v.IndexedIsFound(id);
    FoundById(v.idxById, v.items, id, Item(None, 0));
    ok := v.DeleteItem(id);
    if !v.suspend && !old(Misses(v, DeleteItem(id))) {
      GroupableSome(v.collapse.infos, old(v.items), v.items);
      ShownGroups(v);
    }
  }

  /** ... and stays enough: a careful client that follows the rule keeps everything in order, run after run. */
  method PerformByRule(v: View, op: Op) returns (ok: bool)
    requires InOrder(v) && Tidy(v) && Careful(v, op) && FollowsRule(v, op)
    modifies v
    ensures InOrder(v) && Tidy(v)
    ensures ok && Refreshes(op) && !v.suspend ==> Refreshed(v)
    ensures ok <==> !old(Misses(v, op))
    ensures if ok then Done(v, op) else unchanged(v)
  {
    RuleKeepsApart(v, op);
    ok := Perform(v, op);
  }

  // ---------- A run with hints ----------

  const NARROWING := NO_HINTS.(isFilterNarrowing := Some(true))
  const EXPANDING := NO_HINTS.(isFilterExpanding := Some(true))

  /** Nothing waits for a refresh, and there was one. */
  ghost predicate AtRest(v: View, data: seq<Item>, f: Filter)
    reads v
  {
    && InOrder(v) && !v.suspend && v.items == data && v.filter == f && v.lastFilter == f && !v.touched
    && v.filteredItems == Keep(f, data)
  }

  method Open() returns (v: View)
    ensures fresh(v) && AtRest(v, [], Filter(None, 0)) && v.refreshHints == NO_HINTS
    ensures v.idxById == map[] && v.ledger == map[] && v.collapse.infos == []
  {
    v := new View();
  }

  /** A client can start: the first item of a new view is fair, and leaves the view at rest. */
  method Start(item: Item) returns (v: View)
    requires item.id.Some? && item.id.value != PROTO
    ensures fresh(v) && AtRest(v, [item], Filter(None, 0))
  {
    hide ItemsRecorded, RowsRecorded, IndexOk, Keep, Shows, ShowsPage, LaidOut, DataFrom, Sifted, Redrawn, FilterSynced;
    hide Recorded;
    v := Open();
    assert Fair(v, AddItem(item));
    var ok := v.AddItem(item);
    assert [] + [item] == [item];
  }

  /** New arguments for the filter, with a hint of what they do to it, and a refresh. */
  method Refilter(v: View, ghost data: seq<Item>, args: int, hints: Hints)
    requires AtRest(v, data, v.filter) && NothingIgnored(hints)
    requires HintsHonest(hints, v.filter, v.filter.(args := args), data, false)
    requires var shared := ItemsShared(hints, v.filter, v.pagesize > 0, v.filteredIsItems);
             !RowsShared(shared, v.pagesize, v.collapse.infos, v.filteredItems)
    requires Groupable(v.collapse.infos, data, 0)
    modifies v
    ensures AtRest(v, data, old(v.filter).(args := args)) && v.prevRefreshHints == hints
    ensures v.pagesize == old(v.pagesize) && v.collapse == old(v.collapse)
  {
    hide ItemsRecorded, RowsRecorded, Shows, Keep, DistinctIds, IndexOk, HintsHonest, FilterSynced;
    hide ShowsPage, LaidOut, DataFrom, Sifted, Redrawn, Groupable, PageIsRows, PageNumber, PageOf;
    v.SetFilterArgs(args);
    v.SetRefreshHints(hints);
    var ok := v.EndUpdate();
    ShownGroups(v);
  }

  /**
   A filter box: a text is typed, narrowing what passes, and taken back step by step. With the
   narrowing hint on the way in and the expanding one, whose second use relies on the cache of
   the first, on the way out, each result is that of the plain filter.
   */
  method TypeAhead(v: View, ghost data: seq<Item>, all: int, some: int, few: int)
    returns (typed: seq<Item>, erased: seq<Item>, last: seq<Item>)
    requires AtRest(v, data, v.filter) && v.filter.test.Some? && v.filter.args == all
    requires Groupable(v.collapse.infos, data, 0)
    requires forall x :: x in data && v.filter.test.value(x, few) ==> v.filter.test.value(x, some)
    requires forall x :: x in data && v.filter.test.value(x, some) ==> v.filter.test.value(x, all)
    modifies v
    ensures InOrder(v) && v.prevRefreshHints == EXPANDING
    ensures typed == Keep(old(v.filter).(args := few), data)
    ensures erased == Keep(old(v.filter).(args := some), data)
    ensures last == Keep(old(v.filter), data)
  {
    hide ItemsRecorded, RowsRecorded, Shows, Keep, DistinctIds, IndexOk, FilterSynced;
    hide ShowsPage, LaidOut, DataFrom, Sifted, Redrawn;
    Refilter(v, data, few, NARROWING);
    typed := v.filteredItems;
    Refilter(v, data, some, EXPANDING);
    erased := v.filteredItems;
    Refilter(v, data, all, EXPANDING);
    last := v.filteredItems;
  }
}

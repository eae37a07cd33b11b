/**
 SlickGrid's `DataView`: items with an index by id, filtered, paged and grouped into rows,
 which every operation recomputes unless recalculation is suspended.
 */
module DataView {
  import opened Wrappers
  import opened SlickCore
  import opened GroupKeys
  import opened Sorting
  import opened Grouping
  import opened Display
  import opened Layout
  import opened Filtering
  import opened IdIndex
  import opened Paging
  import opened RowDiffs
  import Collapse

  /**
   The rows show the page: under every path exactly its rows, unless collapsed, and no data
   row but under the headers of its own values.
   */
  ghost predicate ShowsPage(state: Collapse.State, page: seq<Item>, rows: seq<Row>)
    requires Collapse.Shape(state)
  {
    && (forall p :: ShowsAt(state, page, rows, p))
    && (forall i :: 0 <= i < |rows| && rows[i].Data? ==> UnderItsHeaders(state, rows, i))
  }

  ghost predicate UnderItsHeaders(state: Collapse.State, rows: seq<Row>, i: nat)
    requires Collapse.Shape(state) && i < |rows| && rows[i].Data?
  {
    var p := PathAfter(rows[..i], []);
    p == PathOf(state.infos, rows[i].item) && !Hidden(state.infos, state.toggles, 0, p)
  }

  ghost predicate ShowsAt(state: Collapse.State, page: seq<Item>, rows: seq<Row>, p: seq<string>)
    requires Collapse.Shape(state)
  {
    |p| == |state.infos| ==>
      ShownUnder(rows, [], p) == if Hidden(state.infos, state.toggles, 0, p) then [] else RowsAt(state.infos, p, page)
  }

  ghost predicate DataFrom(rows: seq<Row>, page: seq<Item>) {
    forall i :: 0 <= i < |rows| && rows[i].Data? ==> rows[i].item in page
  }

  lemma {:induction false} RowsAtNoPath(page: seq<Item>)
    ensures RowsAt([], [], page) == page
  {
    if page != [] {
      RowsAtNoPath(page[..|page| - 1]);
    }
  }

  /** Without grouping the rows are the page. */
  lemma UngroupedShows(state: Collapse.State, page: seq<Item>)
    requires Collapse.Shape(state) && state.infos == []
    ensures ShowsPage(state, page, DataRows(page)) && DataFrom(DataRows(page), page)
  {
    forall p ensures ShowsAt(state, page, DataRows(page), p) {
      if |p| == 0 {
        assert p == [];
        ShownData(page, [], []);
        RowsAtNoPath(page);
      }
    }
    DeepRows(page, []);
  }

  lemma GroupedShows(state: Collapse.State, page: seq<Item>, groups: seq<Group>)
    requires Collapse.Shape(state) && state.infos != [] && Grouped(state.infos, page, 0, [], groups)
    ensures var rows := Flatten(state.infos, MarkedAll(state.infos, state.toggles, groups, 0), 0);
            ShowsPage(state, page, rows) && DataFrom(rows, page)
  {
    var rows := Flatten(state.infos, MarkedAll(state.infos, state.toggles, groups, 0), 0);
    forall p ensures ShowsAt(state, page, rows, p) {
      if |p| == |state.infos| {
        DisplayIsExact(state.infos, state.toggles, page, groups, p);
      }
    }
    forall i | 0 <= i < |rows| && rows[i].Data? ensures rows[i].item in page {
      EachUnderItsHeaders(state.infos, state.toggles, page, groups, i);
    }
    forall i | 0 <= i < |rows| && rows[i].Data? ensures UnderItsHeaders(state, rows, i) {
      EachUnderItsHeaders(state.infos, state.toggles, page, groups, i);
    }
  }

  /**
   The rows are laid out from groups of the page, at every level in the comparer's order,
   each with its header, its rows or subgroups unless collapsed, and its totals row if it has one.
   */
  ghost predicate LaidOut(state: Collapse.State, page: seq<Item>, rows: seq<Row>)
    requires Collapse.Shape(state) && state.infos != []
  {
    exists groups, shown :: LaidOutFrom(state.infos, state.toggles, page, rows, groups, shown)
  }

  /** Whether the rows are the page itself: without grouping, or when there is no group. */
  predicate PageIsRows(infos: Infos, page: seq<Item>) {
    infos == [] || (page == [] && Own(infos[0].predefinedValues) == [])
  }

  /**
   Groups, adds totals and flattens; `same` says that the rows are the array it was given, and
   `ok` is false where grouping throws.
   */
  method Arrange(state: Collapse.State, page: seq<Item>) returns (rows: seq<Row>, same: bool, ok: bool)
    requires Collapse.Shape(state)
    ensures ok <==> Groupable(state.infos, page, 0)
    ensures ok ==> ShowsPage(state, page, rows) && DataFrom(rows, page)
    ensures ok ==> if state.infos == [] then rows == DataRows(page) else LaidOut(state, page, rows)
    ensures ok ==> same == PageIsRows(state.infos, page) && (same ==> rows == DataRows(page))
  {
    rows, same, ok := DataRows(page), true, true;
    if state.infos == [] {
      UngroupedShows(state, page);
    } else {
      rows, same, ok := ArrangeGroups(state, page);
    }
  }

  method ArrangeGroups(state: Collapse.State, page: seq<Item>) returns (rows: seq<Row>, same: bool, ok: bool)
    requires Collapse.Shape(state) && state.infos != []
    ensures ok <==> Groupable(state.infos, page, 0)
    ensures ok ==> ShowsPage(state, page, rows) && DataFrom(rows, page) && LaidOut(state, page, rows)
    ensures ok ==> same == PageIsRows(state.infos, page) && (same ==> rows == DataRows(page))
  {
    hide Groupable, ShowsPage, DataFrom, LaidOutFrom;
    var groups;
    groups, ok := ExtractGroups(state.infos, page, None, []);
    rows, same := [], false;
    if !ok {
      return;
    }
    GroupedShows(state, page, groups);
    LayoutIsExact(state.infos, state.toggles, page, groups);
    same := groups == [];
    NoGroups(state.infos, page, groups);
    if same {
      return DataRows(page), true, true;
    }
    GroupedNested(state.infos, page, 0, [], groups);
    var marked := AddTotals(state.infos, state.toggles, groups, 0);
    MarkedNested(state.infos, state.toggles, groups, 0);
    rows := FlattenGroupedRows(state.infos, marked, 0);
  }

  lemma NoGroups(infos: Infos, page: seq<Item>, groups: seq<Group>)
    requires infos != [] && Grouped(infos, page, 0, [], groups)
    ensures groups == [] <==> page == [] && Own(infos[0].predefinedValues) == []
  {
    if page != [] {
      assert HasValue(groups, infos[0].getter(page[0]));
    } else if Own(infos[0].predefinedValues) != [] {
      assert HasValue(groups, Own(infos[0].predefinedValues)[0]);
    }
    assert groups != [] ==> groups[0].value in ValuesMet(infos[0], page);
  }

  // ---------- Hints ----------

  /** What a hint promises about the filter, the one of the last refresh, and items untouched since. */
  ghost predicate HintsHonest(h: Hints, last: Filter, now: Filter, items: seq<Item>, touched: bool) {
    now.test.Some? ==>
      && (Narrowing(h) ==> !touched && forall x :: x in items && Passes(now, x) ==> Passes(last, x))
      && (Expanding(h) ==> !touched && forall x :: x in items && Passes(last, x) ==> Passes(now, x))
      && (Unchanged(h) ==> !touched && forall x :: x in items ==> (Passes(last, x) <==> Passes(now, x)))
  }

  predicate NoFilterHint(h: Hints) {
    !Narrowing(h) && !Expanding(h) && !Unchanged(h)
  }

  predicate NothingIgnored(h: Hints) {
    h.ignoreDiffsBefore == 0 == h.ignoreDiffsAfter
  }

  predicate KeepsCache(h: Hints, prev: Hints) {
    h.isFilterNarrowing == prev.isFilterNarrowing && h.isFilterExpanding == prev.isFilterExpanding
  }

  /** The state of the filter between refreshes: what is filtered and cached fits the last one. */
  ghost predicate FilterSynced(touched: bool, prev: Hints, last: Filter, items: seq<Item>, filteredItems: seq<Item>,
                               cache: set<nat>) {
    && (!touched ==> filteredItems == Keep(last, items) && CacheSound(last, items, cache))
    && (!Expanding(prev) ==> cache == {})
  }

  // ---------- Contents on record ----------

  ghost predicate ItemsRecorded(ledger: map<string, int>, items: seq<Item>) {
    forall i :: 0 <= i < |items| ==> OnRecord(ledger, items[i])
  }

  /** The item has an id, and under that id there is nothing else on record. */
  predicate Agrees(ledger: map<string, int>, item: Item) {
    item.id.Some? && (item.id.value in ledger ==> ledger[item.id.value] == item.content)
  }

  function Recorded(ledger: map<string, int>, items: seq<Item>): map<string, int> {
    if items == [] then ledger
    else
      var l := Recorded(ledger, items[..|items| - 1]);
      var x := items[|items| - 1];
      if x.id.Some? && x.id.value !in l then l[x.id.value := x.content] else l
  }

  /** Every item agrees with the record and with the items before it. */
  ghost predicate AllAgree(ledger: map<string, int>, items: seq<Item>) {
    items == []
    || (AllAgree(ledger, items[..|items| - 1])
        && Agrees(Recorded(ledger, items[..|items| - 1]), items[|items| - 1]))
  }

  lemma {:induction false} RecordedKeeps(ledger: map<string, int>, items: seq<Item>)
    ensures forall id :: id in ledger ==> id in Recorded(ledger, items) && Recorded(ledger, items)[id] == ledger[id]
  {
    if items != [] {
      RecordedKeeps(ledger, items[..|items| - 1]);
    }
  }

  lemma {:induction false} AllRecorded(ledger: map<string, int>, items: seq<Item>)
    requires AllAgree(ledger, items)
    ensures ItemsRecorded(Recorded(ledger, items), items)
  {
    if items != [] {
      var front := items[..|items| - 1];
      AllRecorded(ledger, front);
      forall i | 0 <= i < |items| ensures OnRecord(Recorded(ledger, items), items[i]) {
        assert i < |front| ==> items[i] == front[i] && OnRecord(Recorded(ledger, front), front[i]);
      }
    }
  }

  /** What the filter needs before a refresh, once the cache has been dropped if the flags changed. */
  ghost predicate FilterReady(h: Hints, touched: bool, last: Filter, items: seq<Item>, filteredItems: seq<Item>,
                              cache: set<nat>) {
    && (!touched ==> filteredItems == Keep(last, items) && CacheSound(last, items, cache))
    && (!Expanding(h) ==> cache == {})
  }

  lemma CacheDropped(h: Hints, prev: Hints, touched: bool, last: Filter, items: seq<Item>, filteredItems: seq<Item>,
                     cache: set<nat>)
    requires FilterSynced(touched, prev, last, items, filteredItems, cache)
    ensures FilterReady(h, touched, last, items, filteredItems, if KeepsCache(h, prev) then cache else {})
  {
  }

  /**
   What a refresh makes of the filtered items and the cache, be its hints honest or not: the
   cache goes if the flags differ from those of the last refresh; then the narrowing flag counts
   before the expanding one, and that before the one for an unchanged filter.
   */
  ghost predicate Sifted(h: Hints, prev: Hints, now: Filter, items: seq<Item>, filteredItems: seq<Item>,
                         cache: set<nat>, filtered: seq<Item>, cache': set<nat>) {
    var kept := if h.isFilterNarrowing == prev.isFilterNarrowing && h.isFilterExpanding == prev.isFilterExpanding
                then cache else {};
    if now.test.Some? && h.isFilterNarrowing != Some(true) && h.isFilterExpanding == Some(true) then
      && filtered == KeepCached(now, items, kept)
      && cache' == kept + set i | 0 <= i < |items| && Passes(now, items[i])
    else
      && cache' == kept
      && filtered == if now.test.None? then items
                     else if h.isFilterNarrowing == Some(true) then Keep(now, filteredItems)
                     else if h.isFilterUnchanged == Some(true) then filteredItems
                     else Keep(now, items)
  }

  /** Chooses the batch filter by the hints; honest hints change nothing in the result. */
  method ApplyFilter(h: Hints, now: Filter, items: seq<Item>, filteredItems: seq<Item>, cache: set<nat>,
                     ghost last: Filter, ghost touched: bool)
    returns (filtered: seq<Item>, cache': set<nat>)
    ensures now.test.None? || NoFilterHint(h) ==> filtered == Keep(now, items)
    ensures now.test.None? ==> filtered == items
    ensures Sifted(h, h, now, items, filteredItems, cache, filtered, cache')
    ensures FilterReady(h, touched, last, items, filteredItems, cache) && HintsHonest(h, last, now, items, touched) ==>
              filtered == Keep(now, items) && FilterSynced(false, h, now, items, filtered, cache')
  {
    filtered, cache' := filteredItems, cache;
    if now.test.Some? {
      if Narrowing(h) {
        filtered := UncompiledFilter(now, filteredItems);
        NarrowingIsExact(last, now, items);
      } else if Expanding(h) {
        filtered, cache' := UncompiledFilterWithCaching(now, items, cache);
        ExpandingIsExact(now, items, cache);
      } else if !Unchanged(h) {
        filtered := UncompiledFilter(now, items);
      } else {
        UnchangedIsExact(last, now, items);
      }
    } else {
      filtered := items;
      KeepEverything(now, items);
    }
  }

  /** A record only grows by items that agree with it, so what was on record stays so. */
  lemma RecordExtended(l: map<string, int>, l': map<string, int>, updated: Updates, items: seq<Item>, rows: seq<Row>)
    requires forall id :: id in l ==> id in l' && l'[id] == l[id]
    ensures ItemsRecorded(l, items) ==> ItemsRecorded(l', items)
    ensures RowsRecorded(l, updated, rows) ==> RowsRecorded(l', updated, rows)
  {
  }

  lemma MembersRecorded(ledger: map<string, int>, items: seq<Item>, some: seq<Item>)
    requires ItemsRecorded(ledger, items) && forall i :: 0 <= i < |some| ==> some[i] in items
    ensures ItemsRecorded(ledger, some)
  {
    forall i | 0 <= i < |some| ensures OnRecord(ledger, some[i]) {
      assert some[i] in items;
    }
  }

  lemma OneRecorded(ledger: map<string, int>, item: Item)
    requires Agrees(ledger, item)
    ensures OnRecord(Recorded(ledger, [item]), item)
    ensures forall id :: id in ledger ==> id in Recorded(ledger, [item]) && Recorded(ledger, [item])[id] == ledger[id]
  {
    assert [item][..0] == [];
  }

  /** Inserting one item that agrees with the record. */
  lemma InsertRecorded(ledger: map<string, int>, before: seq<Item>, at: nat, item: Item, updated: Updates,
                       rows: seq<Row>)
    requires at <= |before|
    ensures var l := Recorded(ledger, [item]);
            && (RowsRecorded(ledger, updated, rows) ==> RowsRecorded(l, updated, rows))
            && (ItemsRecorded(ledger, before) && Agrees(ledger, item) ==>
                ItemsRecorded(l, before[..at] + [item] + before[at..]))
  {
    RecordedKeeps(ledger, [item]);
    RecordExtended(ledger, Recorded(ledger, [item]), updated, before, rows);
    if Agrees(ledger, item) { OneRecorded(ledger, item); }
  }

  /** New content for an id: no other item has that id, and rows that show the old content are marked. */
  lemma UpdateRecorded(ledger: map<string, int>, items: seq<Item>, m: Index, id: string, item: Item, updated: Updates,
                       rows: seq<Row>)
    requires IndexOk(m, items) && id in m && item.id == Some(id)
    ensures var l := ledger[id := item.content];
            && (ItemsRecorded(ledger, items) ==> ItemsRecorded(l, items[m[id] := item]))
            && (RowsRecorded(ledger, updated, rows) ==> RowsRecorded(l, MarkUpdated(updated, id), rows))
  {
    forall i | 0 <= i < |items| && i != m[id] ensures items[i].id != Some(id) {
      IndexOkDistinct(m, items);
    }
  }

  lemma IndexInBounds(m: Index, items: seq<Item>, id: string)
    requires IndexOk(m, items) && id in m
    ensures m[id] < |items|
  {
  }

  lemma MarkRecorded(ledger: map<string, int>, updated: Updates, id: string, rows: seq<Row>)
    requires RowsRecorded(ledger, updated, rows)
    ensures RowsRecorded(ledger, MarkUpdated(updated, id), rows)
  {
  }

  lemma AllItemsRecorded(ledger: map<string, int>, items: seq<Item>, updated: Updates, rows: seq<Row>)
    ensures var l := Recorded(ledger, items);
            && (RowsRecorded(ledger, updated, rows) ==> RowsRecorded(l, updated, rows))
            && (AllAgree(ledger, items) ==> ItemsRecorded(l, items))
  {
    RecordedKeeps(ledger, items);
    RecordExtended(ledger, Recorded(ledger, items), updated, items, rows);
    if AllAgree(ledger, items) { AllRecorded(ledger, items); }
  }

  // ---------- Arrays that are one ----------

  /**
   Whether `filteredItems` is the array `items` itself after a refresh: without a filter it is
   copied only when there is no paging; a filter makes a new array, unless it is said to be unchanged.
   */
  predicate ItemsShared(h: Hints, f: Filter, paging: bool, was: bool) {
    if f.test.None? then paging else Unchanged(h) && was
  }

  /** Whether `rows` is that array too: the page is `filteredItems`, and the rows are the page. */
  predicate RowsShared(shared: bool, pagesize: nat, infos: Infos, filteredItems: seq<Item>) {
    shared && pagesize == 0 && PageIsRows(infos, filteredItems)
  }

  /** What a refresh starts from, and does away with. */
  datatype Before = Before(
    page: Page, total: nat, shared: bool, rowsShared: bool, filtered: seq<Item>, cache: set<nat>, rows: seq<Row>,
    updated: Updates, hints: Hints, prev: Hints, mirror: seq<Option<Row>>, last: Filter, touched: bool)

  /** `items` has changed in place: with it every array that is the same. */
  function Changed(b: Before, items: seq<Item>): Before {
    b.(touched := true, filtered := if b.shared then items else b.filtered,
       rows := if b.rowsShared then DataRows(items) else b.rows)
  }

  /** `items` is another array, and for now the filtered items too. */
  function Replaced(b: Before, items: seq<Item>): Before {
    b.(touched := true, shared := true, rowsShared := false, filtered := items)
  }

  class View {
    var items: seq<Item>
    var idxById: Index
    var filter: Filter
    var updated: Updates
    var suspend: bool
    var refreshHints: Hints
    var prevRefreshHints: Hints
    var filteredItems: seq<Item>
    var filterCache: set<nat>
    var collapse: Collapse.State
    var pagesize: nat
    var pagenum: Page
    var totalRows: nat
    var rows: seq<Row>
    /** Whether the arrays `filteredItems` and `rows` are the array `items`, which is changed in place. */
    var filteredIsItems: bool
    var rowsIsItems: bool

    /** A listener's mirror of the rows; the filter of the last refresh; whether items changed since; contents by id. */
    ghost var mirror: seq<Option<Row>>
    ghost var lastFilter: Filter
    ghost var touched: bool
    ghost var ledger: map<string, int>

    ghost predicate Valid()
      reads this
    {
      Coherent() && (rowsIsItems ==> rows == DataRows(items))
    }

    /** ... while the rows are being recomputed. */
    ghost predicate Coherent()
      reads this
    {
      Collapse.Shape(collapse) && (filteredIsItems ==> filteredItems == items)
    }

    /** The hints have been honest so far: the filter results are those of the plain filter. */
    ghost predicate Synced()
      reads this
    {
      FilterSynced(touched, prevRefreshHints, lastFilter, items, filteredItems, filterCache)
    }

    /** Contents have changed only through `updateItem`, and the mirror shows the rows. */
    ghost predicate Mirrored()
      reads this
    {
      ItemsRecorded(ledger, items) && RowsRecorded(ledger, updated, rows) && Shows(mirror, rows)
    }

    ghost predicate Honest()
      reads this
    {
      HintsHonest(refreshHints, lastFilter, filter, items, touched)
    }

    function Shown(): seq<Item>
      reads this
    {
      PageOf(filteredItems, pagesize, pagenum)
    }

    constructor ()
      ensures Valid() && Synced() && Mirrored() && IndexOk(idxById, items)
      ensures items == [] && idxById == map[] && filter == Filter(None, 0) && updated == None && !suspend
      ensures refreshHints == NO_HINTS && prevRefreshHints == NO_HINTS && filteredItems == [] && filterCache == {}
      ensures collapse == Collapse.State([], []) && pagesize == 0 && pagenum == At(0) && totalRows == 0 && rows == []
      ensures !filteredIsItems && !rowsIsItems
      ensures mirror == [] && lastFilter == filter && !touched && ledger == map[]
    {
      items, idxById, filter, updated, suspend := [], map[], Filter(None, 0), None, false;
      refreshHints, prevRefreshHints, filteredItems, filterCache := NO_HINTS, NO_HINTS, [], {};
      collapse, pagesize, pagenum, totalRows, rows := Collapse.State([], []), 0, At(0), 0, [];
      filteredIsItems, rowsIsItems := false, false;
      mirror, lastFilter, touched, ledger := [], Filter(None, 0), false, map[];
    }

    // ---------- refresh ----------

    /** A page that lies behind the end is replaced by the last one that does not. */
    method GetFilteredAndPagedItems() returns (paged: seq<Item>)
      requires Coherent()
      modifies this`filteredItems, this`filteredIsItems, this`filterCache, this`pagenum
      ensures Coherent() && paged == Shown()
      ensures filteredIsItems == ItemsShared(refreshHints, filter, pagesize > 0, old(filteredIsItems))
      ensures pagenum == PageNumber(old(pagenum), pagesize, |filteredItems|)
      ensures Sifted(refreshHints, refreshHints, filter, items, old(filteredItems), old(filterCache),
                     filteredItems, filterCache)
      ensures old(FilterReady(refreshHints, touched, lastFilter, items, filteredItems, filterCache)) && Honest() ==>
                filteredItems == Keep(filter, items)
                && FilterSynced(false, refreshHints, filter, items, filteredItems, filterCache)
    {
      hide FilterReady, FilterSynced, HintsHonest, Keep, Sifted;
      filteredItems, filterCache :=
        ApplyFilter(refreshHints, filter, items, filteredItems, filterCache, lastFilter, touched);
      filteredIsItems := ItemsShared(refreshHints, filter, pagesize > 0, filteredIsItems);
      if pagesize > 0 && pagenum.At? && |filteredItems| < pagenum.n * pagesize {
        pagenum := At(|filteredItems| / pagesize);
      }
      paged := PageOf(filteredItems, pagesize, pagenum);
    }

    /** `ok` is false where grouping throws. */
    method Recalc() returns (diff: seq<nat>, ok: bool)
      requires Valid()
      modifies this`filteredItems, this`filteredIsItems, this`filterCache, this`pagenum, this`totalRows
      modifies this`rows, this`rowsIsItems
      ensures Valid() && Counted(old(pagenum), old(filteredIsItems), refreshHints)
      ensures Sifted(refreshHints, prevRefreshHints, filter, items, old(filteredItems), old(filterCache),
                     filteredItems, filterCache)
      ensures pagesize > 0 && pagenum.At? ==> pagenum.n * pagesize <= totalRows
      ensures old(Synced()) && Honest() ==>
                filteredItems == Keep(filter, items)
                && FilterSynced(false, refreshHints, filter, items, filteredItems, filterCache)
      ensures Regrouped(ok, diff, old(rows), old(rowsIsItems))
    {
      hide ShowsPage, LaidOut, DataFrom, Keep, IsReport, HintsHonest, CacheSound, Displayed, FilterReady;
      hide FilterSynced, PageIsRows, Groupable, RowsShared, ItemsShared, PageNumber, PageOf, Sifted;
      if Synced() {
        CacheDropped(refreshHints, prevRefreshHints, touched, lastFilter, items, filteredItems, filterCache);
      }
      if !KeepsCache(refreshHints, prevRefreshHints) {
        filterCache := {};
      }
      SiftedLater(old(filteredItems), old(filterCache));
      var page := GetFilteredAndPagedItems();
      PageNumberFits(old(pagenum), pagesize, |filteredItems|);
      totalRows := |filteredItems|;
      diff, ok := Regroup(page);
    }

    /** Dropping the cache where the flags differ is the first step of sifting. */
    lemma SiftedLater(was: seq<Item>, cache: set<nat>)
      requires filterCache == if KeepsCache(refreshHints, prevRefreshHints) then cache else {}
      ensures forall filtered, cache' ::
                Sifted(refreshHints, refreshHints, filter, items, was, filterCache, filtered, cache') ==>
                  Sifted(refreshHints, prevRefreshHints, filter, items, was, cache, filtered, cache')
    {
    }

    /** The second half of `recalc`. */
    method Regroup(page: seq<Item>) returns (diff: seq<nat>, ok: bool)
      requires Valid() && page == Shown()
      modifies this`rows, this`rowsIsItems
      ensures Valid() && Regrouped(ok, diff, old(rows), old(rowsIsItems))
    {
      hide ShowsPage, LaidOut, DataFrom, IsReport, Groupable;
      diff := [];
      var newRows, same;
      newRows, same, ok := Arrange(collapse, page);
      if ok {
        diff := GetRowDiffs(collapse.infos != [], refreshHints, updated, rows, newRows);
        rows := newRows;
        rowsIsItems := filteredIsItems && pagesize == 0 && same;
      }
    }

    /** The rows are displayed anew and reported, or cannot be grouped and stay. */
    ghost predicate Regrouped(ok: bool, diff: seq<nat>, before: seq<Row>, shared: bool)
      requires Coherent()
      reads this
    {
      if ok then
        && CanGroup() && Displayed()
        && rowsIsItems == RowsShared(filteredIsItems, pagesize, collapse.infos, filteredItems)
        && IsReport(collapse.infos != [], refreshHints, updated, before, rows, diff)
      else
        !CanGroup() && rows == before && rowsIsItems == shared
    }

    /** No value to group by on the page is an inherited name. */
    ghost predicate CanGroup()
      reads this
    {
      Groupable(collapse.infos, Shown(), 0)
    }

    /** The rows are what filter, page, grouping and collapse state make of the items. */
    ghost predicate Displayed()
      requires Coherent()
      reads this
    {
      && ShowsPage(collapse, Shown(), rows) && DataFrom(rows, Shown())
      && (if collapse.infos == [] then rows == DataRows(Shown()) else LaidOut(collapse, Shown(), rows))
    }

    /** The counts, and whether filtered items and items are one array, after a recalculation. */
    ghost predicate Counted(page: Page, shared: bool, h: Hints)
      reads this
    {
      && totalRows == |filteredItems| && pagenum == PageNumber(page, pagesize, |filteredItems|)
      && filteredIsItems == ItemsShared(h, filter, pagesize > 0, shared)
    }

    ghost function Now(): Before
      reads this
    {
      Before(pagenum, totalRows, filteredIsItems, rowsIsItems, filteredItems, filterCache, rows,
             updated, refreshHints, prevRefreshHints, mirror, lastFilter, touched)
    }

    /**
     After an operation that left `b`: everything is shown with all settings, redrawn from the
     differences and ready for the next hints, or, while suspended, as the operation left it.
     */
    ghost predicate UpToDate(b: Before)
      requires Valid()
      reads this
    {
      if suspend then Now() == b
      else
        && CanGroup() && Displayed() && Counted(b.page, b.shared, b.hints)
        && Sifted(b.hints, b.prev, filter, items, b.filtered, b.cache, filteredItems, filterCache)
        && rowsIsItems == RowsShared(filteredIsItems, pagesize, collapse.infos, filteredItems)
        && Redrawn(b.mirror, mirror, collapse.infos != [], b.hints, b.updated, b.rows, rows)
        && updated == None && refreshHints == NO_HINTS && prevRefreshHints == b.hints
        && lastFilter == filter && !touched
    }

    /** After an operation that left `b` and whose refresh threw: the items are filtered, and no more. */
    ghost predicate Stuck(b: Before)
      reads this
    {
      && !suspend && !CanGroup() && Counted(b.page, b.shared, b.hints)
      && Sifted(b.hints, b.prev, filter, items, b.filtered, b.cache, filteredItems, filterCache)
      && Now() == b.(page := pagenum, total := totalRows, shared := filteredIsItems, filtered := filteredItems,
                     cache := filterCache)
    }

    ghost predicate Ends(ok: bool, b: Before)
      requires Valid()
      reads this
    {
      if ok then UpToDate(b) else Stuck(b)
    }

    /** What stays as the operation left it: everything while suspended, the filtered items if said to be unchanged. */
    lemma EndsAs(ok: bool, b: Before)
      requires Valid() && Ends(ok, b)
      ensures suspend ==> Now() == b
      ensures !suspend && filter.test.Some? && Unchanged(b.hints) ==>
                filteredItems == b.filtered && filteredIsItems == b.shared
    {
    }

    /**
     Recomputes everything, unless suspended, and tells the listener which rows to redraw.
     The page is valid after one `recalc`, so the second one in the source never runs. It
     throws where the page cannot be grouped.
     */
    method Refresh() returns (ok: bool)
      requires Valid()
      modifies this`filteredItems, this`filteredIsItems, this`filterCache, this`pagenum, this`totalRows, this`rows
      modifies this`rowsIsItems, this`updated, this`refreshHints, this`prevRefreshHints
      modifies this`mirror, this`lastFilter, this`touched
      ensures Valid() && Ends(ok, old(Now()))
      ensures old(Synced()) && !suspend && old(Honest()) ==> filteredItems == Keep(filter, items)
      ensures ok && old(Synced()) && (suspend || old(Honest())) ==> Synced()
      ensures ok && old(Synced() && Mirrored()) && (suspend || (old(Honest()) && NothingIgnored(old(refreshHints)))) ==>
                Mirrored()
    {
      hide ItemsRecorded, RowsRecorded, Shows, Keep, FilterSynced, HintsHonest, ShowsPage, LaidOut, DataFrom;
      hide Sifted, Redrawn, PageIsRows, Groupable, RowsShared, ItemsShared, PageNumber, PageOf;
      if suspend {
        return true;
      }
      ok := Redo();
      if ok {
        Settle();
      }
    }

    /** Recomputes the rows; the listener redraws what is reported. */
    method Redo() returns (ok: bool)
      requires Valid()
      modifies this`filteredItems, this`filteredIsItems, this`filterCache, this`pagenum, this`totalRows, this`rows
      modifies this`rowsIsItems, this`mirror
      ensures Valid() && Counted(old(pagenum), old(filteredIsItems), refreshHints)
      ensures Sifted(refreshHints, prevRefreshHints, filter, items, old(filteredItems), old(filterCache),
                     filteredItems, filterCache)
      ensures if ok then CanGroup() && Displayed()
                         && rowsIsItems == RowsShared(filteredIsItems, pagesize, collapse.infos, filteredItems)
                         && Redrawn(old(mirror), mirror, collapse.infos != [], refreshHints, updated, old(rows), rows)
              else !CanGroup() && rows == old(rows) && rowsIsItems == old(rowsIsItems) && mirror == old(mirror)
      ensures old(Synced()) && Honest() ==>
                filteredItems == Keep(filter, items)
                && FilterSynced(false, refreshHints, filter, items, filteredItems, filterCache)
      ensures ok && old(Synced() && Mirrored()) && Honest() && NothingIgnored(refreshHints) ==>
                RowsRecorded(ledger, None, rows) && Shows(mirror, rows)
    {
      hide ItemsRecorded, Keep, FilterSynced, ShowsPage, LaidOut, DataFrom, IsReport, HintsHonest, PageIsRows;
      hide Groupable, Sifted;
      ghost var fine := Synced() && Mirrored() && Honest() && NothingIgnored(refreshHints);
      ghost var before := rows;
      var diff;
      diff, ok := Recalc();
      if ok {
        if fine {
          RowsOnRecord();
          MirrorStaysTrue(collapse.infos != [], refreshHints, updated, ledger, mirror, before, rows, diff);
        }
        mirror := Redraw(mirror, |before|, rows, diff);
      }
    }

    /** The end of `refresh`. */
    method Settle()
      modifies this`updated, this`refreshHints, this`prevRefreshHints, this`lastFilter, this`touched
      ensures updated == None && refreshHints == NO_HINTS && prevRefreshHints == old(refreshHints)
      ensures lastFilter == filter && !touched
    {
      updated := None;
      prevRefreshHints := refreshHints;
      refreshHints := NO_HINTS;
      lastFilter := filter;
      touched := false;
    }

    /** The rows come from the items, so their contents are on record. */
    lemma RowsOnRecord()
      requires Coherent() && Displayed() && filteredItems == Keep(filter, items) && ItemsRecorded(ledger, items)
      ensures DataOnRecord(ledger, rows) && (collapse.infos == [] ==> AllData(rows))
    {
      forall i | 0 <= i < |rows| && rows[i].Data? ensures OnRecord(ledger, rows[i].item) {
        PageMembers(filteredItems, pagesize, pagenum, rows[i].item);
        KeepMembers(filter, items, rows[i].item);
      }
    }

    // ---------- Suspension, hints, filter, paging ----------

    method BeginUpdate()
      modifies this`suspend
      ensures suspend
    {
      suspend := true;
    }

    method EndUpdate() returns (ok: bool)
      requires Valid()
      modifies this`filteredItems, this`filteredIsItems, this`filterCache, this`pagenum, this`totalRows, this`rows
      modifies this`rowsIsItems, this`updated, this`refreshHints, this`prevRefreshHints
      modifies this`mirror, this`lastFilter, this`touched, this`suspend
      ensures Valid() && !suspend && Ends(ok, old(Now()))
      ensures old(Synced() && Honest()) ==> (ok ==> Synced()) && filteredItems == Keep(filter, items)
      ensures ok && old(Synced() && Mirrored() && Honest()) && NothingIgnored(old(refreshHints)) ==> Mirrored()
    {
      hide ItemsRecorded, RowsRecorded, Shows, DistinctIds, IndexOk, Keep, ShowsPage, LaidOut, DataFrom;
      hide Redrawn, UpToDate, Stuck;
      suspend := false;
      ok := Refresh();
    }

    method SetRefreshHints(hints: Hints)
      modifies this`refreshHints
      ensures refreshHints == hints
    {
      refreshHints := hints;
    }

    /** New arguments take effect at the next refresh. */
    method SetFilterArgs(args: int)
      modifies this`filter
      ensures filter == old(filter).(args := args)
    {
      filter := filter.(args := args);
    }

    method SetFilter(test: Option<(Item, int) -> bool>) returns (ok: bool)
      requires Valid()
      modifies this`filteredItems, this`filteredIsItems, this`filterCache, this`pagenum, this`totalRows, this`rows
      modifies this`rowsIsItems, this`updated, this`refreshHints, this`prevRefreshHints
      modifies this`mirror, this`lastFilter, this`touched, this`filter
      ensures Valid() && Ends(ok, old(Now()))
      ensures filter == old(filter).(test := test)
      ensures old(Synced())
              && (suspend || HintsHonest(old(refreshHints), old(lastFilter), filter, items, old(touched))) ==>
                (ok ==> Synced()) && (!suspend ==> filteredItems == Keep(filter, items))
      ensures ok && old(Synced() && Mirrored()) && (suspend || NothingIgnored(old(refreshHints)))
                && (suspend || HintsHonest(old(refreshHints), old(lastFilter), filter, items, old(touched))) ==>
                Mirrored()
    {
      hide ItemsRecorded, RowsRecorded, Shows, DistinctIds, IndexOk, Keep, ShowsPage, LaidOut, DataFrom;
      hide Redrawn, UpToDate, Stuck;
      filter := filter.(test := test);
      ok := Refresh();
    }

    /** `setPagingOptions`; an option that is not given is `None`. */
    method SetPaging(pageSize: Option<nat>, pageNum: Option<int>) returns (ok: bool)
      requires Valid()
      modifies this`filteredItems, this`filteredIsItems, this`filterCache, this`pagenum, this`totalRows, this`rows
      modifies this`rowsIsItems, this`updated, this`refreshHints, this`prevRefreshHints
      modifies this`mirror, this`lastFilter, this`touched, this`pagesize
      ensures var (size, page) := Options(old(pagesize), old(pagenum), old(totalRows), pageSize, pageNum);
              Valid() && pagesize == size && Ends(ok, old(Now()).(page := page))
      ensures old(Synced()) && (suspend || old(Honest())) ==>
                (ok ==> Synced()) && (!suspend ==> filteredItems == Keep(filter, items))
      ensures ok && old(Synced() && Mirrored()) && (suspend || (old(Honest()) && NothingIgnored(old(refreshHints)))) ==>
                Mirrored()
    {
      hide ItemsRecorded, RowsRecorded, Shows, DistinctIds, IndexOk, Keep, ShowsPage, LaidOut, DataFrom;
      hide Redrawn, UpToDate, Stuck;
      if pageSize.Some? {
        pagesize := pageSize.value;
        pagenum := if pagesize == 0 then At(0) else AtMost(pagenum, LastPage(pagesize, totalRows));
      }
      if pageNum.Some? {
        pagenum := if pagesize == 0 then (if totalRows == 0 then NaN else At(pageNum.value))
                   else AtMost(At(pageNum.value), LastPage(pagesize, totalRows));
      }
      ok := Refresh();
    }

    // ---------- Grouping and collapse state ----------

    method SetGrouping(infos: Infos) returns (ok: bool)
      requires Valid()
      modifies this`filteredItems, this`filteredIsItems, this`filterCache, this`pagenum, this`totalRows, this`rows
      modifies this`rowsIsItems, this`updated, this`refreshHints, this`prevRefreshHints
      modifies this`mirror, this`lastFilter, this`touched, this`collapse
      ensures Valid() && Ends(ok, old(Now()))
      ensures collapse == Collapse.State(infos, seq(|infos|, i => map[]))
      ensures old(Synced()) && (suspend || old(Honest())) ==>
                (ok ==> Synced()) && (!suspend ==> filteredItems == Keep(filter, items))
      ensures ok && old(Synced() && Mirrored()) && (suspend || (old(Honest()) && NothingIgnored(old(refreshHints)))) ==>
                Mirrored()
    {
      hide ItemsRecorded, RowsRecorded, Shows, DistinctIds, IndexOk, Keep, ShowsPage, LaidOut, DataFrom;
      hide Redrawn, UpToDate, Stuck;
      collapse := Collapse.State(infos, seq(|infos|, i => map[]));
      ok := Refresh();
    }

    /** `collapseGroup` and `expandGroup`; a level that does not exist makes the source throw. */
    method ExpandCollapseGroup(args: seq<string>, isCollapse: bool) returns (ok: bool)
      requires Valid()
      modifies this`filteredItems, this`filteredIsItems, this`filterCache, this`pagenum, this`totalRows, this`rows
      modifies this`rowsIsItems, this`updated, this`refreshHints, this`prevRefreshHints
      modifies this`mirror, this`lastFilter, this`touched, this`collapse
      ensures Valid()
      ensures if 0 <= Target(args).0 < |old(collapse).infos| then Ends(ok, old(Now())) else !ok && unchanged(this)
      ensures collapse == Collapse.Apply(old(collapse), Collapse.One(Target(args).0, Target(args).1, isCollapse))
      ensures ok && old(Synced()) && (suspend || old(Honest())) ==> Synced()
      ensures 0 <= Target(args).0 < |old(collapse).infos| && old(Synced()) && !suspend && old(Honest()) ==>
                filteredItems == Keep(filter, items)
      ensures ok && old(Synced() && Mirrored()) && (suspend || (old(Honest()) && NothingIgnored(old(refreshHints)))) ==>
                Mirrored()
    {
      hide ItemsRecorded, RowsRecorded, Shows, DistinctIds, IndexOk, Keep, ShowsPage, LaidOut, DataFrom;
      hide Redrawn, UpToDate, Stuck;
      var (level, key) := Target(args);
      if !Collapse.InRange(collapse, level) {
        return false;
      }
      collapse := collapse.(toggles :=
        collapse.toggles[level := collapse.toggles[level][key := collapse.infos[level].collapsed != isCollapse]]);
      ok := Refresh();
    }

    /** `collapseAllGroups` and `expandAllGroups`. */
    method ExpandCollapseAllGroups(level: Option<int>, isCollapse: bool) returns (ok: bool)
      requires Valid()
      modifies this`filteredItems, this`filteredIsItems, this`filterCache, this`pagenum, this`totalRows, this`rows
      modifies this`rowsIsItems, this`updated, this`refreshHints, this`prevRefreshHints
      modifies this`mirror, this`lastFilter, this`touched, this`collapse
      ensures Valid()
      ensures if level.Some? ==> 0 <= level.value < |old(collapse).infos| then Ends(ok, old(Now()))
              else !ok && unchanged(this)
      ensures collapse == Collapse.Apply(old(collapse), Collapse.All(level, isCollapse))
      ensures ok && old(Synced()) && (suspend || old(Honest())) ==> Synced()
      ensures (level.Some? ==> 0 <= level.value < |old(collapse).infos|)
              && old(Synced()) && !suspend && old(Honest()) ==>
                filteredItems == Keep(filter, items)
      ensures ok && old(Synced() && Mirrored()) && (suspend || (old(Honest()) && NothingIgnored(old(refreshHints)))) ==>
                Mirrored()
    {
      hide ItemsRecorded, RowsRecorded, Shows, DistinctIds, IndexOk, Keep, ShowsPage, LaidOut, DataFrom;
      hide Redrawn, UpToDate, Stuck;
      collapse, ok := Collapse.ExpandCollapseAll(collapse, level, isCollapse);
      if ok {
        ok := Refresh();
      }
    }

    // ---------- Changing the items ----------

    /** The refresh that follows a change of the items will not lean on hints about an unchanged list. */
    predicate Unhinted()
      reads this
    {
      suspend || filter.test.None? || NoFilterHint(refreshHints)
    }

    /** ... nor suppress a part of its report. */
    predicate Quiet()
      reads this
    {
      Unhinted() && (suspend || NothingIgnored(refreshHints))
    }

    /** The part of `Synced` that does not depend on the items. */
    ghost predicate CacheSettled()
      reads this
    {
      !Expanding(prevRefreshHints) ==> filterCache == {}
    }

    /** `items` changes in place, and with it every array that is the same. */
    method ChangeInPlace(changed: seq<Item>)
      requires Valid()
      modifies this`items, this`filteredItems, this`rows, this`touched
      ensures Valid() && items == changed
      ensures Now() == Changed(old(Now()), items)
    {
      items, touched := changed, true;
      if filteredIsItems {
        filteredItems := changed;
      }
      if rowsIsItems {
        rows := DataRows(changed);
      }
    }

    /** What every change of the items ends with. */
    method ItemsChanged(ghost record: map<string, int>) returns (ok: bool)
      requires Valid() && touched
      modifies this`filteredItems, this`filteredIsItems, this`filterCache, this`pagenum, this`totalRows, this`rows
      modifies this`rowsIsItems, this`updated, this`refreshHints, this`prevRefreshHints
      modifies this`mirror, this`lastFilter, this`touched, this`ledger
      ensures Valid() && ledger == record && Ends(ok, old(Now()))
      ensures old(CacheSettled() && Unhinted()) ==>
                (ok ==> Synced()) && (!suspend ==> filteredItems == Keep(filter, items))
      ensures (ok && old(CacheSettled() && Quiet() && Shows(mirror, rows) && RowsRecorded(record, updated, rows))
               && ItemsRecorded(record, items)) ==> Mirrored()
    {
      hide ItemsRecorded, RowsRecorded, Shows, Keep, ShowsPage, LaidOut, DataFrom, Redrawn, UpToDate, Stuck;
      ledger := record;
      ok := Refresh();
    }

    /** Replaces all items; throws, after the fact, unless every item has an id of its own that can be indexed. */
    method SetItems(data: seq<Item>) returns (ok: bool)
      requires Valid()
      modifies this`filteredItems, this`filteredIsItems, this`filterCache, this`pagenum, this`totalRows, this`rows
      modifies this`rowsIsItems, this`updated, this`refreshHints, this`prevRefreshHints
      modifies this`mirror, this`lastFilter, this`touched, this`items, this`idxById, this`ledger
      ensures Valid() && items == data
      ensures if DistinctIds(data) then
                IndexOk(idxById, items) && ledger == Recorded(old(ledger), data) && Ends(ok, Replaced(old(Now()), data))
              else !ok && ledger == old(ledger)
      ensures suspend || !DistinctIds(data) ==>
                filteredItems == data && filteredIsItems && !rowsIsItems && rows == old(rows)
      ensures !suspend && filter.test.Some? && Unchanged(old(refreshHints)) ==> filteredItems == data && filteredIsItems
      ensures old(Synced() && Unhinted()) && DistinctIds(data) ==>
                (ok ==> Synced()) && (!suspend ==> filteredItems == Keep(filter, items))
      ensures old(Synced() && Quiet() && Mirrored()) && ok && AllAgree(old(ledger), data) ==> Mirrored()
    {
      hide ItemsRecorded, RowsRecorded, Shows, DistinctIds, IndexOk, Keep, ShowsPage, LaidOut, DataFrom;
      hide Redrawn, UpToDate, Stuck;
      ok := Load(data);
      if ok {
        ok := ItemsChanged(Recorded(ledger, data));
        EndsAs(ok, Replaced(old(Now()), data));
      }
    }

    method Load(data: seq<Item>) returns (ok: bool)
      requires Valid()
      modifies this`items, this`filteredItems, this`filteredIsItems, this`rowsIsItems, this`idxById, this`touched
      ensures Valid() && items == data && Now() == Replaced(old(Now()), data)
      ensures ok <==> DistinctIds(data)
      ensures ok ==> IndexOk(idxById, items)
      ensures AllAgree(ledger, data) ==> ItemsRecorded(Recorded(ledger, data), items)
      ensures RowsRecorded(ledger, updated, rows) ==> RowsRecorded(Recorded(ledger, data), updated, rows)
    {
      hide ItemsRecorded, RowsRecorded, DistinctIds, IndexOk, AllAgree, Recorded;
      Replace(data);
      ok := Reindex(true);
      AllItemsRecorded(ledger, items, updated, rows);
    }

    /** `items` becomes another array, and `filteredItems` with it. */
    method Replace(data: seq<Item>)
      requires Valid()
      modifies this`items, this`filteredItems, this`filteredIsItems, this`rowsIsItems, this`touched
      ensures Valid() && items == data && Now() == Replaced(old(Now()), data)
    {
      items, filteredItems, filteredIsItems, rowsIsItems, touched := data, data, true, false, true;
    }

    /** Indexes all items from scratch; `strict` also checks that every item is found where it is. */
    method Reindex(strict: bool) returns (ok: bool)
      modifies this`idxById
      ensures ok <==> if strict then DistinctIds(items) else AllHaveIds(items, 0)
      ensures DistinctIds(items) ==> IndexOk(idxById, items)
    {
      idxById, ok := UpdateIdxById(map[], items, 0);
      if ok {
        UniquenessIsDistinctness(items);
        if strict {
          ok := EnsureIdUniqueness(idxById, items);
        }
        if DistinctIds(items) { IndexFromOk(map[], items, 0); }
      }
    }

    /** Inserts an item and indexes what follows, from a position the caller names. */
    method Splice(at: nat, from: nat, item: Item) returns (ok: bool)
      requires Valid() && at <= |items|
      modifies this`items, this`idxById, this`filteredItems, this`rows, this`touched
      ensures Valid() && items == old(items)[..at] + [item] + old(items)[at..]
      ensures Now() == Changed(old(Now()), items)
      ensures ok <==> AllHaveIds(items, from)
      ensures old(IndexOk(idxById, items)) && Indexable(old(idxById), item)
              && (at == from || at == |old(items)| < from) ==>
                ok && (IndexOk(idxById, items) <==> at == from)
    {
      ghost var before := items;
      ChangeInPlace(items[..at] + [item] + items[at..]);
      idxById, ok := UpdateIdxById(idxById, items, from);
      if old(IndexOk(idxById, items)) && Indexable(old(idxById), item) {
        if at == from {
          InsertIndexed(old(idxById), before, at, item);
        } else if at == |before| < from {
          assert items == before + [item];
          InsertBeyond(old(idxById), before, from, item);
        }
      }
    }

    /** `insertItem`; behind the end the item is added but not indexed, before the start the source throws. */
    method InsertItem(insertBefore: int, item: Item) returns (ok: bool)
      requires Valid()
      modifies this`filteredItems, this`filteredIsItems, this`filterCache, this`pagenum, this`totalRows, this`rows
      modifies this`rowsIsItems, this`updated, this`refreshHints, this`prevRefreshHints
      modifies this`mirror, this`lastFilter, this`touched, this`items, this`idxById, this`ledger
      ensures var at := SliceAt(insertBefore, |old(items)|);
              Valid() && items == old(items)[..at] + [item] + old(items)[at..]
      ensures old(IndexOk(idxById, items)) && Indexable(old(idxById), item) && insertBefore >= 0 ==>
                (IndexOk(idxById, items) <==> insertBefore <= |old(items)|) && AllHaveIds(items, insertBefore)
      ensures if insertBefore >= 0 && AllHaveIds(items, insertBefore) then
                ledger == Recorded(old(ledger), [item]) && Ends(ok, Changed(old(Now()), items))
              else !ok && ledger == old(ledger)
      ensures old(Synced() && Unhinted()) && insertBefore >= 0 && AllHaveIds(items, insertBefore) ==>
                (ok ==> Synced()) && (!suspend ==> filteredItems == Keep(filter, items))
      ensures old(Synced() && Quiet() && Mirrored() && !rowsIsItems) && Agrees(old(ledger), item) && ok ==> Mirrored()
    {
      hide ItemsRecorded, RowsRecorded, Shows, DistinctIds, IndexOk, Keep, ShowsPage, LaidOut, DataFrom;
      hide Redrawn, UpToDate, Stuck;
      var at := SliceAt(insertBefore, |items|);
      InsertRecorded(ledger, items, at, item, updated, rows);
      if insertBefore < 0 {
        ChangeInPlace(items[..at] + [item] + items[at..]);
        return false;
      }
      ok := Splice(at, insertBefore, item);
      if ok {
        ok := ItemsChanged(Recorded(ledger, [item]));
      }
    }

    method AddItem(item: Item) returns (ok: bool)
      requires Valid()
      modifies this`filteredItems, this`filteredIsItems, this`filterCache, this`pagenum, this`totalRows, this`rows
      modifies this`rowsIsItems, this`updated, this`refreshHints, this`prevRefreshHints
      modifies this`mirror, this`lastFilter, this`touched, this`items, this`idxById, this`ledger
      ensures Valid() && items == old(items) + [item]
      ensures old(IndexOk(idxById, items)) && Indexable(old(idxById), item) ==> IndexOk(idxById, items)
      ensures if item.id.Some? then
                ledger == Recorded(old(ledger), [item]) && Ends(ok, Changed(old(Now()), items))
              else !ok && ledger == old(ledger)
      ensures old(Synced() && Unhinted()) && item.id.Some? ==>
                (ok ==> Synced()) && (!suspend ==> filteredItems == Keep(filter, items))
      ensures old(Synced() && Quiet() && Mirrored() && !rowsIsItems) && Agrees(old(ledger), item) && ok ==> Mirrored()
    {
      hide ItemsRecorded, RowsRecorded, Shows, DistinctIds, IndexOk, Keep, ShowsPage, LaidOut, DataFrom;
      hide Redrawn, UpToDate, Stuck;
      ok := Append(item);
      if ok {
        ok := ItemsChanged(Recorded(ledger, [item]));
      }
    }

    method Append(item: Item) returns (ok: bool)
      requires Valid()
      modifies this`items, this`idxById, this`filteredItems, this`rows, this`touched
      ensures Valid() && items == old(items) + [item]
      ensures Now() == Changed(old(Now()), items)
      ensures ok <==> item.id.Some?
      ensures old(IndexOk(idxById, items)) && Indexable(old(idxById), item) ==> IndexOk(idxById, items)
      ensures old(ItemsRecorded(ledger, items)) && Agrees(ledger, item) ==>
                ItemsRecorded(Recorded(ledger, [item]), items)
      ensures old(RowsRecorded(ledger, updated, rows)) ==> RowsRecorded(Recorded(ledger, [item]), updated, old(rows))
    {
      InsertRecorded(ledger, items, |items|, item, updated, rows);
      assert items[..|items|] + [item] + items[|items|..] == items + [item];
      ok := Splice(|items|, |items|, item);
      assert items[|old(items)|] == item;
    }

    /**
     The only way to give an id new content; throws unless the id is found and is the item's
     own. Found without being indexed are the inherited names: then no item is replaced.
     */
    method UpdateItem(id: string, item: Item) returns (ok: bool)
      requires Valid()
      modifies this`filteredItems, this`filteredIsItems, this`filterCache, this`pagenum, this`totalRows, this`rows
      modifies this`rowsIsItems, this`updated, this`refreshHints, this`prevRefreshHints
      modifies this`mirror, this`lastFilter, this`touched, this`items, this`ledger
      ensures Valid()
      ensures old(IndexOk(idxById, items)) ==> IndexOk(idxById, items)
      ensures if old(Finds(id)) && item.id == Some(id) then
                && items == (if id in idxById then old(items)[idxById[id] := item] else old(items))
                && ledger == (if id in idxById then old(ledger)[id := item.content] else old(ledger))
                && Ends(ok, Changed(old(Now()), items).(updated := MarkUpdated(old(updated), id)))
              else !ok && unchanged(this)
      ensures old(Synced() && Unhinted() && Finds(id)) && item.id == Some(id) ==>
                (ok ==> Synced()) && (!suspend ==> filteredItems == Keep(filter, items))
      ensures old(Synced() && Quiet() && Mirrored() && IndexOk(idxById, items) && !rowsIsItems) && ok ==> Mirrored()
    {
      hide ItemsRecorded, RowsRecorded, Shows, IndexOk, Keep, ShowsPage, LaidOut, DataFrom, Redrawn, UpToDate, Stuck;
      hide Inherited;
      if !Finds(id) || item.id != Some(id) {
        return false;
      }
      Revise(id, item);
      ok := ItemsChanged(if id in idxById then ledger[id := item.content] else ledger);
    }

    /** Whether a position, or something inherited, is found under the id. */
    predicate Finds(id: string)
      reads this
    {
      if id in idxById then idxById[id] < |items| else Inherited(id)
    }

    /** Replaces the item, if there is one, and marks the id as updated. */
    method Revise(id: string, item: Item)
      requires Valid() && item.id == Some(id) && (id in idxById ==> idxById[id] < |items|)
      modifies this`items, this`filteredItems, this`rows, this`touched, this`updated
      ensures Valid() && items == (if id in idxById then old(items)[idxById[id] := item] else old(items))
      ensures Now() == Changed(old(Now()), items).(updated := MarkUpdated(old(updated), id))
      ensures old(IndexOk(idxById, items)) ==> IndexOk(idxById, items)
      ensures var record := if id in idxById then ledger[id := item.content] else ledger;
              && (old(IndexOk(idxById, items) && ItemsRecorded(ledger, items)) ==> ItemsRecorded(record, items))
              && (old(IndexOk(idxById, items) && RowsRecorded(ledger, updated, rows)) ==>
                    RowsRecorded(record, updated, old(rows)))
    {
      hide ItemsRecorded, RowsRecorded, IndexOk, MarkUpdated;
      if id in idxById {
        if IndexOk(idxById, items) {
          UpdateIndexed(idxById, items, id, item);
          UpdateRecorded(ledger, items, idxById, id, item, updated, rows);
        }
        ChangeInPlace(items[idxById[id] := item]);
      } else {
        if RowsRecorded(ledger, updated, rows) { MarkRecorded(ledger, updated, id, rows); }
        ChangeInPlace(items);
      }
      updated := MarkUpdated(updated, id);
    }

    /**
     Throws unless the id is found. An inherited name that is not indexed is found too, as no
     position: then the first item goes, and the index stays behind.
     */
    method DeleteItem(id: string) returns (ok: bool)
      requires Valid()
      modifies this`filteredItems, this`filteredIsItems, this`filterCache, this`pagenum, this`totalRows, this`rows
      modifies this`rowsIsItems, this`updated, this`refreshHints, this`prevRefreshHints
      modifies this`mirror, this`lastFilter, this`touched, this`items, this`idxById, this`ledger
      ensures Valid() && ledger == old(ledger)
      ensures old(!Finds(id)) ==> !ok && unchanged(this)
      ensures old(Finds(id)) ==>
                items == (if id in old(idxById)
                          then old(items)[..old(idxById)[id]] + old(items)[old(idxById)[id] + 1..]
                          else if old(items) != [] then old(items)[1..] else old(items))
      ensures old(IndexOk(idxById, items) && Finds(id)) ==>
                && Ends(ok, Changed(old(Now()), items))
                && (IndexOk(idxById, items) <==> id in old(idxById) || old(items) == [])
      ensures old(Synced() && Unhinted() && IndexOk(idxById, items) && Finds(id)) ==>
                (ok ==> Synced()) && (!suspend ==> filteredItems == Keep(filter, items))
      ensures old(Synced() && Quiet() && Mirrored() && !rowsIsItems) && ok ==> Mirrored()
    {
      hide ItemsRecorded, RowsRecorded, Shows, DistinctIds, IndexOk, Keep, ShowsPage, LaidOut, DataFrom;
      hide Redrawn, UpToDate, Stuck, Inherited;
      if !Finds(id) {
        return false;
      }
      ok := Remove(id);
      if ok {
        ok := ItemsChanged(ledger);
      }
    }

    /** An indexed id is found. */
    lemma IndexedIsFound(id: string)
      requires IndexOk(idxById, items)
      ensures Finds(id) <==> id in idxById || Inherited(id)
    {
    }

    /** The item, or for an inherited name the first one, goes. */
    method Remove(id: string) returns (ok: bool)
      requires Valid() && (id in idxById ==> idxById[id] < |items|)
      modifies this`items, this`idxById, this`filteredItems, this`rows, this`touched
      ensures Valid() && Now() == Changed(old(Now()), items)
      ensures items == (if id in old(idxById) then old(items)[..old(idxById)[id]] + old(items)[old(idxById)[id] + 1..]
                        else if old(items) != [] then old(items)[1..] else old(items))
      ensures old(IndexOk(idxById, items)) ==>
                ok && (IndexOk(idxById, items) <==> id in old(idxById) || old(items) == [])
      ensures old(ItemsRecorded(ledger, items)) ==> ItemsRecorded(ledger, items)
    {
      hide ItemsRecorded, IndexOk;
      ghost var before := items;
      if id in idxById {
        ok := Cut(id);
      } else {
        if IndexOk(idxById, items) { CutUnindexed(idxById, items); }
        ChangeInPlace(if items == [] then items else items[1..]);
        ok := true;
      }
      if ItemsRecorded(ledger, before) { MembersRecorded(ledger, before, items); }
    }

    method Cut(id: string) returns (ok: bool)
      requires Valid() && id in idxById && idxById[id] < |items|
      modifies this`items, this`idxById, this`filteredItems, this`rows, this`touched
      ensures Valid()
      ensures items == old(items)[..old(idxById)[id]] + old(items)[old(idxById)[id] + 1..]
      ensures Now() == Changed(old(Now()), items)
      ensures old(IndexOk(idxById, items)) ==> ok && IndexOk(idxById, items)
    {
      var idx := idxById[id];
      if IndexOk(idxById, items) { DeleteIndexed(idxById, items, id); }
      ChangeInPlace(items[..idx] + items[idx + 1..]);
      idxById, ok := UpdateIdxById(idxById - {id}, items, idx);
    }

    /** `sort`; `ascending` false adds the two reversals. */
    method SortItems(comparer: (Item, Item) -> int, ascending: bool) returns (ok: bool)
      requires Valid()
      modifies this`filteredItems, this`filteredIsItems, this`filterCache, this`pagenum, this`totalRows, this`rows
      modifies this`rowsIsItems, this`updated, this`refreshHints, this`prevRefreshHints
      modifies this`mirror, this`lastFilter, this`touched, this`items, this`idxById, this`ledger
      ensures Valid() && ledger == old(ledger)
      ensures items == if ascending then Sort(comparer, old(items)) else SortDescending(comparer, old(items))
      ensures DistinctIds(old(items)) ==> AllHaveIds(items, 0) && IndexOk(idxById, items)
      ensures if AllHaveIds(items, 0) then Ends(ok, Changed(old(Now()), items)) else !ok
      ensures old(Synced() && Unhinted()) && AllHaveIds(items, 0) ==>
                (ok ==> Synced()) && (!suspend ==> filteredItems == Keep(filter, items))
      ensures old(Synced() && Quiet() && Mirrored() && !rowsIsItems) && ok ==> Mirrored()
    {
      hide ItemsRecorded, RowsRecorded, Shows, DistinctIds, IndexOk, Sort, SortDescending, Keep;
      hide ShowsPage, LaidOut, DataFrom, Redrawn, UpToDate, Stuck;
      ok := SortInPlace(comparer, ascending);
      if ok {
        ok := ItemsChanged(ledger);
      }
    }

    method SortInPlace(comparer: (Item, Item) -> int, ascending: bool) returns (ok: bool)
      requires Valid()
      modifies this`items, this`idxById, this`filteredItems, this`rows, this`touched
      ensures Valid()
      ensures items == if ascending then Sort(comparer, old(items)) else SortDescending(comparer, old(items))
      ensures Now() == Changed(old(Now()), items)
      ensures ok <==> AllHaveIds(items, 0)
      ensures DistinctIds(old(items)) ==> ok && IndexOk(idxById, items)
      ensures ItemsRecorded(ledger, old(items)) ==> ItemsRecorded(ledger, items)
    {
      hide ItemsRecorded, DistinctIds, IndexOk, Sort, SortDescending, Reverse, DataRows;
      ghost var before := items;
      SortArray(comparer, ascending);
      SortedMembers(comparer, before, ascending);
      if DistinctIds(before) { PermutationIndexed(before, items); }
      ok := Reindex(false);
      if ItemsRecorded(ledger, before) { MembersRecorded(ledger, before, items); }
    }

    method SortArray(comparer: (Item, Item) -> int, ascending: bool)
      requires Valid()
      modifies this`items, this`filteredItems, this`rows, this`touched
      ensures Valid()
      ensures items == if ascending then Sort(comparer, old(items)) else SortDescending(comparer, old(items))
      ensures Now() == Changed(old(Now()), items)
    {
      hide Sort, Reverse, DataRows;
      if !ascending {
        ChangeInPlace(Reverse(items));
      }
      ChangeInPlace(Sort(comparer, items));
      if !ascending {
        ChangeInPlace(Reverse(items));
      }
    }
  }

  lemma SortedMembers(comparer: (Item, Item) -> int, items: seq<Item>, ascending: bool)
    ensures var t := if ascending then Sort(comparer, items) else SortDescending(comparer, items);
            multiset(t) == multiset(items) && forall i :: 0 <= i < |t| ==> t[i] in items
  {
    SortMembers(comparer, items);
    ReverseMembers(items);
    SortMembers(comparer, Reverse(items));
    ReverseMembers(Sort(comparer, Reverse(items)));
    var t := if ascending then Sort(comparer, items) else SortDescending(comparer, items);
    forall i | 0 <= i < |t| ensures t[i] in items {
      assert t[i] in multiset(items);
    }
  }
}

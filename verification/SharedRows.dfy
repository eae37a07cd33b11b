/**
 When the rows are the array `items` itself: a client that tells a refresh "the filter is
 unchanged" after a refresh without a filter can bring this about, and then changes of the
 items go unreported.
 */
module SharedRows {
  import opened Wrappers
  import opened SlickCore
  import opened Grouping
  import opened Filtering
  import opened IdIndex
  import opened RowDiffs
  import opened DataView
  import opened Sessions
  import opened Sorting

  /** The hint, true as it may be, that makes it happen. */
  const UNCHANGED := NO_HINTS.(isFilterUnchanged := Some(true))

  // ---------- What goes wrong, and when ----------

  /** A report on rows before and after that agree says nothing about them. */
  lemma NothingReported(rows: seq<Row>, newRows: seq<Row>, diff: seq<nat>)
    requires IsReport(false, NO_HINTS, None, rows, newRows, diff)
    requires newRows <= rows && AllData(newRows)
    ensures forall i :: i !in diff
  {
    forall i | 0 <= i < |newRows| ensures !Reported(false, NO_HINTS, None, rows, newRows, i) {
      assert newRows[i] == rows[i];
    }
  }

  /** Redrawn from such a report, the mirror changes its size at most. */
  lemma MirrorIsLeft(mirror: seq<Option<Row>>, mirror': seq<Option<Row>>, rows: seq<Row>, newRows: seq<Row>)
    requires Redrawn(mirror, mirror', false, NO_HINTS, None, rows, newRows)
    requires newRows <= rows && AllData(newRows)
    ensures |rows| == |newRows| ==> mirror' == mirror
    ensures |newRows| == |mirror| ==> mirror' == mirror
  {
    var diff :|
      IsReport(false, NO_HINTS, None, rows, newRows, diff)
      && mirror' == Redraw(mirror, |rows|, newRows, diff);
    NothingReported(rows, newRows, diff);
  }

  /** Without grouping and paging, and with nothing pending: the next refresh is due to the operation alone. */
  ghost predicate Settled(v: View)
    reads v
  {
    && !v.suspend && v.collapse.infos == [] && v.pagesize == 0
    && v.refreshHints == NO_HINTS && v.updated == None && v.lastFilter == v.filter && !v.touched
  }

  /** Everything is in order and nothing pending, and the rows are the array of the items. */
  ghost predicate Sharing(v: View)
    reads v
  {
    && v.Valid() && v.Synced() && v.Mirrored() && IndexOk(v.idxById, v.items)
    && Settled(v) && v.rowsIsItems && v.filteredIsItems
  }

  /** A mirror shows one list of items at most. */
  lemma ShowsOne(mirror: seq<Option<Row>>, a: seq<Item>, b: seq<Item>)
    requires Shows(mirror, DataRows(a)) && Shows(mirror, DataRows(b))
    ensures a == b
  {
    forall i | 0 <= i < |a| ensures a[i] == b[i] {
      assert DataRows(a)[i] == DataRows(b)[i];
    }
  }

  /** Rows that agree before and after leave the mirror as it was: true only if the items are. */
  lemma StaysOld(mirror: seq<Option<Row>>, mirror': seq<Option<Row>>, was: seq<Item>, items: seq<Item>)
    requires Redrawn(mirror, mirror', false, NO_HINTS, None, DataRows(items), DataRows(items))
    requires Shows(mirror, DataRows(was))
    ensures Shows(mirror', DataRows(items)) <==> items == was
  {
    MirrorIsLeft(mirror, mirror', DataRows(items), DataRows(items));
    if Shows(mirror, DataRows(items)) { ShowsOne(mirror, was, items); }
  }

  /** A mirror that shows the new rows already goes on showing them. */
  lemma StaysTrue(mirror: seq<Option<Row>>, mirror': seq<Option<Row>>, updated: Updates, rows: seq<Row>,
                  newRows: seq<Row>)
    requires Redrawn(mirror, mirror', false, NO_HINTS, updated, rows, newRows) && Shows(mirror, newRows)
    ensures Shows(mirror', newRows)
  {
  }

  lemma {:induction false} KeepConcat(f: Filter, a: seq<Item>, b: seq<Item>)
    ensures Keep(f, a + b) == Keep(f, a) + Keep(f, b)
  {
    if b == [] {
      assert a + b == a;
    } else {
      assert (a + b)[..|a + b| - 1] == a + b[..|b| - 1];
      KeepConcat(f, a, b[..|b| - 1]);
    }
  }

  /** One item among others that all pass. */
  lemma KeepAround(f: Filter, a: seq<Item>, x: Item, b: seq<Item>)
    requires forall y :: y in a || y in b ==> Passes(f, y)
    ensures Keep(f, a + [x] + b) == a + (if Passes(f, x) then [x] else []) + b
  {
    KeepConcat(f, a + [x], b);
    KeepConcat(f, a, [x]);
    KeepsAll(f, a);
    KeepsAll(f, b);
    assert [x][..0] == [];
  }

  lemma KeepInside(f: Filter, items: seq<Item>)
    ensures forall y :: y in Keep(f, items) ==> y in items
  {
    forall y | y in Keep(f, items) ensures y in items {
      KeepMembers(f, items, y);
    }
  }

  function Without(items: seq<Item>, k: nat): seq<Item>
    requires k < |items|
  {
    items[..k] + items[k + 1..]
  }

  lemma KeepReplaced(f: Filter, items: seq<Item>, k: nat, x: Item)
    requires k < |items| && forall y :: y in items ==> Passes(f, y)
    ensures Keep(f, items[k := x]) == if Passes(f, x) then items[k := x] else Without(items, k)
  {
    assert items[k := x] == items[..k] + [x] + items[k + 1..];
    KeepAround(f, items[..k], x, items[k + 1..]);
    assert items[..k] + [] + items[k + 1..] == Without(items, k);
  }

  lemma AllPass(v: View)
    requires Sharing(v)
    ensures forall x :: x in v.items ==> Passes(v.filter, x)
    ensures Shows(v.mirror, DataRows(v.items)) && ItemsRecorded(v.ledger, v.items)
  {
    forall x | x in v.items ensures Passes(v.filter, x) {
      KeepMembers(v.filter, v.items, x);
    }
  }

  /**
   With shared rows, inserting an item leaves the mirror true exactly when the filter rejects
   the item: otherwise the row is there before the rows are compared, and nobody is told.
   */
  method InsertIntoShared(v: View, at: nat, item: Item) returns (ok: bool)
    requires Sharing(v) && Newcomer(v, item) && at <= |v.items|
    modifies v
    ensures ok && v.items == old(v.items)[..at] + [item] + old(v.items)[at..] && IndexOk(v.idxById, v.items)
    ensures v.filter == old(v.filter) && v.filteredItems == Keep(v.filter, v.items)
    ensures v.rows == DataRows(v.filteredItems)
    ensures v.Mirrored() <==> !Passes(v.filter, item)
    ensures Shows(v.mirror, v.rows) <==> !Passes(v.filter, item)
  {
    hide ItemsRecorded, RowsRecorded, Keep, ShowsPage, LaidOut, DataFrom, Sifted, Redrawn, Recorded, Shows, IndexOk;
    AllPass(v);
    ghost var was, record := v.items, Recorded(v.ledger, [item]);
    InsertRecorded(v.ledger, was, at, item, None, v.rows);
    assert was == was[..at] + was[at..];
    KeepAround(v.filter, was[..at], item, was[at..]);
    ok := v.InsertItem(at, item);
    ghost var filtered := v.filteredItems;
    assert v.rows == DataRows(filtered);
    ItemsOnRecord(record, v.items, filtered);
    if Passes(v.filter, item) {
      StaysOld(old(v.mirror), v.mirror, was, v.items);
    } else {
      assert filtered == was;
      StaysTrue(old(v.mirror), v.mirror, None, DataRows(v.items), v.rows);
    }
  }

  /** So does adding one, which is inserting it at the end. */
  method AddToShared(v: View, item: Item) returns (ok: bool)
    requires Sharing(v) && Newcomer(v, item)
    modifies v
    ensures ok && v.items == old(v.items) + [item] && IndexOk(v.idxById, v.items)
    ensures v.filter == old(v.filter) && v.filteredItems == Keep(v.filter, v.items)
    ensures v.rows == DataRows(v.filteredItems)
    ensures v.Mirrored() <==> !Passes(v.filter, item)
    ensures Shows(v.mirror, v.rows) <==> !Passes(v.filter, item)
  {
    hide ItemsRecorded, RowsRecorded, Keep, ShowsPage, LaidOut, DataFrom, Sifted, Redrawn, Recorded, Shows, IndexOk;
    AllPass(v);
    ghost var was, record := v.items, Recorded(v.ledger, [item]);
    InsertRecorded(v.ledger, was, |was|, item, None, v.rows);
    assert was[..|was|] + [item] + was[|was|..] == was + [item] && was + [item] + [] == was + [item];
    KeepAround(v.filter, was, item, []);
    ok := v.AddItem(item);
    ghost var filtered := v.filteredItems;
    assert v.rows == DataRows(filtered);
    ItemsOnRecord(record, v.items, filtered);
    if Passes(v.filter, item) {
      StaysOld(old(v.mirror), v.mirror, was, v.items);
    } else {
      assert filtered == was;
      StaysTrue(old(v.mirror), v.mirror, None, DataRows(v.items), v.rows);
    }
  }

  /** Deleting an item never leaves it true: the row is gone before the rows are compared. */
  method DeleteFromShared(v: View, id: string) returns (ok: bool)
    requires Sharing(v) && id in v.idxById
    modifies v
    ensures ok && v.rows == DataRows(v.items) && !Shows(v.mirror, v.rows)
  {
    hide ItemsRecorded, RowsRecorded, Keep, ShowsPage, LaidOut, DataFrom, Sifted, Redrawn, Shows, IndexOk, Inherited;
    AllPass(v);
    ghost var was := v.items;
    v.IndexedIsFound(id);
    IndexInBounds(v.idxById, was, id);
    ok := v.DeleteItem(id);
    KeepsAll(v.filter, v.items);
    assert |v.items| < |was|;
    StaysOld(old(v.mirror), v.mirror, was, v.items);
  }

  /** Sorting leaves it true exactly when it changes nothing. */
  method SortShared(v: View, comparer: (Item, Item) -> int, ascending: bool) returns (ok: bool)
    requires Sharing(v)
    modifies v
    ensures ok && v.rows == DataRows(v.items) && IndexOk(v.idxById, v.items)
    ensures Shows(v.mirror, v.rows) <==> v.items == old(v.items)
  {
    hide ItemsRecorded, RowsRecorded, Keep, ShowsPage, LaidOut, DataFrom, Sifted, Redrawn, Shows, IndexOk;
    hide Sort, SortDescending;
    AllPass(v);
    ghost var was := v.items;
    IndexOkDistinct(v.idxById, v.items);
    SortedMembers(comparer, was, ascending);
    ok := v.SortItems(comparer, ascending);
    KeepsAll(v.filter, v.items);
    StaysOld(old(v.mirror), v.mirror, was, v.items);
  }

  /** An update always leaves it true: its id is marked, and rows behind one that vanishes differ in their ids. */
  method UpdateShared(v: View, id: string, item: Item) returns (ok: bool)
    requires Sharing(v) && id in v.idxById && item.id == Some(id)
    modifies v
    ensures ok && v.items == old(v.items)[old(v.idxById)[id] := item] && v.Mirrored()
  {
    hide ItemsRecorded, RowsRecorded, Keep, ShowsPage, LaidOut, DataFrom, Sifted, Redrawn, Shows, IndexOk, MarkUpdated;
    hide Without, DataRows;
    AllPass(v);
    v.IndexedIsFound(id);
    ghost var was, k := v.items, v.idxById[id];
    IndexInBounds(v.idxById, was, id);
    UpdateRecorded(v.ledger, was, v.idxById, id, item, None, v.rows);
    KeepReplaced(v.filter, was, k, item);
    ok := v.UpdateItem(id, item);
    ghost var filtered := v.filteredItems;
    assert v.rows == DataRows(filtered);
    KeepInside(v.filter, v.items);
    ItemsOnRecord(v.ledger, v.items, filtered);
    if Passes(v.filter, item) {
      MarkedIsRedrawn(old(v.mirror), v.mirror, old(v.idxById), was, id, item);
    } else {
      RestIsRedrawn(old(v.mirror), v.mirror, old(v.idxById), was, id, item);
    }
  }

  /** The row of an updated item is reported, the others are as they were. */
  lemma MarkedIsRedrawn(mirror: seq<Option<Row>>, mirror': seq<Option<Row>>, m: Index, was: seq<Item>, id: string,
                        item: Item)
    requires IndexOk(m, was) && id in m && item.id == Some(id) && Shows(mirror, DataRows(was))
    requires var rows := DataRows(was[m[id] := item]);
             Redrawn(mirror, mirror', false, NO_HINTS, MarkUpdated(None, id), rows, rows)
    ensures Shows(mirror', DataRows(was[m[id] := item]))
  {
    var rows, updated := DataRows(was[m[id] := item]), MarkUpdated(None, id);
    var diff :|
      IsReport(false, NO_HINTS, updated, rows, rows, diff)
      && mirror' == Redraw(mirror, |rows|, rows, diff);
    assert Reported(false, NO_HINTS, updated, rows, rows, m[id]);
    forall i | 0 <= i < |rows| && i != m[id] ensures rows[i] == DataRows(was)[i] {
    }
  }

  lemma NextDiffers(m: Index, items: seq<Item>, i: nat)
    requires IndexOk(m, items) && i + 1 < |items|
    ensures items[i].id != items[i + 1].id
  {
  }

  lemma HasId(m: Index, items: seq<Item>, id: string)
    requires IndexOk(m, items) && id in m
    ensures m[id] < |items| && items[m[id]].id == Some(id)
  {
  }

  /** When the updated item goes, so do the rows behind it, and each differs from the row before. */
  lemma RestIsRedrawn(mirror: seq<Option<Row>>, mirror': seq<Option<Row>>, m: Index, was: seq<Item>, id: string,
                      item: Item)
    requires IndexOk(m, was) && id in m && item.id == Some(id) && Shows(mirror, DataRows(was))
    requires var k := m[id];
             Redrawn(mirror, mirror', false, NO_HINTS, MarkUpdated(None, id),
                     DataRows(was[k := item]), DataRows(Without(was, k)))
    ensures Shows(mirror', DataRows(Without(was, m[id])))
  {
    hide IndexOk, MarkUpdated, RowDiffs.Marked, Inherited;
    HasId(m, was, id);
    var k, updated := m[id], MarkUpdated(None, id);
    var rows, newRows := DataRows(was[k := item]), DataRows(Without(was, k));
    var diff :|
      IsReport(false, NO_HINTS, updated, rows, newRows, diff)
      && mirror' == Redraw(mirror, |rows|, newRows, diff);
    forall i | 0 <= i < |newRows| && i < k ensures newRows[i] == DataRows(was)[i] {
    }
    forall i | k <= i < |newRows| ensures Reported(false, NO_HINTS, updated, rows, newRows, i) {
      NextDiffers(m, was, i);
      assert newRows[i] == Data(was[i + 1]) && IdOf(rows[i]) == was[i].id;
    }
  }

  lemma ItemsOnRecord(ledger: map<string, int>, items: seq<Item>, some: seq<Item>)
    requires ItemsRecorded(ledger, items) && forall x :: x in some ==> x in items
    ensures RowsRecorded(ledger, None, DataRows(some))
  {
    forall i | 0 <= i < |some| ensures OnRecord(ledger, some[i]) {
      assert some[i] in items;
    }
  }

  // ---------- A session in which it happens ----------

  lemma {:induction false} KeepsAll(f: Filter, items: seq<Item>)
    requires forall x :: x in items ==> Passes(f, x)
    ensures Keep(f, items) == items
  {
    if items != [] {
      assert items[|items| - 1] in items;
      KeepsAll(f, items[..|items| - 1]);
    }
  }

  lemma {:induction false} DistinctAgree(items: seq<Item>)
    requires DistinctIds(items)
    ensures AllAgree(map[], items)
    ensures forall id :: id in Recorded(map[], items) ==> exists i :: 0 <= i < |items| && items[i].id == Some(id)
  {
    if items != [] {
      var front := items[..|items| - 1];
      DistinctAgree(front);
      forall id | id in Recorded(map[], items) ensures exists i :: 0 <= i < |items| && items[i].id == Some(id) {
        if id in Recorded(map[], front) {
          var i :| 0 <= i < |front| && front[i].id == Some(id);
          assert items[i].id == Some(id);
        } else {
          assert items[|items| - 1].id == Some(id);
        }
      }
    }
  }

  /** Everything is in order, nothing is pending, and nothing is grouped. */
  ghost predicate Calm(v: View, data: seq<Item>)
    reads v
  {
    && v.Valid() && v.Synced() && v.Mirrored() && IndexOk(v.idxById, v.items)
    && !v.suspend && v.collapse.infos == [] && v.refreshHints == NO_HINTS && v.updated == None
    && v.lastFilter == v.filter && !v.touched && v.items == data && v.ledger == Recorded(map[], data)
  }

  method Begin(data: seq<Item>) returns (v: View)
    requires DistinctIds(data)
    ensures fresh(v) && Calm(v, data) && v.filter == Filter(None, 0)
  {
    hide ItemsRecorded, RowsRecorded, Shows, IndexOk, ShowsPage, LaidOut, DataFrom, Sifted, Redrawn, FilterSynced;
    hide Keep, Recorded;
    v := new View();
    DistinctAgree(data);
    var ok := v.SetItems(data);
  }

  /** Paging without a filter: the filtered items are the items. */
  method PageUnfiltered(v: View, ghost data: seq<Item>)
    requires Calm(v, data) && v.filter == Filter(None, 0)
    modifies v
    ensures Calm(v, data) && v.filter == Filter(None, 0) && v.pagesize == 10 && v.filteredIsItems
  {
    hide ItemsRecorded, RowsRecorded, Shows, IndexOk, ShowsPage, LaidOut, DataFrom, Sifted, Redrawn, FilterSynced;
    hide Keep, Recorded;
    var ok := v.SetPaging(Some(10), None);
  }

  /** A filter that lets everything pass is set, truly as "unchanged": the array stays. */
  method SetIdleFilter(v: View, ghost data: seq<Item>)
    requires Calm(v, data) && v.filter == Filter(None, 0) && v.pagesize == 10 && v.filteredIsItems
    modifies v
    ensures Calm(v, data) && v.filter == Filter(Some((x, a) => true), 0) && v.pagesize == 10 && v.filteredIsItems
  {
    hide ItemsRecorded, RowsRecorded, Shows, IndexOk, ShowsPage, LaidOut, DataFrom, Sifted, Redrawn, FilterSynced;
    hide Keep, Recorded;
    v.SetRefreshHints(UNCHANGED);
    var ok := v.SetFilter(Some((x, a) => true));
  }

  /** Paging ends, with the same true hint: the rows are the items now. */
  method EndPaging(v: View, ghost data: seq<Item>)
    requires Calm(v, data) && v.filter.test.Some? && v.filteredIsItems
    modifies v
    ensures Calm(v, data) && v.filter == old(v.filter) && v.pagesize == 0 && v.rowsIsItems && v.filteredIsItems
  {
    hide ItemsRecorded, RowsRecorded, Shows, IndexOk, ShowsPage, LaidOut, DataFrom, Sifted, Redrawn, FilterSynced;
    hide Keep, Recorded;
    v.SetRefreshHints(UNCHANGED);
    var ok := v.SetPaging(Some(0), None);
  }

  /** Then any new item is displayed, and the mirror never hears of it. */
  method StaleMirror(data: seq<Item>, item: Item) returns (v: View)
    requires DistinctIds(data + [item])
    ensures fresh(v) && v.items == data + [item] && v.rows == DataRows(data + [item]) && !Shows(v.mirror, v.rows)
  {
    hide ItemsRecorded, RowsRecorded, IndexOk, DistinctIds, Agrees, Recorded, Indexable, Shows, Keep, FilterSynced;
    hide ShowsPage, LaidOut, DataFrom, Sifted;
    FrontIsDistinct(data, item);
    v := Begin(data);
    PageUnfiltered(v, data);
    SetIdleFilter(v, data);
    EndPaging(v, data);
    LastIsNewcomer(data, item, v.idxById);
    var ok := AddToShared(v, item);
    KeepsAll(v.filter, v.items);
  }

  lemma FrontIsDistinct(data: seq<Item>, item: Item)
    requires DistinctIds(data + [item])
    ensures DistinctIds(data)
  {
    var more := data + [item];
    assert forall i :: 0 <= i < |data| ==> data[i] == more[i];
  }

  lemma LastIsNewcomer(data: seq<Item>, item: Item, m: Index)
    requires DistinctIds(data + [item]) && IndexOk(m, data)
    ensures Indexable(m, item) && Agrees(Recorded(map[], data), item)
  {
    var more := data + [item];
    assert forall i :: 0 <= i < |data| ==> data[i] == more[i];
    assert more[|data|] == item;
    DistinctAgree(data);
  }
}

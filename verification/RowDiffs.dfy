/** Comparing the displayed rows before and after a refresh, and what a mirror of them needs. */
module RowDiffs {
  import opened Wrappers
  import opened SlickCore
  import opened Filtering
  import opened IdIndex

  /** `row[idProperty]`: groups and totals have none. */
  function IdOf(row: Row): Option<string> {
    if row.Data? then row.item.id else None
  }

  /** `updated`: `null`, or an object with a property for each updated id. */
  type Updates = Option<set<string>>

  /** `updated[id] = true`, on a new object if there is none. */
  function MarkUpdated(updated: Updates, id: string): Updates {
    Some((if updated.Some? then updated.value else {}) + {id})
  }

  /** `updated && updated[id]`; an absent id is looked up under its name as a string. */
  predicate Marked(updated: Updates, id: Option<string>) {
    && updated.Some?
    && var name := if id.Some? then id.value else "undefined";
       name in updated.value || Inherited(name)
  }

  /** The test `getRowDiffs` makes on a new row and the old one at its index. */
  predicate Differs(grouping: bool, updated: Updates, item: Row, r: Row) {
    var eitherIsNonData := grouping && (!item.Data? || !r.Data?);
    || (eitherIsNonData && item.Header? != r.Header?)
    || (item.Header? && !(r.Header? && item.group.EqualTo(r.group)))
    || (eitherIsNonData && (item.Totals? || r.Totals?))
    || IdOf(item) != IdOf(r)
    || Marked(updated, IdOf(item))
  }

  function DiffFrom(h: Hints, n: nat): nat {
    if h.ignoreDiffsBefore == 0 then 0
    else if h.ignoreDiffsBefore < 0 then 0 else if h.ignoreDiffsBefore < n then h.ignoreDiffsBefore else n
  }

  function DiffTo(h: Hints, n: nat): nat {
    if h.ignoreDiffsAfter == 0 then n
    else if h.ignoreDiffsAfter < 0 then 0 else if h.ignoreDiffsAfter < n then h.ignoreDiffsAfter else n
  }

  ghost predicate Reported(grouping: bool, h: Hints, updated: Updates, rows: seq<Row>, newRows: seq<Row>, i: nat)
    requires i < |newRows|
  {
    DiffFrom(h, |newRows|) <= i < DiffTo(h, |newRows|)
    && (i >= |rows| || Differs(grouping, updated, newRows[i], rows[i]))
  }

  ghost predicate IsReport(grouping: bool, h: Hints, updated: Updates, rows: seq<Row>, newRows: seq<Row>,
                           diff: seq<nat>) {
    && (forall i :: i in diff <==> 0 <= i < |newRows| && Reported(grouping, h, updated, rows, newRows, i))
    && (forall j, k :: 0 <= j < k < |diff| ==> diff[j] < diff[k])
  }

  method GetRowDiffs(grouping: bool, h: Hints, updated: Updates, rows: seq<Row>, newRows: seq<Row>)
    returns (diff: seq<nat>)
    ensures IsReport(grouping, h, updated, rows, newRows, diff)
    ensures forall j, k :: 0 <= j < k < |diff| ==> diff[j] < diff[k] < |newRows|
  {
    diff := [];
    var from, to := DiffFrom(h, |newRows|), DiffTo(h, |newRows|);
    var i := from;
    while i < to
      invariant from <= i && (i <= to || i == from)
      invariant forall j :: 0 <= j < |diff| ==> diff[j] < i
      invariant forall k :: 0 <= k < |newRows| && k < i ==>
                  (k in diff <==> Reported(grouping, h, updated, rows, newRows, k))
      invariant forall k :: k in diff ==> 0 <= k < |newRows|
      invariant forall j, k :: 0 <= j < k < |diff| ==> diff[j] < diff[k]
    {
      ghost var before := diff;
      if i >= |rows| {
        diff := diff + [i];
      } else if Differs(grouping, updated, newRows[i], rows[i]) {
        diff := diff + [i];
      }
      assert forall k :: k in diff <==> k in before || (k == i && Reported(grouping, h, updated, rows, newRows, i));
      i := i + 1;
    }
  }

  // ---------- Exactly which rows are reported ----------

  /** The two groups show alike. */
  predicate SameHeader(g: Group, r: Group) {
    g.value == r.value && g.count == r.count && g.collapsed == r.collapsed && g.title == r.title
  }

  /** Nothing was updated under this name, and it is none that every object inherits. */
  predicate Untouched(updated: Updates, name: string) {
    updated.Some? ==> name !in updated.value && !Inherited(name)
  }

  /**
   The rows `getRowDiffs` takes for the same: two data rows with one id, two headers alike.
   With grouping on, totals are never the same, nor are rows of two kinds. A row without id
   goes by the name "undefined".
   */
  predicate TakenForSame(grouping: bool, updated: Updates, item: Row, r: Row) {
    match item
    case Data(x) =>
      && (match r case Data(y) => x.id == y.id case _ => !grouping && x.id.None?)
      && Untouched(updated, if x.id.Some? then x.id.value else "undefined")
    case Header(g) => r.Header? && SameHeader(g, r.group) && Untouched(updated, "undefined")
    case Totals(_) => !grouping && (r.Data? ==> r.item.id.None?) && Untouched(updated, "undefined")
  }

  /**
   A row is reported exactly if the hints do not exclude its index and there was no row at it or
   one not taken for the same.
   */
  lemma ReportIsExact(grouping: bool, h: Hints, updated: Updates, rows: seq<Row>, newRows: seq<Row>, diff: seq<nat>,
                      i: nat)
    requires IsReport(grouping, h, updated, rows, newRows, diff) && i < |newRows|
    ensures i in diff <==>
              && h.ignoreDiffsBefore <= i && (h.ignoreDiffsAfter == 0 || i < h.ignoreDiffsAfter)
              && (i < |rows| ==> !TakenForSame(grouping, updated, newRows[i], rows[i]))
  {
    if i < |rows| {
      assert Differs(grouping, updated, newRows[i], rows[i]) <==> !TakenForSame(grouping, updated, newRows[i], rows[i]);
    }
  }

  /** Refreshing rows in which nothing was updated, grouped or not, reports totals rows and nothing else. */
  lemma UnchangedRowsSame(grouping: bool, h: Hints, rows: seq<Row>, diff: seq<nat>, i: nat)
    requires IsReport(grouping, h, None, rows, rows, diff) && i < |rows| && i in diff
    ensures grouping && rows[i].Totals?
  {
    ReportIsExact(grouping, h, None, rows, rows, diff, i);
  }

  // ---------- A mirror of the rows ----------

  /** Equal as far as the grid can tell: of groups it shows no more than `SameHeader` compares. */
  predicate Same(a: Row, b: Row) {
    if a.Header? && b.Header? then SameHeader(a.group, b.group) else a == b
  }

  /** A mirror, blank where nothing was drawn yet, shows these rows. */
  ghost predicate Shows(mirror: seq<Option<Row>>, rows: seq<Row>) {
    |mirror| == |rows| && forall i :: 0 <= i < |rows| ==> mirror[i].Some? && Same(mirror[i].value, rows[i])
  }

  /** A listener resizes its mirror when the row count is said to change, and redraws only the reported rows. */
  function Redraw(mirror: seq<Option<Row>>, countBefore: nat, newRows: seq<Row>, diff: seq<nat>): (r: seq<Option<Row>>)
    ensures |r| == if countBefore != |newRows| then |newRows| else |mirror|
    ensures forall i :: 0 <= i < |r| ==>
              r[i] == if i in diff && i < |newRows| then Some(newRows[i]) else if i < |mirror| then mirror[i] else None
  {
    var size := if countBefore != |newRows| then |newRows| else |mirror|;
    seq(size, i requires 0 <= i < size =>
      if i in diff && i < |newRows| then Some(newRows[i]) else if i < |mirror| then mirror[i] else None)
  }

  /** The mirror is redrawn from a report on the rows before and after. */
  ghost predicate Redrawn(mirror: seq<Option<Row>>, mirror': seq<Option<Row>>, grouping: bool, h: Hints,
                          updated: Updates, rows: seq<Row>, newRows: seq<Row>)
  {
    exists diff ::
      IsReport(grouping, h, updated, rows, newRows, diff)
      && mirror' == Redraw(mirror, |rows|, newRows, diff)
  }

  /** Every content shown or held under an id is the one on record, unless the id is marked as updated. */
  ghost predicate OnRecord(ledger: map<string, int>, item: Item) {
    item.id.Some? && item.id.value in ledger && ledger[item.id.value] == item.content
  }

  /** A row left out of the report is the same as before. */
  lemma UnreportedIsSame(grouping: bool, updated: Updates, ledger: map<string, int>, item: Row, r: Row)
    requires !Differs(grouping, updated, item, r)
    requires item.Data? ==> OnRecord(ledger, item.item)
    requires r.Data? ==> r.item.id.Some? && (OnRecord(ledger, r.item) || Marked(updated, r.item.id))
    requires !grouping ==> item.Data?
    ensures Same(r, item)
  {
  }

  /** All contents shown are on record ... */
  ghost predicate DataOnRecord(ledger: map<string, int>, rows: seq<Row>) {
    forall i :: 0 <= i < |rows| && rows[i].Data? ==> OnRecord(ledger, rows[i].item)
  }

  /** ... or were, before their id was marked as updated. */
  ghost predicate RowsRecorded(ledger: map<string, int>, updated: Updates, rows: seq<Row>) {
    forall i :: 0 <= i < |rows| && rows[i].Data? ==>
      rows[i].item.id.Some? && (OnRecord(ledger, rows[i].item) || Marked(updated, rows[i].item.id))
  }

  ghost predicate AllData(rows: seq<Row>) {
    forall i :: 0 <= i < |rows| ==> rows[i].Data?
  }

  /**
   Redrawing only what is reported keeps the mirror true, when no part of the report is
   suppressed and contents change only for ids marked as updated.
   */
  lemma MirrorStaysTrue(grouping: bool, h: Hints, updated: Updates, ledger: map<string, int>,
                        mirror: seq<Option<Row>>, rows: seq<Row>, newRows: seq<Row>, diff: seq<nat>)
    requires Shows(mirror, rows) && h.ignoreDiffsBefore == 0 == h.ignoreDiffsAfter
    requires IsReport(grouping, h, updated, rows, newRows, diff)
    requires DataOnRecord(ledger, newRows) && RowsRecorded(ledger, updated, rows) && (!grouping ==> AllData(newRows))
    ensures Shows(Redraw(mirror, |rows|, newRows, diff), newRows)
    ensures RowsRecorded(ledger, None, newRows)
  {
    forall i | 0 <= i < |newRows| && i !in diff ensures i < |rows| && Same(rows[i], newRows[i]) {
      assert !Reported(grouping, h, updated, rows, newRows, i);
      UnreportedIsSame(grouping, updated, ledger, newRows[i], rows[i]);
    }
  }
}

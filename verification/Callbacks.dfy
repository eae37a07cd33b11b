/**
 One `jQuery.Callbacks` list in use. What a running callback does to the list is a
 script: a finite run of calls on the same list, chosen anew for every invocation.
 */
module Callbacks {
  import opened Wrappers
  import opened Histories
  import opened CallbackState

  /** One addition of a function; the code looks at `fn` only, `serial` tells additions apart. */
  datatype Entry = Entry(fn: nat, serial: nat)

  datatype Call = Call(entry: Entry, data: Data)

  datatype Action = DoAdd(fns: seq<nat>) | DoRemove(fns: seq<nat>) | DoFire(data: Data) | DoLock | DoDisable

  // ---------- Additions, and those removed before their turn ----------

  function Without(entries: seq<Entry>, fn: nat): seq<Entry> {
    if entries == [] then []
    else if entries[0].fn == fn then Without(entries[1..], fn)
    else [entries[0]] + Without(entries[1..], fn)
  }

  function WithoutAll(entries: seq<Entry>, fns: seq<nat>): seq<Entry> {
    if fns == [] then entries else Without(WithoutAll(entries, fns[..|fns| - 1]), fns[|fns| - 1])
  }

  /** The additions that were not dropped, in order of addition. */
  function Survivors(added: seq<Entry>, dropped: set<nat>): seq<Entry> {
    if added == [] then []
    else if added[0].serial in dropped then Survivors(added[1..], dropped)
    else [added[0]] + Survivors(added[1..], dropped)
  }

  ghost function Serials(entries: seq<Entry>, fn: nat): set<nat> {
    set e | e in entries && e.fn == fn :: e.serial
  }

  function EntriesOf(calls: seq<Call>): (r: seq<Entry>)
    ensures |r| == |calls| && forall i :: 0 <= i < |calls| ==> r[i] == calls[i].entry
  {
    seq(|calls|, i requires 0 <= i < |calls| => calls[i].entry)
  }

  function CallsOf(entries: seq<Entry>, data: Data): (r: seq<Call>)
    ensures |r| == |entries| && forall i :: 0 <= i < |r| ==> r[i] == Call(entries[i], data)
  {
    seq(|entries|, i requires 0 <= i < |entries| => Call(entries[i], data))
  }

  lemma CallsGrow(entries: seq<Entry>, from: nat, i: nat, data: Data)
    requires from <= i < |entries|
    ensures CallsOf(entries[from..i], data) + [Call(entries[i], data)] == CallsOf(entries[from..i + 1], data)
  {
  }

  function Entries(fns: seq<nat>, serial: nat): (r: seq<Entry>)
    ensures |r| == |fns| && forall i :: 0 <= i < |r| ==> r[i] == Entry(fns[i], serial + i)
  {
    if fns == [] then [] else [Entry(fns[0], serial)] + Entries(fns[1..], serial + 1)
  }

  lemma PutFirst(e: Entry, a: seq<Entry>, b: seq<Entry>)
    ensures [e] + a + b == [e] + (a + b)
  {
  }

  lemma {:induction false} WithoutConcat(a: seq<Entry>, b: seq<Entry>, fn: nat)
    ensures Without(a + b, fn) == Without(a, fn) + Without(b, fn)
  {
    if a == [] {
      assert a + b == b;
    } else {
      var c := a + b;
      assert c[0] == a[0] && c[1..] == a[1..] + b;
      WithoutConcat(a[1..], b, fn);
      PutFirst(a[0], Without(a[1..], fn), Without(b, fn));
    }
  }

  lemma {:induction false} WithoutNone(a: seq<Entry>, fn: nat)
    requires forall i :: 0 <= i < |a| ==> a[i].fn != fn
    ensures Without(a, fn) == a
  {
    if a != [] {
      WithoutNone(a[1..], fn);
    }
  }

  lemma {:induction false} SurvivorsConcat(a: seq<Entry>, b: seq<Entry>, dropped: set<nat>)
    ensures Survivors(a + b, dropped) == Survivors(a, dropped) + Survivors(b, dropped)
  {
    if a == [] {
      assert a + b == b;
    } else {
      var c := a + b;
      assert c[0] == a[0] && c[1..] == a[1..] + b;
      SurvivorsConcat(a[1..], b, dropped);
      PutFirst(a[0], Survivors(a[1..], dropped), Survivors(b, dropped));
    }
  }

  lemma {:induction false} SurvivorsAll(a: seq<Entry>, dropped: set<nat>)
    requires forall i :: 0 <= i < |a| ==> a[i].serial !in dropped
    ensures Survivors(a, dropped) == a
  {
    if a != [] {
      SurvivorsAll(a[1..], dropped);
    }
  }

  lemma {:induction false} SurvivorsTwice(a: seq<Entry>, d: set<nat>, e: set<nat>)
    ensures Survivors(a, d + e) == Survivors(Survivors(a, d), e)
  {
    if a != [] {
      SurvivorsTwice(a[1..], d, e);
    }
  }

  ghost predicate Distinct(a: seq<Entry>) {
    forall i, j :: 0 <= i < j < |a| ==> a[i].serial != a[j].serial
  }

  lemma {:induction false} SurvivorsDistinct(a: seq<Entry>, dropped: set<nat>)
    requires Distinct(a)
    ensures Distinct(Survivors(a, dropped))
    ensures forall e :: e in Survivors(a, dropped) ==> e in a
  {
    if a != [] {
      SurvivorsDistinct(a[1..], dropped);
      var rest := Survivors(a[1..], dropped);
      forall i | 0 <= i < |rest| ensures rest[i].serial != a[0].serial {
        assert rest[i] in a[1..];
      }
    }
  }

  lemma {:induction false} DropBySerial(w: seq<Entry>, fn: nat, dropped: set<nat>)
    requires forall e :: e in w ==> (e.serial in dropped <==> e.fn == fn)
    ensures Survivors(w, dropped) == Without(w, fn)
  {
    if w != [] {
      assert w[0] in w;
      DropBySerial(w[1..], fn, dropped);
    }
  }

  /** Removing a function from those still waiting is the same as dropping those additions. */
  lemma RemoveDrops(added: seq<Entry>, dropped: set<nat>, ran: seq<Entry>, waiting: seq<Entry>, fn: nat)
    requires Distinct(added) && ran + waiting == Survivors(added, dropped)
    ensures ran + Without(waiting, fn) == Survivors(added, dropped + Serials(waiting, fn))
  {
    var gone := Serials(waiting, fn);
    SurvivorsDistinct(added, dropped);
    var all := ran + waiting;
    assert Distinct(all);
    forall i, j | 0 <= i < |ran| && 0 <= j < |waiting| ensures ran[i].serial != waiting[j].serial {
      assert all[i].serial != all[|ran| + j].serial;
    }
    forall i, j | 0 <= i < j < |waiting| ensures waiting[i].serial != waiting[j].serial {
      assert all[|ran| + i].serial != all[|ran| + j].serial;
    }
    SurvivorsTwice(added, dropped, gone);
    SurvivorsConcat(ran, waiting, gone);
    SurvivorsAll(ran, gone);
    DropBySerial(waiting, fn, gone);
  }

  /** The surviving additions are those called, in order, followed by `waiting`; all calls had `data`. */
  ghost predicate Accounted(added: seq<Entry>, dropped: set<nat>, calls: seq<Call>, data: Data, waiting: seq<Entry>) {
    && Numbered(added) && (forall s :: s in dropped ==> s < |added|)
    && EntriesOf(calls) + waiting == Survivors(added, dropped)
    && forall i :: 0 <= i < |calls| ==> calls[i].data == data
  }

  ghost predicate Numbered(added: seq<Entry>) {
    forall i :: 0 <= i < |added| ==> added[i].serial == i
  }

  /** Before the first fire any data will do. */
  lemma AccountStarts(added: seq<Entry>, dropped: set<nat>, data: Data, waiting: seq<Entry>, data': Data)
    requires Accounted(added, dropped, [], data, waiting)
    ensures Accounted(added, dropped, [], data', waiting)
  {
  }

  lemma AccountGrows(added: seq<Entry>, dropped: set<nat>, calls: seq<Call>, data: Data, waiting: seq<Entry>,
                     fns: seq<nat>)
    requires Accounted(added, dropped, calls, data, waiting)
    ensures Accounted(added + Entries(fns, |added|), dropped, calls, data, waiting + Entries(fns, |added|))
  {
    var entries := Entries(fns, |added|);
    SurvivorsConcat(added, entries, dropped);
    SurvivorsAll(entries, dropped);
    assert EntriesOf(calls) + (waiting + entries) == EntriesOf(calls) + waiting + entries;
  }

  lemma AccountCalls(added: seq<Entry>, dropped: set<nat>, calls: seq<Call>, data: Data, waiting: seq<Entry>)
    requires Accounted(added, dropped, calls, data, waiting) && waiting != []
    ensures Accounted(added, dropped, calls + [Call(waiting[0], data)], data, waiting[1..])
  {
    assert EntriesOf(calls + [Call(waiting[0], data)]) + waiting[1..] == EntriesOf(calls) + waiting;
  }

  lemma AccountDrops(added: seq<Entry>, dropped: set<nat>, calls: seq<Call>, data: Data, waiting: seq<Entry>, fn: nat)
    requires Accounted(added, dropped, calls, data, waiting)
    ensures Accounted(added, dropped + Serials(waiting, fn), calls, data, Without(waiting, fn))
  {
    RemoveDrops(added, dropped, EntriesOf(calls), waiting, fn);
    SurvivorsDistinct(added, dropped);
    forall e | e in waiting ensures e.serial < |added| {
      assert e in EntriesOf(calls) + waiting;
    }
  }

  // ---------- One fire ----------

  /**
   One run of the loop of `fire`: the entries it found and those added meanwhile, those removed
   before their turn, the invocations. `replay` says that `add` fired again what is remembered.
   */
  datatype Turn = Turn(entries: seq<Entry>, dropped: set<nat>, calls: seq<Call>, data: Data, replay: bool)

  /** The entries not dropped are those called, in order and with the data, followed by `waiting`. */
  ghost predicate Served(t: Turn, waiting: seq<Entry>, serial: nat) {
    && WellNumbered(t.entries, serial) && (forall s :: s in t.dropped ==> s < serial)
    && EntriesOf(t.calls) + waiting == Survivors(t.entries, t.dropped)
    && forall i :: 0 <= i < |t.calls| ==> t.calls[i].data == t.data
  }

  ghost predicate WellNumbered(entries: seq<Entry>, serial: nat) {
    Distinct(entries) && forall i :: 0 <= i < |entries| ==> entries[i].serial < serial
  }

  /** Every entry not dropped was called, once, in order and with the data, and nothing else was. */
  ghost predicate Complete(t: Turn) {
    && Distinct(t.entries) && EntriesOf(t.calls) == Survivors(t.entries, t.dropped)
    && forall i :: 0 <= i < |t.calls| ==> t.calls[i].data == t.data
  }

  ghost predicate AllComplete(ts: seq<Turn>) {
    forall i :: 0 <= i < |ts| ==> Complete(ts[i])
  }

  ghost function CallsIn(ts: seq<Turn>): seq<Call> {
    if ts == [] then [] else CallsIn(ts[..|ts| - 1]) + ts[|ts| - 1].calls
  }

  /** The same fire, later. */
  predicate TurnGoesOn(t: Turn, u: Turn) {
    u.data == t.data && u.replay == t.replay && t.entries <= u.entries
  }

  /** The data of the fires that were asked for. */
  ghost function DataIn(ts: seq<Turn>): seq<Data> {
    if ts == [] then []
    else DataIn(ts[..|ts| - 1]) + if ts[|ts| - 1].replay then [] else [ts[|ts| - 1].data]
  }

  /** Every replay has the data of the last fire before it that was asked for. */
  ghost predicate ReplaysRight(ts: seq<Turn>) {
    forall i :: 0 <= i < |ts| && ts[i].replay ==> LastIs(DataIn(ts[..i]), ts[i].data)
  }

  predicate LastIs(ds: seq<Data>, data: Data) {
    ds != [] && ds[|ds| - 1] == data
  }

  lemma LastTurn(ts: seq<Turn>, t: Turn)
    ensures CallsIn(ts + [t]) == CallsIn(ts) + t.calls
    ensures DataIn(ts + [t]) == DataIn(ts) + if t.replay then [] else [t.data]
    ensures ReplaysRight(ts + [t]) <==> ReplaysRight(ts) && (t.replay ==> LastIs(DataIn(ts), t.data))
  {
    assert (ts + [t])[..|ts|] == ts;
    forall i | 0 <= i < |ts| ensures (ts + [t])[..i] == ts[..i] && (ts + [t])[i] == ts[i] {
    }
    if ReplaysRight(ts + [t]) {
      assert (ts + [t])[|ts|] == t;
      forall i | 0 <= i < |ts| && ts[i].replay ensures LastIs(DataIn(ts[..i]), ts[i].data) {
        assert (ts + [t])[i].replay;
      }
    }
  }

  lemma ServedStarts(entries: seq<Entry>, serial: nat, data: Data, replay: bool)
    requires WellNumbered(entries, serial)
    ensures Served(Turn(entries, {}, [], data, replay), entries, serial)
  {
    SurvivorsAll(entries, {});
    assert EntriesOf([]) + entries == entries;
  }

  lemma ServedGrows(t: Turn, waiting: seq<Entry>, serial: nat, fns: seq<nat>)
    requires Served(t, waiting, serial)
    ensures Served(t.(entries := t.entries + Entries(fns, serial)), waiting + Entries(fns, serial), serial + |fns|)
  {
    hide WellNumbered, Survivors, Entries, EntriesOf;
    var entries := Entries(fns, serial);
    NumberedMore(t.entries, serial, fns);
    SurvivorsConcat(t.entries, entries, t.dropped);
    SurvivorsAll(entries, t.dropped);
    assert EntriesOf(t.calls) + (waiting + entries) == EntriesOf(t.calls) + waiting + entries;
  }

  lemma ServedCalls(t: Turn, waiting: seq<Entry>, serial: nat)
    requires Served(t, waiting, serial) && waiting != []
    ensures Served(t.(calls := t.calls + [Call(waiting[0], t.data)]), waiting[1..], serial)
  {
    assert EntriesOf(t.calls + [Call(waiting[0], t.data)]) + waiting[1..] == EntriesOf(t.calls) + waiting;
  }

  lemma ServedDrops(t: Turn, waiting: seq<Entry>, serial: nat, fn: nat)
    requires Served(t, waiting, serial)
    ensures Served(t.(dropped := t.dropped + Serials(waiting, fn)), Without(waiting, fn), serial)
  {
    RemoveDrops(t.entries, t.dropped, EntriesOf(t.calls), waiting, fn);
    SurvivorsDistinct(t.entries, t.dropped);
    forall e | e in waiting ensures e.serial < serial {
      assert e in EntriesOf(t.calls) + waiting;
      assert e in t.entries;
    }
  }

  lemma ServedEnds(t: Turn, serial: nat)
    requires Served(t, [], serial)
    ensures Complete(t)
  {
    assert EntriesOf(t.calls) + [] == EntriesOf(t.calls);
  }

  lemma NumberedTail(entries: seq<Entry>, from: nat, serial: nat)
    requires WellNumbered(entries, serial) && from <= |entries|
    ensures WellNumbered(entries[from..], serial)
  {
  }

  lemma NumberedMore(entries: seq<Entry>, serial: nat, fns: seq<nat>)
    requires WellNumbered(entries, serial)
    ensures WellNumbered(entries + Entries(fns, serial), serial + |fns|)
  {
  }

  lemma {:induction false} NumberedLess(entries: seq<Entry>, serial: nat, fn: nat)
    requires WellNumbered(entries, serial)
    ensures WellNumbered(Without(entries, fn), serial)
    ensures forall e :: e in Without(entries, fn) ==> e in entries
  {
    if entries != [] {
      NumberedTail(entries, 1, serial);
      NumberedLess(entries[1..], serial, fn);
      var rest := Without(entries[1..], fn);
      forall i | 0 <= i < |rest| ensures rest[i].serial != entries[0].serial {
        assert rest[i] in entries[1..];
      }
    }
  }

  ghost predicate InQueue(begun: seq<Data>, accepted: seq<Data>, stack: Option<seq<Data>>) {
    begun <= accepted && (stack.Some? ==> accepted == begun + stack.value)
  }

  lemma QueueWithout(begun: seq<Data>, accepted: seq<Data>, stack: Option<seq<Data>>)
    requires InQueue(begun, accepted, stack)
    ensures InQueue(begun, accepted, None)
  {
  }

  /** The fires that are over, the one in progress, and what they make of all invocations. */
  datatype Book = Book(fires: seq<Turn>, turn: Turn, calls: seq<Call>, begun: seq<Data>, serial: nat)

  ghost function Turns(b: Book, firing: bool): seq<Turn> {
    if firing then b.fires + [b.turn] else b.fires
  }

  /** All invocations belong to fires; while the list is in use each of those is complete, or waits for `waiting`. */
  ghost predicate Balanced(b: Book, list: Option<seq<Entry>>, firing: bool, waiting: seq<Entry>) {
    && b.calls == CallsIn(Turns(b, firing)) && b.begun == DataIn(Turns(b, firing))
    && ReplaysRight(Turns(b, firing))
    && (list.Some? ==> WellNumbered(list.value, b.serial) && AllComplete(b.fires))
    && (list.Some? && firing ==> Served(b.turn, waiting, b.serial))
  }

  /** The entries a fire in progress still has to call. */
  ghost function LeftOf(list: Option<seq<Entry>>, firing: bool, index: int): seq<Entry> {
    if list.Some? && firing then Rest(list.value, true, index) else []
  }

  /** The entries whose turn has not come. */
  ghost function Rest(entries: seq<Entry>, firing: bool, index: int): seq<Entry> {
    if firing && -1 <= index < |entries| then entries[index + 1..] else entries
  }

  lemma BalancedWithout(b: Book, list: Option<seq<Entry>>, firing: bool, waiting: seq<Entry>)
    requires Balanced(b, list, firing, waiting)
    ensures Balanced(b, None, firing, [])
  {
  }

  lemma BalancedEmpty(b: Book, list: Option<seq<Entry>>)
    requires Balanced(b, list, false, [])
    ensures list.Some? ==> Balanced(b, Some([]), false, [])
  {
  }

  function Pushing(b: Book, firing: bool, entries: seq<Entry>): Book {
    b.(serial := b.serial + |entries|,
       turn := if firing then b.turn.(entries := b.turn.entries + entries) else b.turn)
  }

  lemma BalancedPush(b: Book, list: seq<Entry>, firing: bool, waiting: seq<Entry>, fns: seq<nat>)
    requires Balanced(b, Some(list), firing, waiting)
    ensures var entries := Entries(fns, b.serial);
            var left := if firing then waiting + entries else [];
            Balanced(Pushing(b, firing, entries), Some(list + entries), firing, left)
  {
    hide Served, WellNumbered, ReplaysRight, Entries;
    var entries := Entries(fns, b.serial);
    NumberedMore(list, b.serial, fns);
    if firing {
      ServedGrows(b.turn, waiting, b.serial, fns);
      LastTurn(b.fires, b.turn);
      LastTurn(b.fires, b.turn.(entries := b.turn.entries + entries));
    }
  }

  function Dropping(b: Book, firing: bool, gone: set<nat>): Book {
    b.(turn := if firing then b.turn.(dropped := b.turn.dropped + gone) else b.turn)
  }

  lemma BalancedDrop(b: Book, list: seq<Entry>, firing: bool, waiting: seq<Entry>, fn: nat)
    requires Balanced(b, Some(list), firing, waiting)
    ensures Balanced(Dropping(b, firing, Serials(waiting, fn)), Some(Without(list, fn)), firing, Without(waiting, fn))
  {
    hide Served, WellNumbered, ReplaysRight;
    NumberedLess(list, b.serial, fn);
    if firing {
      ServedDrops(b.turn, waiting, b.serial, fn);
      LastTurn(b.fires, b.turn);
      LastTurn(b.fires, b.turn.(dropped := b.turn.dropped + Serials(waiting, fn)));
    }
  }

  function Starting(b: Book, entries: seq<Entry>, data: Data, replay: bool): Book {
    b.(turn := Turn(entries, {}, [], data, replay), begun := if replay then b.begun else b.begun + [data])
  }

  lemma BalancedBegin(b: Book, list: seq<Entry>, start: nat, data: Data, replay: bool)
    requires Balanced(b, Some(list), false, []) && start <= |list| && (replay ==> LastIs(b.begun, data))
    ensures Balanced(Starting(b, list[start..], data, replay), Some(list), true, list[start..])
  {
    hide Served, WellNumbered, ReplaysRight;
    NumberedTail(list, start, b.serial);
    ServedStarts(list[start..], b.serial, data, replay);
    LastTurn(b.fires, Turn(list[start..], {}, [], data, replay));
  }

  function Calling(b: Book, call: Call): Book {
    b.(turn := b.turn.(calls := b.turn.calls + [call]), calls := b.calls + [call])
  }

  lemma BalancedCall(b: Book, list: seq<Entry>, waiting: seq<Entry>)
    requires Balanced(b, Some(list), true, waiting) && waiting != []
    ensures Balanced(Calling(b, Call(waiting[0], b.turn.data)), Some(list), true, waiting[1..])
  {
    hide Served, WellNumbered, ReplaysRight;
    ServedCalls(b.turn, waiting, b.serial);
    LastTurn(b.fires, b.turn);
    LastTurn(b.fires, b.turn.(calls := b.turn.calls + [Call(waiting[0], b.turn.data)]));
  }

  lemma BalancedEnd(b: Book, list: Option<seq<Entry>>)
    requires Balanced(b, list, true, [])
    ensures Balanced(b.(fires := b.fires + [b.turn]), list, false, [])
  {
    hide Served, WellNumbered;
    if list.Some? { ServedEnds(b.turn, b.serial); }
  }

  /** `jQuery.inArray(fn, entries, from)`. */
  function InArray(entries: seq<Entry>, fn: nat, from: nat): (i: int)
    requires from <= |entries|
    ensures i == -1 || (from <= i < |entries| && entries[i].fn == fn)
    ensures forall k :: from <= k < (if i < 0 then |entries| else i) ==> entries[k].fn != fn
    decreases |entries| - from
  {
    if from == |entries| then -1 else if entries[from].fn == fn then from else InArray(entries, fn, from + 1)
  }

  lemma WithoutSplice(entries: seq<Entry>, i: nat, fn: nat)
    requires i < |entries| && entries[i].fn == fn
    ensures Without(entries[..i] + entries[i + 1..], fn) == Without(entries, fn)
  {
    WithoutConcat(entries[..i], entries[i + 1..], fn);
    WithoutConcat(entries[..i], [entries[i]] + entries[i + 1..], fn);
    assert entries == entries[..i] + ([entries[i]] + entries[i + 1..]);
  }

  /** Cutting one occurrence of `fn` out of a list, and what is then left from a position on. */
  lemma CutTail(entries: seq<Entry>, i: nat, from: nat, fn: nat)
    requires i < |entries| && entries[i].fn == fn && from <= |entries|
    ensures var rest := entries[..i] + entries[i + 1..];
            Without(rest[if i < from then from - 1 else from..], fn) == Without(entries[from..], fn)
  {
    var rest := entries[..i] + entries[i + 1..];
    if i < from {
      assert rest[from - 1..] == entries[from..];
    } else {
      var tail := entries[from..];
      assert rest[from..] == tail[..i - from] + tail[i - from + 1..];
      WithoutSplice(tail, i - from, fn);
    }
  }

  class CallbackList {
    const once: bool
    const remember: bool
    var list: Option<seq<Entry>>
    var stack: Option<seq<Data>>
    var memory: Option<Data>
    var fired: bool
    var firing: bool
    var firingIndex: int
    var firingLength: int
    var firingStart: nat

    /** The serial of the next addition, and what the coming invocations will do. */
    var serial: nat
    var script: seq<seq<Action>>

    /** History: every addition, those removed before their turn, every invocation, the first fire. */
    ghost var added: seq<Entry>
    ghost var dropped: set<nat>
    ghost var calls: seq<Call>
    ghost var first: Option<Data>
    /** The data of every `fireWith` that was accepted, and of those among them that have begun. */
    ghost var accepted: seq<Data>
    ghost var begun: seq<Data>
    /** The fires that are over, and the one in progress. */
    ghost var fires: seq<Turn>
    ghost var turn: Turn
    /** What callbacks have done. */
    ghost var performed: seq<Action>

    ghost function View(): ListState<Entry>
      reads this
    {
      ListState(list, stack, memory, fired, firing, firingIndex, firingLength, firingStart)
    }

    ghost predicate InBounds()
      reads this
    {
      list.Some? && firing ==> firingLength == |list.value| && -1 <= firingIndex < |list.value|
    }

    /** The entries whose turn has not come. */
    ghost function Waiting(): seq<Entry>
      requires list.Some? && InBounds()
      reads this
    {
      Rest(list.value, firing, firingIndex)
    }

    ghost function Given(): Data
      reads this
    {
      if first.Some? then first.value else Data(0, [])
    }

    /** Whether this is a "once memory" list still in use. */
    predicate Promising()
      reads this
    {
      once && remember && list.Some?
    }

    ghost predicate Owes(waiting: seq<Entry>)
      reads this
    {
      Promising() ==> Accounted(added, dropped, calls, Given(), waiting)
    }

    /** What holds between the steps of a fire as well, apart from the account. */
    ghost predicate Consistent()
      reads this
    {
      && serial == |added|
      && (once ==> stack.None?)
      && (list.None? ==> stack.None? && memory.None?)
      && (firing ==> fired) && (fired ==> first.Some?)
      && (!fired ==> memory.None? && first.None? && calls == [])
      && (fired <==> begun != [])
      && (if remember && list.Some? && fired then memory.Some? && LastIs(begun, memory.value) else memory.None?)
      && (Promising() ==> memory == first)
    }

    /** With `b` begun, what else was accepted waits on the stack, in order, unless the stack is gone. */
    ghost predicate Queued(b: seq<Data>)
      reads this
    {
      InQueue(b, accepted, stack)
    }

    ghost function Record(): Book
      reads this
    {
      Book(fires, turn, calls, begun, serial)
    }

    ghost function Left(): seq<Entry>
      reads this
    {
      LeftOf(list, firing, firingIndex)
    }

    ghost predicate Valid()
      reads this
    {
      Sound() && (!firing && fired && stack.None? && list.Some? ==> remember && (once ==> list.value == []))
    }

    /** What holds also in the middle of locking a list without memory. */
    ghost predicate Sound()
      reads this
    {
      && Balanced(Record(), list, firing, Left())
      && Consistent() && InBounds() && firingStart == 0
      && Queued(begun) && (!fired ==> accepted == []) && (!firing && stack.Some? ==> stack.value == [])
      && (list.Some? ==> Owes(Waiting()))
    }

    constructor (once: bool, remember: bool, script: seq<seq<Action>>)
      ensures Valid() && View() == Fresh(once)
      ensures list == Some([]) && (stack.Some? <==> !once) && memory.None? && !fired && !firing
      ensures this.once == once && this.remember == remember && this.script == script
      ensures added == [] && dropped == {} && calls == [] && accepted == [] && begun == [] && fires == []
    {
      this.once, this.remember, this.script := once, remember, script;
      list, stack, memory := Some([]), if once then None else Some([]), None;
      fired, firing, firingIndex, firingLength, firingStart := false, false, 0, 0, 0;
      serial, added, dropped, calls, first, accepted, begun := 0, [], {}, [], None, [], [];
      fires, turn, performed := [], Turn([], {}, [], Data(0, []), false), [];
    }

    /** In a quiet "once memory" list that has fired: every addition not dropped ran exactly once, in order. */
    lemma ExactlyOnce()
      requires Valid() && Promising() && fired && !firing
      ensures first.Some? && EntriesOf(calls) == Survivors(added, dropped)
      ensures forall i :: 0 <= i < |calls| ==> calls[i].data == first.value
    {
    }

    /** In a quiet list that can fire again: every fire that was accepted has begun, in the order of acceptance. */
    lemma FiresInOrder()
      requires Valid() && stack.Some? && !firing
      ensures begun == accepted
    {
    }

    /**
     ... and each has invoked exactly the entries it found or that were added to it and not removed
     before their turn, in order, with its data; nothing else was invoked.
     */
    lemma FiresServe()
      requires Valid() && list.Some? && !firing
      ensures AllComplete(fires) && calls == CallsIn(fires) && begun == DataIn(fires)
    {
    }

    /** A "memory" list in use remembers the data of the last fire that was asked for and has begun. */
    lemma RemembersLast()
      requires Valid() && remember && list.Some? && begun != []
      ensures memory == Some(begun[|begun| - 1])
    {
    }

    /** Whatever `add` fired again got the data of the last fire before it that was asked for. */
    lemma ReplaysLast(i: nat)
      requires Valid() && i < |fires| && fires[i].replay
      ensures DataIn(fires[..i]) != [] && fires[i].data == DataIn(fires[..i])[|DataIn(fires[..i])| - 1]
    {
      assert Turns(Record(), firing)[..i] == fires[..i];
      assert Turns(Record(), firing)[i] == fires[i];
    }

    /** What was recorded stays. */
    twostate predicate Remembers()
      reads this
    {
      && (old(list).None? ==> list.None?)
      && old(added) <= added && old(dropped) <= dropped && old(calls) <= calls
      && old(accepted) <= accepted && old(begun) <= begun && old(fires) <= fires && old(performed) <= performed
    }

    /** What every call on the list keeps. */
    twostate predicate Keeps()
      reads this
    {
      && Valid() && firing == old(firing) && |script| <= |old(script)|
      && (old(fired) ==> fired) && (old(first).Some? ==> first == old(first))
      && (firing ==> fires == old(fires) && TurnGoesOn(old(turn), turn))
      && Remembers()
    }

    /** The first fire that began and ended since then was this one. */
    twostate predicate Fired(entries: seq<Entry>, data: Data, replay: bool)
      reads this
    {
      |old(fires)| < |fires| && TurnGoesOn(Turn(entries, {}, [], data, replay), fires[|old(fires)|])
    }

    method Disable()
      requires Sound()
      modifies this`list, this`stack, this`memory
      ensures Keeps() && View() == Disabled(old(View()))
      ensures list.None? && stack.None? && memory.None?
    {
      hide Accounted, Balanced, InQueue, Rest;
      BalancedWithout(Record(), list, firing, Left());
      QueueWithout(begun, accepted, stack);
      list, stack, memory := None, None, None;
    }

    method Lock()
      requires Valid()
      modifies this`list, this`stack, this`memory
      ensures Keeps() && View() == Locked(old(View()))
      ensures stack.None? && memory == old(memory) && list == if old(memory).Some? then old(list) else None
    {
      hide Accounted, Balanced, InQueue, Rest;
      QueueWithout(begun, accepted, stack);
      stack := None;
      if memory.None? {
        Disable();
      }
    }

    /** `add`: a running fire takes the new entries in; a finished one with memory starts again for them. */
    method Add(fns: seq<nat>)
      requires Valid()
      modifies this
      ensures Keeps()
      ensures old(list).Some? ==> old(added) + Entries(fns, old(serial)) <= added
      ensures old(list).Some? && (old(firing) || old(memory).None?) ==>
                View() == Pushed(old(View()), Entries(fns, old(serial)))
                && dropped == old(dropped) && calls == old(calls)
      ensures old(list).Some? && !old(firing) && old(memory).Some? ==>
                Fired(Entries(fns, old(serial)), old(memory).value, true)
      ensures old(list).Some? && !old(firing) && old(memory).Some? && old(script) == [] ==>
                calls == old(calls) + CallsOf(Entries(fns, old(serial)), old(memory).value)
      ensures old(list).None? ==> View() == old(View()) && calls == old(calls)
      decreases |script|, 3, 0
    {
      hide Accounted, CallsOf, Entries, Balanced;
      if list.Some? {
        var start := |list.value|;
        Push(fns);
        if !firing && memory.Some? {
          firingStart := start;
          assert list.value[start..] == Entries(fns, old(serial));
          Fire(memory.value, true);
        }
      }
    }

    /** The list part of `add`. */
    method Push(fns: seq<nat>)
      requires Valid() && list.Some?
      modifies this`list, this`serial, this`added, this`firingLength, this`turn
      ensures Consistent() && list.Some? && InBounds() && Owes(Waiting())
      ensures Balanced(Record(), list, firing, Left())
      ensures Record() == Pushing(old(Record()), firing, Entries(fns, old(serial)))
      ensures View() == Pushed(old(View()), Entries(fns, old(serial)))
      ensures added == old(added) + Entries(fns, old(serial))
    {
      hide Accounted, Balanced, Entries, InQueue;
      var entries := Entries(fns, serial);
      ghost var waiting := Waiting();
      BalancedPush(Record(), list.value, firing, Left(), fns);
      turn := Pushing(Record(), firing, entries).turn;
      if Promising() {
        AccountGrows(added, dropped, calls, Given(), waiting, fns);
      }
      list, serial, added := Some(list.value + entries), serial + |fns|, added + entries;
      if firing {
        firingLength := |list.value|;
      }
      assert Waiting() == waiting + entries;
    }

    /** `remove` for one function: every occurrence, with the indexes of a running fire corrected. */
    method Remove(fn: nat)
      requires Valid()
      modifies this`list, this`firingIndex, this`firingLength, this`dropped, this`turn
      ensures Keeps()
      ensures Record() == if old(list).None? then old(Record())
                          else Dropping(old(Record()), firing, Serials(old(Waiting()), fn))
      ensures old(list).Some? ==> list == Some(Without(old(list).value, fn)) && Waiting() == Without(old(Waiting()), fn)
      ensures dropped == if old(list).Some? then old(dropped) + Serials(old(Waiting()), fn) else old(dropped)
    {
      hide Without, Accounted, Serials, Balanced, InQueue, Rest;
      if list.Some? {
        ghost var waiting := Waiting();
        if Promising() {
          AccountDrops(added, dropped, calls, Given(), waiting, fn);
        }
        WithoutNone([], fn);
        dropped := dropped + Serials(waiting, fn);
        StripAndNote(fn);
      }
    }

    /** The loop of `remove`, noted in the record of the fire in progress. */
    method StripAndNote(fn: nat)
      requires list.Some? && InBounds() && Balanced(Record(), list, firing, Left())
      modifies this`list, this`firingIndex, this`firingLength, this`turn
      ensures list == Some(Without(old(list).value, fn)) && |list.value| <= |old(list).value| && InBounds()
      ensures Waiting() == Without(old(Waiting()), fn) && Balanced(Record(), list, firing, Left())
      ensures Record() == Dropping(old(Record()), firing, Serials(old(Waiting()), fn))
    {
      hide Without, Serials, Balanced, Rest;
      ghost var waiting := Waiting();
      BalancedDrop(Record(), list.value, firing, Left(), fn);
      if !firing { WithoutNone([], fn); }
      Strip(fn);
      turn := Dropping(Record(), firing, Serials(waiting, fn)).turn;
    }

    /** The loop of `remove`. */
    method Strip(fn: nat)
      requires list.Some? && InBounds()
      modifies this`list, this`firingIndex, this`firingLength
      ensures list == Some(Without(old(list).value, fn)) && |list.value| <= |old(list).value| && InBounds()
      ensures Waiting() == Without(old(Waiting()), fn)
    {
      hide Without;
      var index := InArray(list.value, fn, 0);
      while index > -1
        invariant list.Some? && -1 <= index < |list.value| <= |old(list).value| && InBounds()
        invariant index >= 0 ==> list.value[index].fn == fn
        invariant forall k :: 0 <= k < (if index < 0 then |list.value| else index) ==> list.value[k].fn != fn
        invariant Without(list.value, fn) == Without(old(list).value, fn)
        invariant Without(Waiting(), fn) == Without(old(Waiting()), fn)
        decreases |list.value|
      {
        Splice(index, fn);
        index := InArray(list.value, fn, index);
      }
      WithoutNone(list.value, fn);
      WithoutNone(Waiting(), fn);
    }

    /** One splice of `remove`. */
    method Splice(index: nat, fn: nat)
      requires list.Some? && index < |list.value| && list.value[index].fn == fn && InBounds()
      modifies this`list, this`firingIndex, this`firingLength
      ensures list == Some(old(list).value[..index] + old(list).value[index + 1..]) && InBounds()
      ensures Without(list.value, fn) == Without(old(list).value, fn)
      ensures Without(Waiting(), fn) == Without(old(Waiting()), fn)
    {
      hide Without;
      WithoutSplice(list.value, index, fn);
      if firing { CutTail(list.value, index, firingIndex + 1, fn); }
      list := Some(list.value[..index] + list.value[index + 1..]);
      if firing {
        if index <= firingLength {
          firingLength := firingLength - 1;
        }
        if index <= firingIndex {
          firingIndex := firingIndex - 1;
        }
      }
    }

    /** `fireWith`: during a fire it waits on the stack, if there is one. */
    method FireWith(data: Data)
      requires Valid()
      modifies this
      ensures Keeps()
      ensures old(list).Some? && !old(fired) && once && list.Some? ==> fired && first == Some(data)
      ensures !Accepts(old(View())) ==> View() == old(View()) && calls == old(calls) && accepted == old(accepted)
      ensures old(list).Some? && (!old(fired) || old(stack).Some?) ==>
                old(accepted) + [data] <= accepted && (!old(firing) ==> Fired(old(list).value, data, false))
      ensures Accepts(old(View())) && old(firing) ==>
                View() == old(View()).(stack := Some(old(stack).value + [data])) && calls == old(calls)
      ensures Accepts(old(View())) && !old(firing) && old(script) == [] ==>
                View() == Finished(Begun(old(View()), data, remember).(firingIndex := |old(list).value|))
                && calls == old(calls) + CallsOf(old(list).value, data)
      decreases |script|, 3, 0
    {
      hide Accounted, Balanced, CallsOf;
      if list.Some? && (!fired || stack.Some?) {
        if firing {
          stack, accepted := Some(stack.value + [data]), accepted + [data];
        } else {
          accepted := accepted + [data];
          Fire(data, false);
        }
      }
    }

    /** `replay` says that `add` fires again what is remembered. */
    method Fire(data: Data, ghost replay: bool)
      requires Consistent() && !firing && list.Some? && firingStart <= |list.value|
      requires replay ==> LastIs(begun, data)
      requires Queued(if replay then begun else begun + [data]) && Balanced(Record(), list, false, [])
      requires Owes(list.value) && (Promising() ==> firingStart == 0 && (fired ==> memory == Some(data)))
      modifies this
      ensures Keeps() && fired
      ensures Fired(old(list).value[old(firingStart)..], data, replay)
      ensures first == if old(first).Some? then old(first) else Some(data)
      ensures old(script) == [] && !(old(stack).Some? && old(stack).value != []) ==>
                View() == Finished(Begun(old(View()), data, remember).(firingIndex := |old(list).value|))
                && calls == old(calls) + CallsOf(old(list).value[old(firingStart)..], data)
      decreases |script|, 2, if stack.Some? then |stack.value| else 0, 1
    {
      hide Accounted, CallsOf, Balanced, InQueue;
      assert list.value[0..] == list.value;
      if Promising() && !fired { AccountStarts(added, dropped, Given(), list.value, data); }
      Begin(data, replay);
      RunList(data);
      Conclude(data);
    }

    /** After the loop: the next fire on the stack, or the end. */
    method Conclude(ghost data: Data)
      requires AtHead(data) && !(list.Some? && firingIndex < firingLength)
      modifies this
      ensures Valid() && !firing && fired && |script| <= |old(script)|
      ensures Remembers() && first == old(first) && old(fires) + [old(turn)] <= fires
      ensures !(old(stack).Some? && old(stack).value != []) ==> View() == Finished(old(View())) && calls == old(calls)
      decreases |script|, 2, if stack.Some? then |stack.value| else 0, 0
    {
      hide Accounted, CallsOf, Balanced;
      assert list.Some? ==> list.value[firingIndex..] == [];
      BalancedEnd(Record(), list);
      fires := fires + [turn];
      if list.Some? && stack.Some? && stack.value != [] {
        firing := false;
        var next := stack.value[0];
        stack := Some(stack.value[1..]);
        Fire(next, false);
      } else {
        BalancedEmpty(Record(), list);
        BalancedWithout(Record(), list, false, []);
        Finish();
      }
    }

    ghost function Ahead(): seq<Entry>
      reads this
    {
      if list.Some? then Rest(list.value, true, firingIndex - 1) else []
    }

    /** At the head of the loop of `fire`: what is left of the list is still owed. */
    ghost predicate AtHead(data: Data)
      reads this
    {
      && Consistent() && firing && firingStart == 0 && Queued(begun) && turn.data == data
      && (list.Some? ==>
            firingLength == |list.value| && 0 <= firingIndex <= firingLength && Owes(Ahead()))
      && Balanced(Record(), list, true, Ahead())
      && (Promising() ==> memory == Some(data))
    }

    method RunList(data: Data)
      requires AtHead(data)
      modifies this
      ensures AtHead(data) && !(list.Some? && firingIndex < firingLength)
      ensures |script| <= |old(script)| && (|script| == |old(script)| ==> stack == old(stack))
      ensures Remembers() && first == old(first) && fires == old(fires) && TurnGoesOn(old(turn), turn)
      ensures old(script) == [] && old(list).Some? ==>
                View() == old(View()).(firingIndex := |old(list).value|)
                && calls == old(calls) + CallsOf(old(list).value[old(firingIndex)..], data)
      decreases |script|, 1, 1, 0
    {
      hide Accounted, CallsOf, Balanced, InQueue, Rest;
      while list.Some? && firingIndex < firingLength
        invariant AtHead(data)
        invariant |script| <= |old(script)| && (|script| == |old(script)| ==> stack == old(stack))
        invariant Remembers() && first == old(first) && fires == old(fires) && TurnGoesOn(old(turn), turn)
        invariant old(script) == [] && old(list).Some? ==>
                    script == [] && old(firingIndex) <= firingIndex
                    && View() == old(View()).(firingIndex := firingIndex)
                    && calls == old(calls) + CallsOf(list.value[old(firingIndex)..firingIndex], data)
        decreases |script|, if list.Some? then firingLength - firingIndex else 0
      {
        if old(script) == [] { CallsGrow(list.value, old(firingIndex), firingIndex, data); }
        Step(data);
      }
    }

    /** One turn of the loop. */
    method Step(data: Data)
      requires AtHead(data) && list.Some? && firingIndex < firingLength
      modifies this
      ensures AtHead(data) && Remembers() && first == old(first) && fires == old(fires) && TurnGoesOn(old(turn), turn)
      ensures |script| <= |old(script)| && (|script| == |old(script)| ==> stack == old(stack))
      ensures |script| == |old(script)| && list.Some? ==> firingLength - firingIndex < old(firingLength - firingIndex)
      ensures old(script) == [] ==>
                script == [] && View() == old(View()).(firingIndex := old(firingIndex) + 1)
                && calls == old(calls) + [Call(old(list).value[old(firingIndex)], data)]
      decreases |script|, 1, 0, 1
    {
      hide Accounted, Balanced, InQueue, Rest;
      Invoke(list.value[firingIndex], data);
      firingIndex := firingIndex + 1;
    }

    method Begin(data: Data, ghost replay: bool)
      requires list.Some? && !firing && firingStart <= |list.value| && Balanced(Record(), list, false, [])
      requires replay ==> LastIs(begun, data)
      modifies this`memory, this`first, this`fired, this`firingIndex, this`firingStart, this`firingLength, this`firing
      modifies this`turn, this`begun
      ensures Record() == Starting(old(Record()), list.value[old(firingStart)..], data, replay)
      ensures Balanced(Record(), list, true, list.value[old(firingStart)..])
      ensures View() == Begun(old(View()), data, remember)
      ensures first == if old(first).Some? then old(first) else Some(data)
    {
      hide Balanced, Starting, InQueue;
      NoteBegin(data, replay);
      memory := if remember then Some(data) else None;
      if first.None? {
        first := Some(data);
      }
      fired := true;
      firingIndex := firingStart;
      firingStart := 0;
      firingLength := |list.value|;
      firing := true;
    }

    /** The record of a fire that begins. */
    ghost method NoteBegin(data: Data, replay: bool)
      requires list.Some? && !firing && firingStart <= |list.value| && Balanced(Record(), list, false, [])
      requires replay ==> LastIs(begun, data)
      modifies this`turn, this`begun
      ensures Record() == Starting(old(Record()), list.value[firingStart..], data, replay)
      ensures Balanced(Record(), list, true, list.value[firingStart..])
    {
      hide Balanced;
      BalancedBegin(Record(), list.value, firingStart, data, replay);
      turn := Turn(list.value[firingStart..], {}, [], data, replay);
      begun := if replay then begun else begun + [data];
    }

    method Finish()
      modifies this`list, this`stack, this`memory, this`firing
      ensures View() == Finished(old(View()))
    {
      firing := false;
      if list.Some? && stack.None? {
        if memory.Some? {
          list := Some([]);
        } else {
          list, stack, memory := None, None, None;
        }
      }
    }

    /** Runs one callback: its next script, action by action. */
    method Invoke(entry: Entry, data: Data)
      requires AtHead(data) && list.Some? && firingIndex < firingLength && entry == list.value[firingIndex]
      modifies this
      ensures Keeps()
      ensures old(script) == [] ==> script == [] && View() == old(View()) && calls == old(calls) + [Call(entry, data)]
      ensures old(script) != [] ==>
                |script| < |old(script)| && Includes(performed, |old(performed)|, old(script)[0])
      decreases |script|, 1, 0, 0
    {
      hide Accounted, Balanced, InQueue;
      if Promising() {
        AccountCalls(added, dropped, calls, data, list.value[firingIndex..]);
      }
      BalancedCall(Record(), list.value, Ahead());
      turn := turn.(calls := turn.calls + [Call(entry, data)]);
      calls := calls + [Call(entry, data)];
      assert list.value[firingIndex..][1..] == list.value[firingIndex + 1..];
      if script != [] {
        Act();
      }
    }

    /** What a callback does: its script, action by action. */
    method Act()
      requires Valid() && script != []
      modifies this
      ensures Keeps() && |script| < |old(script)| && Includes(performed, |old(performed)|, old(script)[0])
      decreases |script|, 0
    {
      hide Accounted, Balanced, InQueue, Includes;
      var actions := script[0];
      script := script[1..];
      IncludesNone(performed);
      var i := 0;
      while i < |actions|
        invariant 0 <= i <= |actions| && Keeps() && |script| < |old(script)|
        invariant Includes(performed, |old(performed)|, actions[..i])
      {
        ghost var before := performed;
        Perform(actions[i]);
        IncludesMore(before, performed, |old(performed)|, actions, i);
        i := i + 1;
      }
      assert actions[..|actions|] == actions;
    }

    method Perform(action: Action)
      requires Valid()
      modifies this
      ensures Keeps() && Performed(action) && old(performed) + [action] <= performed
      decreases |script|, 4, 0
    {
      hide Accounted, Balanced, InQueue, Fired, WithoutAll, Rest;
      performed := performed + [action];
      match action
      case DoAdd(fns) => Add(fns);
      case DoRemove(fns) => RemoveAll(fns);
      case DoFire(data) => FireWith(data);
      case DoLock => Lock();
      case DoDisable => Disable();
    }

    /** `remove` for several functions. */
    method RemoveAll(fns: seq<nat>)
      requires Valid()
      modifies this`list, this`firingIndex, this`firingLength, this`dropped, this`turn
      ensures Keeps() && (list.Some? <==> old(list).Some?)
      ensures list.Some? ==> list.value == WithoutAll(old(list).value, fns)
      ensures list.Some? ==> Waiting() == WithoutAll(old(Waiting()), fns)
    {
      hide Without, Accounted, Balanced, InQueue, Rest;
      var i := 0;
      while i < |fns|
        invariant Keeps() && 0 <= i <= |fns|
        invariant list.Some? <==> old(list).Some?
        invariant list.Some? ==> list.value == WithoutAll(old(list).value, fns[..i])
        invariant list.Some? ==> Waiting() == WithoutAll(old(Waiting()), fns[..i])
      {
        assert fns[..i + 1][..i] == fns[..i];
        Remove(fns[i]);
        i := i + 1;
      }
      assert fns[..|fns|] == fns;
    }

    /** What a call has done. */
    twostate predicate Performed(action: Action)
      requires old(InBounds()) && InBounds()
      reads this
    {
      match action
      case DoAdd(fns) => old(list).Some? ==> old(added) + Entries(fns, old(serial)) <= added
      case DoRemove(fns) =>
        && calls == old(calls) && added == old(added) && (list.Some? <==> old(list).Some?)
        && (list.Some? ==> list.value == WithoutAll(old(list).value, fns))
        && (list.Some? ==> Waiting() == WithoutAll(old(Waiting()), fns))
      case DoFire(data) =>
        if old(list).Some? && (!old(fired) || old(stack).Some?) then old(accepted) + [data] <= accepted
        else View() == old(View()) && accepted == old(accepted) && calls == old(calls)
      case DoLock =>
        && stack.None? && memory == old(memory) && calls == old(calls)
        && list == if old(memory).Some? then old(list) else None
      case DoDisable => list.None? && stack.None? && memory.None? && calls == old(calls)
    }
  }
}

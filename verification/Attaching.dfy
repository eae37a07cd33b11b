/** Over any execution, each attached callback runs once, in the order of attachment. */
module Attaching {
  import opened Wrappers
  import opened CallbackState
  import opened Deferred
  import opened Notifying

  /** What this event attaches to the list `w`. */
  function AttachedBy(m: Machine, e: Event, w: Which): seq<nat> {
    if e.Attach? && e.which == w && ClientRuns(m) then e.ids else []
  }

  /** All that an execution attached to the list `w`, in order. */
  function Attached(events: seq<Event>, w: Which): seq<nat> {
    if events == [] then []
    else
      var before := events[..|events| - 1];
      Attached(before, w) + AttachedBy(Execute(before), events[|events| - 1], w)
  }

  /** The callbacks of the list `w` that were invoked, in order. */
  function IdsRan(ran: seq<Ran>, w: Which): seq<nat> {
    if ran == [] then []
    else IdsRan(ran[..|ran| - 1], w) + if ran[|ran| - 1].which == w then [ran[|ran| - 1].id] else []
  }

  function UserIds(hs: seq<Handler>): seq<nat> {
    if hs == [] then [] else (if hs[0].User? then [hs[0].id] else []) + UserIds(hs[1..])
  }

  /** The first handler of a list that has not been invoked. */
  function NextIndex(m: Machine, w: Which): int {
    var l := Get(m, w);
    if !l.firing then 0
    else if m.frames != [] && Top(m).which == w && !Top(m).inUser then l.firingIndex
    else l.firingIndex + 1
  }

  /** What was attached has run or is still to run, in order. */
  predicate AttachedOk(m: Machine, w: Which, attached: seq<nat>) {
    var l := Get(m, w);
    if l.list.None? then IdsRan(m.ran, w) == []
    else
      && 0 <= NextIndex(m, w) <= |l.list.value|
      && IdsRan(m.ran, w) + UserIds(l.list.value[NextIndex(m, w)..]) == attached
  }

  lemma {:induction false} UserIdsOfUsers(ids: seq<nat>)
    ensures UserIds(Users(ids)) == ids
  {
    if ids != [] {
      assert Users(ids)[1..] == Users(ids[1..]);
      UserIdsOfUsers(ids[1..]);
      assert ids == [ids[0]] + ids[1..];
    }
  }

  lemma {:induction false} UserIdsMore(hs: seq<Handler>, ids: seq<nat>)
    ensures UserIds(hs + Users(ids)) == UserIds(hs) + ids
  {
    if hs == [] {
      UserIdsOfUsers(ids);
      assert hs + Users(ids) == Users(ids);
    } else {
      assert (hs + Users(ids))[1..] == hs[1..] + Users(ids);
      UserIdsMore(hs[1..], ids);
    }
  }

  lemma {:induction false} NoneRan(ran: seq<Ran>, w: Which)
    requires forall i :: 0 <= i < |ran| ==> ran[i].which != w
    ensures IdsRan(ran, w) == []
  {
    if ran != [] { NoneRan(ran[..|ran| - 1], w); }
  }

  lemma RanMore(ran: seq<Ran>, r: Ran, w: Which)
    ensures IdsRan(ran + [r], w) == IdsRan(ran, w) + if r.which == w then [r.id] else []
  {
    assert (ran + [r])[..|ran|] == ran;
  }

  /** A list dropped without a fire has run nothing. */
  lemma DroppedRanNone(m: Machine, w: Which)
    requires Invariant(m) && !w.Progress? && !Get(m, w).fired
    ensures IdsRan(m.ran, w) == []
  {
    forall i | 0 <= i < |m.ran| ensures m.ran[i].which != w {
    }
    NoneRan(m.ran, w);
  }

  /** An event that keeps `ran`, the list and its next index. */
  lemma SameOk(m: Machine, n: Machine, w: Which, attached: seq<nat>)
    requires AttachedOk(m, w, attached) && n.ran == m.ran && Get(n, w).list == Get(m, w).list
    requires Get(m, w).list.Some? ==> NextIndex(n, w) == NextIndex(m, w)
    ensures AttachedOk(n, w, attached)
  {
  }

  lemma AttachedSettle(m: Machine, v: Which, data: Data, w: Which, attached: seq<nat>)
    requires Invariant(m) && AttachedOk(m, w, attached) && !w.Progress? && ClientRuns(m)
    ensures AttachedOk(FireWith(m, v, data), w, attached)
  {
    hide HistoryOk, Settled, IdsRan, UserIds;
    SameOk(m, FireWith(m, v, data), w, attached);
  }

  lemma AttachedAdd(m: Machine, v: Which, ids: seq<nat>, w: Which, attached: seq<nat>)
    requires Invariant(m) && AttachedOk(m, w, attached) && !w.Progress? && ClientRuns(m)
    ensures AttachedOk(Add(m, v, ids), w, attached + if v == w then ids else [])
  {
    hide HistoryOk, Settled, IdsRan, UserIds;
    var n := Add(m, v, ids);
    if v != w {
      assert attached + [] == attached;
      SameOk(m, n, w, attached);
    } else if Get(m, w).list.Some? {
      var k, hs := NextIndex(m, w), Get(m, w).list.value;
      assert NextIndex(n, w) == k && Get(n, w).list.value == hs + Users(ids);
      assert (hs + Users(ids))[k..] == hs[k..] + Users(ids);
      UserIdsMore(hs[k..], ids);
      assert IdsRan(m.ran, w) + (UserIds(hs[k..]) + ids) == attached + ids;
    }
  }

  lemma AttachedLeave(m: Machine, w: Which, attached: seq<nat>)
    requires Invariant(m) && AttachedOk(m, w, attached) && !w.Progress? && m.frames != [] && Top(m).inUser
    ensures AttachedOk(Leave(m), w, attached)
  {
    hide HistoryOk, Settled, IdsRan, UserIds;
    assert FrameOk(m, Top(m));
    SameOk(m, Leave(m), w, attached);
  }

  lemma AttachedUser(m: Machine, w: Which, attached: seq<nat>)
    requires Invariant(m) && AttachedOk(m, w, attached) && !w.Progress?
    requires m.frames != [] && !Top(m).inUser && HasNext(m) && NextIsUser(m)
    ensures AttachedOk(Tick(m), w, attached)
  {
    hide HistoryOk, Settled, IdsRan;
    assert FrameOk(m, Top(m));
    var f, l := Top(m), Get(m, Top(m).which);
    RanMore(m.ran, Ran(f.which, l.list.value[l.firingIndex].id, f.data), w);
    if f.which == w {
      var tail := l.list.value[l.firingIndex..];
      assert tail[1..] == l.list.value[l.firingIndex + 1..];
    }
  }

  /** What the constructor added is no client's callback. */
  lemma AttachedOwnPrologue(m: Machine, w: Which, attached: seq<nat>)
    requires ListsOk(m) && AttachedOk(m, w, attached) && !w.Progress? && m.frames != [] && Top(m).which == w
    requires !Top(m).inUser && Get(m, w).firing && HasNext(m) && !NextIsUser(m)
    ensures AttachedOk(Tick(m), w, attached)
  {
    hide IdsRan, Settled;
    var l := Get(m, w);
    assert l.list.value[l.firingIndex] == Prologue(w)[l.firingIndex];
    var tail := l.list.value[l.firingIndex..];
    assert tail[1..] == l.list.value[l.firingIndex + 1..];
    assert UserIds(tail) == UserIds(tail[1..]);
  }

  lemma AttachedPrologue(m: Machine, w: Which, attached: seq<nat>)
    requires Invariant(m) && AttachedOk(m, w, attached) && !w.Progress?
    requires m.frames != [] && !Top(m).inUser && HasNext(m) && !NextIsUser(m)
    ensures AttachedOk(Tick(m), w, attached)
  {
    hide HistoryOk, IdsRan, UserIds;
    TopFires(m);
    var v := Top(m).which;
    if v == w {
      AttachedOwnPrologue(m, w, attached);
    } else {
      var l := Get(m, v);
      assert !v.Progress? && l.firingIndex < 3;
      assert l.list.value[l.firingIndex] == Prologue(v)[l.firingIndex];
      if !Get(m, w).fired { DroppedRanNone(m, w); }
    }
  }

  lemma AttachedEnd(m: Machine, w: Which, attached: seq<nat>)
    requires Invariant(m) && AttachedOk(m, w, attached) && !w.Progress?
    requires m.frames != [] && !Top(m).inUser && !HasNext(m)
    ensures AttachedOk(Tick(m), w, attached)
  {
    hide HistoryOk, Settled, IdsRan;
    assert FrameOk(m, Top(m));
    if Top(m).which == w {
      var l := Get(m, w);
      assert l.list.value[l.firingIndex..] == [];
    }
  }

  lemma AttachedNext(m: Machine, e: Event, w: Which, attached: seq<nat>)
    requires Invariant(m) && AttachedOk(m, w, attached) && !w.Progress?
    ensures AttachedOk(Next(m, e), w, attached + AttachedBy(m, e, w))
  {
    hide Invariant, AttachedOk, Tick, Leave, FireWith, Add, HasNext, NextIsUser;
    assert attached + [] == attached;
    match e
    case Settle(v, data) => if ClientRuns(m) { AttachedSettle(m, v, data, w, attached); }
    case Notify(data) => if ClientRuns(m) { AttachedSettle(m, Progress, data, w, attached); }
    case Attach(v, ids) => if ClientRuns(m) { AttachedAdd(m, v, ids, w, attached); }
    case Return => if m.frames != [] && Top(m).inUser { AttachedLeave(m, w, attached); }
    case Advance =>
      if m.frames != [] && !Top(m).inUser {
        if !HasNext(m) { AttachedEnd(m, w, attached); }
        else if NextIsUser(m) { AttachedUser(m, w, attached); }
        else { AttachedPrologue(m, w, attached); }
      }
  }

  lemma {:induction false} AttachedAlways(events: seq<Event>, w: Which)
    requires !w.Progress?
    ensures AttachedOk(Execute(events), w, Attached(events, w))
  {
    if events != [] {
      hide Invariant, Next, AttachedOk, AttachedBy;
      var before := events[..|events| - 1];
      AlwaysOk(before);
      AttachedAlways(before, w);
      AttachedNext(Execute(before), events[|events| - 1], w, Attached(before, w));
    }
  }

  /**
   At any time the done callbacks that have run, each once, are the first of those attached, in
   the order of attachment; so with the fail callbacks.
   */
  lemma RanAreAttached(events: seq<Event>, w: Which)
    requires !w.Progress?
    ensures IdsRan(Execute(events).ran, w) <= Attached(events, w)
  {
    hide IdsRan, UserIds, Attached;
    AttachedAlways(events, w);
  }

  /** In a settled Deferred, when its list is not firing, all have run; whatever the callbacks did. */
  lemma AttachedRan(events: seq<Event>, w: Which)
    requires var m := Execute(events); !w.Progress? && m.status == Final(w) && !Get(m, w).firing
    ensures IdsRan(Execute(events).ran, w) == Attached(events, w)
  {
    hide IdsRan, Attached;
    AlwaysOk(events);
    AttachedAlways(events, w);
    SettledFired(Execute(events), w);
  }

  /** While notifies can be accepted, `progress` holds all that was attached. */
  predicate ProgressOk(m: Machine, attached: seq<nat>) {
    m.progress.stack.Some? ==> m.progress.list == Some(Users(attached))
  }

  lemma ProgressNext(m: Machine, e: Event, attached: seq<nat>)
    requires Invariant(m) && ProgressOk(m, attached)
    ensures ProgressOk(Next(m, e), attached + AttachedBy(m, e, Progress))
  {
    hide FramesOk, HistoryOk, Settled, SettlerShape;
    assert attached + [] == attached;
    if e.Attach? {
      assert Users(attached + e.ids) == Users(attached) + Users(e.ids);
    } else if e.Advance? && !ClientRuns(m) && HasNext(m) && !NextIsUser(m) {
      ProgressEffect(m);
    }
  }

  lemma ProgressEffect(m: Machine)
    requires Invariant(m) && m.frames != [] && !Top(m).inUser && HasNext(m) && !NextIsUser(m)
    ensures Tick(m).progress == m.progress || Tick(m).progress.stack.None?
  {
    hide HistoryOk, Settled;
    TopFires(m);
    var w := Top(m).which;
    var l := Get(m, w);
    assert !w.Progress? && l.firingIndex < 3;
    assert l.list.value[l.firingIndex] == Prologue(w)[l.firingIndex];
  }

  /** Whenever client code runs in a pending Deferred, `progress` holds all that was attached, in order. */
  lemma {:induction false} ProgressAttached(events: seq<Event>)
    ensures ProgressOk(Execute(events), Attached(events, Progress))
    ensures ClientRuns(Execute(events)) && Execute(events).status == Pending ==>
              Execute(events).progress.list == Some(Users(Attached(events, Progress)))
  {
    if events != [] {
      hide Next, AttachedBy, Invariant, ClientRuns;
      var before := events[..|events| - 1];
      AlwaysOk(before);
      ProgressAttached(before);
      ProgressNext(Execute(before), events[|events| - 1], Attached(before, Progress));
    }
    AlwaysOk(events);
    if ClientRuns(Execute(events)) && Execute(events).status == Pending { PendingOpen(Execute(events)); }
  }
}

/**
 What a notify does: every progress callback runs, at once or when the fire in progress is
 over, and callbacks attached later get what was notified last.
 */
module Notifying {
  import opened Wrappers
  import opened CallbackState
  import opened Deferred

  /** `progress` remembers the last notify that began. */
  predicate NotifiedOk(m: Machine) {
    if m.notified == [] then m.progress.memory.None?
    else m.progress.memory == Some(m.notified[|m.notified| - 1])
  }

  lemma NotifiedFire(m: Machine, w: Which, data: Data)
    requires ListsOk(m) && NotifiedOk(m)
    ensures NotifiedOk(FireWith(m, w, data))
  {
    hide Settled, SettlerShape;
  }

  lemma NotifiedAdd(m: Machine, w: Which, ids: seq<nat>)
    requires ListsOk(m) && NotifiedOk(m)
    ensures NotifiedOk(Add(m, w, ids))
  {
    hide Settled, SettlerShape;
  }

  lemma NotifiedRuns(m: Machine)
    requires Invariant(m) && NotifiedOk(m) && m.frames != [] && !Top(m).inUser && HasNext(m)
    ensures NotifiedOk(Tick(m))
  {
    hide HistoryOk, Settled;
    if !NextIsUser(m) {
      TopFires(m);
      var w := Top(m).which;
      var l := Get(m, w);
      assert !w.Progress? && l.firingIndex < 3;
      assert l.list.value[l.firingIndex] == Prologue(w)[l.firingIndex];
    }
  }

  lemma NotifiedEnds(m: Machine)
    requires Invariant(m) && NotifiedOk(m) && m.frames != [] && !Top(m).inUser && !HasNext(m)
    ensures NotifiedOk(Tick(m))
  {
    hide HistoryOk, Settled, FramesOk;
  }

  lemma NotifiedNext(m: Machine, e: Event)
    requires Invariant(m) && NotifiedOk(m)
    ensures NotifiedOk(Next(m, e))
  {
    hide Settled, SettlerShape, ProgressShape, FramesOk, Tick, FireWith, Add;
    match e
    case Settle(w, data) => NotifiedFire(m, w, data);
    case Notify(data) => NotifiedFire(m, Progress, data);
    case Attach(w, ids) => NotifiedAdd(m, w, ids);
    case Return =>
    case Advance =>
      if m.frames != [] && !Top(m).inUser {
        if HasNext(m) { NotifiedRuns(m); } else { NotifiedEnds(m); }
      }
  }

  lemma {:induction false} NotifiedAlways(events: seq<Event>)
    ensures NotifiedOk(Execute(events))
  {
    hide Next, Invariant;
    if events != [] {
      AlwaysOk(events[..|events| - 1]);
      NotifiedAlways(events[..|events| - 1]);
      NotifiedNext(Execute(events[..|events| - 1]), events[|events| - 1]);
    }
  }

  /** The loop of `progress` has run `k` callbacks and has nothing left. */
  lemma ProgressRuns(m: Machine, ids: nat)
    requires Plain(m, ids) && Top(m).which == Progress && m.progress.firingIndex + ids == |m.progress.list.value|
    ensures var r, l := Rounds(m, ids), m.progress;
            && r == m.(progress := l.(firingIndex := |l.list.value|), ran := r.ran)
            && r.ran == m.ran + RansOf(Progress, l.list.value[l.firingIndex..], Top(m).data)
  {
    hide Next, Rounds, RansOf;
    RoundsRun(m, ids);
    var l := m.progress;
    assert l.list.value[l.firingIndex..l.firingIndex + ids] == l.list.value[l.firingIndex..];
  }

  /** Client code runs in an execution whose Deferred is pending, and `progress` does not. */
  predicate Idle(m: Machine) {
    ClientRuns(m) && m.status == Pending && !m.progress.firing
  }

  lemma PendingOpen(m: Machine)
    requires Invariant(m) && ClientRuns(m) && m.status == Pending
    ensures m.progress.list.Some? && m.progress.stack.Some? && AllUsers(m.progress.list.value)
    ensures !m.progress.firing ==> m.progress.stack.value == []
  {
  }

  lemma NotifyStarts(m: Machine, data: Data)
    requires Idle(m) && m.progress.list.Some? && m.progress.stack.Some? && m.progress.firingStart == 0
    ensures var n, l := Next(m, Notify(data)), m.progress;
            n == m.(progress := n.progress, frames := m.frames + [Frame(Progress, data, false)],
                    notified := m.notified + [data])
            && n.progress == l.(memory := Some(data), fired := true, firing := true, firingIndex := 0,
                                firingLength := |l.list.value|)
  {
  }

  /** The end of a loop of `progress` after which no fire waits. */
  lemma ProgressEnds(m: Machine)
    requires m.frames != [] && Top(m).which == Progress && !Top(m).inUser && !HasNext(m)
    requires m.progress.list.Some? && m.progress.memory.Some?
    requires m.progress.stack == None || m.progress.stack == Some([])
    ensures var n, l := Next(m, Advance), m.progress;
            && n == m.(progress := n.progress, frames := m.frames[..|m.frames| - 1])
            && n.progress == l.(firing := false, list := if l.stack.Some? then l.list else Some([]))
  {
  }

  /**
   When callbacks call nothing, a notify of a pending Deferred runs every progress callback
   once, in the order of attachment, with its data, and the Deferred stays pending.
   */
  lemma {:induction false} NotifyingRuns(events: seq<Event>, data: Data)
    requires var m := Execute(events); ClientRuns(m) && m.status == Pending && !m.progress.firing
    ensures var m := Execute(events);
            && m.progress.list.Some?
            && var n := Next(Rounds(Next(m, Notify(data)), |m.progress.list.value|), Advance);
               && n.ran == m.ran + RansOf(Progress, m.progress.list.value, data)
               && n.notified == m.notified + [data] && n.status == Pending && n.frames == m.frames
               && n.progress.list == m.progress.list && n.done == m.done && n.fail == m.fail && !n.progress.firing
  {
    hide FrameOk, RanOk, Next, Settled, Rounds, RansOf;
    var m := Execute(events);
    AlwaysOk(events);
    PendingOpen(m);
    NotifyStarts(m, data);
    var b, hs := Next(m, Notify(data)), m.progress.list.value;
    assert hs[0..] == hs;
    ProgressRuns(b, |hs|);
    ProgressEnds(Rounds(b, |hs|));
    assert b.frames[..|b.frames| - 1] == m.frames;
  }

  /** During a fire of `progress` a notify of a pending Deferred waits behind those already waiting. */
  lemma NotifyWaits(events: seq<Event>, data: Data)
    requires var m := Execute(events); ClientRuns(m) && m.status == Pending && m.progress.firing
    ensures var m := Execute(events);
            && m.progress.stack.Some?
            && Next(m, Notify(data)) == m.(progress := m.progress.(stack := Some(m.progress.stack.value + [data])))
  {
    AlwaysOk(events);
    PendingOpen(Execute(events));
  }

  /** The loop of `progress` has ended; the waiting fires run, `k` of them, over callbacks that call nothing. */
  function Drained(m: Machine, k: nat): Machine
    decreases k
  {
    if k == 0 || m.progress.list.None? then Next(m, Advance)
    else Drained(Rounds(Next(m, Advance), |m.progress.list.value|), k - 1)
  }

  function RansOfAll(hs: seq<Handler>, ds: seq<Data>): seq<Ran> {
    if ds == [] then [] else RansOf(Progress, hs, ds[0]) + RansOfAll(hs, ds[1..])
  }

  /** At the end of a loop of `progress` that is still in use. */
  predicate AtEnd(m: Machine) {
    && m.frames != [] && Top(m).which == Progress && !Top(m).inUser
    && var l := m.progress;
       && l.list.Some? && l.stack.Some? && l.memory.Some? && l.firing && l.firingStart == 0 && l.fired
       && l.firingIndex == l.firingLength == |l.list.value| && AllUsers(l.list.value)
  }

  lemma WaitingStarts(m: Machine)
    requires AtEnd(m) && m.progress.stack.value != []
    ensures var n, l := Next(m, Advance), m.progress;
            && n == m.(progress := n.progress, notified := m.notified + [l.stack.value[0]],
                       frames := m.frames[..|m.frames| - 1] + [Frame(Progress, l.stack.value[0], false)])
            && n.progress == l.(stack := Some(l.stack.value[1..]), memory := Some(l.stack.value[0]), firingIndex := 0)
  {
  }

  /** The first waiting notify has run over all callbacks. */
  lemma WaitingRuns(m: Machine)
    requires AtEnd(m) && m.progress.stack.value != []
    ensures var r, l := Rounds(Next(m, Advance), |m.progress.list.value|), m.progress;
            var d := l.stack.value[0];
            && r == m.(progress := l.(stack := Some(l.stack.value[1..]), memory := Some(d)), ran := r.ran,
                       notified := m.notified + [d], frames := m.frames[..|m.frames| - 1] + [Frame(Progress, d, false)])
            && r.ran == m.ran + RansOf(Progress, l.list.value, d)
  {
    hide Next, Rounds, RansOf;
    WaitingStarts(m);
    var hs := m.progress.list.value;
    assert hs[0..] == hs;
    ProgressRuns(Next(m, Advance), |hs|);
  }

  /** All notifies that waited run over all callbacks, in the order in which they were asked for. */
  lemma {:induction false} AllWaitingRun(m: Machine, ds: seq<Data>)
    requires AtEnd(m) && m.progress.stack == Some(ds)
    ensures var n := Drained(m, |ds|);
            && n.ran == m.ran + RansOfAll(m.progress.list.value, ds) && n.notified == m.notified + ds
            && n.frames == m.frames[..|m.frames| - 1] && n.status == m.status
            && n.progress.list == m.progress.list && n.progress.stack == Some([]) && !n.progress.firing
    decreases |ds|
  {
    hide Next, Rounds, RansOf;
    if ds == [] {
      ProgressEnds(m);
    } else {
      WaitingRuns(m);
      var r, hs := Rounds(Next(m, Advance), |m.progress.list.value|), m.progress.list.value;
      assert r.frames[..|r.frames| - 1] == m.frames[..|m.frames| - 1];
      AllWaitingRun(r, ds[1..]);
      assert m.notified + [ds[0]] + ds[1..] == m.notified + ds;
      assert m.ran + RansOf(Progress, hs, ds[0]) + RansOfAll(hs, ds[1..])
          == m.ran + (RansOf(Progress, hs, ds[0]) + RansOfAll(hs, ds[1..]));
    }
  }

  lemma LateProgressStarts(m: Machine, ids: seq<nat>)
    requires ClientRuns(m) && m.progress.list.Some? && !m.progress.firing && m.progress.memory.Some?
    ensures var n, l := Next(m, Attach(Progress, ids)), m.progress;
            && n == m.(progress := n.progress, frames := m.frames + [Frame(Progress, l.memory.value, false)])
            && n.progress == l.(list := Some(l.list.value + Users(ids)), fired := true, firing := true,
                                firingIndex := |l.list.value|, firingLength := |l.list.value| + |ids|,
                                firingStart := 0)
  {
  }

  /**
   Callbacks attached to `progress` after a notify run at once, with the data of the last one,
   whether the Deferred is pending or settled.
   */
  lemma {:induction false} LateProgressRuns(events: seq<Event>, ids: seq<nat>)
    requires var m := Execute(events); ClientRuns(m) && !m.progress.firing && m.notified != []
    ensures var m := Execute(events);
            && m.progress.list.Some?
            && var n := Next(Rounds(Next(m, Attach(Progress, ids)), |ids|), Advance);
               && n.ran == m.ran + RansOf(Progress, Users(ids), m.notified[|m.notified| - 1])
               && n.status == m.status && n.frames == m.frames && n.notified == m.notified
               && n.progress.list == Some(if m.progress.stack.Some? then m.progress.list.value + Users(ids) else [])
  {
    hide FrameOk, RanOk, Next, Settled, Rounds, RansOf;
    var m := Execute(events);
    AlwaysOk(events);
    NotifiedAlways(events);
    LateProgressStarts(m, ids);
    var b, hs := Next(m, Attach(Progress, ids)), m.progress.list.value + Users(ids);
    assert hs[|m.progress.list.value|..] == Users(ids);
    ProgressRuns(b, |ids|);
    ProgressEnds(Rounds(b, |ids|));
    assert b.frames[..|b.frames| - 1] == m.frames;
  }
}

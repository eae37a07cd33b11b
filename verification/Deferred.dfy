/**
 A `jQuery.Deferred`: three callback lists, wired so that settling one disables the other
 and locks the third. Any code may run inside a callback, so the Deferred is a machine
 whose control stack holds the loops of `fire` in progress, and an execution is any
 sequence of events: calls by the code now running, returns of callbacks, and steps of
 the innermost loop.
 */
module Deferred {
  import opened Wrappers
  import opened CallbackState

  datatype Status = Pending | Resolved | Rejected

  datatype Which = Done | Fail | Progress

  /** A function in one of the lists: those the constructor adds, or a client's. */
  datatype Handler = SetStatus(status: Status) | DisableList(which: Which) | LockProgress | User(id: nat)

  /** A loop of `fire` in progress. `inUser`: its current callback, a client's, is running. */
  datatype Frame = Frame(which: Which, data: Data, inUser: bool)

  /** One invocation of a client's callback. */
  datatype Ran = Ran(which: Which, id: nat, data: Data)

  /** `ran` and `notified` are history: the invocations, and the notifies whose fire began. */
  datatype Machine = Machine(
    done: ListState<Handler>, fail: ListState<Handler>, progress: ListState<Handler>,
    status: Status, frames: seq<Frame>, ran: seq<Ran>, notified: seq<Data>)

  datatype Event =
    | Settle(which: Which, data: Data)       // resolve, reject
    | Notify(data: Data)
    | Attach(which: Which, ids: seq<nat>)    // done, fail, progress
    | Return
    | Advance

  function Get(m: Machine, w: Which): ListState<Handler> {
    match w case Done => m.done case Fail => m.fail case Progress => m.progress
  }

  function Put(m: Machine, w: Which, l: ListState<Handler>): Machine {
    match w case Done => m.(done := l) case Fail => m.(fail := l) case Progress => m.(progress := l)
  }

  function Other(w: Which): Which {
    if w.Done? then Fail else Done
  }

  function Final(w: Which): Status {
    if w.Done? then Resolved else Rejected
  }

  /** What the constructor adds to the lists `done` and `fail`. */
  function Prologue(w: Which): seq<Handler> {
    [SetStatus(Final(w)), DisableList(Other(w)), LockProgress]
  }

  function Users(ids: seq<nat>): (r: seq<Handler>)
    ensures |r| == |ids| && forall i :: 0 <= i < |r| ==> r[i].User?
  {
    seq(|ids|, i requires 0 <= i < |ids| => User(ids[i]))
  }

  function New(): Machine {
    Machine(Pushed(Fresh(true), Prologue(Done)), Pushed(Fresh(true), Prologue(Fail)), Fresh(false), Pending, [], [], [])
  }

  function Top(m: Machine): Frame
    requires m.frames != []
  {
    m.frames[|m.frames| - 1]
  }

  function WithTop(m: Machine, f: Frame): Machine
    requires m.frames != []
  {
    m.(frames := m.frames[|m.frames| - 1 := f])
  }

  /** Client code is running: at the outermost level, or inside the innermost callback. */
  predicate ClientRuns(m: Machine) {
    m.frames == [] || Top(m).inUser
  }

  function StartFire(m: Machine, w: Which, data: Data): Machine
    requires Get(m, w).list.Some?
  {
    Put(m, w, Begun(Get(m, w), data, true)).(frames := m.frames + [Frame(w, data, false)])
  }

  /** `fireWith` */
  function FireWith(m: Machine, w: Which, data: Data): Machine {
    var l := Get(m, w);
    if !Accepts(l) then m
    else if l.firing then
      if l.stack.Some? then Put(m, w, l.(stack := Some(l.stack.value + [data]))) else m
    else
      var n := StartFire(m, w, data);
      if w.Progress? then n.(notified := n.notified + [data]) else n
  }

  /** `add` */
  function Add(m: Machine, w: Which, ids: seq<nat>): Machine {
    var l := Get(m, w);
    var pushed := Pushed(l, Users(ids));
    if l.list.None? then m
    else if l.firing || l.memory.None? then Put(m, w, pushed)
    else StartFire(Put(m, w, pushed.(firingStart := |l.list.value|)), w, l.memory.value)
  }

  /** What a handler of the constructor does. */
  function Effect(m: Machine, h: Handler): Machine
    requires !h.User?
  {
    match h
    case SetStatus(s) => m.(status := s)
    case DisableList(w) => Put(m, w, Disabled(Get(m, w)))
    case LockProgress => Put(m, Progress, Locked(Get(m, Progress)))
  }

  function Bumped(l: ListState<Handler>): ListState<Handler> {
    l.(firingIndex := l.firingIndex + 1)
  }

  /** One step of the innermost loop of `fire`: the next callback, or what follows the loop. */
  function Tick(m: Machine): Machine
    requires m.frames != [] && !Top(m).inUser
  {
    var f := Top(m);
    var l := Get(m, f.which);
    if l.list.Some? && 0 <= l.firingIndex < l.firingLength && l.firingIndex < |l.list.value| then
      var h := l.list.value[l.firingIndex];
      if h.User? then WithTop(m, f.(inUser := true)).(ran := m.ran + [Ran(f.which, h.id, f.data)])
      else
        var n := Effect(m, h);
        Put(n, f.which, Bumped(Get(n, f.which)))
    else
      var popped := m.(frames := m.frames[..|m.frames| - 1]);
      if l.list.Some? && l.stack.Some? && l.stack.value != [] then
        var next := l.stack.value[0];
        var n := StartFire(Put(popped, f.which, l.(firing := false, stack := Some(l.stack.value[1..]))), f.which, next);
        if f.which.Progress? then n.(notified := n.notified + [next]) else n
      else Put(popped, f.which, Finished(l))
  }

  /** A callback returns to its loop. */
  function Leave(m: Machine): Machine
    requires m.frames != []
  {
    var f := Top(m);
    WithTop(Put(m, f.which, Bumped(Get(m, f.which))), f.(inUser := false))
  }

  /** Events that cannot happen in a state leave it as it is. */
  function Next(m: Machine, e: Event): Machine {
    match e
    case Settle(w, data) => if ClientRuns(m) && !w.Progress? then FireWith(m, w, data) else m
    case Notify(data) => if ClientRuns(m) then FireWith(m, Progress, data) else m
    case Attach(w, ids) => if ClientRuns(m) then Add(m, w, ids) else m
    case Return => if m.frames != [] && Top(m).inUser then Leave(m) else m
    case Advance => if m.frames != [] && !Top(m).inUser then Tick(m) else m
  }

  function Execute(events: seq<Event>): Machine {
    if events == [] then New() else Next(Execute(events[..|events| - 1]), events[|events| - 1])
  }

  // ---------- The invariant ----------

  predicate AllUsers(hs: seq<Handler>) {
    forall i :: 0 <= i < |hs| ==> hs[i].User?
  }

  predicate StartsWithPrologue(w: Which, hs: seq<Handler>) {
    |hs| >= 3 && hs[0] == Prologue(w)[0] && hs[1] == Prologue(w)[1] && hs[2] == Prologue(w)[2]
    && forall i :: 3 <= i < |hs| ==> hs[i].User?
  }

  /** How many of the constructor's handlers a fired list has run. */
  function Steps(l: ListState<Handler>): int {
    if l.firing && l.list.Some? && l.list.value != [] && l.list.value[0].SetStatus? && l.firingIndex < 3 then
      l.firingIndex
    else 3
  }

  /** A settling list by itself: untouched, running its prologue, or past it. */
  predicate SettlerShape(w: Which, l: ListState<Handler>) {
    && l.firingStart == 0 && l.stack.None?
    && (!l.fired ==> !l.firing && l.memory.None? && (l.list.Some? ==> StartsWithPrologue(w, l.list.value)))
    && (l.fired ==>
          && l.list.Some? && l.memory.Some?
          && (l.firing ==> l.firingLength == |l.list.value| && 0 <= l.firingIndex <= l.firingLength
                           && (StartsWithPrologue(w, l.list.value) || AllUsers(l.list.value)))
          && (!l.firing ==> l.list.value == []))
  }

  predicate ProgressShape(l: ListState<Handler>) {
    && l.firingStart == 0
    && (l.list.Some? ==> AllUsers(l.list.value))
    && (l.list.None? ==> l.stack.None? && l.memory.None?)
    && (l.list.Some? && l.stack.None? ==> l.fired)
    && (l.firing && l.list.Some? ==> l.firingLength == |l.list.value| && 0 <= l.firingIndex <= l.firingLength)
    && (l.fired && l.list.Some? ==> l.memory.Some?)
    && (!l.fired ==> !l.firing && l.memory.None?)
    && (!l.firing && l.stack.Some? ==> l.stack.value == [])
  }

  /** What firing a settling list has done to the rest so far. */
  predicate Settled(m: Machine, w: Which)
    requires !w.Progress?
  {
    var l := Get(m, w);
    l.fired ==>
      && !Get(m, Other(w)).fired
      && (Steps(l) < 3 ==> m.frames != [] && Top(m).which == w && !Top(m).inUser)
      && m.status == (if Steps(l) == 0 then Pending else Final(w))
      && (Steps(l) >= 2 ==> Get(m, Other(w)).list.None?)
      && (Steps(l) >= 3 ==> m.progress.stack.None?)
  }

  /** A frame is the loop of a list that is firing; for a settling list, with the data it was settled with. */
  predicate FrameOk(m: Machine, f: Frame) {
    var l := Get(m, f.which);
    && l.firing
    && (f.inUser && l.list.Some? ==> 0 <= l.firingIndex < |l.list.value| && l.list.value[l.firingIndex].User?)
    && (!f.which.Progress? ==> l.memory == Some(f.data))
  }

  /** No list has two loops, and only the innermost loop can be between callbacks. */
  predicate FramesOk(m: Machine) {
    && (forall i :: 0 <= i < |m.frames| ==> FrameOk(m, m.frames[i]))
    && (forall i, j :: 0 <= i < j < |m.frames| ==> m.frames[i].which != m.frames[j].which && m.frames[i].inUser)
  }

  /** Clients' callbacks of a settling list ran only with the data it was settled with. */
  predicate HistoryOk(m: Machine) {
    forall i :: 0 <= i < |m.ran| && !m.ran[i].which.Progress? ==> RanOk(m, m.ran[i])
  }

  predicate RanOk(m: Machine, r: Ran) {
    var l := Get(m, r.which);
    l.fired && Steps(l) == 3 && l.memory == Some(r.data)
  }

  predicate Invariant(m: Machine) {
    ListsOk(m) && FramesOk(m) && HistoryOk(m)
  }

  predicate ListsOk(m: Machine) {
    && SettlerShape(Done, m.done) && SettlerShape(Fail, m.fail) && ProgressShape(m.progress)
    && Settled(m, Done) && Settled(m, Fail)
    && (!m.done.fired && !m.fail.fired ==>
          m.status == Pending && m.done.list.Some? && m.fail.list.Some? && m.progress.stack.Some?)
  }

  lemma NewOk()
    ensures Invariant(New())
  {
  }

  // ---------- Every event keeps the invariant ----------

  lemma FireWithLists(m: Machine, w: Which, data: Data)
    requires Invariant(m) && ClientRuns(m)
    ensures ListsOk(FireWith(m, w, data))
  {
    hide FrameOk, RanOk;
  }

  lemma FireWithFrames(m: Machine, w: Which, data: Data)
    requires Invariant(m) && ClientRuns(m)
    ensures FramesOk(FireWith(m, w, data))
  {
    hide RanOk, Settled;
  }

  lemma FireWithHistory(m: Machine, w: Which, data: Data)
    requires Invariant(m) && ClientRuns(m)
    ensures HistoryOk(FireWith(m, w, data))
  {
  }

  /** `add` without a fire keeps the shape of a list, and how far its prologue is. */
  lemma PushedShape(w: Which, l: ListState<Handler>, ids: seq<nat>)
    requires l.firing || l.memory.None?
    ensures var p := Pushed(l, Users(ids));
            && (SettlerShape(w, l) ==> SettlerShape(w, p) && Steps(p) == Steps(l))
            && (ProgressShape(l) ==> ProgressShape(p))
  {
  }

  /** The list a settled or notified Deferred starts again for late callbacks. */
  function Again(l: ListState<Handler>, ids: seq<nat>): ListState<Handler>
    requires l.list.Some? && l.memory.Some?
  {
    Begun(Pushed(l, Users(ids)).(firingStart := |l.list.value|), l.memory.value, true)
  }

  lemma AgainShape(w: Which, l: ListState<Handler>, ids: seq<nat>)
    requires l.list.Some? && !l.firing && l.memory.Some?
    ensures var p := Again(l, ids);
            && (SettlerShape(w, l) ==> SettlerShape(w, p) && Steps(p) == 3 && Steps(l) == 3 && l.fired)
            && (ProgressShape(l) ==> ProgressShape(p))
  {
  }

  lemma AddAgainLists(m: Machine, w: Which, ids: seq<nat>)
    requires ListsOk(m) && ClientRuns(m)
    requires var l := Get(m, w); l.list.Some? && !l.firing && l.memory.Some?
    ensures ListsOk(Put(m, w, Again(Get(m, w), ids)).(frames := m.frames + [Frame(w, Get(m, w).memory.value, false)]))
  {
    AgainShape(w, Get(m, w), ids);
  }

  lemma AddPushedLists(m: Machine, w: Which, ids: seq<nat>)
    requires ListsOk(m)
    requires var l := Get(m, w); l.list.Some? && (l.firing || l.memory.None?)
    ensures ListsOk(Put(m, w, Pushed(Get(m, w), Users(ids))))
  {
    PushedShape(w, Get(m, w), ids);
  }

  lemma AddLists(m: Machine, w: Which, ids: seq<nat>)
    requires Invariant(m) && ClientRuns(m)
    ensures ListsOk(Add(m, w, ids))
  {
    var l := Get(m, w);
    if l.list.Some? {
      if !l.firing && l.memory.Some? {
        AddAgainLists(m, w, ids);
        assert Add(m, w, ids) == Put(m, w, Again(l, ids)).(frames := m.frames + [Frame(w, l.memory.value, false)]);
      } else {
        AddPushedLists(m, w, ids);
      }
    }
  }

  lemma AddFrames(m: Machine, w: Which, ids: seq<nat>)
    requires Invariant(m) && ClientRuns(m)
    ensures FramesOk(Add(m, w, ids))
  {
    hide ListsOk, RanOk;
    var l := Get(m, w);
    var n := Add(m, w, ids);
    forall i | 0 <= i < |m.frames| ensures FrameOk(n, m.frames[i]) && m.frames[i].inUser {
      assert FrameOk(m, m.frames[i]);
    }
  }

  lemma AddHistory(m: Machine, w: Which, ids: seq<nat>)
    requires Invariant(m) && ClientRuns(m)
    ensures HistoryOk(Add(m, w, ids))
  {
  }

  /** Whether the innermost loop has a callback to run. */
  predicate HasNext(m: Machine)
    requires m.frames != []
  {
    var l := Get(m, Top(m).which);
    l.list.Some? && 0 <= l.firingIndex < l.firingLength && l.firingIndex < |l.list.value|
  }

  predicate NextIsUser(m: Machine)
    requires m.frames != [] && HasNext(m)
  {
    var l := Get(m, Top(m).which);
    l.list.value[l.firingIndex].User?
  }

  lemma TickUserOk(m: Machine)
    requires Invariant(m) && m.frames != [] && !Top(m).inUser && HasNext(m) && NextIsUser(m)
    ensures Invariant(Tick(m))
  {
  }

  lemma TopFires(m: Machine)
    requires FramesOk(m) && m.frames != []
    ensures Get(m, Top(m).which).firing
  {
    assert FrameOk(m, Top(m));
  }

  lemma TickPrologueLists(m: Machine)
    requires Invariant(m) && m.frames != [] && !Top(m).inUser && HasNext(m) && !NextIsUser(m)
    ensures ListsOk(Tick(m))
  {
    hide FrameOk, RanOk;
    TopFires(m);
    var w := Top(m).which;
    var l := Get(m, w);
    assert !w.Progress? && l.firingIndex < 3;
    assert l.list.value[l.firingIndex] == Prologue(w)[l.firingIndex];
  }

  lemma TickPrologueFrames(m: Machine)
    requires Invariant(m) && m.frames != [] && !Top(m).inUser && HasNext(m) && !NextIsUser(m)
    ensures FramesOk(Tick(m))
  {
    var w := Top(m).which;
    var l := Get(m, w);
    assert !w.Progress? && l.firingIndex < 3;
    assert l.list.value[l.firingIndex] == Prologue(w)[l.firingIndex];
  }

  lemma TickPrologueHistory(m: Machine)
    requires Invariant(m) && m.frames != [] && !Top(m).inUser && HasNext(m) && !NextIsUser(m)
    ensures HistoryOk(Tick(m))
  {
    var w := Top(m).which;
    var l := Get(m, w);
    assert !w.Progress? && l.firingIndex < 3;
    assert l.list.value[l.firingIndex] == Prologue(w)[l.firingIndex];
  }

  lemma TickNotifyLists(m: Machine)
    requires Invariant(m) && m.frames != [] && !Top(m).inUser && !HasNext(m) && Top(m).which.Progress?
    ensures ListsOk(Tick(m))
  {
    hide FrameOk, RanOk;
  }

  lemma TickSettlerLists(m: Machine)
    requires Invariant(m) && m.frames != [] && !Top(m).inUser && !HasNext(m) && !Top(m).which.Progress?
    ensures ListsOk(Tick(m))
  {
    var w := Top(m).which;
    assert FrameOk(m, Top(m));
    assert Tick(m) == Put(m.(frames := m.frames[..|m.frames| - 1]), w, Finished(Get(m, w)));
  }

  lemma TickEndLists(m: Machine)
    requires Invariant(m) && m.frames != [] && !Top(m).inUser && !HasNext(m)
    ensures ListsOk(Tick(m))
  {
    if Top(m).which.Progress? { TickNotifyLists(m); } else { TickSettlerLists(m); }
  }

  lemma TickEndFrames(m: Machine)
    requires Invariant(m) && m.frames != [] && !Top(m).inUser && !HasNext(m)
    ensures FramesOk(Tick(m))
  {
  }

  lemma TickEndHistory(m: Machine)
    requires Invariant(m) && m.frames != [] && !Top(m).inUser && !HasNext(m)
    ensures HistoryOk(Tick(m))
  {
  }

  lemma LeaveLists(m: Machine)
    requires Invariant(m) && m.frames != [] && Top(m).inUser
    ensures ListsOk(Leave(m))
  {
  }

  lemma LeaveFrames(m: Machine)
    requires Invariant(m) && m.frames != [] && Top(m).inUser
    ensures FramesOk(Leave(m))
  {
  }

  lemma LeaveHistory(m: Machine)
    requires Invariant(m) && m.frames != [] && Top(m).inUser
    ensures HistoryOk(Leave(m))
  {
  }

  lemma NextOk(m: Machine, e: Event)
    requires Invariant(m)
    ensures Invariant(Next(m, e))
  {
    if ClientRuns(m) {
      match e
      case Settle(w, data) => FireWithLists(m, w, data); FireWithFrames(m, w, data); FireWithHistory(m, w, data);
      case Notify(data) =>
        FireWithLists(m, Progress, data); FireWithFrames(m, Progress, data); FireWithHistory(m, Progress, data);
      case Attach(w, ids) => AddLists(m, w, ids); AddFrames(m, w, ids); AddHistory(m, w, ids);
      case Return => if m.frames != [] { LeaveLists(m); LeaveFrames(m); LeaveHistory(m); }
      case Advance =>
    } else if e.Advance? {
      if !HasNext(m) {
        TickEndLists(m); TickEndFrames(m); TickEndHistory(m);
      } else if NextIsUser(m) {
        TickUserOk(m);
      } else {
        TickPrologueLists(m); TickPrologueFrames(m); TickPrologueHistory(m);
      }
    }
  }

  lemma {:induction false} AlwaysOk(events: seq<Event>)
    ensures Invariant(Execute(events))
  {
    if events == [] {
      NewOk();
    } else {
      AlwaysOk(events[..|events| - 1]);
      NextOk(Execute(events[..|events| - 1]), events[|events| - 1]);
    }
  }

  // ---------- What follows for every execution ----------

  lemma StepStays(m: Machine, e: Event)
    requires Invariant(m) && m.status != Pending
    ensures Next(m, e).status == m.status && Next(m, e).notified == m.notified
  {
    if m.frames != [] {
      assert FrameOk(m, Top(m));
    }
  }

  lemma ExecuteSplit(first: seq<Event>, e: Event)
    ensures Execute(first + [e]) == Next(Execute(first), e)
  {
    assert (first + [e])[..|first|] == first;
  }

  /** Once it has left "pending" the state never changes again, and no further notify starts. */
  lemma {:induction false} SettlesOnce(first: seq<Event>, more: seq<Event>)
    requires Execute(first).status != Pending
    ensures Execute(first + more).status == Execute(first).status
    ensures Execute(first + more).notified == Execute(first).notified
  {
    if more == [] {
      assert first + more == first;
    } else {
      var shorter := first + more[..|more| - 1];
      SettlesOnce(first, more[..|more| - 1]);
      AlwaysOk(shorter);
      ExecuteSplit(shorter, more[|more| - 1]);
      assert shorter + [more[|more| - 1]] == first + more;
      StepStays(Execute(shorter), more[|more| - 1]);
    }
  }

  /** No execution runs both a done and a fail callback, and all of one kind get the same data. */
  lemma NeverBoth(events: seq<Event>, i: nat, j: nat)
    requires i < |Execute(events).ran| && j < |Execute(events).ran|
    requires !Execute(events).ran[i].which.Progress? && !Execute(events).ran[j].which.Progress?
    ensures Execute(events).ran[i].which == Execute(events).ran[j].which
    ensures Execute(events).ran[i].data == Execute(events).ran[j].data
  {
    AlwaysOk(events);
  }

  /** Done callbacks run only when the Deferred is resolved, fail callbacks only when it is rejected. */
  lemma RunsAfterSettling(events: seq<Event>, i: nat)
    requires i < |Execute(events).ran| && !Execute(events).ran[i].which.Progress?
    ensures Execute(events).status == Final(Execute(events).ran[i].which)
  {
    AlwaysOk(events);
  }

  /** A resolved or rejected Deferred keeps the list of that outcome in use and has dropped the other one. */
  lemma OutcomeListStays(events: seq<Event>)
    ensures var m := Execute(events);
            && (m.status == Resolved ==> m.done.fired && m.done.list.Some?)
            && (m.status == Rejected ==> m.fail.fired && m.fail.list.Some?)
            && (ClientRuns(m) && m.status == Resolved ==> m.fail.list.None?)
            && (ClientRuns(m) && m.status == Rejected ==> m.done.list.None?)
  {
    AlwaysOk(events);
  }

  /** Whenever client code runs, a resolve or reject of a pending Deferred is accepted. */
  lemma PendingAccepts(events: seq<Event>, w: Which)
    requires !w.Progress? && ClientRuns(Execute(events))
    ensures Accepts(Get(Execute(events), w)) <==> Execute(events).status == Pending
  {
    AlwaysOk(events);
  }

  // ---------- A settling that nothing disturbs ----------

  /** `Settle`, and the three steps that run what the constructor added. */
  function Begin(m: Machine, w: Which, data: Data): Machine {
    Next(Next(Next(Next(m, Settle(w, data)), Advance), Advance), Advance)
  }

  /**
   Settling a pending Deferred sets the state, disables the other list and locks `progress`
   before any client's callback.
   */
  lemma SettlingTakes(m: Machine, w: Which, data: Data)
    requires Invariant(m) && ClientRuns(m) && m.status == Pending && !w.Progress?
    ensures var n := Begin(m, w, data);
            && n.status == Final(w) && Get(n, Other(w)).list.None? && n.progress.stack.None?
            && n.frames == m.frames + [Frame(w, data, false)] && n.ran == m.ran
            && Get(m, w).list.Some? && |Get(m, w).list.value| >= 3
            && Get(n, w) == Begun(Get(m, w), data, true).(firingIndex := 3)
  {
    hide FrameOk, RanOk;
    var l := Get(m, w);
    assert SettlerShape(w, l) && !l.fired;
    var n0 := Next(m, Settle(w, data));
    assert n0 == StartFire(m, w, data);
    var n1 := Next(n0, Advance);
    assert n1.status == Final(w) && Get(n1, w) == Begun(l, data, true).(firingIndex := 1);
    var n2 := Next(n1, Advance);
    assert Get(n2, w) == Begun(l, data, true).(firingIndex := 2) && Get(n2, Other(w)).list.None?;
  }

  /** `k` callbacks of the innermost loop run and return without calling anything. */
  function Rounds(m: Machine, k: nat): Machine {
    if k == 0 then m else Next(Next(Rounds(m, k - 1), Advance), Return)
  }

  function RansOf(w: Which, hs: seq<Handler>, data: Data): (r: seq<Ran>)
    ensures |r| == |hs| && forall i :: 0 <= i < |r| && hs[i].User? ==> r[i] == Ran(w, hs[i].id, data)
  {
    seq(|hs|, i requires 0 <= i < |hs| => Ran(w, if hs[i].User? then hs[i].id else 0, data))
  }

  lemma OneRound(m: Machine)
    requires m.frames != [] && !Top(m).inUser && HasNext(m) && NextIsUser(m)
    ensures var f, l := Top(m), Get(m, Top(m).which);
            Next(Next(m, Advance), Return)
            == Put(m, f.which, Bumped(l)).(ran := m.ran + [Ran(f.which, l.list.value[l.firingIndex].id, f.data)])
  {
    var f := Top(m);
    var n := Next(m, Advance);
    assert n.frames == m.frames[|m.frames| - 1 := f.(inUser := true)];
    assert n.frames[|m.frames| - 1 := f] == m.frames;
  }

  /** The innermost loop has only clients' callbacks left, at least `k`. */
  predicate Plain(m: Machine, k: nat) {
    && m.frames != [] && !Top(m).inUser
    && var l := Get(m, Top(m).which);
       && l.list.Some? && 0 <= l.firingIndex <= l.firingIndex + k <= l.firingLength == |l.list.value|
       && forall i :: l.firingIndex <= i < |l.list.value| ==> l.list.value[i].User?
  }

  /** The next `k` callbacks have run, nothing else has changed. */
  function RanThrough(m: Machine, k: nat): Machine
    requires Plain(m, k)
  {
    var f, l := Top(m), Get(m, Top(m).which);
    Put(m, f.which, l.(firingIndex := l.firingIndex + k))
      .(ran := m.ran + RansOf(f.which, l.list.value[l.firingIndex..l.firingIndex + k], f.data))
  }

  lemma RanThroughNone(m: Machine)
    requires Plain(m, 0)
    ensures RanThrough(m, 0) == m
  {
    hide RansOf;
    var f, l := Top(m), Get(m, Top(m).which);
    assert RansOf(f.which, l.list.value[l.firingIndex..l.firingIndex + 0], f.data) == [];
  }

  lemma RanThroughOne(m: Machine, k: nat)
    requires Plain(m, k + 1)
    ensures var r := RanThrough(m, k);
            r.frames == m.frames && HasNext(r) && NextIsUser(r)
            && Next(Next(r, Advance), Return) == RanThrough(m, k + 1)
  {
    hide Next, RansOf;
    var f, l := Top(m), Get(m, Top(m).which);
    var from, hs := l.firingIndex, l.list.value;
    var r := RanThrough(m, k);
    assert r.frames == m.frames && Get(r, f.which) == l.(firingIndex := from + k);
    OneRound(r);
    assert hs[from..from + k + 1] == hs[from..from + k] + [hs[from + k]];
    RansGrow(f.which, hs[from..from + k], hs[from + k], f.data, m.ran);
  }

  lemma {:induction false} RoundsRun(m: Machine, k: nat)
    requires Plain(m, k)
    ensures Rounds(m, k) == RanThrough(m, k)
  {
    hide Next, RanThrough;
    if k == 0 {
      RanThroughNone(m);
    } else {
      RoundsRun(m, k - 1);
      RanThroughOne(m, k - 1);
    }
  }

  lemma RansGrow(w: Which, hs: seq<Handler>, h: Handler, data: Data, ran: seq<Ran>)
    requires h.User?
    ensures ran + RansOf(w, hs, data) + [Ran(w, h.id, data)] == ran + RansOf(w, hs + [h], data)
  {
    assert RansOf(w, hs, data) + [Ran(w, h.id, data)] == RansOf(w, hs + [h], data);
  }

  /** The end of the loop of a settling list: it is emptied, and the code that settled goes on. */
  lemma LoopEnds(m: Machine)
    requires m.frames != [] && !Top(m).inUser
    requires var l := Get(m, Top(m).which);
             l.list.Some? && l.firingIndex == l.firingLength && l.stack.None? && l.memory.Some?
    ensures var n := Next(m, Advance);
            && n.frames == m.frames[..|m.frames| - 1] && Get(n, Top(m).which).list == Some([])
            && n.status == m.status && n.ran == m.ran
  {
  }

  /**
   When callbacks call nothing, settling a pending Deferred runs every callback attached so
   far once, in the order of attachment, with the data it was settled with, and then comes
   back to the code that settled it.
   */
  lemma {:induction false} SettlingRuns(events: seq<Event>, w: Which, data: Data)
    requires var m := Execute(events); ClientRuns(m) && m.status == Pending && !w.Progress?
    ensures var m := Execute(events);
            && Get(m, w).list.Some? && |Get(m, w).list.value| >= 3
            && var n := Next(Rounds(Begin(m, w, data), |Get(m, w).list.value| - 3), Advance);
               && n.status == Final(w) && n.frames == m.frames && Get(n, w).list == Some([])
               && n.ran == m.ran + RansOf(w, Get(m, w).list.value[3..], data)
  {
    hide FrameOk, RanOk, Next, Begin, Settled, Rounds;
    var m := Execute(events);
    AlwaysOk(events);
    SettlingTakes(m, w, data);
    var b := Begin(m, w, data);
    var hs := Get(m, w).list.value;
    assert SettlerShape(w, Get(m, w));
    assert Top(b) == Frame(w, data, false) && Plain(b, |hs| - 3);
    RoundsRun(b, |hs| - 3);
    assert hs[3..3 + (|hs| - 3)] == hs[3..];
    var r := Rounds(b, |hs| - 3);
    assert r.frames == b.frames && Get(r, w) == Get(b, w).(firingIndex := |hs|);
    LoopEnds(r);
    assert b.frames[..|b.frames| - 1] == m.frames;
  }

  lemma SettledFired(m: Machine, w: Which)
    requires ListsOk(m) && !w.Progress? && m.status == Final(w)
    ensures Get(m, w).fired
  {
  }

  lemma AttachStarts(m: Machine, w: Which, ids: seq<nat>)
    requires ClientRuns(m) && Get(m, w).list == Some([]) && !Get(m, w).firing && Get(m, w).memory.Some?
    ensures var b, l := Next(m, Attach(w, ids)), Get(m, w);
            && b == Put(m, w, Get(b, w)).(frames := m.frames + [Frame(w, l.memory.value, false)])
            && Get(b, w) == l.(list := Some(Users(ids)), fired := true, firing := true, firingIndex := 0,
                               firingLength := |ids|, firingStart := 0)
  {
    assert [] + Users(ids) == Users(ids);
  }

  /** Callbacks attached to a settled Deferred run at once, with the data it was settled with. */
  lemma {:induction false} LateCallbacksRun(events: seq<Event>, w: Which, ids: seq<nat>)
    requires var m := Execute(events); ClientRuns(m) && !w.Progress? && m.status == Final(w) && !Get(m, w).firing
    ensures var m := Execute(events);
            && Get(m, w).memory.Some?
            && var n := Next(Rounds(Next(m, Attach(w, ids)), |ids|), Advance);
               && n.status == m.status && n.frames == m.frames && Get(n, w).list == Some([])
               && n.ran == m.ran + RansOf(w, Users(ids), Get(m, w).memory.value)
  {
    hide FrameOk, RanOk, Rounds, Next, Settled;
    var m := Execute(events);
    AlwaysOk(events);
    var l := Get(m, w);
    assert SettlerShape(w, l);
    assert l.fired by { SettledFired(m, w); }
    AttachStarts(m, w, ids);
    var b := Next(m, Attach(w, ids));
    assert Plain(b, |ids|);
    RoundsRun(b, |ids|);
    assert Users(ids)[0..0 + |ids|] == Users(ids);
    var r := Rounds(b, |ids|);
    assert r.frames == b.frames && Get(r, w) == Get(b, w).(firingIndex := |ids|);
    LoopEnds(r);
    assert b.frames[..|b.frames| - 1] == m.frames;
  }
}

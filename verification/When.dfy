/**
 `jQuery.when`: a master Deferred that waits for several others. Each argument that is a
 Deferred settles at most once, as the module Deferred shows, at any moment and in any
 order; one Deferred may stand at several positions.
 */
module When {
  import opened Wrappers

  datatype Arg = Plain(value: int) | Promise(id: nat)

  datatype Outcome = Unsettled | Done(args: seq<int>) | Failed(args: seq<int>)

  /** An entry of `resolveValues`: still the Deferred itself, or what stands for its value. */
  datatype Value = Object(id: nat) | Item(value: int) | List(values: seq<int>) | Undefined

  datatype Master = Pending | Resolved(values: seq<Value>) | Rejected(args: seq<int>)

  /** What `updateFunc` stores for the arguments a callback was given. */
  function Passed(args: seq<int>): Value {
    if |args| > 1 then List(args) else if |args| == 1 then Item(args[0]) else Undefined
  }

  function Initial(arg: Arg): Value {
    match arg case Plain(v) => Item(v) case Promise(id) => Object(id)
  }

  // ---------- What the master should be ----------

  function ValueOf(arg: Arg, outcomes: seq<Outcome>): Value
    requires arg.Promise? ==> arg.id < |outcomes|
  {
    if arg.Promise? && outcomes[arg.id].Done? then Passed(outcomes[arg.id].args) else Initial(arg)
  }

  predicate Ready(arg: Arg, outcomes: seq<Outcome>)
    requires arg.Promise? ==> arg.id < |outcomes|
  {
    arg.Plain? || outcomes[arg.id].Done?
  }

  predicate Broken(arg: Arg, outcomes: seq<Outcome>)
    requires arg.Promise? ==> arg.id < |outcomes|
  {
    arg.Promise? && outcomes[arg.id].Failed?
  }

  predicate Known(args: seq<Arg>, outcomes: seq<Outcome>) {
    forall i :: 0 <= i < |args| && args[i].Promise? ==> args[i].id < |outcomes|
  }

  /** The number of positions not yet accounted for. */
  function Open(accounted: seq<bool>): nat {
    if accounted == [] then 0 else Open(accounted[..|accounted| - 1]) + if accounted[|accounted| - 1] then 0 else 1
  }

  lemma {:induction false} OpenUpdate(accounted: seq<bool>, i: nat)
    requires i < |accounted| && !accounted[i]
    ensures Open(accounted) == Open(accounted[i := true]) + 1
  {
    var n := |accounted| - 1;
    if i < n {
      OpenUpdate(accounted[..n], i);
      assert accounted[i := true][..n] == accounted[..n][i := true];
    } else {
      assert accounted[i := true][..n] == accounted[..n];
    }
  }

  lemma {:induction false} OpenNone(accounted: seq<bool>)
    ensures Open(accounted) == 0 <==> forall i :: 0 <= i < |accounted| ==> accounted[i]
  {
    if accounted != [] {
      OpenNone(accounted[..|accounted| - 1]);
    }
  }

  lemma {:induction false} OpenAll(n: nat)
    ensures Open(seq(n, i => false)) == n
  {
    if n > 0 {
      assert seq(n, i => false)[..n - 1] == seq(n - 1, i => false);
      OpenAll(n - 1);
    }
  }

  /** A counted position holds its value, another one still its argument. */
  predicate PositionOk(arg: Arg, outcomes: seq<Outcome>, counted: bool, value: Value)
    requires arg.Promise? ==> arg.id < |outcomes|
  {
    if counted then Ready(arg, outcomes) && value == ValueOf(arg, outcomes) else value == Initial(arg)
  }

  /** If one of the first `n` positions is rejected, the first that is has decided about the master. */
  ghost predicate FirstRejects(args: seq<Arg>, outcomes: seq<Outcome>, n: nat, master: Master)
    requires Known(args, outcomes)
  {
    forall i :: 0 <= i < n && i < |args| && Broken(args[i], outcomes) && NoneBroken(args, outcomes, i) ==>
      master == Rejected(outcomes[args[i].id].args)
  }

  ghost predicate NoneBroken(args: seq<Arg>, outcomes: seq<Outcome>, n: nat)
    requires Known(args, outcomes)
  {
    forall k :: 0 <= k < n && k < |args| ==> !Broken(args[k], outcomes)
  }

  lemma FirstRejectsNone(args: seq<Arg>, outcomes: seq<Outcome>, master: Master)
    requires Known(args, outcomes)
    ensures FirstRejects(args, outcomes, 0, master)
  {
  }

  /** Telling position `i` rejects a pending master if its Deferred is rejected. */
  ghost predicate Rejects(args: seq<Arg>, outcomes: seq<Outcome>, i: nat, before: Master, after: Master)
    requires Known(args, outcomes) && i < |args|
  {
    Broken(args[i], outcomes) && before == Pending ==> after == Rejected(outcomes[args[i].id].args)
  }

  lemma NotBroken(args: seq<Arg>, outcomes: seq<Outcome>, i: nat, master: Master)
    requires Known(args, outcomes) && i < |args|
    ensures !Broken(args[i], outcomes) ==> Rejects(args, outcomes, i, master, master)
  {
  }

  /** One more position has been told. */
  lemma FirstRejectsMore(args: seq<Arg>, outcomes: seq<Outcome>, n: nat, before: Master, after: Master)
    requires Known(args, outcomes) && n < |args| && FirstRejects(args, outcomes, n, before)
    requires before.Rejected? ==> after == before
    requires (NoneBroken(args, outcomes, n) ==> before == Pending) && Rejects(args, outcomes, n, before, after)
    ensures FirstRejects(args, outcomes, n + 1, after)
    ensures NoneBroken(args, outcomes, n + 1) <==> NoneBroken(args, outcomes, n) && !Broken(args[n], outcomes)
  {
  }

  /** A position has been told how its argument stands. */
  predicate Heard(arg: Arg, outcomes: seq<Outcome>, counted: bool, rejected: bool)
    requires arg.Promise? ==> arg.id < |outcomes|
  {
    (counted <==> Ready(arg, outcomes)) && (Broken(arg, outcomes) ==> rejected)
  }

  /** Heard, or the Deferred is one whose callbacks are running. */
  predicate HeardBut(running: set<nat>, arg: Arg, outcomes: seq<Outcome>, counted: bool, rejected: bool)
    requires arg.Promise? ==> arg.id < |outcomes|
  {
    (arg.Promise? && arg.id in running) || Heard(arg, outcomes, counted, rejected)
  }

  /** One Deferred is settled by another callback, `resolve` and `reject` on a settled one doing nothing. */
  datatype Settling = Settling(id: nat, outcome: Outcome)

  predicate Takes(s: Settling, outcomes: seq<Outcome>) {
    s.id < |outcomes| && outcomes[s.id].Unsettled? && !s.outcome.Unsettled?
  }

  /** None of these is left to do: all Deferreds they name are settled. */
  predicate AllSettled(settlings: seq<Settling>, outcomes: seq<Outcome>) {
    forall s :: s in settlings ==> !Takes(s, outcomes)
  }

  /** What is settled stays so. */
  predicate Later(before: seq<Outcome>, outcomes: seq<Outcome>) {
    && |outcomes| == |before|
    && forall o :: 0 <= o < |before| && !before[o].Unsettled? ==> outcomes[o] == before[o]
  }

  lemma OneMoreSettled(settlings: seq<Settling>, j: nat, before: seq<Outcome>, outcomes: seq<Outcome>)
    requires j < |settlings| && AllSettled(settlings[..j], before) && Later(before, outcomes)
    requires !Takes(settlings[j], outcomes)
    ensures AllSettled(settlings[..j + 1], outcomes)
  {
    assert settlings[..j + 1] == settlings[..j] + [settlings[j]];
  }

  class Waiter {
    const args: seq<Arg>
    var remaining: int
    var resolveValues: seq<Value>
    var master: Master
    /** How the Deferreds among the arguments stand; which positions have been counted down; the first rejection. */
    var outcomes: seq<Outcome>
    /** What other callbacks, those of the master among them, will settle each time they get their turn. */
    var script: seq<seq<Settling>>
    ghost var accounted: seq<bool>
    ghost var firstFailure: Option<seq<int>>

    /** A single Deferred is its own master: nothing listens to it. */
    predicate Shared() {
      |args| == 1 && args[0].Promise?
    }

    ghost predicate Consistent()
      reads this
    {
      && |accounted| == |resolveValues| == |args| && Known(args, outcomes)
      && remaining == Open(accounted)
      && (forall i :: 0 <= i < |args| ==> PositionOk(args[i], outcomes, accounted[i], resolveValues[i]))
      && (master.Resolved? ==> remaining == 0 && master.values == resolveValues)
      && (master.Rejected? <==> firstFailure.Some?) && (master.Rejected? ==> master.args == firstFailure.value)
      && (firstFailure.Some? ==>
            exists i :: 0 <= i < |args| && Broken(args[i], outcomes) && outcomes[args[i].id].args == firstFailure.value)
    }

    ghost predicate Valid()
      reads this
    {
      Waiting({})
    }

    /** ... while the callbacks of the Deferreds in `running` have not all run. */
    ghost predicate Waiting(running: set<nat>)
      reads this
    {
      && Consistent()
      && (!Shared() ==>
            (forall i :: 0 <= i < |args| ==> HeardBut(running, args[i], outcomes, accounted[i], firstFailure.Some?))
            && (remaining == 0 ==> master != Pending))
    }

    /**
     The master is resolved exactly when every Deferred argument is, and then holds at each
     position the plain argument, or what its Deferred was resolved with: the list of several
     values, a single one as it is, "undefined" for none. It is rejected exactly when some
     argument is, with what that one was rejected with; and pending otherwise.
     */
    lemma MasterIsRight()
      requires Valid() && !Shared()
      ensures master.Resolved? <==> forall i :: 0 <= i < |args| && args[i].Promise? ==> outcomes[args[i].id].Done?
      ensures master.Resolved? ==> |master.values| == |args|
      ensures master.Resolved? ==>
                forall i :: 0 <= i < |args| ==>
                  match args[i]
                  case Plain(v) => master.values[i] == Item(v)
                  case Promise(id) =>
                    && (|outcomes[id].args| == 0 ==> master.values[i] == Undefined)
                    && (|outcomes[id].args| == 1 ==> master.values[i] == Item(outcomes[id].args[0]))
                    && (|outcomes[id].args| > 1 ==> master.values[i] == List(outcomes[id].args))
      ensures master.Rejected? <==> exists i :: 0 <= i < |args| && args[i].Promise? && outcomes[args[i].id].Failed?
      ensures master.Rejected? ==>
                exists i :: 0 <= i < |args| && args[i].Promise? && outcomes[args[i].id] == Failed(master.args)
    {
      OpenNone(accounted);
      if master.Rejected? {
        var i :| 0 <= i < |args| && Broken(args[i], outcomes) && outcomes[args[i].id].args == master.args;
        assert outcomes[args[i].id] == Failed(master.args);
      }
    }

    constructor (args: seq<Arg>, outcomes: seq<Outcome>, script: seq<seq<Settling>>)
      requires Known(args, outcomes)
      ensures Valid() && this.args == args && this.outcomes == outcomes && this.script == script
      ensures !Shared() ==> FirstRejects(args, outcomes, |args|, master)
    {
      this.args, this.outcomes, this.script := args, outcomes, script;
      var single := |args| == 1 && args[0].Plain?;
      remaining := if single then 0 else |args|;
      resolveValues := seq(|args|, i requires 0 <= i < |args| => Initial(args[i]));
      accounted := seq(|args|, i => single);
      master, firstFailure := Pending, None;
      new;
      if single { OpenNone(accounted); } else { OpenAll(|args|); assert accounted == seq(|args|, i => false); }
      if |args| > 1 {
        Listen();
      }
      if remaining == 0 {
        ResolveWith();
      }
    }

    /** The loop over the arguments: plain ones are counted down, the callbacks of settled ones run at once. */
    method Listen()
      requires Consistent() && |args| > 1 && master == Pending && forall k :: 0 <= k < |args| ==> !accounted[k]
      modifies this`remaining, this`resolveValues, this`master, this`accounted, this`firstFailure
      ensures Consistent()
      ensures forall k :: 0 <= k < |args| ==> Heard(args[k], outcomes, accounted[k], firstFailure.Some?)
      ensures FirstRejects(args, outcomes, |args|, master)
    {
      hide PositionOk, Broken, Open, FirstRejects, NoneBroken, Rejects;
      FirstRejectsNone(args, outcomes, master);
      var i := 0;
      while i < |args|
        invariant 0 <= i <= |args| && Consistent()
        invariant NoneBroken(args, outcomes, i) ==> firstFailure.None?
        invariant FirstRejects(args, outcomes, i, master)
        invariant forall k :: 0 <= k < i ==> Heard(args[k], outcomes, accounted[k], firstFailure.Some?)
        invariant forall k :: i <= k < |args| ==> !accounted[k]
      {
        ghost var before := master;
        NoneOpen(i);
        NotBroken(args, outcomes, i, master);
        match args[i] {
          case Plain(_) => Skip(i);
          case Promise(id) => Tell(i);
        }
        FirstRejectsMore(args, outcomes, i, before, master);
        i := i + 1;
      }
    }

    /** While a position is not counted, the master is not resolved. */
    lemma NoneOpen(k: nat)
      requires Consistent() && k < |accounted| && !accounted[k]
      ensures remaining > 0 && !master.Resolved?
    {
      OpenNone(accounted);
    }

    /** A plain argument is counted down. */
    method Skip(i: nat)
      requires Consistent() && i < |args| && args[i].Plain? && !accounted[i]
      modifies this`remaining, this`accounted
      ensures Consistent() && accounted == old(accounted)[i := true] && !Broken(args[i], outcomes)
      ensures Heard(args[i], outcomes, accounted[i], firstFailure.Some?)
    {
      OpenNone(accounted);
      OpenUpdate(accounted, i);
      accounted := accounted[i := true];
      remaining := remaining - 1;
    }

    /** The master's `resolveWith`: it settles at most once. */
    method ResolveWith()
      requires Consistent() && remaining == 0
      modifies this`master
      ensures Consistent() && master != Pending && (old(master) != Pending ==> master == old(master))
    {
      if master == Pending {
        master := Resolved(resolveValues);
      }
    }

    /** The callbacks of position `i`, run if its Deferred is settled. */
    method Tell(i: nat)
      requires Consistent() && i < |args| && args[i].Promise? && !accounted[i]
      requires |args| > 1
      modifies this`remaining, this`resolveValues, this`master, this`accounted, this`firstFailure
      ensures Consistent() && Heard(args[i], outcomes, accounted[i], firstFailure.Some?)
      ensures forall k :: 0 <= k < |args| && k != i ==> accounted[k] == old(accounted)[k]
      ensures old(firstFailure).Some? ==> firstFailure == old(firstFailure)
      ensures Rejects(args, outcomes, i, old(master), master)
      ensures !Broken(args[i], outcomes) ==> firstFailure == old(firstFailure)
      ensures remaining == 0 ==> master != Pending
      ensures old(master) != Pending ==> master == old(master)
    {
      OpenNone(accounted);
      match outcomes[args[i].id]
      case Unsettled =>
      case Done(values) =>
        OpenUpdate(accounted, i);
        resolveValues := resolveValues[i := Passed(values)];
        accounted := accounted[i := true];
        remaining := remaining - 1;
        if remaining == 0 {
          ResolveWith();
        }
      case Failed(values) =>
        if master == Pending {
          master, firstFailure := Rejected(values), Some(values);
          assert Broken(args[i], outcomes);
        }
    }

    /** What is settled or decided stays, and positions of settled Deferreds are left to their own callbacks. */
    twostate predicate Keeps()
      reads this
    {
      && |script| <= |old(script)| && |accounted| == |old(accounted)| && Later(old(outcomes), outcomes)
      && (old(master) != Pending ==> master == old(master))
      && (old(script) == [] ==> script == [])
    }

    twostate predicate LeavesSettled()
      requires old(Consistent()) && Consistent()
      reads this
    {
      forall k :: 0 <= k < |args| && args[k].Promise? && !old(outcomes)[args[k].id].Unsettled? ==>
        accounted[k] == old(accounted)[k]
    }

    /**
     One of the Deferreds settles: its callbacks run, ours position by position, others before,
     between and behind them, and those may settle further Deferreds at once.
     */
    method Settle(id: nat, outcome: Outcome, ghost running: set<nat>)
      requires Waiting(running) && Takes(Settling(id, outcome), outcomes)
      requires forall r :: r in running ==> r < |outcomes| && !outcomes[r].Unsettled?
      modifies this
      ensures Waiting(running) && Keeps() && LeavesSettled() && outcomes[id] == outcome
      ensures old(script) == [] ==> outcomes == old(outcomes)[id := outcome]
      ensures script == [] || |script| + |args| < |old(script)|
      ensures old(script) == [] && old(master) == Pending && outcome.Failed? && Promise(id) in args && !Shared() ==>
                master == Rejected(outcome.args)
      decreases |script|, 1
    {
      hide HeardBut, Heard, PositionOk, Broken;
      Record(id, outcome, running);
      var i := 0;
      while i < |args|
        invariant 0 <= i <= |args| && Telling(id, running, i)
        invariant Keeps() && LeavesSettled() && outcomes[id] == outcome
        invariant script == [] || |script| + i <= |old(script)|
        invariant old(script) == [] ==> outcomes == old(outcomes)[id := outcome]
        invariant old(script) == [] && old(master) == Pending && outcome.Failed? && !Shared() ==>
                    master == if Promise(id) in args[..i] then Rejected(outcome.args) else Pending
      {
        assert args[..i + 1] == args[..i] + [args[i]];
        Others(id, running, i);
        TellIf(id, running, i);
        i := i + 1;
      }
      Others(id, running, i);
      assert args[..|args|] == args;
    }

    method TellIf(id: nat, ghost running: set<nat>, i: nat)
      requires Telling(id, running, i) && i < |args|
      modifies this`remaining, this`resolveValues, this`master, this`accounted, this`firstFailure
      ensures Telling(id, running, i + 1) && Keeps()
      ensures forall k :: 0 <= k < |args| && args[k] != Promise(id) ==> accounted[k] == old(accounted)[k]
      ensures args[i] != Promise(id) ==> master == old(master)
      ensures args[i] == Promise(id) && !Shared() && old(master) == Pending && outcomes[id].Failed? ==>
                master == Rejected(outcomes[id].args)
    {
      if |args| > 1 && args[i] == Promise(id) {
        Tell(i);
      }
    }

    /** The callbacks of `id` have run for the first `i` positions. */
    ghost predicate Telling(id: nat, running: set<nat>, i: nat)
      reads this
    {
      && Consistent() && id < |outcomes| && !outcomes[id].Unsettled?
      && (forall r :: r in running ==> r < |outcomes| && !outcomes[r].Unsettled?)
      && (!Shared() ==>
            && (remaining == 0 ==> master != Pending)
            && (forall k :: 0 <= k < |args| && (k < i || args[k] != Promise(id)) ==>
                  HeardBut(running, args[k], outcomes, accounted[k], firstFailure.Some?))
            && (forall k :: i <= k < |args| && args[k] == Promise(id) ==> !accounted[k]))
    }

    /** Other callbacks have their turn. */
    method Others(id: nat, ghost running: set<nat>, ghost i: nat)
      requires Telling(id, running, i)
      modifies this
      ensures Telling(id, running, i) && Keeps() && LeavesSettled()
      ensures old(script) == [] ==> outcomes == old(outcomes) && master == old(master)
      ensures old(script) != [] ==> |script| < |old(script)| && AllSettled(old(script)[0], outcomes)
      decreases |script|, 0
    {
      hide PositionOk;
      if script != [] {
        var settlings := script[0];
        script := script[1..];
        var j := 0;
        while j < |settlings|
          invariant Telling(id, running, i) && Keeps() && LeavesSettled() && |script| < |old(script)|
          invariant 0 <= j <= |settlings| && AllSettled(settlings[..j], outcomes)
        {
          ghost var before := outcomes;
          if Takes(settlings[j], outcomes) {
            Settle(settlings[j].id, settlings[j].outcome, running + {id});
          }
          OneMoreSettled(settlings, j, before, outcomes);
          j := j + 1;
        }
      }
    }

    method Record(id: nat, outcome: Outcome, ghost running: set<nat>)
      requires Waiting(running) && Takes(Settling(id, outcome), outcomes)
      requires forall r :: r in running ==> r < |outcomes| && !outcomes[r].Unsettled?
      modifies this`outcomes
      ensures outcomes == old(outcomes)[id := outcome] && Telling(id, running, 0)
    {
      outcomes := outcomes[id := outcome];
      assert forall k :: 0 <= k < |args| && args[k] != Promise(id) && args[k].Promise? ==> args[k].id != id;
    }
  }
}

/**
 The handlers of one event type on one element, as `jQuery.event.add` and `remove` keep
 them: one list, delegated handlers in front, with a count of those.
 */
module EventHandlers {
  import opened Wrappers

  datatype HandleObj = HandleObj(origType: string, guid: nat, selector: Option<string>, namespaces: string)

  /** What `remove` was asked for; `namespaces` stands for the test its regular expression makes. */
  datatype Request = Request(mappedTypes: bool, origType: string, guid: Option<nat>, selector: Option<string>,
                             namespaces: Option<string -> bool>)

  /** Whether a selector counts as one: `if ( selector )`. */
  predicate Given(selector: Option<string>) {
    selector.Some? && selector.value != ""
  }

  predicate Matches(r: Request, h: HandleObj) {
    && (r.mappedTypes || r.origType == h.origType)
    && (r.guid.None? || r.guid.value == h.guid)
    && (r.namespaces.None? || r.namespaces.value(h.namespaces))
    && (!Given(r.selector) || r.selector == h.selector || (r.selector.value == "**" && Given(h.selector)))
  }

  /** The handlers of one kind, in order. */
  function OfKind(hs: seq<HandleObj>, delegated: bool): seq<HandleObj> {
    if hs == [] then []
    else OfKind(hs[..|hs| - 1], delegated) + if Given(hs[|hs| - 1].selector) == delegated then [hs[|hs| - 1]] else []
  }

  function Unmatched(hs: seq<HandleObj>, r: Request): seq<HandleObj> {
    if hs == [] then [] else Unmatched(hs[..|hs| - 1], r) + if Matches(r, hs[|hs| - 1]) then [] else [hs[|hs| - 1]]
  }

  lemma {:induction false} UnmatchedConcat(a: seq<HandleObj>, b: seq<HandleObj>, r: Request)
    ensures Unmatched(a + b, r) == Unmatched(a, r) + Unmatched(b, r)
  {
    if b == [] {
      assert a + b == a;
    } else {
      assert (a + b)[..|a + b| - 1] == a + b[..|b| - 1];
      UnmatchedConcat(a, b[..|b| - 1], r);
    }
  }

  /** Removing and sorting by kind commute. */
  lemma {:induction false} UnmatchedOfKind(hs: seq<HandleObj>, r: Request, delegated: bool)
    ensures Unmatched(OfKind(hs, delegated), r) == OfKind(Unmatched(hs, r), delegated)
  {
    if hs != [] {
      var front, last := hs[..|hs| - 1], hs[|hs| - 1];
      UnmatchedOfKind(front, r, delegated);
      if Given(last.selector) == delegated {
        assert (OfKind(front, delegated) + [last])[..|OfKind(front, delegated)|] == OfKind(front, delegated);
      } else {
        assert OfKind(hs, delegated) == OfKind(front, delegated);
      }
      if Matches(r, last) {
        assert Unmatched(hs, r) == Unmatched(front, r);
      } else {
        assert (Unmatched(front, r) + [last])[..|Unmatched(front, r)|] == Unmatched(front, r);
      }
    }
  }

  lemma {:induction false} KindsAreRight(hs: seq<HandleObj>, delegated: bool)
    ensures forall i :: 0 <= i < |OfKind(hs, delegated)| ==> Given(OfKind(hs, delegated)[i].selector) == delegated
  {
    if hs != [] {
      KindsAreRight(hs[..|hs| - 1], delegated);
    }
  }

  lemma {:induction false} KindsKeep(hs: seq<HandleObj>, delegated: bool, h: HandleObj)
    ensures multiset(OfKind(hs, delegated))[h]
            == if (h.selector.Some? && h.selector.value != "") == delegated then multiset(hs)[h] else 0
  {
    if hs != [] {
      KindsKeep(hs[..|hs| - 1], delegated, h);
      assert hs == hs[..|hs| - 1] + [hs[|hs| - 1]];
    }
  }

  /**
   Whether `remove` takes a handler: it is of the type asked for, has the function and the
   namespaces if any were given, and the selector if one was; "**" takes any delegated one.
   */
  predicate Taken(r: Request, h: HandleObj) {
    && (!r.mappedTypes ==> h.origType == r.origType)
    && (r.guid.Some? ==> h.guid == r.guid.value)
    && (r.namespaces.Some? ==> r.namespaces.value(h.namespaces))
    && match r.selector
       case None => true
       case Some(s) => s == "" || h.selector == Some(s) || (s == "**" && h.selector.Some? && h.selector.value != "")
  }

  /** Every handler that is not taken stays, as often as it was there, and no other one does. */
  lemma {:induction false} UnmatchedKeeps(hs: seq<HandleObj>, r: Request, h: HandleObj)
    ensures multiset(Unmatched(hs, r))[h] == if Taken(r, h) then 0 else multiset(hs)[h]
  {
    if hs != [] {
      UnmatchedKeeps(hs[..|hs| - 1], r, h);
      assert hs == hs[..|hs| - 1] + [hs[|hs| - 1]];
    }
  }

  /** The number of delegated handlers. */
  function DelegatesIn(hs: seq<HandleObj>): nat {
    if hs == [] then 0 else DelegatesIn(hs[..|hs| - 1]) + if Given(hs[|hs| - 1].selector) then 1 else 0
  }

  lemma {:induction false} DelegatesConcat(a: seq<HandleObj>, b: seq<HandleObj>)
    ensures DelegatesIn(a + b) == DelegatesIn(a) + DelegatesIn(b)
  {
    if b == [] {
      assert a + b == a;
    } else {
      assert (a + b)[..|a + b| - 1] == a + b[..|b| - 1];
      DelegatesConcat(a, b[..|b| - 1]);
    }
  }

  lemma {:induction false} DelegatesOfKind(hs: seq<HandleObj>, delegated: bool)
    ensures DelegatesIn(OfKind(hs, delegated)) == if delegated then |OfKind(hs, delegated)| else 0
  {
    if hs != [] {
      var front, last := hs[..|hs| - 1], hs[|hs| - 1];
      DelegatesOfKind(front, delegated);
      if Given(last.selector) == delegated {
        assert (OfKind(front, delegated) + [last])[..|OfKind(front, delegated)|] == OfKind(front, delegated);
      } else {
        assert OfKind(hs, delegated) == OfKind(front, delegated);
      }
    }
  }

  lemma UnmatchedFront(was: seq<HandleObj>, j: nat, r: Request)
    requires j < |was|
    ensures Unmatched(was[j..], r)
            == (if Matches(r, was[j]) then [] else [was[j]]) + Unmatched(was[j + 1..], r)
  {
    assert was[j..] == [was[j]] + was[j + 1..];
    UnmatchedConcat([was[j]], was[j + 1..], r);
    assert [was[j]][..0] == [];
  }

  lemma StripStep(was: seq<HandleObj>, j: nat, r: Request)
    requires j < |was|
    ensures var hs := was[..j + 1] + Unmatched(was[j + 1..], r);
            was[..j] + Unmatched(was[j..], r) == if Matches(r, hs[j]) then hs[..j] + hs[j + 1..] else hs
  {
    var rest := Unmatched(was[j + 1..], r);
    var hs := was[..j + 1] + rest;
    UnmatchedFront(was, j, r);
    if Matches(r, was[j]) {
      assert hs[j] == was[j] && hs[..j] == was[..j] && hs[j + 1..] == rest;
    } else {
      assert was[..j + 1] == was[..j] + [was[j]];
      assert hs == was[..j] + ([was[j]] + rest);
    }
  }

  lemma DelegatesCut(a: seq<HandleObj>, h: HandleObj, b: seq<HandleObj>)
    ensures DelegatesIn(a + [h] + b) == DelegatesIn(a + b) + if Given(h.selector) then 1 else 0
  {
    DelegatesConcat(a + [h], b);
    DelegatesConcat(a, [h]);
    DelegatesConcat(a, b);
    assert [h][..0] == [];
  }

  class HandlerList {
    var handlers: seq<HandleObj>
    var delegateCount: nat
    /** History: the handlers added and not removed, in order of addition. */
    ghost var live: seq<HandleObj>

    /** Delegated handlers in order of addition, then direct ones in order of addition, with the count as boundary. */
    ghost predicate Valid()
      reads this
    {
      handlers == OfKind(live, true) + OfKind(live, false) && delegateCount == |OfKind(live, true)|
    }

    constructor ()
      ensures Valid() && live == []
    {
      handlers, delegateCount, live := [], 0, [];
    }

    method Add(h: HandleObj)
      requires Valid()
      modifies this
      ensures Valid() && live == old(live) + [h]
    {
      assert (live + [h])[..|live|] == live;
      if Given(h.selector) {
        handlers := handlers[..delegateCount] + [h] + handlers[delegateCount..];
        delegateCount := delegateCount + 1;
      } else {
        handlers := handlers + [h];
      }
      live := live + [h];
    }

    method Remove(r: Request)
      requires Valid()
      modifies this
      ensures Valid() && live == Unmatched(old(live), r)
    {
      CountIsDelegates();
      Strip(r);
      UnmatchedConcat(OfKind(live, true), OfKind(live, false), r);
      UnmatchedOfKind(live, r, true);
      UnmatchedOfKind(live, r, false);
      live := Unmatched(live, r);
      DelegatesConcat(OfKind(live, true), OfKind(live, false));
      DelegatesOfKind(live, true);
      DelegatesOfKind(live, false);
    }

    /** The loop of `remove`, from the back. */
    method Strip(r: Request)
      requires delegateCount == DelegatesIn(handlers)
      modifies this`handlers, this`delegateCount
      ensures handlers == Unmatched(old(handlers), r) && delegateCount == DelegatesIn(handlers)
    {
      ghost var was := handlers;
      var j := |handlers|;
      assert was[..j] == was && was[j..] == [];
      while j > 0
        invariant 0 <= j <= |was|
        invariant handlers == was[..j] + Unmatched(was[j..], r)
        invariant delegateCount == DelegatesIn(handlers)
      {
        j := j - 1;
        StripStep(was, j, r);
        StripAt(j, r);
      }
      assert was[0..] == was;
    }

    /** One turn of the loop. */
    method StripAt(j: nat, r: Request)
      requires j < |handlers| && delegateCount == DelegatesIn(handlers)
      modifies this`handlers, this`delegateCount
      ensures delegateCount == DelegatesIn(handlers)
      ensures handlers
              == if Matches(r, old(handlers)[j]) then old(handlers)[..j] + old(handlers)[j + 1..] else old(handlers)
    {
      var h := handlers[j];
      if Matches(r, h) {
        assert handlers == handlers[..j] + [h] + handlers[j + 1..];
        DelegatesCut(handlers[..j], h, handlers[j + 1..]);
        handlers := handlers[..j] + handlers[j + 1..];
        if Given(h.selector) {
          delegateCount := delegateCount - 1;
        }
      }
    }

    lemma CountIsDelegates()
      requires Valid()
      ensures delegateCount == DelegatesIn(handlers)
    {
      DelegatesConcat(OfKind(live, true), OfKind(live, false));
      DelegatesOfKind(live, true);
      DelegatesOfKind(live, false);
    }

    /** How `handlers` cuts the list for dispatch: it never mixes the two kinds. */
    method Cut() returns (delegated: seq<HandleObj>, direct: seq<HandleObj>)
      requires Valid()
      ensures delegated == OfKind(live, true) && direct == OfKind(live, false)
      ensures forall h :: h in delegated ==> h.selector.Some? && h.selector.value != ""
      ensures forall h :: h in direct ==> h.selector.None? || h.selector.value == ""
    {
      KindsAreRight(live, true);
      KindsAreRight(live, false);
      delegated, direct := handlers[..delegateCount], handlers[delegateCount..];
    }
  }
}

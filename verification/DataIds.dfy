/**
 The ids under which `jQuery.cache` holds the data of DOM nodes: given out by
 `internalData`, taken back by `cleanData` and used again. Cleaning an element first
 removes its special events, whose hooks may work on the same store.
 */
module DataIds {
  import opened Histories

  type Elem = nat

  /**
   What is stored for an element: its types with handlers of special events, whether there
   are handlers of ordinary ones, whether there is data. `owner` records for whom it was
   made; the code does not know it.
   */
  datatype Record = Record(owner: Elem, events: seq<string>, ordinary: bool, data: bool)

  /** What `internalData` is called for: a value, or the first handler of an event type. */
  datatype Entry = Value | Special(name: string) | Ordinary

  /** `elem[expando]`, `jQuery.cache`, `core_deletedIds` and `jQuery.guid`. */
  datatype Ids = Ids(expando: map<Elem, nat>, cache: map<nat, Record>, deleted: seq<nat>, guid: nat)

  /** Records and elements belong to each other one to one, and the free list names unused ids, each once. */
  ghost predicate Safe(s: Ids) {
    && s.guid > 0
    && (forall e :: e in s.expando ==> s.expando[e] in s.cache && s.cache[s.expando[e]].owner == e)
    && (forall id :: id in s.cache ==> Holds(s, s.cache[id].owner, id) && 0 < id < s.guid)
    && (forall i :: 0 <= i < |s.deleted| ==> s.deleted[i] !in s.cache && 0 < s.deleted[i] < s.guid)
    && (forall i, j :: 0 <= i < j < |s.deleted| ==> s.deleted[i] != s.deleted[j])
  }

  predicate Holds(s: Ids, e: Elem, id: nat) {
    e in s.expando && s.expando[e] == id
  }

  /** In such a store no two elements share an id, and no free id is in use. */
  lemma NoSharing(s: Ids, e: Elem, f: Elem)
    requires Safe(s) && e in s.expando && f in s.expando && e != f
    ensures s.expando[e] != s.expando[f] && s.expando[e] !in s.deleted
  {
    assert s.cache[s.expando[e]].owner == e;
  }

  /** The part of `internalData` that finds or makes the record of an element. */
  function Allocate(s: Ids, e: Elem): Ids {
    var isNew := e !in s.expando;
    var reuse := s.deleted != [];
    var id := if !isNew then s.expando[e] else if reuse then s.deleted[|s.deleted| - 1] else s.guid;
    Ids(s.expando[e := id],
        if id in s.cache then s.cache else s.cache[id := Record(e, [], false, false)],
        if isNew && reuse then s.deleted[..|s.deleted| - 1] else s.deleted,
        if isNew && !reuse then s.guid + 1 else s.guid)
  }

  /** The end of `cleanData` for an element that held `id` when its cleaning began. */
  function Release(s: Ids, e: Elem, id: nat): Ids {
    if id !in s.cache then s
    else Ids(s.expando - {e}, s.cache - {id}, s.deleted + [id], s.guid)
  }

  lemma AllocateSafe(s: Ids, e: Elem)
    requires Safe(s)
    ensures Safe(Allocate(s, e)) && e in Allocate(s, e).expando
    ensures forall f :: f in s.expando ==> Holds(Allocate(s, e), f, s.expando[f])
  {
  }

  lemma RecordSafe(s: Ids, id: nat, r: Record)
    requires Safe(s) && id in s.cache && r.owner == s.cache[id].owner
    ensures Safe(s.(cache := s.cache[id := r]))
  {
  }

  /** The guard `if ( cache[ id ] )` is enough exactly when a record found under the id is still this element's. */
  lemma {:induction false} ReleaseSafe(s: Ids, e: Elem, id: nat)
    requires Safe(s)
    ensures Safe(Release(s, e, id)) <==> (id in s.cache ==> Holds(s, e, id))
  {
    if id in s.cache && !Holds(s, e, id) {
      assert s.cache[id].owner != e;
      assert Release(s, e, id).expando[s.cache[id].owner] == id;
    }
  }

  /**
   How it fails: element 1 is cleaned, and its hook cleans it too and then stores a value for
   element 2, which gets the freed id. The outer cleaning frees the id again; elements 2 and 3 share it.
   */
  lemma StolenIdIsShared()
    ensures var s0 := Stored(Allocate(Ids(map[], map[], [], 1), 1), 1, Special("x"));
            var hook := Stored(Allocate(Cleaned(s0, 1), 2), 2, Value);
            var after := Allocate(Release(hook, 1, s0.expando[1]), 3);
            EventsIn(s0, 1) > 0 && HasRecord(hook, 2) && Holds(after, 2, 1) && Holds(after, 3, 1)
  {
    var s0 := Stored(Allocate(Ids(map[], map[], [], 1), 1), 1, Special("x"));
    assert Allocate(Ids(map[], map[], [], 1), 1) == Ids(map[1 := 1], map[1 := Record(1, [], false, false)], [], 2);
    assert [] + ["x"] == ["x"];
    assert s0 == Ids(map[1 := 1], map[1 := Record(1, ["x"], false, false)], [], 2);
    var s1 := Cleaned(s0, 1);
    assert s1 == Ids(map[], map[], [1], 2);
    var hook := Stored(Allocate(s1, 2), 2, Value);
    assert hook == Ids(map[2 := 1], map[1 := Record(2, [], false, true)], [], 2);
    assert Release(hook, 1, 1) == Ids(map[2 := 1], map[], [1], 2);
  }

  predicate HasRecord(s: Ids, e: Elem) {
    e in s.expando && s.expando[e] in s.cache
  }

  lemma SafeHasRecord(s: Ids, e: Elem)
    requires Safe(s) && e in s.expando
    ensures HasRecord(s, e)
  {
  }

  /** What storing leaves in the record. */
  function Stored(s: Ids, e: Elem, entry: Entry): Ids
    requires HasRecord(s, e)
  {
    var r := s.cache[s.expando[e]];
    s.(cache := s.cache[s.expando[e] :=
      match entry
      case Value => r.(data := true)
      case Ordinary => r.(ordinary := true)
      case Special(t) => if t in r.events then r else r.(events := r.events + [t])])
  }

  /** `isEmptyDataObject`, for a record without any events left. */
  predicate Bare(r: Record) {
    r.events == [] && !r.ordinary && !r.data
  }

  /** What `removeData` leaves: a record without handlers goes with its data. */
  function DataRemoved(s: Ids, e: Elem): Ids {
    if !HasRecord(s, e) then s
    else
      var id := s.expando[e];
      var r := s.cache[id].(data := false);
      if Bare(r) then Release(s, e, id) else s.(cache := s.cache[id := r])
  }

  function Drop(types: seq<string>, t: string): seq<string> {
    if types == [] then [] else if types[0] == t then types[1..] else [types[0]] + Drop(types[1..], t)
  }

  /** Exactly the first occurrence goes. */
  lemma {:induction false} DropFirst(types: seq<string>, t: string) returns (i: nat)
    requires t in types
    ensures i < |types| && types[i] == t && t !in types[..i]
    ensures Drop(types, t) == types[..i] + types[i + 1..]
  {
    i := 0;
    if types[0] != t {
      i := DropFirst(types[1..], t);
      assert types[..i + 1] == [types[0]] + types[1..][..i];
      i := i + 1;
    }
  }

  /** What nothing about `e` changes: the records and ids of all other elements, and the counter. */
  ghost predicate OthersSame(s: Ids, t: Ids, e: Elem) {
    && t.guid == s.guid
    && (forall f :: f != e ==> (f in t.expando <==> f in s.expando))
    && (forall f :: f != e && f in s.expando ==> t.expando[f] == s.expando[f] && s.expando[f] in t.cache)
    && (forall f :: f != e && f in s.expando && s.expando[f] in s.cache ==>
          t.cache[s.expando[f]] == s.cache[s.expando[f]])
  }

  /** The record of `e` is now this one. */
  ghost predicate Became(s: Ids, t: Ids, e: Elem, r: Record) {
    && e in s.expando && Holds(t, e, s.expando[e]) && s.expando[e] in t.cache && t.cache[s.expando[e]] == r
    && t.deleted == s.deleted && OthersSame(s, t, e)
  }

  /** The record of `e` is gone, and its id is the next to be given out. */
  ghost predicate Freed(s: Ids, t: Ids, e: Elem) {
    && e in s.expando && e !in t.expando && s.expando[e] !in t.cache
    && t.deleted == s.deleted + [s.expando[e]] && OthersSame(s, t, e)
  }

  lemma ReleaseFrees(s: Ids, e: Elem)
    requires Safe(s) && e in s.expando
    ensures Freed(s, Release(s, e, s.expando[e]), e)
  {
    forall f | f != e && f in s.expando ensures s.expando[f] != s.expando[e] {
      NoSharing(s, e, f);
    }
  }

  lemma RecordBecomes(s: Ids, e: Elem, r: Record)
    requires Safe(s) && e in s.expando
    ensures Became(s, s.(cache := s.cache[s.expando[e] := r]), e, r)
  {
    forall f | f != e && f in s.expando ensures s.expando[f] != s.expando[e] {
      NoSharing(s, e, f);
    }
  }

  /** `removeData` takes the data alone as long as there are handlers, be they of special or of ordinary events. */
  lemma DataRemovedExact(s: Ids, e: Elem)
    requires Safe(s)
    ensures e !in s.expando ==> DataRemoved(s, e) == s
    ensures e in s.expando ==>
              var r := s.cache[s.expando[e]];
              if r.events != [] || r.ordinary
              then Became(s, DataRemoved(s, e), e, Record(e, r.events, r.ordinary, false))
              else Freed(s, DataRemoved(s, e), e)
  {
    if e in s.expando {
      ReleaseFrees(s, e);
      RecordBecomes(s, e, s.cache[s.expando[e]].(data := false));
    }
  }

  /** Unbinding a type leaves all other types and the data; when nothing is left the record goes. */
  lemma UnboundExact(s: Ids, e: Elem, t: string)
    requires Safe(s)
    ensures e !in s.expando || t !in s.cache[s.expando[e]].events ==> Unbound(s, e, t) == s
    ensures e in s.expando && t in s.cache[s.expando[e]].events ==>
              var r := s.cache[s.expando[e]];
              if r.events == [t] && !r.ordinary && !r.data then Freed(s, Unbound(s, e, t), e)
              else Became(s, Unbound(s, e, t), e, Record(e, Drop(r.events, t), r.ordinary, r.data))
  {
    if e in s.expando && t in s.cache[s.expando[e]].events {
      var r := s.cache[s.expando[e]];
      DropShorter(r.events, t);
      ReleaseFrees(s, e);
      RecordBecomes(s, e, r.(events := Drop(r.events, t)));
    }
  }

  /** Storing sets the one thing named, in the record of that element. */
  lemma StoredExact(s: Ids, e: Elem, entry: Entry)
    requires Safe(s) && e in s.expando
    ensures HasRecord(s, e)
    ensures var r := s.cache[s.expando[e]];
            match entry
            case Value => Became(s, Stored(s, e, entry), e, Record(e, r.events, r.ordinary, true))
            case Ordinary => Became(s, Stored(s, e, entry), e, Record(e, r.events, true, r.data))
            case Special(t) =>
              var types := if t in r.events then r.events else r.events + [t];
              Became(s, Stored(s, e, entry), e, Record(e, types, r.ordinary, r.data))
  {
    RecordBecomes(s, e, Stored(s, e, entry).cache[s.expando[e]]);
  }

  /** An element keeps its id; a new one gets an empty record, and the id freed last, or if there is none a new one. */
  lemma AllocateExact(s: Ids, e: Elem)
    requires Safe(s)
    ensures var t := Allocate(s, e);
            && (e in s.expando ==> t == s)
            && (e !in s.expando ==>
                  && HasRecord(t, e) && t.cache[t.expando[e]] == Record(e, [], false, false)
                  && (s.deleted == [] ==> t.expando[e] == s.guid && t.guid == s.guid + 1 && t.deleted == [])
                  && (s.deleted != [] ==> t.guid == s.guid && s.deleted == t.deleted + [t.expando[e]]))
  {
    if e in s.expando {
      assert s.expando[e := s.expando[e]] == s.expando;
    }
  }

  lemma {:induction false} DropShorter(types: seq<string>, t: string)
    requires t in types
    ensures |Drop(types, t)| == |types| - 1
  {
    if types[0] != t {
      DropShorter(types[1..], t);
    }
  }

  /** What `event.remove` leaves when the hook does nothing. */
  function Unbound(s: Ids, e: Elem, t: string): Ids {
    if !HasRecord(s, e) || t !in s.cache[s.expando[e]].events then s
    else
      var id := s.expando[e];
      var r := s.cache[id].(events := Drop(s.cache[id].events, t));
      if Bare(r) then Release(s, e, id) else s.(cache := s.cache[id := r])
  }

  /** What `cleanData` leaves when hooks do nothing. */
  function Cleaned(s: Ids, e: Elem): Ids {
    if HasRecord(s, e) then Release(s, e, s.expando[e]) else s
  }

  function CleanedAll(s: Ids, es: seq<Elem>): Ids {
    if es == [] then s else Cleaned(CleanedAll(s, es[..|es| - 1]), es[|es| - 1])
  }

  /** All elements named are without an id afterwards, and no other element is touched. */
  lemma {:induction false} CleanedAllFrees(s: Ids, es: seq<Elem>, e: Elem)
    requires Safe(s)
    ensures Safe(CleanedAll(s, es))
    ensures e in es ==> e !in CleanedAll(s, es).expando
    ensures e !in es ==> (e in CleanedAll(s, es).expando <==> e in s.expando)
    ensures e !in es && e in s.expando ==> Holds(CleanedAll(s, es), e, s.expando[e])
  {
    if es != [] {
      var front := CleanedAll(s, es[..|es| - 1]);
      CleanedAllFrees(s, es[..|es| - 1], e);
      if HasRecord(front, es[|es| - 1]) {
        ReleaseSafe(front, es[|es| - 1], front.expando[es[|es| - 1]]);
      }
    }
  }

  /** While `e` is cleaned: only its events have gone yet, or everything. */
  predicate Unbinding(s0: Ids, s: Ids, e: Elem, id: nat) {
    s == Release(s0, e, id) || (HasRecord(s, e) && s.expando[e] == id && s == s0.(cache := s0.cache[id := s.cache[id]]))
  }

  lemma StartsUnbinding(s: Ids, e: Elem)
    requires HasRecord(s, e)
    ensures Unbinding(s, s, e, s.expando[e])
    ensures TypesIn(s, e) == s.cache[s.expando[e]].events && EventsIn(s, e) == |TypesIn(s, e)|
  {
    assert s.cache[s.expando[e] := s.cache[s.expando[e]]] == s.cache;
  }

  lemma UnboundStep(s0: Ids, s: Ids, e: Elem, id: nat, t: string)
    requires id in s0.cache && Unbinding(s0, s, e, id)
    ensures Unbinding(s0, Unbound(s, e, t), e, id)
    ensures Release(s, e, id) == Release(s0, e, id)
  {
    ReleaseForgets(s0, e, id, if id in s.cache then s.cache[id] else s0.cache[id]);
  }

  /** Freeing a record does not depend on what it holds. */
  lemma ReleaseForgets(s: Ids, e: Elem, id: nat, r: Record)
    requires id in s.cache
    ensures Release(s.(cache := s.cache[id := r]), e, id) == Release(s, e, id)
  {
    assert s.cache[id := r] - {id} == s.cache - {id};
  }

  // ---------- What hooks may do ----------

  /** A hook may store data or bind a type on an element, drop what is no event, or clean elements. */
  datatype Action = Write(e: Elem, entry: Entry) | Forget(e: Elem) | Clean(es: seq<Elem>)

  type Script = seq<seq<Action>>

  /** The number of special types still to unbind for an element. */
  function EventsIn(s: Ids, e: Elem): nat {
    if HasRecord(s, e) then |s.cache[s.expando[e]].events| else 0
  }

  /** ... and those types. */
  function TypesIn(s: Ids, e: Elem): seq<string> {
    if HasRecord(s, e) then s.cache[s.expando[e]].events else []
  }

  /** A hook that has run: for one special type of one element. */
  datatype Hook = Hook(e: Elem, name: string)

  function HooksOf(e: Elem, types: seq<string>): (r: seq<Hook>)
    ensures |r| == |types| && forall i :: 0 <= i < |r| ==> r[i] == Hook(e, types[i])
  {
    seq(|types|, i requires 0 <= i < |types| => Hook(e, types[i]))
  }

  /** Unbinding the first type leaves the others. */
  lemma UnboundHead(s: Ids, e: Elem)
    requires HasRecord(s, e) && TypesIn(s, e) != []
    ensures TypesIn(Unbound(s, e, TypesIn(s, e)[0]), e) == TypesIn(s, e)[1..]
  {
  }

  lemma CleanedNone(s: Ids)
    ensures CleanedAll(s, []) == s && HooksOfAll(s, []) == []
  {
  }

  lemma CleanedOneMore(s: Ids, es: seq<Elem>, i: nat)
    requires i < |es|
    ensures CleanedAll(s, es[..i + 1]) == Cleaned(CleanedAll(s, es[..i]), es[i])
    ensures HooksOfAll(s, es[..i + 1])
            == HooksOfAll(s, es[..i]) + HooksOf(es[i], TypesIn(CleanedAll(s, es[..i]), es[i]))
  {
    assert es[..i + 1][..i] == es[..i];
  }

  lemma HooksMore(before: seq<Hook>, hooked: seq<Hook>, from: nat, e: Elem, types: seq<string>, i: nat)
    requires i < |types| && before + [Hook(e, types[i])] <= hooked
    ensures Includes(before, from, HooksOf(e, types[..i])) ==> Includes(hooked, from, HooksOf(e, types[..i + 1]))
    ensures HooksOf(e, types[..i + 1]) == HooksOf(e, types[..i]) + [Hook(e, types[i])]
    ensures types[i] in types[i..] && types[i..][0] == types[i] && types[i..][1..] == types[i + 1..]
  {
    var hooks := HooksOf(e, types);
    assert hooks[..i] == HooksOf(e, types[..i]) && hooks[..i + 1] == HooksOf(e, types[..i + 1]);
    if Includes(before, from, hooks[..i]) { IncludesMore(before, hooked, from, hooks, i); }
  }

  lemma HooksOfNone(e: Elem)
    ensures HooksOf(e, []) == []
  {
  }

  /** The hooks for a list of elements, when they do nothing. */
  function HooksOfAll(s: Ids, es: seq<Elem>): seq<Hook> {
    if es == [] then []
    else
      var front, e := es[..|es| - 1], es[|es| - 1];
      HooksOfAll(s, front) + HooksOf(e, TypesIn(CleanedAll(s, front), e))
  }

  predicate MayClean(script: Script, e: Elem) {
    exists i, j :: 0 <= i < |script| && 0 <= j < |script[i]| && Cleans(script[i][j], e)
  }

  predicate Cleans(a: Action, e: Elem) {
    a.Clean? && e in a.es
  }

  predicate MayBind(script: Script, e: Elem) {
    exists i, j :: 0 <= i < |script| && 0 <= j < |script[i]| && Binds(script[i][j], e)
  }

  predicate Binds(a: Action, e: Elem) {
    a.Write? && a.e == e && a.entry.Special?
  }

  /** Hooks clean only elements that have no special events and get none from hooks. */
  ghost predicate Gentle(s: Ids, script: Script) {
    forall e :: MayClean(script, e) ==> EventsIn(s, e) == 0 && !MayBind(script, e)
  }

  /** Hooks never write or bind. */
  predicate Thrifty(script: Script) {
    forall i, j :: 0 <= i < |script| && 0 <= j < |script[i]| ==> !script[i][j].Write?
  }

  /** No element that a hook may clean has got special events. */
  ghost predicate NoNewEvents(s: Ids, t: Ids, script: Script) {
    forall e :: EventsIn(s, e) == 0 && MayClean(script, e) ==> EventsIn(t, e) == 0
  }

  /** ... and elements that had some have them still, under the same id. */
  ghost predicate SameEvents(s: Ids, t: Ids, script: Script) {
    NoNewEvents(s, t, script) && forall e :: EventsIn(s, e) > 0 ==> SameBindings(s, t, e)
  }

  predicate SameBindings(s: Ids, t: Ids, e: Elem) {
    && HasRecord(s, e) && HasRecord(t, e)
    && t.expando[e] == s.expando[e] && s.cache[s.expando[e]].events <= t.cache[t.expando[e]].events
  }

  /** No element has got an id. */
  ghost predicate Shrinks(s: Ids, t: Ids) {
    forall e :: e in t.expando ==> Holds(s, e, t.expando[e])
  }

  lemma SameEventsAgain(s: Ids, t: Ids, u: Ids, script: Script)
    requires SameEvents(s, t, script) && SameEvents(t, u, script)
    ensures SameEvents(s, u, script)
  {
    forall e | EventsIn(s, e) > 0 ensures SameBindings(s, u, e) {
      assert SameBindings(s, t, e);
      assert EventsIn(t, e) > 0;
    }
  }

  lemma WritingKeepsEvents(s: Ids, e: Elem, entry: Entry, script: Script)
    requires Safe(s) && (entry.Special? ==> !MayClean(script, e))
    ensures HasRecord(Allocate(s, e), e) && SameEvents(s, Stored(Allocate(s, e), e, entry), script)
  {
    AllocateSafe(s, e);
    var t := Stored(Allocate(s, e), e, entry);
    forall f
      ensures f != e || !entry.Special? ==> EventsIn(t, f) == EventsIn(s, f)
      ensures EventsIn(s, f) > 0 ==> SameBindings(s, t, f)
    {
      if f in s.expando {
        assert Holds(t, f, s.expando[f]);
      }
    }
  }

  lemma ReleaseKeepsEvents(s: Ids, e: Elem, script: Script)
    requires Safe(s) && HasRecord(s, e) && EventsIn(s, e) == 0
    ensures SameEvents(s, Release(s, e, s.expando[e]), script)
  {
    var t := Release(s, e, s.expando[e]);
    forall f ensures EventsIn(t, f) == EventsIn(s, f) && (EventsIn(s, f) > 0 ==> SameBindings(s, t, f)) {
      if f in s.expando && f != e {
        NoSharing(s, e, f);
      }
    }
  }

  lemma ForgettingKeepsEvents(s: Ids, e: Elem, script: Script)
    requires Safe(s)
    ensures SameEvents(s, DataRemoved(s, e), script)
  {
    if HasRecord(s, e) {
      var id := s.expando[e];
      if Bare(s.cache[id].(data := false)) {
        ReleaseKeepsEvents(s, e, script);
      } else {
        var t := DataRemoved(s, e);
        forall f ensures EventsIn(t, f) == EventsIn(s, f) && (EventsIn(s, f) > 0 ==> SameBindings(s, t, f)) {
        }
      }
    }
  }

  lemma {:induction false} CleaningKeepsEvents(s: Ids, es: seq<Elem>, script: Script)
    requires Safe(s) && forall e :: e in es ==> EventsIn(s, e) == 0
    ensures SameEvents(s, CleanedAll(s, es), script)
    ensures forall f :: EventsIn(s, f) == 0 ==> EventsIn(CleanedAll(s, es), f) == 0
  {
    if es != [] {
      var front := CleanedAll(s, es[..|es| - 1]);
      var e := es[|es| - 1];
      CleaningKeepsEvents(s, es[..|es| - 1], script);
      CleanedAllFrees(s, es[..|es| - 1], e);
      if HasRecord(front, e) {
        ReleaseKeepsEvents(front, e, script);
      }
    }
  }

  lemma RecordNoNewEvents(s: Ids, id: nat, r: Record, script: Script)
    requires id in s.cache && |r.events| <= |s.cache[id].events|
    ensures NoNewEvents(s, s.(cache := s.cache[id := r]), script)
  {
    var t := s.(cache := s.cache[id := r]);
    forall e ensures EventsIn(t, e) <= EventsIn(s, e) {
    }
  }

  lemma ReleaseNoNewEvents(s: Ids, e: Elem, id: nat, script: Script)
    requires Safe(s) && (id in s.cache ==> Holds(s, e, id))
    ensures NoNewEvents(s, Release(s, e, id), script)
  {
    var t := Release(s, e, id);
    forall f ensures EventsIn(s, f) == 0 ==> EventsIn(t, f) == 0 {
      if f in s.expando && f != e && id in s.cache {
        NoSharing(s, e, f);
      }
    }
  }

  /** When elements only lose ids, a record found under an id is still its first owner's. */
  lemma ShrinkingHolds(s: Ids, t: Ids, e: Elem, id: nat)
    requires Safe(s) && Safe(t) && Shrinks(s, t) && Holds(s, e, id)
    ensures id in t.cache ==> Holds(t, e, id)
  {
    if id in t.cache {
      var f := t.cache[id].owner;
      if f != e {
        NoSharing(s, e, f);
      }
    }
  }

  lemma GentleLater(s: Ids, t: Ids, script: Script, later: Script)
    requires Gentle(s, script) && NoNewEvents(s, t, script)
    requires later == script || (script != [] && later == script[1..])
    ensures Gentle(t, later) && forall e :: MayClean(later, e) ==> MayClean(script, e)
  {
    var d := if later == script then 0 else 1;
    forall e | MayClean(later, e) ensures MayClean(script, e) {
      var i, j :| 0 <= i < |later| && 0 <= j < |later[i]| && Cleans(later[i][j], e);
      assert Cleans(script[i + d][j], e);
    }
    forall e | MayBind(later, e) ensures MayBind(script, e) {
      var i, j :| 0 <= i < |later| && 0 <= j < |later[i]| && Binds(later[i][j], e);
      assert Binds(script[i + d][j], e);
    }
  }

  /** The actions of the first hook touch no element in a way that is not gentle. */
  lemma FirstIsGentle(s: Ids, t: Ids, script: Script, i: nat)
    requires script != [] && i < |script[0]| && Gentle(s, script) && NoNewEvents(s, t, script)
    ensures forall e :: Cleans(script[0][i], e) ==> EventsIn(t, e) == 0
    ensures forall e :: Binds(script[0][i], e) ==> !MayClean(script, e)
  {
    forall e | Cleans(script[0][i], e) ensures MayClean(script, e) {
      assert Cleans(script[0][i], e);
    }
    forall e | Binds(script[0][i], e) ensures MayBind(script, e) {
      assert Binds(script[0][i], e);
    }
  }

  /** An action of a gentle script: what it cleans has no special events, what it binds on is never cleaned. */
  ghost predicate NotRough(a: Action, s: Ids, whole: Script, script: Script) {
    && (forall e :: Cleans(a, e) ==> EventsIn(s, e) == 0)
    && (forall e :: Binds(a, e) ==> !MayClean(whole, e))
    && (forall e :: MayClean(script, e) ==> MayClean(whole, e))
  }

  // ---------- The store in use ----------

  class Store {
    var expando: map<Elem, nat>
    var cache: map<nat, Record>
    var deleted: seq<nat>
    var guid: nat
    /** What the coming invocations of hooks will do. */
    var script: Script
    /** A record was found that belongs to another element by now. */
    ghost var stolen: bool
    /** History: the hooks that were run, and the actions of hooks. */
    ghost var hooked: seq<Hook>
    ghost var acted: seq<Action>

    ghost function View(): Ids
      reads this
    {
      Ids(expando, cache, deleted, guid)
    }

    ghost predicate Valid()
      reads this
    {
      stolen || Safe(View())
    }

    /** The hooks still to run clean only elements without special events, and nothing is wrong yet. */
    ghost predicate GentleHooks()
      reads this
    {
      Gentle(View(), script) && !stolen
    }

    ghost predicate ThriftyHooks()
      reads this
    {
      Thrifty(script) && !stolen
    }

    constructor (script: Script)
      ensures Valid() && !stolen && this.script == script && hooked == []
      ensures View() == Ids(map[], map[], [], 1)
    {
      expando, cache, deleted, guid, this.script := map[], map[], [], 1, script;
      stolen, hooked, acted := false, [], [];
    }

    ghost function Events(e: Elem): nat
      reads this
    {
      EventsIn(View(), e)
    }

    ghost function Types(e: Elem): seq<string>
      reads this
    {
      TypesIn(View(), e)
    }

    /** What everything that frees keeps: gentle hooks steal no id, and neither do thrifty ones. */
    twostate predicate Keeps()
      reads this
    {
      && Valid() && |script| <= |old(script)| && old(hooked) <= hooked && old(acted) <= acted
      && (old(GentleHooks()) ==> GentleHooks())
      && (old(ThriftyHooks()) ==> ThriftyHooks() && Shrinks(old(View()), View()))
    }

    method Find(e: Elem) returns (id: nat)
      requires Valid()
      modifies this`expando, this`cache, this`deleted, this`guid
      ensures Valid() && View() == Allocate(old(View()), e) && Holds(View(), e, id)
      ensures forall f :: f in old(expando) ==> Holds(View(), f, old(expando)[f])
    {
      hide Safe;
      if !stolen { AllocateSafe(View(), e); }
      if e in expando {
        id := expando[e];
        assert expando[e := id] == expando;
      } else {
        if deleted != [] {
          id := deleted[|deleted| - 1];
          deleted := deleted[..|deleted| - 1];
        } else {
          id := guid;
          guid := guid + 1;
        }
        expando := expando[e := id];
      }
      if id !in cache {
        cache := cache[id := Record(e, [], false, false)];
      }
    }

    /** `internalData` with something to store. */
    method Data(e: Elem, entry: Entry)
      requires Valid()
      modifies this`expando, this`cache, this`deleted, this`guid
      ensures Valid()
      ensures HasRecord(Allocate(old(View()), e), e) && View() == Stored(Allocate(old(View()), e), e, entry)
      ensures forall f :: f in old(expando) ==> Holds(View(), f, old(expando)[f])
    {
      var id := Find(e);
      var record := cache[id];
      match entry {
        case Value => record := record.(data := true);
        case Ordinary => record := record.(ordinary := true);
        case Special(name) =>
          if name !in record.events {
            record := record.(events := record.events + [name]);
          }
      }
      if !stolen { RecordSafe(View(), id, record); }
      cache := cache[id := record];
    }

    /** `removeData`: the data goes; a record left empty goes with it. */
    method RemoveData(e: Elem)
      requires Valid()
      modifies this
      ensures Keeps() && script == old(script) && View() == DataRemoved(old(View()), e) && hooked == old(hooked)
      decreases |script|, 0, Events(e), 3
    {
      hide Safe;
      if e in expando && expando[e] in cache {
        var id := expando[e];
        var record := cache[id].(data := false);
        ReleaseForgets(View(), e, id, record);
        RecordNoNewEvents(View(), id, record, script);
        if !stolen { RecordSafe(View(), id, record); }
        if GentleHooks() { GentleLater(View(), View().(cache := cache[id := record]), script, script); }
        cache := cache[id := record];
        if Bare(cache[id]) {
          CleanOne(e);
        }
      }
    }

    method CleanData(es: seq<Elem>)
      requires Valid()
      modifies this
      ensures Keeps()
      ensures old(ThriftyHooks()) ==> forall e :: e in es ==> e !in expando
      ensures old(script) == [] || (!old(stolen) && forall e :: e in es ==> old(Events(e)) == 0) ==>
                script == old(script) && View() == CleanedAll(old(View()), es)
      ensures old(script) == [] ==> hooked == old(hooked) + HooksOfAll(old(View()), es)
      decreases |script|, 1, 0, 0
    {
      hide Safe, Gentle, CleanedAll, HooksOfAll, HooksOf;
      CleanedNone(View());
      ghost var calm := !stolen && forall e :: e in es ==> EventsIn(View(), e) == 0;
      var i := 0;
      while i < |es|
        invariant 0 <= i <= |es| && Keeps()
        invariant old(ThriftyHooks()) ==> forall k :: 0 <= k < i ==> es[k] !in expando
        invariant old(script) == [] || calm ==> script == old(script) && View() == CleanedAll(old(View()), es[..i])
        invariant old(script) == [] ==> hooked == old(hooked) + HooksOfAll(old(View()), es[..i])
      {
        if calm {
          CleaningKeepsEvents(old(View()), es[..i], script);
          assert EventsIn(old(View()), es[i]) == 0;
          assert Events(es[i]) == 0;
        }
        CleanedOneMore(old(View()), es, i);
        CleanOne(es[i]);
        i := i + 1;
      }
      assert es[..|es|] == es;
    }

    /** One turn of `cleanData`: the special events are removed, then the record, if it is still there. */
    method CleanOne(e: Elem)
      requires Valid()
      modifies this
      ensures Keeps()
      ensures old(GentleHooks() || ThriftyHooks()) ==>
                e !in expando && (e in old(expando) ==> old(expando)[e] !in cache)
      ensures |script| < |old(script)| || Events(e) <= old(Events(e))
      ensures script == old(script) || |script| < |old(script)|
      ensures old(script) == [] || old(Events(e)) == 0 ==> script == old(script) && View() == Cleaned(old(View()), e)
      ensures old(script) == [] || old(Events(e)) == 0 ==> hooked == old(hooked) + HooksOf(e, old(Types(e)))
      ensures old(GentleHooks()) ==> Includes(hooked, |old(hooked)|, HooksOf(e, old(Types(e))))
      decreases |script|, 0, Events(e), 2, 1
    {
      hide Safe, Gentle;
      if !stolen && e in expando { SafeHasRecord(View(), e); }
      if e !in expando || expando[e] !in cache {
        return;
      }
      var id := expando[e];
      UnbindAll(e, id);
      if Unbinding(old(View()), View(), e, id) { UnboundStep(old(View()), View(), e, id, ""); }
      if !stolen && e in expando { SafeHasRecord(View(), e); }
      if old(ThriftyHooks()) { ShrinkingHolds(old(View()), View(), e, id); }
      Finish(e, id);
    }

    /** The loop over the special events that the element has when its cleaning begins. */
    method UnbindAll(e: Elem, id: nat)
      requires Valid() && HasRecord(View(), e) && id == expando[e]
      modifies this
      ensures Keeps()
      ensures |script| < |old(script)| || (script == old(script) && Events(e) <= old(Events(e)))
      ensures old(GentleHooks()) ==> if e in expando then expando[e] == id else id !in cache
      ensures old(script) == [] || old(Events(e)) == 0 ==>
                script == old(script) && Unbinding(old(View()), View(), e, id)
      ensures old(script) == [] || old(Events(e)) == 0 ==> hooked == old(hooked) + HooksOf(e, old(Types(e)))
      ensures old(GentleHooks()) ==> Includes(hooked, |old(hooked)|, HooksOf(e, old(Types(e))))
      decreases |script|, 0, Events(e), 2, 0
    {
      hide Safe, Gentle, Thrifty, Unbinding, Release, Unbound, Includes, HooksOf, EventsIn, TypesIn;
      StartsUnbinding(View(), e);
      HooksOfNone(e);
      IncludesNone(hooked);
      var types := cache[id].events;
      var i := 0;
      while i < |types|
        invariant 0 <= i <= |types| && Keeps()
        invariant |script| < |old(script)| || (script == old(script) && Events(e) <= old(Events(e)))
        invariant old(GentleHooks()) ==> if e in expando then expando[e] == id else id !in cache
        invariant old(script) == [] || types == [] ==> script == old(script) && Unbinding(old(View()), View(), e, id)
        invariant old(script) == [] || old(GentleHooks()) ==> types[i..] <= Types(e)
        invariant old(script) == [] || types == [] ==> hooked == old(hooked) + HooksOf(e, types[..i])
        invariant old(GentleHooks()) ==> Includes(hooked, |old(hooked)|, HooksOf(e, types[..i]))
      {
        if old(script) == [] { UnboundStep(old(View()), View(), e, id, types[i]); }
        ghost var before := hooked;
        UnbindFirst(e, id, types[i], types[i..]);
        if before + [Hook(e, types[i])] <= hooked { HooksMore(before, hooked, |old(hooked)|, e, types, i); }
        i := i + 1;
      }
      assert types[..|types|] == types;
    }


    /** One turn of that loop: `types` are the ones still to unbind, this one first. */
    method UnbindFirst(e: Elem, id: nat, name: string, ghost types: seq<string>)
      requires Valid() && types != [] && types[0] == name
      modifies this
      ensures Keeps()
      ensures |script| < |old(script)| || (script == old(script) && Events(e) <= old(Events(e)))
      ensures old(GentleHooks()) && (if e in old(expando) then old(expando)[e] == id else id !in old(cache)) ==>
                if e in expando then expando[e] == id else id !in cache
      ensures old(script) == [] ==> script == [] && View() == Unbound(old(View()), e, name)
      ensures (old(script) == [] || old(GentleHooks())) && types <= old(Types(e)) ==>
                types[1..] <= Types(e) && old(hooked) + [Hook(e, name)] <= hooked
      ensures old(script) == [] && types <= old(Types(e)) ==> hooked == old(hooked) + [Hook(e, name)]
      decreases |script|, 0, Events(e), 1, 1
    {
      hide Safe, Gentle, Thrifty, Shrinks, Unbound, EventsIn, TypesIn;
      assert types <= Types(e) ==> Types(e) != [] && Types(e)[0] == name && types[1..] <= Types(e)[1..];
      assert Types(e) != [] ==> Types(e)[0] in Types(e);
      EventRemove(e, name);
    }

    method Finish(e: Elem, id: nat)
      requires Valid()
      modifies this`expando, this`cache, this`deleted, this`stolen
      ensures View() == Release(old(View()), e, id)
      ensures Valid() && stolen == (old(stolen) || (id in old(cache) && !Holds(old(View()), e, id)))
      ensures old(GentleHooks()) && !stolen ==> GentleHooks()
    {
      if !stolen {
        ReleaseSafe(View(), e, id);
        if id in cache ==> Holds(View(), e, id) {
          ReleaseNoNewEvents(View(), e, id, script);
          if Gentle(View(), script) { GentleLater(View(), Release(View(), e, id), script, script); }
        }
      }
      if id in cache {
        if !Holds(View(), e, id) {
          stolen := true;
        }
        cache := cache - {id};
        expando := expando - {e};
        deleted := deleted + [id];
      }
    }

    /**
     `event.remove` for one special type: its hook runs before the type goes; with the last
     type an empty record is freed.
     */
    method EventRemove(e: Elem, name: string)
      requires Valid()
      modifies this
      ensures Keeps()
      ensures |script| < |old(script)| || (script == old(script) && Events(e) <= old(Events(e)))
      ensures old(GentleHooks()) && e in old(expando) ==>
                if e in expando then expando[e] == old(expando)[e] else old(expando)[e] !in cache
      ensures old(GentleHooks()) && e !in old(expando) ==> View() == old(View())
      ensures old(script) == [] ==> script == [] && View() == Unbound(old(View()), e, name)
      ensures name in old(Types(e)) ==> old(hooked) + [Hook(e, name)] <= hooked
      ensures old(script) == [] ==>
                hooked == old(hooked) + if name in old(Types(e)) then [Hook(e, name)] else []
      ensures old(script) == [] || old(GentleHooks()) ==>
                old(Types(e)) != [] && old(Types(e))[0] == name ==> old(Types(e))[1..] <= Types(e)
      decreases |script|, 0, Events(e), 1, 0
    {
      hide Safe, Gentle;
      assert Types(e) != [] ==> Types(e)[0] in Types(e);
      if e !in expando || expando[e] !in cache || name !in cache[expando[e]].events {
        return;
      }
      RunHook(e, name);
      assert old(GentleHooks()) && EventsIn(old(View()), e) > 0 ==> SameBindings(old(View()), View(), e);
      if e in expando && expando[e] in cache && name in cache[expando[e]].events {
        UnboundHead(View(), e);
        Unbind(e, name);
      }
    }

    /** What `event.remove` does after the hook. */
    method Unbind(e: Elem, name: string)
      requires Valid() && HasRecord(View(), e) && name in cache[expando[e]].events
      modifies this
      ensures Keeps() && script == old(script) && View() == Unbound(old(View()), e, name) && hooked == old(hooked)
      ensures Events(e) < old(Events(e))
      decreases |script|, 0, Events(e), 0
    {
      hide Safe, Gentle;
      var id := expando[e];
      var record := cache[id].(events := Drop(cache[id].events, name));
      DropShorter(cache[id].events, name);
      ReleaseForgets(View(), e, id, record);
      RecordNoNewEvents(View(), id, record, script);
      if !stolen { RecordSafe(View(), id, record); }
      if GentleHooks() { GentleLater(View(), View().(cache := cache[id := record]), script, script); }
      cache := cache[id := record];
      if Bare(cache[id]) {
        CleanOne(e);
      }
    }

    /** A hook of a special event, which is still bound. */
    method RunHook(e: Elem, name: string)
      requires Valid() && name in Types(e)
      modifies this
      ensures Keeps()
      ensures old(GentleHooks()) ==> SameEvents(old(View()), View(), old(script))
      ensures old(script) == [] ==> script == old(script) && View() == old(View())
      ensures old(hooked) + [Hook(e, name)] <= hooked && (old(script) == [] ==> |hooked| == |old(hooked)| + 1)
      ensures old(script) != [] ==> |script| < |old(script)| && Includes(acted, |old(acted)|, old(script)[0])
      decreases |script|, 0, 0, 0
    {
      hooked := hooked + [Hook(e, name)];
      IncludesNone(acted);
      if script != [] {
        var actions := script[0];
        if GentleHooks() { GentleLater(View(), View(), script, script[1..]); }
        script := script[1..];
        var i := 0;
        while i < |actions|
          invariant 0 <= i <= |actions| && Keeps() && |script| < |old(script)|
          invariant old(hooked) + [Hook(e, name)] <= hooked && Includes(acted, |old(acted)|, actions[..i])
          invariant old(GentleHooks()) ==> SameEvents(old(View()), View(), old(script)) && script == old(script)[1..]
        {
          ghost var before, log := View(), acted;
          if old(GentleHooks()) { FirstIsGentle(old(View()), View(), old(script), i); }
          Act(actions[i], old(script));
          IncludesMore(log, acted, |old(acted)|, actions, i);
          if old(GentleHooks()) { SameEventsAgain(old(View()), before, View(), old(script)); }
          i := i + 1;
        }
      }
    }

    /** `whole` is the script of which this action was a part. */
    method Act(a: Action, ghost whole: Script)
      requires Valid()
      modifies this
      ensures Valid() && |script| <= |old(script)| && old(hooked) <= hooked && old(acted) + [a] <= acted
      ensures old(GentleHooks()) && NotRough(a, old(View()), whole, old(script)) ==>
                GentleHooks() && SameEvents(old(View()), View(), whole) && script == old(script)
      ensures old(ThriftyHooks()) && !a.Write? ==> ThriftyHooks() && Shrinks(old(View()), View())
      ensures a.Write? ==>
                && HasRecord(Allocate(old(View()), a.e), a.e)
                && View() == Stored(Allocate(old(View()), a.e), a.e, a.entry)
      ensures a.Forget? ==> View() == DataRemoved(old(View()), a.e)
      ensures a.Clean? && (old(script) == [] || (!old(stolen) && forall e :: e in a.es ==> old(Events(e)) == 0)) ==>
                View() == CleanedAll(old(View()), a.es)
      decreases |script|, 2, 0, 0
    {
      hide Safe, Gentle, EventsIn, SameBindings, Stored, DataRemoved;
      acted := acted + [a];
      if !stolen && NotRough(a, View(), whole, script) {
        match a
        case Write(f, entry) =>
          assert entry.Special? ==> Binds(a, f);
          WritingKeepsEvents(View(), f, entry, whole);
          WritingKeepsEvents(View(), f, entry, script);
          if Gentle(View(), script) { GentleLater(View(), Stored(Allocate(View(), f), f, entry), script, script); }
        case Forget(f) =>
          ForgettingKeepsEvents(View(), f, whole);
        case Clean(fs) =>
          CleaningKeepsEvents(View(), fs, whole);
      }
      match a {
        case Write(f, entry) => Data(f, entry);
        case Forget(f) => RemoveData(f);
        case Clean(fs) => CleanData(fs);
      }
    }

    /** As long as no record was stolen, no two elements share an id and no id in use is free. */
    lemma IdsAreDistinct(e: Elem, f: Elem)
      requires Valid() && !stolen && e in expando && f in expando && e != f
      ensures expando[e] != expando[f] && expando[e] !in deleted
    {
      NoSharing(View(), e, f);
    }
  }
}

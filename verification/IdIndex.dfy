/**
 `idxById`: the position of every item by its id, kept up to date by re-indexing from a
 position on. It is a plain object, so the names of `Object.prototype` are found in it too.
 */
module IdIndex {
  import opened Wrappers
  import opened SlickCore

  /** The properties that the object has of its own. */
  type Index = map<string, nat>

  /** Setting this property to a number does nothing. */
  const PROTO := "__proto__"

  /** The names under which a plain object finds something without having it. */
  predicate Inherited(id: string) {
    id in {
      "constructor", "hasOwnProperty", "isPrototypeOf", "propertyIsEnumerable", "toLocaleString", "toString", "valueOf",
      PROTO, "__defineGetter__", "__defineSetter__", "__lookupGetter__", "__lookupSetter__"
    }
  }

  /** `idxById[id] = i` */
  function Assign(m: Index, id: string, i: nat): Index {
    if id == PROTO then m else m[id := i]
  }

  /** What `updateIdxById` leaves behind; it throws at the first item without an id. */
  function IndexFrom(m: Index, items: seq<Item>, i: nat): Index
    decreases if i < |items| then |items| - i else 0
  {
    if i >= |items| || items[i].id.None? then m else IndexFrom(Assign(m, items[i].id.value, i), items, i + 1)
  }

  predicate AllHaveIds(items: seq<Item>, from: nat) {
    forall i :: from <= i < |items| ==> items[i].id.Some?
  }

  /** Ids that are there, can be indexed, and differ. */
  predicate DistinctIds(items: seq<Item>) {
    && AllHaveIds(items, 0)
    && (forall i :: 0 <= i < |items| ==> items[i].id != Some(PROTO))
    && forall i, j :: 0 <= i < j < |items| ==> items[i].id != items[j].id
  }

  /** An item whose id is new to the index and can be indexed. */
  predicate Indexable(m: Index, item: Item) {
    item.id.Some? && item.id.value !in m && item.id.value != PROTO
  }

  /** The index maps exactly the ids of the items, each to its position. */
  ghost predicate IndexOk(m: Index, items: seq<Item>) {
    && PROTO !in m
    && (forall i :: 0 <= i < |items| ==> items[i].id.Some? && items[i].id.value in m && m[items[i].id.value] == i)
    && (forall id :: id in m ==> m[id] < |items| && items[m[id]].id == Some(id))
  }

  method UpdateIdxById(m: Index, items: seq<Item>, startingIndex: nat) returns (m': Index, ok: bool)
    ensures m' == IndexFrom(m, items, startingIndex)
    ensures ok <==> AllHaveIds(items, startingIndex)
  {
    m' := m;
    var i := startingIndex;
    while i < |items|
      invariant startingIndex <= i
      invariant forall k :: startingIndex <= k < i && k < |items| ==> items[k].id.Some?
      invariant IndexFrom(m, items, startingIndex) == IndexFrom(m', items, i)
    {
      if items[i].id.None? {
        return m', false;
      }
      m' := Assign(m', items[i].id.value, i);
      i := i + 1;
    }
    return m', true;
  }

  method EnsureIdUniqueness(m: Index, items: seq<Item>) returns (ok: bool)
    ensures ok <==> forall i :: 0 <= i < |items| ==>
              items[i].id.Some? && items[i].id.value in m && m[items[i].id.value] == i
  {
    for i := 0 to |items|
      invariant forall k :: 0 <= k < i ==> items[k].id.Some? && items[k].id.value in m && m[items[k].id.value] == k
    {
      if items[i].id.None? || items[i].id.value !in m || m[items[i].id.value] != i {
        return false;
      }
    }
    return true;
  }

  ghost predicate IdFrom(items: seq<Item>, from: nat, id: string) {
    exists k :: from <= k < |items| && items[k].id == Some(id)
  }

  /** Re-indexing sets every id from there on to its last position and leaves the others alone. */
  lemma {:induction false} IndexFromSpec(m: Index, items: seq<Item>, i: nat, id: string)
    requires AllHaveIds(items, i) && id != PROTO
    ensures var r := IndexFrom(m, items, i);
            if IdFrom(items, i, id)
            then id in r && i <= r[id] < |items| && items[r[id]].id == Some(id)
                 && forall k :: r[id] < k < |items| ==> items[k].id != Some(id)
            else (id in r <==> id in m) && (id in m ==> r[id] == m[id])
    decreases if i < |items| then |items| - i else 0
  {
    if i < |items| {
      IndexFromSpec(Assign(m, items[i].id.value, i), items, i + 1, id);
    }
  }

  lemma {:induction false} IndexFromNoProto(m: Index, items: seq<Item>, i: nat)
    requires PROTO !in m
    ensures PROTO !in IndexFrom(m, items, i)
    decreases if i < |items| then |items| - i else 0
  {
    if i < |items| && items[i].id.Some? {
      IndexFromNoProto(Assign(m, items[i].id.value, i), items, i + 1);
    }
  }

  /** Re-indexing a changed tail restores the index, if the rest of it is right and no id repeats. */
  lemma IndexFromOk(m: Index, items: seq<Item>, from: nat)
    requires DistinctIds(items) && PROTO !in m
    requires forall i :: 0 <= i < from && i < |items| ==> items[i].id.value in m && m[items[i].id.value] == i
    requires forall id :: id in m ==> (m[id] < from && m[id] < |items| && items[m[id]].id == Some(id))
                                      || IdFrom(items, from, id)
    ensures IndexOk(IndexFrom(m, items, from), items)
  {
    var r := IndexFrom(m, items, from);
    IndexFromNoProto(m, items, from);
    forall i | 0 <= i < |items| ensures items[i].id.Some? && items[i].id.value in r && r[items[i].id.value] == i {
      IndexFromSpec(m, items, from, items[i].id.value);
    }
    forall id | id in r ensures r[id] < |items| && items[r[id]].id == Some(id) {
      IndexFromSpec(m, items, from, id);
    }
  }

  /** Indexing from scratch and checking uniqueness passes exactly when all ids are there and distinct. */
  lemma UniquenessIsDistinctness(items: seq<Item>)
    requires AllHaveIds(items, 0)
    ensures var r := IndexFrom(map[], items, 0);
            (forall i :: 0 <= i < |items| ==> items[i].id.value in r && r[items[i].id.value] == i)
            <==> DistinctIds(items)
  {
    var r := IndexFrom(map[], items, 0);
    IndexFromNoProto(map[], items, 0);
    if DistinctIds(items) {
      IndexFromOk(map[], items, 0);
    }
  }

  lemma IndexOkDistinct(m: Index, items: seq<Item>)
    requires IndexOk(m, items)
    ensures DistinctIds(items)
  {
  }

  /** `insertItem` within the list, and `addItem`, which inserts at the end. */
  lemma InsertIndexed(m: Index, items: seq<Item>, at: nat, item: Item)
    requires IndexOk(m, items) && at <= |items| && Indexable(m, item)
    ensures var t := items[..at] + [item] + items[at..]; AllHaveIds(t, at) && IndexOk(IndexFrom(m, t, at), t)
  {
    var t := items[..at] + [item] + items[at..];
    assert forall i :: 0 <= i < |t| ==> t[i] == if i < at then items[i] else if i == at then item else items[i - 1];
    forall k | k in m ensures (m[k] < at && t[m[k]].id == Some(k)) || IdFrom(t, at, k) {
      if m[k] >= at { assert t[m[k] + 1].id == Some(k); }
    }
    IndexFromOk(m, t, at);
  }

  /** Past the end the new item gets no index. */
  lemma InsertBeyond(m: Index, items: seq<Item>, at: nat, item: Item)
    requires IndexOk(m, items) && at > |items| && Indexable(m, item)
    ensures IndexFrom(m, items + [item], at) == m && !IndexOk(m, items + [item])
  {
    assert (items + [item])[|items|] == item;
  }

  /** Cutting the first item without touching the index, as deleting an inherited name does. */
  lemma CutUnindexed(m: Index, items: seq<Item>)
    requires IndexOk(m, items)
    ensures IndexOk(m, if items == [] then [] else items[1..]) <==> items == []
  {
    if items != [] {
      var t := items[1..];
      assert items[0].id.value in m && m[items[0].id.value] == 0;
      assert |t| > 0 ==> t[0].id == items[1].id && m[items[1].id.value] == 1;
    }
  }

  lemma CutItem(items: seq<Item>, at: nat)
    requires at < |items|
    ensures var t := items[..at] + items[at + 1..];
            && |t| == |items| - 1 && (forall i :: 0 <= i < |t| ==> t[i] == if i < at then items[i] else items[i + 1])
            && (DistinctIds(items) ==> DistinctIds(t) && AllHaveIds(t, at))
  {
  }

  lemma DeleteIndexed(m: Index, items: seq<Item>, id: string)
    requires IndexOk(m, items) && id in m
    ensures var t := items[..m[id]] + items[m[id] + 1..];
            AllHaveIds(t, m[id]) && IndexOk(IndexFrom(m - {id}, t, m[id]), t)
  {
    var at := m[id];
    var t := items[..at] + items[at + 1..];
    CutItem(items, at);
    IndexOkDistinct(m, items);
    forall k | k in m && k != id
      ensures (m[k] < at && t[m[k]].id == Some(k)) || (m[k] > at && IdFrom(t, at, k))
    {
      assert m[k] != at;
      if m[k] > at { assert t[m[k] - 1].id == Some(k); }
    }
    IndexFromOk(m - {id}, t, at);
  }

  lemma UpdateIndexed(m: Index, items: seq<Item>, id: string, item: Item)
    requires IndexOk(m, items) && id in m && item.id == Some(id)
    ensures IndexOk(m, items[m[id] := item])
  {
  }

  /** A permutation, indexed from scratch. */
  lemma PermutationIndexed(items: seq<Item>, t: seq<Item>)
    requires DistinctIds(items) && multiset(t) == multiset(items)
    ensures DistinctIds(t) && IndexOk(IndexFrom(map[], t, 0), t)
  {
    forall i | 0 <= i < |t| ensures t[i].id.Some? && t[i].id != Some(PROTO) {
      assert t[i] in multiset(items);
    }
    forall i, j | 0 <= i < j < |t| ensures t[i].id != t[j].id {
      assert t[j] in multiset(items);
      if t[i].id == t[j].id {
        assert t[i] in multiset(items) && t[j] in multiset(items);
        assert t[i] == t[j];
        TwiceInMultiset(t, i, j);
        OnceInMultiset(items, t[i]);
        assert false;
      }
    }
    IndexFromOk(map[], t, 0);
  }

  lemma TwiceInMultiset(t: seq<Item>, i: nat, j: nat)
    requires i < j < |t| && t[i] == t[j]
    ensures multiset(t)[t[i]] >= 2
  {
    assert t == t[..i] + [t[i]] + t[i + 1..j] + [t[j]] + t[j + 1..];
  }

  lemma {:induction false} OnceInMultiset(items: seq<Item>, x: Item)
    requires DistinctIds(items)
    ensures multiset(items)[x] <= 1
  {
    if items != [] {
      var front := items[..|items| - 1];
      OnceInMultiset(front, x);
      assert items == front + [items[|items| - 1]];
      if x == items[|items| - 1] {
        assert x !in front;
      }
    }
  }
}

/** The batch filters of `DataView` and the hints that let a refresh do less. */
module Filtering {
  import opened Wrappers
  import opened SlickCore

  /** `filter` with its arguments; without a filter every item passes. */
  datatype Filter = Filter(test: Option<(Item, int) -> bool>, args: int)

  /** `refreshHints`; a flag can be absent, which differs from being false when hints are compared. */
  datatype Hints = Hints(isFilterNarrowing: Option<bool>, isFilterExpanding: Option<bool>,
                         isFilterUnchanged: Option<bool>,
                         ignoreDiffsBefore: int, ignoreDiffsAfter: int)

  const NO_HINTS := Hints(None, None, None, 0, 0)

  predicate Passes(f: Filter, item: Item) {
    f.test.None? || f.test.value(item, f.args)
  }

  predicate Narrowing(h: Hints) { h.isFilterNarrowing == Some(true) }
  predicate Expanding(h: Hints) { h.isFilterNarrowing != Some(true) && h.isFilterExpanding == Some(true) }
  predicate Unchanged(h: Hints) { !Narrowing(h) && !Expanding(h) && h.isFilterUnchanged == Some(true) }

  /** The plain filter. */
  function Keep(f: Filter, items: seq<Item>): seq<Item> {
    if items == [] then []
    else Keep(f, items[..|items| - 1]) + if Passes(f, items[|items| - 1]) then [items[|items| - 1]] else []
  }

  /** The filter that takes the word of `cache` for the positions in it. */
  function KeepCached(f: Filter, items: seq<Item>, cache: set<nat>): seq<Item> {
    if items == [] then []
    else KeepCached(f, items[..|items| - 1], cache)
         + if |items| - 1 in cache || Passes(f, items[|items| - 1]) then [items[|items| - 1]] else []
  }

  /** The cache marks only items that pass. */
  ghost predicate CacheSound(f: Filter, items: seq<Item>, cache: set<nat>) {
    forall i :: i in cache && i < |items| ==> Passes(f, items[i])
  }

  method UncompiledFilter(f: Filter, items: seq<Item>) returns (retval: seq<Item>)
    ensures retval == Keep(f, items)
  {
    retval := [];
    for i := 0 to |items|
      invariant retval == Keep(f, items[..i])
    {
      assert items[..i + 1][..i] == items[..i];
      if Passes(f, items[i]) {
        retval := retval + [items[i]];
      }
    }
    assert items[..|items|] == items;
  }

  method UncompiledFilterWithCaching(f: Filter, items: seq<Item>, cache: set<nat>)
    returns (retval: seq<Item>, cache': set<nat>)
    ensures retval == KeepCached(f, items, cache)
    ensures cache' == cache + set i | 0 <= i < |items| && Passes(f, items[i])
  {
    retval, cache' := [], cache;
    for i := 0 to |items|
      invariant retval == KeepCached(f, items[..i], cache)
      invariant cache' == cache + set k | 0 <= k < i && (k in cache || Passes(f, items[k]))
    {
      assert items[..i + 1][..i] == items[..i];
      if i in cache' {
        retval := retval + [items[i]];
      } else if Passes(f, items[i]) {
        retval := retval + [items[i]];
        cache' := cache' + {i};
      }
    }
    assert items[..|items|] == items;
  }

  lemma {:induction false} KeepMembers(f: Filter, items: seq<Item>, x: Item)
    ensures x in Keep(f, items) <==> x in items && Passes(f, x)
  {
    if items != [] {
      KeepMembers(f, items[..|items| - 1], x);
      assert items == items[..|items| - 1] + [items[|items| - 1]];
    }
  }

  lemma {:induction false} KeepCachedLonger(f: Filter, items: seq<Item>, cache: set<nat>)
    ensures |KeepCached(f, items, cache)| >= |Keep(f, items)|
    ensures |KeepCached(f, items, cache)| == |Keep(f, items)| ==> CacheSound(f, items, cache)
  {
    if items != [] {
      var front := items[..|items| - 1];
      KeepCachedLonger(f, front, cache);
      assert forall i :: 0 <= i < |front| ==> front[i] == items[i];
    }
  }

  /** Filtering with a cache gives the plain filter exactly when the cache marks only items that pass. */
  lemma {:induction false} ExpandingIsExact(f: Filter, items: seq<Item>, cache: set<nat>)
    ensures KeepCached(f, items, cache) == Keep(f, items) <==> CacheSound(f, items, cache)
  {
    KeepCachedLonger(f, items, cache);
    if CacheSound(f, items, cache) {
      KeepSoundCache(f, items, cache);
    }
  }

  lemma {:induction false} KeepSoundCache(f: Filter, items: seq<Item>, cache: set<nat>)
    requires CacheSound(f, items, cache)
    ensures KeepCached(f, items, cache) == Keep(f, items)
  {
    if items != [] {
      var front := items[..|items| - 1];
      assert forall i :: 0 <= i < |front| ==> front[i] == items[i];
      KeepSoundCache(f, front, cache);
    }
  }

  lemma {:induction false} KeepNarrows(f: Filter, g: Filter, items: seq<Item>)
    requires forall x :: x in items && Passes(g, x) ==> Passes(f, x)
    ensures Keep(g, Keep(f, items)) == Keep(g, items)
  {
    if items != [] {
      var front, last := items[..|items| - 1], items[|items| - 1];
      assert last in items;
      KeepNarrows(f, g, front);
      var kept := Keep(f, front);
      if Passes(f, last) {
        assert Keep(f, items) == kept + [last] && (kept + [last])[..|kept|] == kept;
      } else {
        assert Keep(f, items) == kept && !Passes(g, last);
      }
    }
  }

  /** Filtering the last result again gives the plain filter exactly when every item that passes now passed then. */
  lemma NarrowingIsExact(f: Filter, g: Filter, items: seq<Item>)
    ensures Keep(g, Keep(f, items)) == Keep(g, items) <==> forall x :: x in items && Passes(g, x) ==> Passes(f, x)
  {
    if forall x :: x in items && Passes(g, x) ==> Passes(f, x) {
      KeepNarrows(f, g, items);
    } else {
      var x :| x in items && Passes(g, x) && !Passes(f, x);
      KeepMembers(g, items, x);
      KeepMembers(g, Keep(f, items), x);
      KeepMembers(f, items, x);
    }
  }

  lemma {:induction false} KeepSame(f: Filter, g: Filter, items: seq<Item>)
    requires forall x :: x in items ==> (Passes(f, x) <==> Passes(g, x))
    ensures Keep(f, items) == Keep(g, items)
  {
    if items != [] {
      KeepSame(f, g, items[..|items| - 1]);
    }
  }

  /** Keeping the last result gives the plain filter exactly when the same items pass. */
  lemma UnchangedIsExact(f: Filter, g: Filter, items: seq<Item>)
    ensures Keep(f, items) == Keep(g, items) <==> forall x :: x in items ==> (Passes(f, x) <==> Passes(g, x))
  {
    if forall x :: x in items ==> (Passes(f, x) <==> Passes(g, x)) {
      KeepSame(f, g, items);
    } else {
      var x :| x in items && (Passes(f, x) != Passes(g, x));
      KeepMembers(f, items, x);
      KeepMembers(g, items, x);
    }
  }

  lemma {:induction false} KeepEverything(f: Filter, items: seq<Item>)
    requires f.test.None?
    ensures Keep(f, items) == items
  {
    if items != [] {
      KeepEverything(f, items[..|items| - 1]);
    }
  }
}

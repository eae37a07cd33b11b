/**
 `Array.prototype.sort` with a comparer, taken as stable (the assumption `DataView` states
 for its sorts), and the reverse-sort-reverse by which `DataView` sorts in descending order.
 */
module Sorting {

  ghost predicate TotalPreorder<T(!new)>(cmp: (T, T) -> int) {
    && (forall a, b :: cmp(a, b) < 0 <==> cmp(b, a) > 0)
    && (forall a, b, c :: Transitive(cmp, a, b, c))
  }

  predicate Transitive<T>(cmp: (T, T) -> int, a: T, b: T, c: T) {
    cmp(a, b) <= 0 && cmp(b, c) <= 0 ==> cmp(a, c) <= 0
  }

  ghost predicate Ascending<T>(cmp: (T, T) -> int, s: seq<T>) {
    forall i, j :: 0 <= i < j < |s| ==> cmp(s[i], s[j]) <= 0
  }

  ghost predicate Descending<T>(cmp: (T, T) -> int, s: seq<T>) {
    forall i, j :: 0 <= i < j < |s| ==> cmp(s[i], s[j]) >= 0
  }

  /** The elements that compare equal to `x`, in their order. */
  function Equals<T>(cmp: (T, T) -> int, x: T, s: seq<T>): seq<T> {
    if s == [] then [] else if cmp(x, s[0]) == 0 then [s[0]] + Equals(cmp, x, s[1..]) else Equals(cmp, x, s[1..])
  }

  function Insert<T>(cmp: (T, T) -> int, s: seq<T>, x: T): seq<T> {
    if s == [] then [x] else if cmp(s[0], x) <= 0 then [s[0]] + Insert(cmp, s[1..], x) else [x] + s
  }

  function Sort<T>(cmp: (T, T) -> int, s: seq<T>): seq<T> {
    if s == [] then [] else Insert(cmp, Sort(cmp, s[..|s| - 1]), s[|s| - 1])
  }

  function Reverse<T>(s: seq<T>): (r: seq<T>)
    ensures |r| == |s| && forall i :: 0 <= i < |s| ==> r[i] == s[|s| - 1 - i]
  {
    if s == [] then [] else [s[|s| - 1]] + Reverse(s[..|s| - 1])
  }

  lemma {:induction false} InsertMembers<T>(cmp: (T, T) -> int, s: seq<T>, x: T)
    ensures multiset(Insert(cmp, s, x)) == multiset(s) + multiset{x}
  {
    if s != [] {
      assert s == [s[0]] + s[1..];
      if cmp(s[0], x) <= 0 {
        InsertMembers(cmp, s[1..], x);
      }
    }
  }

  lemma {:induction false} InsertAscending<T(!new)>(cmp: (T, T) -> int, s: seq<T>, x: T)
    requires TotalPreorder(cmp) && Ascending(cmp, s)
    ensures Ascending(cmp, Insert(cmp, s, x))
  {
    if s != [] && cmp(s[0], x) <= 0 {
      var rest := Insert(cmp, s[1..], x);
      InsertAscending(cmp, s[1..], x);
      InsertMembers(cmp, s[1..], x);
      forall i | 0 <= i < |rest| ensures cmp(s[0], rest[i]) <= 0 {
        assert rest[i] in multiset(rest);
        if rest[i] != x {
          var k :| 0 <= k < |s[1..]| && s[1..][k] == rest[i];
          assert s[1 + k] == rest[i];
        }
      }
    } else if s != [] {
      Greater(cmp, s, x);
    }
  }

  /** An element below the first is below all. */
  lemma Greater<T(!new)>(cmp: (T, T) -> int, s: seq<T>, x: T)
    requires TotalPreorder(cmp) && Ascending(cmp, s) && s != [] && cmp(s[0], x) > 0
    ensures forall i :: 0 <= i < |s| ==> cmp(x, s[i]) < 0 && cmp(s[i], x) > 0
  {
    forall i | 0 <= i < |s| ensures cmp(x, s[i]) < 0 && cmp(s[i], x) > 0 {
      if i > 0 {
        assert cmp(s[0], s[i]) <= 0 && Transitive(cmp, s[0], s[i], x);
      }
    }
  }

  lemma TailAscending<T>(cmp: (T, T) -> int, s: seq<T>)
    requires Ascending(cmp, s) && s != []
    ensures Ascending(cmp, s[1..])
  {
  }

  lemma Regroup<T>(a: seq<T>, b: seq<T>, c: seq<T>)
    ensures a + (b + c) == a + b + c
  {
  }

  lemma EqualsPut<T>(cmp: (T, T) -> int, y: T, x: T, s: seq<T>)
    ensures Equals(cmp, y, []) == []
    ensures Equals(cmp, y, [x] + s) == (if cmp(y, x) == 0 then [x] else []) + Equals(cmp, y, s)
  {
    assert ([x] + s)[1..] == s;
  }

  lemma {:induction false} InsertStable<T(!new)>(cmp: (T, T) -> int, s: seq<T>, x: T, y: T)
    requires TotalPreorder(cmp) && Ascending(cmp, s)
    ensures Equals(cmp, y, Insert(cmp, s, x)) == Equals(cmp, y, s) + if cmp(y, x) == 0 then [x] else []
  {
    hide Equals, TotalPreorder, Ascending;
    if s == [] {
      EqualsPut(cmp, y, x, s);
      assert [x] + s == [x];
    } else if cmp(s[0], x) <= 0 {
      TailAscending(cmp, s);
      InsertStable(cmp, s[1..], x, y);
      EqualsPut(cmp, y, s[0], Insert(cmp, s[1..], x));
      EqualsPut(cmp, y, s[0], s[1..]);
      assert s == [s[0]] + s[1..];
      Regroup(if cmp(y, s[0]) == 0 then [s[0]] else [], Equals(cmp, y, s[1..]), if cmp(y, x) == 0 then [x] else []);
    } else {
      EqualsPut(cmp, y, x, s);
      if cmp(y, x) == 0 {
        Greater(cmp, s, x);
        NoneEqual(cmp, y, x, s);
      }
    }
  }

  lemma {:induction false} NoneEqual<T(!new)>(cmp: (T, T) -> int, y: T, x: T, s: seq<T>)
    requires TotalPreorder(cmp) && cmp(y, x) == 0 && forall i :: 0 <= i < |s| ==> cmp(s[i], x) > 0
    ensures Equals(cmp, y, s) == []
  {
    if s != [] {
      assert Transitive(cmp, s[0], y, x);
      NoneEqual(cmp, y, x, s[1..]);
    }
  }

  lemma {:induction false} SortMembers<T>(cmp: (T, T) -> int, s: seq<T>)
    ensures multiset(Sort(cmp, s)) == multiset(s)
  {
    if s != [] {
      SortMembers(cmp, s[..|s| - 1]);
      InsertMembers(cmp, Sort(cmp, s[..|s| - 1]), s[|s| - 1]);
      assert s == s[..|s| - 1] + [s[|s| - 1]];
    }
  }

  lemma {:induction false} SortAscending<T(!new)>(cmp: (T, T) -> int, s: seq<T>)
    requires TotalPreorder(cmp)
    ensures Ascending(cmp, Sort(cmp, s))
  {
    if s != [] {
      SortAscending(cmp, s[..|s| - 1]);
      InsertAscending(cmp, Sort(cmp, s[..|s| - 1]), s[|s| - 1]);
    }
  }

  /** Elements that compare equal keep their order. */
  lemma {:induction false} SortStable<T(!new)>(cmp: (T, T) -> int, s: seq<T>, y: T)
    requires TotalPreorder(cmp)
    ensures Equals(cmp, y, Sort(cmp, s)) == Equals(cmp, y, s)
  {
    if s != [] {
      var front, last := s[..|s| - 1], s[|s| - 1];
      SortStable(cmp, front, y);
      SortAscending(cmp, front);
      InsertStable(cmp, Sort(cmp, front), last, y);
      EqualsConcat(cmp, y, front, [last]);
      assert s == front + [last];
    }
  }

  lemma {:induction false} EqualsConcat<T>(cmp: (T, T) -> int, y: T, a: seq<T>, b: seq<T>)
    ensures Equals(cmp, y, a + b) == Equals(cmp, y, a) + Equals(cmp, y, b)
  {
    if a == [] {
      assert a + b == b;
    } else {
      assert (a + b)[1..] == a[1..] + b;
      EqualsConcat(cmp, y, a[1..], b);
    }
  }

  lemma {:induction false} ReverseMembers<T>(s: seq<T>)
    ensures multiset(Reverse(s)) == multiset(s)
  {
    if s != [] {
      ReverseMembers(s[..|s| - 1]);
      assert s == s[..|s| - 1] + [s[|s| - 1]];
    }
  }

  lemma {:induction false} EqualsReverse<T>(cmp: (T, T) -> int, y: T, s: seq<T>)
    ensures Equals(cmp, y, Reverse(s)) == Reverse(Equals(cmp, y, s))
  {
    if s != [] {
      var front, last := s[..|s| - 1], s[|s| - 1];
      EqualsReverse(cmp, y, front);
      EqualsConcat(cmp, y, front, [last]);
      EqualsConcat(cmp, y, [last], Reverse(front));
      assert s == front + [last];
      assert Reverse(s) == [last] + Reverse(front);
    }
  }

  function SortDescending<T>(cmp: (T, T) -> int, s: seq<T>): seq<T> {
    Reverse(Sort(cmp, Reverse(s)))
  }

  /** The extra reversals give non-increasing order and still keep equal items in their original order. */
  lemma DescendingIsRight<T(!new)>(cmp: (T, T) -> int, s: seq<T>, y: T)
    requires TotalPreorder(cmp)
    ensures multiset(SortDescending(cmp, s)) == multiset(s)
    ensures Descending(cmp, SortDescending(cmp, s))
    ensures Equals(cmp, y, SortDescending(cmp, s)) == Equals(cmp, y, s)
  {
    var r := Reverse(s);
    var up := Sort(cmp, r);
    SortMembers(cmp, r);
    ReverseMembers(s);
    ReverseMembers(up);
    SortStable(cmp, r, y);
    EqualsReverse(cmp, y, up);
    EqualsReverse(cmp, y, s);
    var e := Equals(cmp, y, s);
    assert Reverse(Reverse(e)) == e;
    SortAscending(cmp, r);
    var d := SortDescending(cmp, s);
    forall i, j | 0 <= i < j < |d| ensures cmp(d[i], d[j]) >= 0 {
      assert cmp(up[|d| - 1 - j], up[|d| - 1 - i]) <= 0;
    }
  }

  // ---------- Any stable sort ----------

  /** `t` is an ascending rearrangement of `s` in which elements that compare equal keep their order. */
  ghost predicate StablySorted<T(!new)>(cmp: (T, T) -> int, s: seq<T>, t: seq<T>) {
    Ascending(cmp, t) && forall y :: Equals(cmp, y, t) == Equals(cmp, y, s)
  }

  /** There is only one. */
  lemma {:induction false} StablySortedIsUnique<T(!new)>(cmp: (T, T) -> int, t: seq<T>, u: seq<T>)
    requires TotalPreorder(cmp) && Ascending(cmp, t) && Ascending(cmp, u)
    requires forall y :: Equals(cmp, y, t) == Equals(cmp, y, u)
    ensures t == u
  {
    if t != [] || u != [] {
      if u != [] { SelfEqual(cmp, u); EqualsMember(cmp, u[0], t); }
      if t != [] { SelfEqual(cmp, t); EqualsMember(cmp, t[0], u); }
      assert cmp(t[0], u[0]) == 0;
      var e := Equals(cmp, t[0], t);
      assert e == [t[0]] + Equals(cmp, t[0], t[1..]) && e == [u[0]] + Equals(cmp, t[0], u[1..]);
      assert e[0] == t[0] && e[0] == u[0];
      forall y ensures Equals(cmp, y, t[1..]) == Equals(cmp, y, u[1..]) {
        assert Equals(cmp, y, t) == Equals(cmp, y, u);
        assert cmp(y, t[0]) == 0 ==> Equals(cmp, y, t)[1..] == Equals(cmp, y, t[1..]);
        assert cmp(y, t[0]) == 0 ==> Equals(cmp, y, u)[1..] == Equals(cmp, y, u[1..]);
      }
      StablySortedIsUnique(cmp, t[1..], u[1..]);
    }
  }

  lemma SelfEqual<T(!new)>(cmp: (T, T) -> int, s: seq<T>)
    requires TotalPreorder(cmp) && s != []
    ensures Equals(cmp, s[0], s) != []
  {
    assert cmp(s[0], s[0]) == 0;
  }

  /** An element that has an equal in an ascending list is not below its first one. */
  lemma EqualsMember<T(!new)>(cmp: (T, T) -> int, y: T, s: seq<T>)
    requires TotalPreorder(cmp) && Ascending(cmp, s) && Equals(cmp, y, s) != []
    ensures s != [] && cmp(s[0], y) <= 0
  {
    var k := FirstEqual(cmp, y, s);
    assert k > 0 ==> cmp(s[0], s[k]) <= 0;
    assert Transitive(cmp, s[0], s[k], y);
  }

  lemma {:induction false} FirstEqual<T>(cmp: (T, T) -> int, y: T, s: seq<T>) returns (k: nat)
    requires Equals(cmp, y, s) != []
    ensures k < |s| && cmp(y, s[k]) == 0
  {
    if cmp(y, s[0]) == 0 {
      k := 0;
    } else {
      var j := FirstEqual(cmp, y, s[1..]);
      k := j + 1;
    }
  }

  /** Whatever the engine's algorithm, a stable ascending sort returns `Sort`. */
  lemma SortIsAnyStableSort<T(!new)>(cmp: (T, T) -> int, s: seq<T>, t: seq<T>)
    requires TotalPreorder(cmp)
    ensures StablySorted(cmp, s, t) <==> t == Sort(cmp, s)
  {
    SortAscending(cmp, s);
    forall y ensures Equals(cmp, y, Sort(cmp, s)) == Equals(cmp, y, s) {
      SortStable(cmp, s, y);
    }
    if StablySorted(cmp, s, t) {
      StablySortedIsUnique(cmp, t, Sort(cmp, s));
    }
  }

  /** Reverse, any stable ascending sort, reverse: non-increasing, and equal items in their original order. */
  lemma AnyDescendingIsRight<T(!new)>(cmp: (T, T) -> int, s: seq<T>, t: seq<T>)
    requires TotalPreorder(cmp) && StablySorted(cmp, Reverse(s), t)
    ensures multiset(Reverse(t)) == multiset(s) && Descending(cmp, Reverse(t))
    ensures forall y :: Equals(cmp, y, Reverse(t)) == Equals(cmp, y, s)
  {
    SortIsAnyStableSort(cmp, Reverse(s), t);
    forall y ensures Equals(cmp, y, Reverse(t)) == Equals(cmp, y, s) {
      DescendingIsRight(cmp, s, y);
    }
    if s != [] {
      DescendingIsRight(cmp, s, s[0]);
    }
  }

  // ---------- The order of elements that compare equal ----------

  /** Of two elements that compare equal the one of lower rank is first. */
  ghost predicate TiesByRank<T>(cmp: (T, T) -> int, rank: T -> int, s: seq<T>) {
    forall i, j :: 0 <= i < j < |s| && cmp(s[i], s[j]) == 0 ==> rank(s[i]) < rank(s[j])
  }

  ghost predicate RanksIncrease<T>(rank: T -> int, s: seq<T>) {
    forall i, j :: 0 <= i < j < |s| ==> rank(s[i]) < rank(s[j])
  }

  lemma InsertedIn<T>(cmp: (T, T) -> int, s: seq<T>, x: T, y: T)
    requires y in Insert(cmp, s, x)
    ensures y == x || y in s
  {
    InsertMembers(cmp, s, x);
    assert y in multiset(Insert(cmp, s, x));
  }

  lemma {:induction false} InsertTies<T(!new)>(cmp: (T, T) -> int, rank: T -> int, s: seq<T>, x: T)
    requires TotalPreorder(cmp) && Ascending(cmp, s) && TiesByRank(cmp, rank, s)
    requires forall y :: y in s ==> rank(y) < rank(x)
    ensures TiesByRank(cmp, rank, Insert(cmp, s, x))
  {
    hide TotalPreorder, Ascending, TiesByRank;
    if s == [] {
      TiesPut(cmp, rank, x, []);
      assert [x] + [] == [x];
    } else if cmp(s[0], x) <= 0 {
      var rest := Insert(cmp, s[1..], x);
      TailAscending(cmp, s);
      TiesTail(cmp, rank, s);
      InsertTies(cmp, rank, s[1..], x);
      forall y | y in rest && cmp(s[0], y) == 0 ensures rank(s[0]) < rank(y) {
        InsertedIn(cmp, s[1..], x, y);
      }
      TiesPut(cmp, rank, s[0], rest);
    } else {
      Greater(cmp, s, x);
      TiesPut(cmp, rank, x, s);
    }
  }

  lemma TiesTail<T>(cmp: (T, T) -> int, rank: T -> int, s: seq<T>)
    requires TiesByRank(cmp, rank, s) && s != []
    ensures TiesByRank(cmp, rank, s[1..])
    ensures forall y :: y in s[1..] && cmp(s[0], y) == 0 ==> rank(s[0]) < rank(y)
  {
  }

  lemma TiesPut<T>(cmp: (T, T) -> int, rank: T -> int, x: T, s: seq<T>)
    requires forall y :: y in s && cmp(x, y) == 0 ==> rank(x) < rank(y)
    ensures TiesByRank(cmp, rank, []) && (TiesByRank(cmp, rank, s) ==> TiesByRank(cmp, rank, [x] + s))
  {
    var t := [x] + s;
    if TiesByRank(cmp, rank, s) {
      forall i, j | 0 <= i < j < |t| && cmp(t[i], t[j]) == 0 ensures rank(t[i]) < rank(t[j]) {
        assert t[j] == s[j - 1];
        assert i > 0 ==> t[i] == s[i - 1];
      }
    }
  }

  /** A stable sort leaves elements that compare equal in the order of their ranks, if that was their order. */
  lemma {:induction false} SortTies<T(!new)>(cmp: (T, T) -> int, rank: T -> int, s: seq<T>)
    requires TotalPreorder(cmp) && RanksIncrease(rank, s)
    ensures TiesByRank(cmp, rank, Sort(cmp, s))
  {
    if s != [] {
      var front, last := s[..|s| - 1], s[|s| - 1];
      SortTies(cmp, rank, front);
      SortAscending(cmp, front);
      SortMembers(cmp, front);
      forall y | y in Sort(cmp, front) ensures rank(y) < rank(last) {
        assert y in multiset(Sort(cmp, front));
        assert y in front;
      }
      InsertTies(cmp, rank, Sort(cmp, front), last);
    }
  }
}

/**
 Grouping keys: the values on the path to a group, joined with ":|:", and split again when
 a group is collapsed or expanded by its key.
 */
module GroupKeys {

  const DELIMITER := ":|:"

  /** `values.join(groupingDelimiter)` */
  function Join(values: seq<string>): string {
    if |values| == 0 then ""
    else if |values| == 1 then values[0]
    else Join(values[..|values| - 1]) + DELIMITER + values[|values| - 1]
  }

  predicate DelimiterAt(s: string, k: int) {
    0 <= k && k + 3 <= |s| && s[k] == ':' && s[k + 1] == '|' && s[k + 2] == ':'
  }

  /** `s.indexOf(groupingDelimiter, from)` */
  function IndexOf(s: string, from: nat): (i: int)
    requires from <= |s|
    ensures i == -1 || (from <= i && DelimiterAt(s, i))
    ensures forall k :: from <= k && (i == -1 || k < i) ==> !DelimiterAt(s, k)
    decreases |s| - from
  {
    if |s| < from + 3 then -1 else if DelimiterAt(s, from) then from else IndexOf(s, from + 1)
  }

  /** `s.split(groupingDelimiter)`: cut at the leftmost delimiter, then go on behind it. */
  function Split(s: string): (r: seq<string>)
    ensures r != []
    decreases |s|
  {
    var i := IndexOf(s, 0);
    if i == -1 then [s] else [s[..i]] + Split(s[i + 3..])
  }

  predicate Contains(s: string) {
    IndexOf(s, 0) != -1
  }

  /** What comes before a delimiter must not run into it. */
  predicate EndsInBarStart(s: string) {
    |s| >= 2 && s[|s| - 2] == ':' && s[|s| - 1] == '|'
  }

  predicate Splittable(values: seq<string>) {
    && values != []
    && (forall i :: 0 <= i < |values| ==> !Contains(values[i]))
    && (forall i :: 0 <= i < |values| - 1 ==> !EndsInBarStart(values[i]))
  }

  lemma {:induction false} JoinFront(values: seq<string>)
    requires |values| >= 2
    ensures Join(values) == values[0] + DELIMITER + Join(values[1..])
  {
    if |values| > 2 {
      JoinFront(values[..|values| - 1]);
      assert values[..|values| - 1][1..] == values[1..][..|values| - 2];
    }
  }

  /** The first delimiter of `v + ":|:" + rest` is the one in the middle exactly when `v` is harmless. */
  lemma {:induction false} FirstDelimiter(v: string, rest: string)
    ensures IndexOf(v + DELIMITER + rest, 0) == |v| <==> !Contains(v) && !EndsInBarStart(v)
  {
    var s := v + DELIMITER + rest;
    assert DelimiterAt(s, |v|);
    assert forall k :: k + 3 <= |v| ==> (DelimiterAt(s, k) <==> DelimiterAt(v, k));
    assert !DelimiterAt(s, |v| - 1);
    assert DelimiterAt(s, |v| - 2) <==> EndsInBarStart(v);
  }

  lemma {:induction false} SplitFirst(v: string, rest: string)
    requires !Contains(v) && !EndsInBarStart(v)
    ensures Split(v + DELIMITER + rest) == [v] + Split(rest)
  {
    var s := v + DELIMITER + rest;
    FirstDelimiter(v, rest);
    assert |DELIMITER| == 3;
    assert s[..|v|] == v && s[|v| + 3..] == rest;
  }

  lemma {:induction false} SplitPiecesClean(s: string)
    ensures forall i :: 0 <= i < |Split(s)| ==> !Contains(Split(s)[i])
    ensures forall i :: 0 <= i < |Split(s)| - 1 ==> !EndsInBarStart(Split(s)[i])
    decreases |s|
  {
    var i := IndexOf(s, 0);
    if i != -1 {
      SplitPiecesClean(s[i + 3..]);
      assert s == s[..i] + DELIMITER + s[i + 3..];
      FirstDelimiter(s[..i], s[i + 3..]);
    }
  }

  /** Splitting a key gives back the values it was joined from exactly when they are splittable. */
  lemma {:induction false} SplitJoin(values: seq<string>)
    ensures Split(Join(values)) == values <==> Splittable(values)
    decreases |values|
  {
    SplitPiecesClean(Join(values));
    if Splittable(values) {
      SplitJoinForth(values);
    }
  }

  lemma {:induction false} SplitJoinForth(values: seq<string>)
    requires Splittable(values)
    ensures Split(Join(values)) == values
    decreases |values|
  {
    if |values| > 1 {
      JoinFront(values);
      SplitFirst(values[0], Join(values[1..]));
      SplitJoinForth(values[1..]);
    }
  }

  /** Hence the key determines the path. */
  lemma KeysAreInjective(a: seq<string>, b: seq<string>)
    requires Splittable(a) && Splittable(b) && Join(a) == Join(b)
    ensures a == b
  {
    SplitJoin(a);
    SplitJoin(b);
  }

  /** How `collapseGroup` and `expandGroup` read their arguments: a level and a key. */
  function Target(args: seq<string>): (int, string) {
    if |args| == 1 && Contains(args[0]) then (|Split(args[0])| - 1, args[0]) else (|args| - 1, Join(args))
  }

  /** One argument is a key, whose level is that of the path it splits into; several, or none, are a path. */
  lemma TargetIs(args: seq<string>)
    ensures |args| == 1 ==> Target(args) == (|Split(args[0])| - 1, args[0])
    ensures |args| != 1 ==> Target(args) == (|args| - 1, Join(args))
  {
  }

  /** A group is found by its key, and by its path, for every splittable path. */
  lemma TargetOfGroup(path: seq<string>)
    requires Splittable(path)
    ensures Target([Join(path)]) == (|path| - 1, Join(path)) && Target(path) == (|path| - 1, Join(path))
  {
    SplitJoin(path);
  }

  /** A value that runs into the delimiter is split in the wrong place. */
  lemma WrongSplit()
    ensures Split(Join(["a:|", "b"])) == ["a", "|:b"]
  {
    var s := Join(["a:|", "b"]);
    assert s == "a:|:|:b";
    assert DelimiterAt(s, 1) && !DelimiterAt(s, 0);
    assert IndexOf(s, 0) == 1;
    var t := s[4..];
    assert t == "|:b" && !DelimiterAt(t, 0);
    assert s[..1] == "a";
  }
}

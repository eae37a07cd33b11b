/**
 The collapse state of `DataView`: a default per level, and per level the set of keys that
 are toggled against it. It answers like a memory of the last operation on each group.
 */
module Collapse {
  import opened Wrappers
  import opened Grouping

  datatype State = State(infos: Infos, toggles: Toggles)

  datatype Op =
    | One(level: int, key: string, collapse: bool)   // collapseGroup, expandGroup
    | All(where: Option<int>, collapse: bool)        // collapseAllGroups, expandAllGroups

  /** Levels that name no grouping make the source throw; nothing is recorded then. */
  predicate InRange(s: State, level: int) {
    0 <= level < |s.infos| == |s.toggles|
  }

  /** `expandCollapseGroup`: the toggle is the exclusive or of the default and what is wanted. */
  function SetOne(s: State, level: int, key: string, collapse: bool): State {
    if InRange(s, level) then
      s.(toggles := s.toggles[level := s.toggles[level][key := s.infos[level].collapsed != collapse]])
    else s
  }

  /** `expandCollapseAllGroups` for one level: toggles go, the default changes. */
  function SetLevel(s: State, level: int, collapse: bool): State {
    if InRange(s, level) then
      State(s.infos[level := s.infos[level].(collapsed := collapse)], s.toggles[level := map[]])
    else s
  }

  function SetLevels(s: State, n: nat, collapse: bool): State {
    if n == 0 then s else SetLevel(SetLevels(s, n - 1, collapse), n - 1, collapse)
  }

  function Apply(s: State, op: Op): State {
    match op
    case One(level, key, collapse) => SetOne(s, level, key, collapse)
    case All(Some(level), collapse) => SetLevel(s, level, collapse)
    case All(None, collapse) => SetLevels(s, |s.infos|, collapse)
  }

  /** The loop over all levels, or the one level named; `ok` is false where the source throws. */
  method ExpandCollapseAll(s: State, level: Option<int>, collapse: bool) returns (t: State, ok: bool)
    requires Shape(s)
    ensures t == Apply(s, All(level, collapse)) && Shape(t)
    ensures ok <==> (level.Some? ==> 0 <= level.value < |s.infos|)
  {
    t, ok := s, true;
    match level
    case None =>
      var i := 0;
      while i < |t.infos|
        invariant 0 <= i <= |t.infos| == |s.infos| && Shape(t)
        invariant t == SetLevels(s, i, collapse)
      {
        t := SetLevel(t, i, collapse);
        i := i + 1;
      }
    case Some(l) =>
      t, ok := SetLevel(s, l, collapse), InRange(s, l);
  }

  function ApplyAll(s: State, ops: seq<Op>): State {
    if ops == [] then s else Apply(ApplyAll(s, ops[..|ops| - 1]), ops[|ops| - 1])
  }

  predicate Shape(s: State) {
    |s.infos| == |s.toggles|
  }

  predicate Shown(s: State, level: nat, key: string)
    requires Shape(s) && level < |s.infos|
  {
    CollapsedAt(s.infos, s.toggles, level, key)
  }

  /** Whether an operation speaks of the group. */
  predicate Names(op: Op, level: nat, key: string) {
    match op
    case One(l, k, _) => l == level && k == key
    case All(None, _) => true
    case All(Some(l), _) => l == level
  }

  /** What the latest operation that names the group asked for; `base` if there is none. */
  function Latest(ops: seq<Op>, level: nat, key: string, base: bool): bool {
    if ops == [] then base
    else if Names(ops[|ops| - 1], level, key) then ops[|ops| - 1].collapse
    else Latest(ops[..|ops| - 1], level, key, base)
  }

  lemma {:induction false} SetLevelsShown(s: State, n: nat, collapse: bool, level: nat, key: string)
    requires Shape(s) && n <= |s.infos| && level < |s.infos|
    ensures var t := SetLevels(s, n, collapse);
            && Shape(t) && |t.infos| == |s.infos|
            && Shown(t, level, key) == if level < n then collapse else Shown(s, level, key)
  {
    if n > 0 {
      SetLevelsShown(s, n - 1, collapse, level, key);
    }
  }

  /** One operation decides about the groups it names and leaves all others as they were. */
  lemma {:induction false} ApplyShown(s: State, op: Op, level: nat, key: string)
    requires Shape(s) && level < |s.infos|
    ensures var t := Apply(s, op);
            && Shape(t) && |t.infos| == |s.infos|
            && Shown(t, level, key) == if Names(op, level, key) then op.collapse else Shown(s, level, key)
  {
    if op.All? && op.where.None? {
      SetLevelsShown(s, |s.infos|, op.collapse, level, key);
    }
  }

  /** After any run of operations each group is as the latest one that named it asked. */
  lemma {:induction false} LastOperationWins(s: State, ops: seq<Op>, level: nat, key: string)
    requires Shape(s) && level < |s.infos|
    ensures var t := ApplyAll(s, ops);
            Shape(t) && |t.infos| == |s.infos| && Shown(t, level, key) == Latest(ops, level, key, Shown(s, level, key))
  {
    if ops != [] {
      LastOperationWins(s, ops[..|ops| - 1], level, key);
      ApplyShown(ApplyAll(s, ops[..|ops| - 1]), ops[|ops| - 1], level, key);
    }
  }
}

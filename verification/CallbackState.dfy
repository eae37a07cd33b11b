/**
 The variables behind one `jQuery.Callbacks` list, as a value, and what the parts of its
 code do to them. The options `unique` and `stopOnFalse` are off; `once` shows as an
 absent stack.
 */
module CallbackState {
  import opened Wrappers

  /** The context and arguments of one fire. */
  datatype Data = Data(context: int, args: seq<int>)

  /** `None` stands for `undefined`, or for the `false` that `stack` starts with in a `once` list. */
  datatype ListState<T> = ListState(
    list: Option<seq<T>>, stack: Option<seq<Data>>, memory: Option<Data>,
    fired: bool, firing: bool, firingIndex: int, firingLength: int, firingStart: nat)

  function Fresh<T>(once: bool): ListState<T> {
    ListState(Some([]), if once then None else Some([]), None, false, false, 0, 0, 0)
  }

  /** The list part of `add`; firing what was added, if it must be, comes after. */
  function Pushed<T>(s: ListState<T>, xs: seq<T>): ListState<T> {
    if s.list.None? then s
    else
      var t := s.(list := Some(s.list.value + xs));
      if s.firing then t.(firingLength := |t.list.value|) else t
  }

  function Disabled<T>(s: ListState<T>): ListState<T> {
    s.(list := None, stack := None, memory := None)
  }

  function Locked<T>(s: ListState<T>): ListState<T> {
    if s.memory.None? then Disabled(s.(stack := None)) else s.(stack := None)
  }

  /** Whether `fireWith` does anything. */
  predicate Accepts<T>(s: ListState<T>) {
    s.list.Some? && (!s.fired || s.stack.Some?)
  }

  /** `fire` up to its loop. */
  function Begun<T>(s: ListState<T>, data: Data, remember: bool): ListState<T>
    requires s.list.Some?
  {
    s.(memory := if remember then Some(data) else None, fired := true, firingIndex := s.firingStart,
       firingStart := 0, firingLength := |s.list.value|, firing := true)
  }

  /** `fire` after its loop, apart from the fire waiting on the stack. */
  function Finished<T>(s: ListState<T>): ListState<T> {
    var t := s.(firing := false);
    if s.list.None? || s.stack.Some? then t
    else if s.memory.Some? then t.(list := Some([]))
    else Disabled(t)
  }
}

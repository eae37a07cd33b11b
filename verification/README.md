# jQuery 1.10.2 and SlickGrid DataView in Dafny

This project models the three stateful libraries behind the `willrogers` web pages and
proves what they promise.

* **The Sizzle selector engine.** A selector is compiled into closures that match from right
  to left; the closures store their verdicts on the nodes they visit. `Selectors` gives the
  meaning of a selector as a chain of nodes (Selectors Level 3, section 8), `Closures` the
  meaning of a closure without any cache, `Sizzle` the compiler, the cached matcher and the
  loop over the candidates. `NthChild` is the `CHILD` filter with its two sibling caches,
  `DocumentOrder` the fallback comparator and `uniqueSort`. `Dom` is the tree under them: a node
  is its path from the root.
* **Callbacks, Deferred and `when`, data ids, event handler lists.** `Callbacks` is one list
  used re-entrantly: what a running callback does to its own list is a script of further calls.
  `Deferred` is a machine over three such lists whose control stack holds the loops in
  progress, so an execution is any sequence of calls, returns and loop steps; `Notifying` says
  what a notify does, `Attaching` that each callback runs once. `When` counts
  down over Deferreds that settle in any order. `DataIds` is the store behind `jQuery.data`
  with `cleanData` re-entered from event hooks. `EventHandlers` is the handler list of one type.
* **SlickGrid's `DataView`.** `Sorting`, `GroupKeys`, `Grouping`, `Display`, `Layout`, `Collapse`,
  `Filtering`, `Paging`, `IdIndex` and `RowDiffs` each take one algorithm and its specification;
  `DataView` puts them into the class whose every operation ends in a refresh, and `Sessions`
  shows that any operation of a fair client keeps the whole in order. The class carries, as
  history, the mirror of the rows that a listener keeps by redrawing only what is reported, and
  it knows when `filteredItems` and `rows` are the array `items` itself, which is changed in
  place; `SharedRows` says what that does to the mirror.

Where the code falls short of what it is for, it is modelled as it is, and a lemma says exactly
when it meets the promise:

* a tree that is not the document's sorts its root behind its own descendants
  (`DocumentOrder.AgreesWithPreorder`, `DocumentOrder.DetachedRootSortsLast`);
* between nodes inside two detached trees the comparator decides nothing, and is no order then
  (`DocumentOrder.UndecidedIsNoOrder`); the nodes of the document come before all others exactly if
  it is the preferred one or one of the two is a root (`DocumentOrder.DocumentFirst`);
* the gate for the context is not asked over XML nodes unless the selector starts with a
  combinator, so an XML query can select more than an HTML one (`Sizzle.HtmlAgainstXml`,
  `Sizzle.XmlSkipsTheContext`);
* `cleanData` asks only whether a record exists under the id it read, not whose it is: a special
  event's hook that frees the record and lets another element have the id makes two elements
  share an id (`DataIds.ReleaseSafe`, `DataIds.StolenIdIsShared`). It cannot happen when hooks clean
  only elements that have no special events and get none, or never store anything
  (`DataIds.Store.CleanData`);
* the positional filters ask for a parent, not for a parent element, so `html:first-child` is
  accepted: the child forms are right for all arguments exactly under an element
  (`NthChild.ChildIsRight`, `NthChild.DocumentIsNoElement`). An `of-type` filter also counts every
  child with the element's name in lower case, and is right for all arguments exactly when,
  besides, only elements of that very name have it (`NthChild.OfTypeIsRight`,
  `NthChild.InstructionIsCounted`, `NthChild.CaseIsIgnored`);
* with grouping on, totals rows are reported on every refresh, changed or not
  (`RowDiffs.ReportIsExact`, `RowDiffs.UnchangedRowsSame`);
* after paging without a filter, two true hints that the filter is unchanged make the displayed
  rows the items array, and a new item is then displayed without being reported
  (`SharedRows.StaleMirror`), exactly when the filter accepts it (`SharedRows.AddToShared`); a
  rule a client can follow rules it out (`Sessions.PerformByRule`);
* `idxById` is a plain object: `deleteItem` of a name such as `constructor` that is no id cuts the
  first item and leaves the index behind (`DataView.View.DeleteItem`, `IdIndex.CutUnindexed`), and
  an item named `__proto__` can never be indexed (`IdIndex.UniquenessIsDistinctness`);
* `groupsByVal` is a plain object too: grouping throws exactly when a row has such a name for a
  value (`Grouping.ExtractGroups`);
* asking for a page without a page size while there are no rows makes the page number `NaN`, and
  no page size but zero brings it back (`Paging.OptionsFit`, `Paging.LostPage`); a negative page
  is taken as asked for, and counts from the end, one page too far (`Paging.OptionsExact`,
  `Paging.PageBeforeFirst`);
* a grouping key splits back into its values unless a value contains `:|:` or one before the
  last ends in `:|` (`GroupKeys.SplitJoin`, `GroupKeys.WrongSplit`);
* `insertItem` behind the end leaves the new item without an index (`IdIndex.InsertBeyond`);
* the second `recalc` in `refresh` never runs: after the first the page is never behind the end
  (`DataView.View.Recalc`).

## Model

| member | source | states |
|---|---|---|
| `Sizzle.Engine.Find` | apps/willrogers/public/javascripts/jquery-1.10.2.js:2708-2833 | compiling a selector list, groups last to first, and running it with caches yields, in their order, exactly the candidates some group selects by the chain definition of Selectors Level 3, section 8 |
| `Sizzle.Engine.MatcherFromTokens` | apps/willrogers/public/javascripts/jquery-1.10.2.js:2653-2706 | the compiled matcher accepts a node, in any query on any well-formed tree, iff the tokens select it; every walk in it has its own name above those inside it |
| `Sizzle.Engine.Foundation` | apps/willrogers/public/javascripts/jquery-1.10.2.js:2660-2672 | the foundational matcher means: some context node is related to the leftmost node by the leading (or implicit descendant) combinator, where the gate asks at all |
| `Sizzle.GateMeans` | apps/willrogers/public/javascripts/jquery-1.10.2.js:2667-2672 | the gate accepts iff the empty chain, anchored exactly when a leading combinator is there or the query is an outermost HTML one, ends at the node |
| `Sizzle.FoundationMatches` | apps/willrogers/public/javascripts/jquery-1.10.2.js:2661-2672 | a foundational walk succeeds iff a context node (for `>` and descendant also a document) is related to the node |
| `Sizzle.Engine.AddToken` | apps/willrogers/public/javascripts/jquery-1.10.2.js:2674-2702 | one more token turns a matcher for n tokens into one for n+1 |
| `Sizzle.SimpleMeans` | apps/willrogers/public/javascripts/jquery-1.10.2.js:2678-2701 | pushing a filter narrows the node a chain ends at |
| `Sizzle.RelativeMeans` | apps/willrogers/public/javascripts/jquery-1.10.2.js:2675-2676 | wrapping in a combinator moves the end of the chain to a related node |
| `Selectors.SelectsSimple` | apps/willrogers/public/javascripts/jquery-1.10.2.js:2701-2705 | n+1 tokens ending in a simple selector select a node iff n tokens do and the selector accepts it |
| `Selectors.SelectsRelative` | apps/willrogers/public/javascripts/jquery-1.10.2.js:2675-2676 | n+1 tokens ending in a combinator select a node iff n tokens select some node related to it |
| `Selectors.ChainGrows` | apps/willrogers/public/javascripts/jquery-1.10.2.js:2674-2705 | a chain grows at its right end by exactly the related nodes |
| `Closures.ReachesRelated` | apps/willrogers/public/javascripts/jquery-1.10.2.js:1930-1935 | the nodes a walk stops at are exactly those its combinator relates to the start |
| `Closures.ReachesNext` | apps/willrogers/public/javascripts/jquery-1.10.2.js:2480-2488 | a `+` walk stops at the nearest preceding element and nothing else |
| `Closures.ReachesParent` | apps/willrogers/public/javascripts/jquery-1.10.2.js:2480-2488 | a `>` walk stops at the parent only, given that only elements and roots have children |
| `Closures.ReachedNode` | apps/willrogers/public/javascripts/jquery-1.10.2.js:2490-2522 | a successful walk has reached a node at which all its matchers accept |
| `Closures.ReachingMatches` | apps/willrogers/public/javascripts/jquery-1.10.2.js:2490-2522 | reaching any such node makes the walk succeed |
| `Sizzle.Engine.Run` | apps/willrogers/public/javascripts/jquery-1.10.2.js:2475-2523 | running a matcher with slots on the nodes gives the answer of the cache-free meaning, leaves the slots of outer walks alone or replaced, and after a miss leaves every slot trustworthy |
| `Sizzle.Engine.RunAll` | apps/willrogers/public/javascripts/jquery-1.10.2.js:2525-2537 | `elementMatcher`: all matchers accept, the last asked first, whatever the slots hold |
| `Sizzle.Engine.PlainWalk` | apps/willrogers/public/javascripts/jquery-1.10.2.js:2482-2503 | the walks of `>`, `+` and of XML nodes, which store nothing of their own |
| `Sizzle.Engine.CachedWalk` | apps/willrogers/public/javascripts/jquery-1.10.2.js:2504-2521 | the cached branch, with its single slot per node and direction shared by several walks, answers as the uncached one |
| `Sizzle.Engine.Visit` | apps/willrogers/public/javascripts/jquery-1.10.2.js:2505-2519 | a slot answers for the whole walk only if it holds a hit, or a miss of the current element; in both cases rightly |
| `Sizzle.Engine.Ask` | apps/willrogers/public/javascripts/jquery-1.10.2.js:2512-2518 | the verdict stored is that of the inner matchers, unless an inner walk took the slot |
| `Sizzle.Engine.SuperMatch` | apps/willrogers/public/javascripts/jquery-1.10.2.js:2713-2806 | an outermost run over element matchers returns the candidates that match by the cache-free meaning, each once, in order, from any slots left by earlier queries, and counts one run for each candidate |
| `Sizzle.MatchingIsSelected` | apps/willrogers/public/javascripts/jquery-1.10.2.js:2731-2747 | matching by the compiled groups is selection by the selector |
| `Sizzle.HtmlAgainstXml` | apps/willrogers/public/javascripts/jquery-1.10.2.js:2667-2672 | an HTML query selects no more than the same XML query, and the same when there is a leading combinator or the query is not outermost |
| `Sizzle.XmlSkipsTheContext` | apps/willrogers/public/javascripts/jquery-1.10.2.js:2667-2672 | a query where the two differ |
| `Sizzle.FindsOne` | apps/willrogers/public/javascripts/jquery-1.10.2.js:2660-2672 | `f` alone selects what `f` accepts below a node of the context, which is not asked for over XML nodes or when the context is the document |
| `Sizzle.FindsFromContext` | apps/willrogers/public/javascripts/jquery-1.10.2.js:2660-2672 | `> f`, `+ f`, `~ f` and ` f` select what `f` accepts and is linked so to a node of the context, in every query |
| `Sizzle.FindsPair` | apps/willrogers/public/javascripts/jquery-1.10.2.js:2674-2706 | `f > g` and the rest select what `g` accepts and is linked so to an element that `f` selects, stated by parents, prefixes and siblings alone |
| `Sizzle.SelectedExactly` | apps/willrogers/public/javascripts/jquery-1.10.2.js:2731-2747 | a candidate is a result as often as it is a candidate, if some group of the selector selects it, and else not |
| `Selectors.RelatedIsLinked` | apps/willrogers/public/javascripts/jquery-1.10.2.js:1930-1935 | the four combinators in terms of parent, ancestors and earlier siblings with no element between |
| `NthChild.CycleTestIsSeries` | apps/willrogers/public/javascripts/jquery-1.10.2.js:2139-2141 | the final test accepts iff some n >= 0 has a*n+b equal to the position, for every a and b, also a = 0 (where the remainder is undefined) and a < 0 |
| `NthChild.ChildFilter.Check` | apps/willrogers/public/javascripts/jquery-1.10.2.js:2057-2141 | whatever was asked before in this query, the filter accepts an element iff the counted siblings say so, and the caches stay true; under an element, for the child forms and for of-type without impostors, that is iff Selectors Level 3 does (sections 6.6.5.2 to 6.6.5.11); under any other parent the standard accepts nothing; a root is never accepted |
| `NthChild.ChildIsRight` | apps/willrogers/public/javascripts/jquery-1.10.2.js:2075-2141 | the child forms agree with the standard for all their arguments iff the parent is an element |
| `NthChild.OfTypeIsRight` | apps/willrogers/public/javascripts/jquery-1.10.2.js:2083-2126 | the of-type forms do iff the parent is an element and no child that is not an element, or is one of another name, shares the lower-cased name |
| `NthChild.RightPositions` | apps/willrogers/public/javascripts/jquery-1.10.2.js:2083-2126 | the positions counted are those of the standard for the child forms, and for the of-type forms where there is no such child |
| `NthChild.WrongParent` | apps/willrogers/public/javascripts/jquery-1.10.2.js:2075-2076 | under a document or a fragment the filter is wrong exactly where it accepts |
| `NthChild.DocumentIsNoElement` | apps/willrogers/public/javascripts/jquery-1.10.2.js:2075-2090 | `html:first-child` is accepted, and should not be |
| `NthChild.WrongWithImpostor` | apps/willrogers/public/javascripts/jquery-1.10.2.js:2125-2126 | under an element each such child, on either side, makes some of-type argument wrong |
| `NthChild.InstructionIsCounted` | apps/willrogers/public/javascripts/jquery-1.10.2.js:2083 | a processing instruction that `:first-of-type` takes for a `p` |
| `NthChild.CaseIsIgnored` | apps/willrogers/public/javascripts/jquery-1.10.2.js:2069-2083 | in XML, an element `P` that `:first-of-type` takes for a `p` |
| `NthChild.ImpostorIs` | apps/willrogers/public/javascripts/jquery-1.10.2.js:2069-2083 | which nodes these are: for the of-type forms those whose name is the same but for the case of its letters and which are no elements or are of another name; for the child forms none |
| `NthChild.LowerIgnoresCase` | apps/willrogers/public/javascripts/jquery-1.10.2.js:2069 | two names are the same in lower case iff they differ at most in the case of letters |
| `NthChild.ChildFilter.SeekForward` | apps/willrogers/public/javascripts/jquery-1.10.2.js:2095-2114 | the forward seek gives the true position from any true cache entry and stores exactly this one |
| `NthChild.ChildFilter.SeekFrom` | apps/willrogers/public/javascripts/jquery-1.10.2.js:2100-2114 | the seek from a cached index, with its fallback to the start, ends at the element with its true position |
| `NthChild.ChildFilter.Scan` | apps/willrogers/public/javascripts/jquery-1.10.2.js:2120-2137 | the scan counts to the element from either end and, when it caches, leaves every element from there on with its true rank; else it stores nothing |
| `NthChild.ChildFilter.Simple` | apps/willrogers/public/javascripts/jquery-1.10.2.js:2078-2091 | `:first-*`, `:last-*`, `:only-*` accept iff the position among the counted siblings, from that side, is 1 |
| `NthChild.ChildFilter.NextQuery` | apps/willrogers/public/javascripts/jquery-1.10.2.js:2724 | raising `dirruns` makes every entry stale at once and keeps the caches true |
| `DocumentOrder.AgreesWithPreorder` | apps/willrogers/public/javascripts/jquery-1.10.2.js:1731-1782 | on two nodes of one tree the comparator agrees with preorder position iff the tree is the document, or neither is the root, or they are the same node |
| `DocumentOrder.DetachedRootSortsLast` | apps/willrogers/public/javascripts/jquery-1.10.2.js:1745-1752 | a detached tree whose root sorts behind its child |
| `DocumentOrder.StrictTotalOrder` | apps/willrogers/public/javascripts/jquery-1.10.2.js:1731-1782 | on any one tree the comparator is a strict total order, also where it is not document order |
| `DocumentOrder.DocumentFirst` | apps/willrogers/public/javascripts/jquery-1.10.2.js:1745-1782 | the nodes of the document come before those of any other tree iff it is the preferred one or one of the two nodes is a root |
| `DocumentOrder.OtherTrees` | apps/willrogers/public/javascripts/jquery-1.10.2.js:1745-1782 | of two other trees an inner node comes before a root, the preferred document decides between inner nodes, and two roots come in the order in which they first stand in the nodes to be sorted |
| `DocumentOrder.UndecidedIsNoOrder` | apps/willrogers/public/javascripts/jquery-1.10.2.js:1777-1782 | between nodes inside detached trees the comparator decides nothing, and so is no order over several trees |
| `DocumentOrder.CompareBelowRoot` | apps/willrogers/public/javascripts/jquery-1.10.2.js:1759-1776 | ancestor lists, first discrepancy and sibling check decide document order below the root |
| `DocumentOrder.DiscrepancyDecides` | apps/willrogers/public/javascripts/jquery-1.10.2.js:1769-1776 | the first entries that differ behind the common ancestors decide the order, also when one list has ended |
| `DocumentOrder.SortOrder` | apps/willrogers/public/javascripts/jquery-1.10.2.js:1731-1782 | the loops compute the comparator |
| `DocumentOrder.SiblingCheck` | apps/willrogers/public/javascripts/jquery-1.10.2.js:1362-1383 | the walk over following siblings finds which of two siblings is first; a missing node is an ancestor and comes first |
| `DocumentOrder.AncestorList` | apps/willrogers/public/javascripts/jquery-1.10.2.js:1759-1767 | the list holds all ancestors, the root first |
| `DocumentOrder.PreorderCovers` | apps/willrogers/public/javascripts/jquery-1.10.2.js:1731-1782 | the reference traversal meets exactly the nodes of the tree |
| `DocumentOrder.PreorderIncreases` | apps/willrogers/public/javascripts/jquery-1.10.2.js:1731-1782 | the reference traversal follows `Before`, so it meets each node once |
| `DocumentOrder.UniqueSort` | apps/willrogers/public/javascripts/jquery-1.10.2.js:1857-1880 | the result is strictly increasing and holds the same set of nodes |
| `DocumentOrder.FindRepeats` | apps/willrogers/public/javascripts/jquery-1.10.2.js:1868-1873 | the first loop lists exactly the positions that repeat their predecessor |
| `DocumentOrder.SpliceRepeats` | apps/willrogers/public/javascripts/jquery-1.10.2.js:1874-1876 | splicing them from the back leaves the list without them |
| `DocumentOrder.KeptStrict` | apps/willrogers/public/javascripts/jquery-1.10.2.js:1868-1877 | a sorted list without adjacent repeats is strictly increasing |
| `Callbacks.CallbackList.ExactlyOnce` | apps/willrogers/public/javascripts/jquery-1.10.2.js:3015-3177 | in a quiet "once memory" list that has fired, the invocations are exactly the additions not removed before their turn, in order of addition, all with the arguments of the first fire |
| `Callbacks.CallbackList.FiresInOrder` | apps/willrogers/public/javascripts/jquery-1.10.2.js:3054-3058 | in a quiet list that can fire again, every fire accepted has begun, in the order of acceptance, those made by running callbacks included |
| `Callbacks.CallbackList.FiresServe` | apps/willrogers/public/javascripts/jquery-1.10.2.js:3040-3064 | in any quiet list in use, all invocations are those of its fires, and each fire has invoked exactly the entries it found or got and that were not removed before their turn, once, in order, with its data, whatever the callbacks did to the list |
| `Callbacks.CallbackList.RemembersLast` | apps/willrogers/public/javascripts/jquery-1.10.2.js:3041 | a list with memory that is in use remembers the arguments of the last fire asked for that has begun |
| `Callbacks.CallbackList.ReplaysLast` | apps/willrogers/public/javascripts/jquery-1.10.2.js:3090-3093 | whatever `add` fired again, whenever in the run and whatever callbacks did, got the arguments of the last fire asked for before it |
| `Callbacks.LastTurn` | apps/willrogers/public/javascripts/jquery-1.10.2.js:3040-3065 | one more fire keeps the record of replays right iff it is asked for or repeats the last one asked for |
| `Callbacks.BalancedCall` | apps/willrogers/public/javascripts/jquery-1.10.2.js:3047-3048 | invoking the next entry keeps the record of the fire in progress exact |
| `Callbacks.BalancedDrop` | apps/willrogers/public/javascripts/jquery-1.10.2.js:3100-3119 | so does removing entries, run or not |
| `Callbacks.BalancedPush` | apps/willrogers/public/javascripts/jquery-1.10.2.js:3086-3089 | so does adding some |
| `Callbacks.CallbackList.Add` | apps/willrogers/public/javascripts/jquery-1.10.2.js:3069-3098 | additions join a running fire, wait for the first one, or start a fire of their own at once with the remembered arguments, whatever callbacks do; callbacks that make no calls are invoked so, they and no others; the account stays exact |
| `Callbacks.CallbackList.Remove` | apps/willrogers/public/javascripts/jquery-1.10.2.js:3100-3119 | every occurrence goes, and of those still to run exactly these, in a running fire too |
| `Callbacks.CallbackList.Splice` | apps/willrogers/public/javascripts/jquery-1.10.2.js:3105-3114 | one splice with its two index corrections changes what is still to run by that occurrence at most |
| `Callbacks.CallbackList.FireWith` | apps/willrogers/public/javascripts/jquery-1.10.2.js:3153-3164 | does nothing unless the list is in use and has not fired or can fire again; waits on the stack during a fire; otherwise starts a fire of the whole list with this data, keeping every record exact, and on a "once memory" list sets the arguments for good; callbacks that make no calls all run, once, in order |
| `Callbacks.CallbackList.Fire` | apps/willrogers/public/javascripts/jquery-1.10.2.js:3040-3065 | the whole fire, with any callbacks adding, removing, firing, locking and disabling, keeps the account and terminates |
| `Callbacks.CallbackList.RunList` | apps/willrogers/public/javascripts/jquery-1.10.2.js:3047-3052 | the loop with its moving bounds ends with nothing left to run; callbacks that make no calls run once each, in order |
| `Callbacks.CallbackList.Conclude` | apps/willrogers/public/javascripts/jquery-1.10.2.js:3053-3064 | after the loop the next waiting fire runs, or the list is emptied, disabled or kept |
| `Callbacks.CallbackList.Begin` | apps/willrogers/public/javascripts/jquery-1.10.2.js:3041-3046 | the state in which the loop starts; with memory the arguments remembered are those of this fire |
| `Callbacks.CallbackList.Finish` | apps/willrogers/public/javascripts/jquery-1.10.2.js:3053-3064 | the state after the loop when no fire waits: emptied with memory, disabled without |
| `Callbacks.CallbackList.Lock` | apps/willrogers/public/javascripts/jquery-1.10.2.js:3141-3147 | locking gives up the stack and keeps list and memory if there is a memory, and disables the list if there is none |
| `Callbacks.CallbackList.Disable` | apps/willrogers/public/javascripts/jquery-1.10.2.js:3132-3135 | list, stack and memory go, and the account stays valid |
| `Callbacks.CallbackList.Perform` | apps/willrogers/public/javascripts/jquery-1.10.2.js:3067-3174 | any call by a running callback has its effect, spelled out for each kind of call, and keeps the account |
| `Callbacks.RemoveDrops` | apps/willrogers/public/javascripts/jquery-1.10.2.js:3100-3119 | removing a function from those waiting is dropping those very additions from the account |
| `Callbacks.WithoutSplice` | apps/willrogers/public/javascripts/jquery-1.10.2.js:3104-3105 | cutting out one occurrence changes nothing once all occurrences are gone |
| `Deferred.SettlesOnce` | apps/willrogers/public/javascripts/jquery-1.10.2.js:3180-3265 | over every execution, re-entrant calls included: once not pending, the state never changes and no new notify starts |
| `Deferred.NeverBoth` | apps/willrogers/public/javascripts/jquery-1.10.2.js:3237-3245 | no execution runs both a done and a fail callback, and all that run get the same arguments |
| `Deferred.RunsAfterSettling` | apps/willrogers/public/javascripts/jquery-1.10.2.js:3239-3244 | a done callback has run only if the Deferred is resolved, a fail callback only if rejected |
| `Deferred.OutcomeListStays` | apps/willrogers/public/javascripts/jquery-1.10.2.js:3237-3245 | the list of the outcome stays in use, and whenever client code runs the other one is disabled |
| `Deferred.PendingAccepts` | apps/willrogers/public/javascripts/jquery-1.10.2.js:3153-3164 | whenever client code runs, resolve and reject are accepted iff the Deferred is pending |
| `Deferred.SettlingRuns` | apps/willrogers/public/javascripts/jquery-1.10.2.js:3040-3065 | from any reachable state, resolving or rejecting a pending Deferred whose callbacks make no calls sets the state, runs every callback attached so far once, in order, with its data, empties the list and returns to the caller |
| `Deferred.SettlingTakes` | apps/willrogers/public/javascripts/jquery-1.10.2.js:3237-3245 | the constructor's own handlers run first: state set, other list disabled, `progress` locked, before any client callback |
| `Deferred.LateCallbacksRun` | apps/willrogers/public/javascripts/jquery-1.10.2.js:3086-3095 | callbacks attached to a settled Deferred run at once, once each, with the data it was settled with |
| `Deferred.RoundsRun` | apps/willrogers/public/javascripts/jquery-1.10.2.js:3047-3052 | k callbacks that call nothing run in list order and change nothing else |
| `Deferred.AlwaysOk` | apps/willrogers/public/javascripts/jquery-1.10.2.js:3180-3265 | every execution keeps the invariant of the three lists, the loops in progress and the history |
| `Deferred.NextOk` | apps/willrogers/public/javascripts/jquery-1.10.2.js:3040-3164 | every single event keeps it: calls by running code, returns of callbacks, steps of the innermost loop |
| `Notifying.NotifyingRuns` | apps/willrogers/public/javascripts/jquery-1.10.2.js:3247-3252 | from any reachable state in which the Deferred is pending and `progress` does not fire, a notify runs every progress callback once, in order, with its data, when they make no calls, and changes nothing else |
| `Notifying.NotifyWaits` | apps/willrogers/public/javascripts/jquery-1.10.2.js:3153-3164 | during a fire of `progress` a notify waits behind those already waiting |
| `Notifying.AllWaitingRun` | apps/willrogers/public/javascripts/jquery-1.10.2.js:3054-3058 | when the loop ends, all notifies that wait run over all progress callbacks, in the order in which they were asked for |
| `Notifying.LateProgressRuns` | apps/willrogers/public/javascripts/jquery-1.10.2.js:3086-3095 | callbacks attached to `progress` after a notify, the Deferred pending or settled, run at once with the data of the last notify |
| `Notifying.NotifiedAlways` | apps/willrogers/public/javascripts/jquery-1.10.2.js:3041 | over every execution `progress` remembers exactly the last notify that began |
| `Attaching.AttachedRan` | apps/willrogers/public/javascripts/jquery-1.10.2.js:3040-3098 | over every execution, whatever callbacks do: when the list of the outcome is not firing, exactly the callbacks attached have run, once each, in the order of attachment |
| `Attaching.RanAreAttached` | apps/willrogers/public/javascripts/jquery-1.10.2.js:3040-3098 | at any time the done callbacks that have run are the first of those attached, in order; so with the fail callbacks |
| `Attaching.ProgressAttached` | apps/willrogers/public/javascripts/jquery-1.10.2.js:3069-3098 | while the Deferred is pending `progress` holds exactly the callbacks attached, in order |
| `Attaching.AttachedNext` | apps/willrogers/public/javascripts/jquery-1.10.2.js:3040-3164 | every single event keeps what has run and what is still to run together equal to what was attached |
| `When.Waiter.MasterIsRight` | apps/willrogers/public/javascripts/jquery-1.10.2.js:3268-3317 | the master is resolved iff every Deferred argument is, and then holds at each position the plain argument, the one value its Deferred was resolved with, the list of several, or `undefined` for none; it is rejected iff some argument is, with the arguments of such a one |
| `When.Waiter.constructor` | apps/willrogers/public/javascripts/jquery-1.10.2.js:3268-3313 | holds after the call for any mix of plain, pending and settled arguments, none or one included; of several already rejected the first decides |
| `When.Waiter.Settle` | apps/willrogers/public/javascripts/jquery-1.10.2.js:3279-3290 | holds after any Deferred settles, at whichever positions it stands, also when other callbacks, between ours or in the middle, settle further Deferreds; a settled master never changes, and a pending one is rejected at once with the arguments of this Deferred, if nothing settles in between |
| `When.Waiter.Listen` | apps/willrogers/public/javascripts/jquery-1.10.2.js:3294-3309 | the loop has heard of every argument, `remaining` is the number of positions not accounted for, and the first rejected argument has decided |
| `When.Waiter.Tell` | apps/willrogers/public/javascripts/jquery-1.10.2.js:3280-3290 | one position is told once: its value is stored there, and the master is resolved when it was the last |
| `When.OpenUpdate` | apps/willrogers/public/javascripts/jquery-1.10.2.js:3286 | counting down by one is accounting for one position |
| `DataIds.NoSharing` | apps/willrogers/public/javascripts/jquery-1.10.2.js:3594-3608 | in a safe store no two elements share an id and no free id is in use |
| `DataIds.AllocateSafe` | apps/willrogers/public/javascripts/jquery-1.10.2.js:3594-3608 | giving out an id, reused or new, keeps the store safe and everyone else's id |
| `DataIds.AllocateExact` | apps/willrogers/public/javascripts/jquery-1.10.2.js:3594-3608 | an element keeps its id; a new one gets an empty record and the id freed last, or if there is none a new one |
| `DataIds.StoredExact` | apps/willrogers/public/javascripts/jquery-1.10.2.js:3594-3634 | storing sets the one thing named in the record of that element and touches no other |
| `DataIds.DataRemovedExact` | apps/willrogers/public/javascripts/jquery-1.10.2.js:3720-3733 | `removeData` leaves a record with handlers of special or ordinary events as it is but for the data, and else frees it and its id |
| `DataIds.UnboundExact` | apps/willrogers/public/javascripts/jquery-1.10.2.js:4903-4918 | unbinding a type leaves the other types, the handlers and the data; the record and its id go iff nothing is left |
| `DataIds.DropFirst` | apps/willrogers/public/javascripts/jquery-1.10.2.js:4907 | exactly the first occurrence of the type goes |
| `DataIds.ReleaseSafe` | apps/willrogers/public/javascripts/jquery-1.10.2.js:6692-6711 | taking an id back keeps the store safe iff a record found under it is still this element's |
| `DataIds.StolenIdIsShared` | apps/willrogers/public/javascripts/jquery-1.10.2.js:6672-6711 | the states of a run in which the hook of an element being cleaned cleans it too and stores data for another: afterwards two elements share an id |
| `DataIds.Store.IdsAreDistinct` | apps/willrogers/public/javascripts/jquery-1.10.2.js:3594-3608 | the same for the running store, as long as no hook let an id be stolen |
| `DataIds.Store.Find` | apps/willrogers/public/javascripts/jquery-1.10.2.js:3586-3608 | finds or makes the record of an element and takes no id from anyone |
| `DataIds.Store.RemoveData` | apps/willrogers/public/javascripts/jquery-1.10.2.js:3720-3733 | the data goes, and the record with it, its id free again, if no handlers are left; nothing else changes |
| `DataIds.Store.CleanData` | apps/willrogers/public/javascripts/jquery-1.10.2.js:6664-6715 | any run over any elements, re-entered from hooks, keeps the store safe when the hooks, which may store, bind, forget and clean, clean only elements that have no special events and get none from hooks, or never store or bind; with idle hooks, or elements without special events, it frees exactly the elements' records, in order |
| `DataIds.Store.RunHook` | apps/willrogers/public/javascripts/jquery-1.10.2.js:4903-4905 | a hook runs while its type is still bound and is put on record; all it does is done; such hooks leave every element with special events its id and its events |
| `DataIds.CleaningKeepsEvents` | apps/willrogers/public/javascripts/jquery-1.10.2.js:6672-6711 | cleaning elements without special events touches no element that has some |
| `DataIds.ShrinkingHolds` | apps/willrogers/public/javascripts/jquery-1.10.2.js:6692-6711 | when ids only go, a record found under an id is still its first owner's |
| `DataIds.CleanedAllFrees` | apps/willrogers/public/javascripts/jquery-1.10.2.js:6672-6711 | cleaning a list of elements leaves each of them without an id and every other element with its own |
| `DataIds.Store.Data` | apps/willrogers/public/javascripts/jquery-1.10.2.js:3594-3634 | finds or makes the record and stores exactly that value or event type in it |
| `DataIds.Store.CleanOne` | apps/willrogers/public/javascripts/jquery-1.10.2.js:6672-6713 | after one turn with such hooks the element has no id and its record is gone |
| `DataIds.Store.UnbindAll` | apps/willrogers/public/javascripts/jquery-1.10.2.js:6680-6690 | for every special type the element had its hook has been run, when hooks do nothing exactly these, once each, in order |
| `DataIds.Store.EventRemove` | apps/willrogers/public/javascripts/jquery-1.10.2.js:4853-4918 | the hook runs first; then exactly that type goes and, with the last handler, a record without data and its id, once |
| `DataIds.Store.Finish` | apps/willrogers/public/javascripts/jquery-1.10.2.js:6692-6711 | the end of a turn is `Release`, and an id is stolen iff the record found is not the element's |
| `EventHandlers.HandlerList.Add` | apps/willrogers/public/javascripts/jquery-1.10.2.js:4832-4837 | the list stays: delegated handlers in order of addition, then direct ones in order of addition, with the count as boundary |
| `EventHandlers.HandlerList.Remove` | apps/willrogers/public/javascripts/jquery-1.10.2.js:4880-4898 | the same, with exactly the matching handlers gone |
| `EventHandlers.HandlerList.Strip` | apps/willrogers/public/javascripts/jquery-1.10.2.js:4881-4898 | the loop from the back removes exactly the matching handlers and counts the delegated ones right |
| `EventHandlers.HandlerList.Cut` | apps/willrogers/public/javascripts/jquery-1.10.2.js:5115-5161 | the cut at the count separates the two kinds |
| `EventHandlers.UnmatchedOfKind` | apps/willrogers/public/javascripts/jquery-1.10.2.js:4880-4898 | removing and separating by kind commute |
| `EventHandlers.UnmatchedKeeps` | apps/willrogers/public/javascripts/jquery-1.10.2.js:4883-4886 | a handler goes iff its type, function, namespaces and selector are those asked for, where asked for, `**` standing for any delegated one; every other one stays, as often as it was there |
| `EventHandlers.KindsKeep` | apps/willrogers/public/javascripts/jquery-1.10.2.js:4832-4837 | delegated are exactly the handlers with a selector |
| `Sorting.AnyDescendingIsRight` | apps/willrogers/public/javascripts/slick.dataview.js:157-171 | reverse, any stable ascending sort, reverse gives a permutation in non-increasing order in which equal items keep their order, for any total preorder |
| `Sorting.SortIsAnyStableSort` | apps/willrogers/public/javascripts/slick.dataview.js:186-187 | a list is an ascending, stable rearrangement of another iff it is what `Sort` returns: there is only one |
| `Sorting.SortTies` | apps/willrogers/public/javascripts/slick.dataview.js:186-187 | elements that compare equal come out in the order of any rank they had |
| `Sorting.SortStable` | apps/willrogers/public/javascripts/slick.dataview.js:186-187 | elements that compare equal keep their order |
| `Sorting.SortAscending` | apps/willrogers/public/javascripts/slick.dataview.js:164 | the result is in ascending order for any total preorder |
| `Sorting.SortMembers` | apps/willrogers/public/javascripts/slick.dataview.js:164 | the result is a permutation for any comparer |
| `GroupKeys.SplitJoin` | apps/willrogers/public/javascripts/slick.dataview.js:442-450 | splitting a key gives back the values it was joined from iff no value contains the delimiter and none but the last ends in `:|` |
| `GroupKeys.KeysAreInjective` | apps/willrogers/public/javascripts/slick.dataview.js:488 | keys of such paths are equal only for equal paths |
| `GroupKeys.TargetOfGroup` | apps/willrogers/public/javascripts/slick.dataview.js:442-466 | `collapseGroup` and `expandGroup` find a group, by key and by path, at its own level |
| `GroupKeys.TargetIs` | apps/willrogers/public/javascripts/slick.dataview.js:442-466 | one argument is read as a key whose level is that of the path it splits into, several as a path, whatever they contain |
| `GroupKeys.FirstDelimiter` | apps/willrogers/public/javascripts/slick.dataview.js:445-446 | the first delimiter behind a value is the one put there iff the value neither contains one nor ends in `:|` |
| `GroupKeys.WrongSplit` | apps/willrogers/public/javascripts/slick.dataview.js:69 | a key that splits in the wrong place |
| `Grouping.ExtractGroups` | apps/willrogers/public/javascripts/slick.dataview.js:472-520 | throws iff some row has the name of an inherited property for a value, at any level; otherwise at every depth exactly one group for each value predefined (and not inherited) or occurring, with exactly the rows of that value in order, `count` right, key joined from the path, groups in the comparer's order and, where that is equal, in the order in which the values are met |
| `Grouping.HandOut` | apps/willrogers/public/javascripts/slick.dataview.js:481-508 | the two loops fail iff a row's value is inherited; otherwise each group holds exactly the rows of its value, in the order in which the values are met |
| `Grouping.GroupableByGroup` | apps/willrogers/public/javascripts/slick.dataview.js:510-515 | the rows can be grouped further iff those of every group can |
| `Grouping.AddTotals` | apps/willrogers/public/javascripts/slick.dataview.js:561-587 | the loop from the back computes `Marked` for every group, subgroups first; what that is, `Layout.AllMarked` says |
| `Grouping.FlattenGroupedRows` | apps/willrogers/public/javascripts/slick.dataview.js:589-609 | the loop lays out header, inside unless collapsed, and totals row of every group |
| `Grouping.SortGroups` | apps/willrogers/public/javascripts/slick.dataview.js:517 | sorting the groups keeps them the groups of the rows |
| `Grouping.TiesAsMet` | apps/willrogers/public/javascripts/slick.dataview.js:481-517 | groups that compare equal stand in the order of the predefined values, and behind those in that of the first rows with their values |
| `Grouping.InheritedCannotBeGrouped` | apps/willrogers/public/javascripts/slick.dataview.js:494-508 | a row with a value such as `constructor`, at any level, makes grouping throw |
| `Layout.AllMarked` | apps/willrogers/public/javascripts/slick.dataview.js:561-587 | each group after `addTotals`: collapsed iff the default and its toggle say so, with totals iff there are aggregators and rows, subgroups or `aggregateEmpty`, its title the formatter's of the group as it then stands or else its value, and so its subgroups; nothing else changes |
| `Layout.LayoutIsExact` | apps/willrogers/public/javascripts/slick.dataview.js:472-609 | directly under the headers of each path stand, in order, the headers of its subgroups or its rows unless it is collapsed, then its totals row iff it has totals and they are to be shown; nothing if there is no such group or one above is collapsed |
| `Layout.StandsInGroups` | apps/willrogers/public/javascripts/slick.dataview.js:561-609 | the same from any level on; the group of a path exists iff each value on it is predefined or occurs among the rows with the values before, and shows those rows |
| `Layout.FlattenUnder` | apps/willrogers/public/javascripts/slick.dataview.js:589-609 | reading the flat list back by headers and totals rows finds for each path the contents of its group |
| `Layout.EachGroupRow` | apps/willrogers/public/javascripts/slick.dataview.js:561-609 | every header and totals row displayed stands for a group of the page, with its rows, count, key, collapse state, title and totals right, none above it collapsed |
| `Display.DisplayIsExact` | apps/willrogers/public/javascripts/slick.dataview.js:472-609 | under the headers of a path the flat list shows exactly the rows with those values, in order, and nothing if a group on the way is collapsed |
| `Display.LeavesPartition` | apps/willrogers/public/javascripts/slick.dataview.js:494-515 | at any depth the leaf groups together hold the rows they were made from, each as often |
| `Display.FlattenShows` | apps/willrogers/public/javascripts/slick.dataview.js:589-609 | reading the flat list back by its headers finds the leaf of each path |
| `Display.MarkedLeaves` | apps/willrogers/public/javascripts/slick.dataview.js:561-587 | after `addTotals` the leaf of a path shows iff no group on the way is collapsed by default and toggle |
| `Display.EachUnderItsHeaders` | apps/willrogers/public/javascripts/slick.dataview.js:561-609 | each data row displayed is one of the rows given and stands under the headers of its own values at every level, none of them collapsed |
| `Display.FlattenDeep` | apps/willrogers/public/javascripts/slick.dataview.js:589-609 | no data row stands under fewer headers than there are levels |
| `Collapse.LastOperationWins` | apps/willrogers/public/javascripts/slick.dataview.js:404-434 | after any run of collapse and expand operations, a group is collapsed iff the latest one that named it or its level asked for that |
| `Collapse.ApplyShown` | apps/willrogers/public/javascripts/slick.dataview.js:404-434 | one operation decides about the groups it names and no others |
| `Collapse.ExpandCollapseAll` | apps/willrogers/public/javascripts/slick.dataview.js:404-415 | the loop resets toggles and defaults of the levels named |
| `Filtering.NarrowingIsExact` | apps/willrogers/public/javascripts/slick.dataview.js:734-735 | filtering the last result gives the plain filter iff every item that passes now passed then |
| `Filtering.ExpandingIsExact` | apps/willrogers/public/javascripts/slick.dataview.js:736-737 | filtering with the cache gives the plain filter iff the cache marks only items that pass |
| `Filtering.UnchangedIsExact` | apps/willrogers/public/javascripts/slick.dataview.js:738-740 | keeping the last result gives the plain filter iff the same items pass |
| `Filtering.UncompiledFilter` | apps/willrogers/public/javascripts/slick.dataview.js:701-711 | the loop keeps exactly the items that pass, in order |
| `Filtering.UncompiledFilterWithCaching` | apps/willrogers/public/javascripts/slick.dataview.js:713-727 | the loop trusts the cache and adds exactly the positions that pass |
| `IdIndex.UpdateIdxById` | apps/willrogers/public/javascripts/slick.dataview.js:100-110 | re-indexing from a position; fails iff an item from there on has no id |
| `IdIndex.EnsureIdUniqueness` | apps/willrogers/public/javascripts/slick.dataview.js:112-120 | passes iff every item is indexed at its own position |
| `IdIndex.UniquenessIsDistinctness` | apps/willrogers/public/javascripts/slick.dataview.js:132-133 | after indexing from scratch that is so iff all ids are distinct |
| `IdIndex.IndexFromOk` | apps/willrogers/public/javascripts/slick.dataview.js:100-110 | re-indexing a changed tail restores the index if the rest is right |
| `IdIndex.InsertIndexed` | apps/willrogers/public/javascripts/slick.dataview.js:339-349 | inserting within the list or at its end keeps the index exact |
| `IdIndex.InsertBeyond` | apps/willrogers/public/javascripts/slick.dataview.js:339-343 | inserting behind the end does not |
| `IdIndex.DeleteIndexed` | apps/willrogers/public/javascripts/slick.dataview.js:351-360 | deleting keeps the index exact |
| `IdIndex.UpdateIndexed` | apps/willrogers/public/javascripts/slick.dataview.js:327-331 | replacing an item under its own id keeps the index exact |
| `IdIndex.CutUnindexed` | apps/willrogers/public/javascripts/slick.dataview.js:351-360 | cutting the first item without touching the index, as for an inherited name, leaves it exact iff there was none |
| `IdIndex.PermutationIndexed` | apps/willrogers/public/javascripts/slick.dataview.js:157-171 | indexing any permutation from scratch is exact |
| `RowDiffs.GetRowDiffs` | apps/willrogers/public/javascripts/slick.dataview.js:762-799 | reports, in order and once, exactly the rows in range that are new or differ |
| `RowDiffs.ReportIsExact` | apps/willrogers/public/javascripts/slick.dataview.js:762-799 | a row is reported iff the hints do not exclude its index and there was none at it or one not taken for the same; two data rows with one id are, two headers with the same value, count, state and title are, unless marked as updated; with grouping totals rows never are |
| `RowDiffs.UnchangedRowsSame` | apps/willrogers/public/javascripts/slick.dataview.js:762-799 | refreshing rows in which nothing was updated, grouped or not, reports totals rows at most |
| `RowDiffs.UnreportedIsSame` | apps/willrogers/public/javascripts/slick.dataview.js:783-793 | a row that does not differ is the same up to `Group.equals`, if contents change only for updated ids |
| `RowDiffs.MirrorStaysTrue` | apps/willrogers/public/javascripts/slick.dataview.js:822-858 | a mirror redrawn only where reported shows the new rows, if nothing is ignored |
| `Sessions.Perform` | apps/willrogers/public/javascripts/slick.dataview.js:83-863 | whatever a fair client does, suspended or not: the id index is exact, the filter result is the plain filter's, the mirror shows the rows, after a refresh the rows are what the settings make of the items, and the operation succeeds unless it names a level or an id that does not exist; fair is what a client can see to: honest hints, distinct ids that can be indexed, contents changed through `updateItem`, positions in the list, nothing grouped by an inherited name, rows kept apart from the items; each operation has exactly its effect on items, filter, hints, grouping, page and suspension, and one that fails changes nothing |
| `Sessions.PerformByRule` | apps/willrogers/public/javascripts/slick.dataview.js:83-863 | for the last, a rule is enough: no `isFilterUnchanged` for a refresh that follows one without a filter; following it keeps everything in order and the rule enough, over any run |
| `Sessions.Start` | apps/willrogers/public/javascripts/slick.dataview.js:51-80 | the first item of a new view is fair |
| `Sessions.TypeAhead` | apps/willrogers/public/javascripts/slick.dataview.js:701-746 | a run with hints: narrowing, expanding, and expanding again on the cache, gives the plain filter each time |
| `Sessions.Refilter` | apps/willrogers/public/javascripts/slick.dataview.js:92-98 | new filter arguments with an honest hint: after the refresh the next hint is about what is shown now |
| `SharedRows.AddToShared` | apps/willrogers/public/javascripts/slick.dataview.js:345-349 | when the rows are the array of the items, adding an item leaves the mirror true iff the filter rejects it |
| `SharedRows.InsertIntoShared` | apps/willrogers/public/javascripts/slick.dataview.js:339-343 | so does inserting one, at any position |
| `SharedRows.DeleteFromShared` | apps/willrogers/public/javascripts/slick.dataview.js:351-360 | deleting an item never leaves it true |
| `SharedRows.SortShared` | apps/willrogers/public/javascripts/slick.dataview.js:157-171 | sorting leaves it true iff it changes nothing |
| `SharedRows.UpdateShared` | apps/willrogers/public/javascripts/slick.dataview.js:327-337 | an update always leaves it true |
| `SharedRows.StaleMirror` | apps/willrogers/public/javascripts/slick.dataview.js:738-756 | a session with honest hints in which, for any items, a new one is shown and the mirror never hears of it |
| `Paging.OptionsFit` | apps/willrogers/public/javascripts/slick.dataview.js:137-150 | options given for a page size leave the page within the rows counted last; the page becomes `NaN` iff a page is asked for without a page size and without rows, or was |
| `Paging.OptionsExact` | apps/willrogers/public/javascripts/slick.dataview.js:137-150 | a page asked for that begins within the rows counted last is taken, a later one gives way to the last; without rows that is the first; negative pages are taken; a new page size asks for the page there was |
| `Paging.PageNumberFits` | apps/willrogers/public/javascripts/slick.dataview.js:751-753 | a refresh never shows a page behind the end, and leaves alone any page that is not |
| `Paging.PageNumberLast` | apps/willrogers/public/javascripts/slick.dataview.js:751-753 | a page behind the end gives way to the last that does not begin behind it |
| `Paging.PageShows` | apps/willrogers/public/javascripts/slick.dataview.js:750-757 | a page shows the items at its positions, as many as there are |
| `Paging.PageBeforeFirst` | apps/willrogers/public/javascripts/slick.dataview.js:750-757 | a negative page counts from the end of the rows, one page too far |
| `Paging.LostPage` | apps/willrogers/public/javascripts/slick.dataview.js:137-146 | once `NaN`, the page stays so for any page size, and shows nothing |
| `DataView.View.Refresh` | apps/willrogers/public/javascripts/slick.dataview.js:829-859 | a refresh displays the settings at the page asked for or the last one not behind the end, redraws the mirror from the differences, keeps filter state and mirror under honest hints, says which arrays are one afterwards, and leaves the next hint to be about this filter; it does nothing while suspended, and throws after filtering iff the page cannot be grouped |
| `DataView.View.ChangeInPlace` | apps/willrogers/public/javascripts/slick.dataview.js:157-171 | a change of the items in place is one of every array that is the same |
| `DataView.View.Recalc` | apps/willrogers/public/javascripts/slick.dataview.js:801-827 | rows, total and page after one recalculation; the page is never behind the end, so `refresh` needs no second one |
| `DataView.View.GetFilteredAndPagedItems` | apps/willrogers/public/javascripts/slick.dataview.js:729-760 | under honest hints the filtered items are the plain filter of all items and the cache stays sound; they are the array of the items iff there is paging and no filter, or an unchanged one kept them |
| `DataView.ApplyFilter` | apps/willrogers/public/javascripts/slick.dataview.js:730-746 | the exact result and cache for all hints, honest or not; the branch chosen gives the plain filter when they are honest or absent |
| `DataView.Arrange` | apps/willrogers/public/javascripts/slick.dataview.js:813-820 | the rows show the page under groups, headers and collapse state, with everything that belongs to a path in its place; it fails iff the page cannot be grouped |
| `DataView.View.EndUpdate` | apps/willrogers/public/javascripts/slick.dataview.js:87-90 | the one refresh catches up with everything done while suspended |
| `DataView.View.SetFilter` | apps/willrogers/public/javascripts/slick.dataview.js:209-216 | the new filter is shown, under hints honest about it |
| `DataView.View.SetPaging` | apps/willrogers/public/javascripts/slick.dataview.js:137-150 | the options are taken with their clamping, then shown |
| `DataView.View.SetGrouping` | apps/willrogers/public/javascripts/slick.dataview.js:222-247 | new levels, no toggles, rows regrouped |
| `DataView.View.ExpandCollapseGroup` | apps/willrogers/public/javascripts/slick.dataview.js:431-466 | the collapse state changes by exactly that operation; a level that does not exist changes nothing |
| `DataView.View.ExpandCollapseAllGroups` | apps/willrogers/public/javascripts/slick.dataview.js:404-429 | the collapse state changes by exactly that operation |
| `DataView.View.SetItems` | apps/willrogers/public/javascripts/slick.dataview.js:126-135 | succeeds iff all ids are there, can be indexed and are distinct, and then indexes and shows the items |
| `DataView.View.InsertItem` | apps/willrogers/public/javascripts/slick.dataview.js:339-343 | the item is at its place; for a new id that can be indexed the index stays exact iff the position is within the list; a negative one throws after the change |
| `DataView.View.AddItem` | apps/willrogers/public/javascripts/slick.dataview.js:345-349 | the item is at the end, indexed if its id is new |
| `DataView.View.UpdateItem` | apps/willrogers/public/javascripts/slick.dataview.js:327-337 | replaces exactly the item of that id and marks it updated; throws iff the id is not the item's own or is found nowhere; for an inherited name that is no id, only marks it |
| `DataView.View.DeleteItem` | apps/willrogers/public/javascripts/slick.dataview.js:351-360 | removes exactly the item of that id; throws iff it is found nowhere; for an inherited name that is no id the first item goes, and the index stays exact iff there was none |
| `DataView.View.SortItems` | apps/willrogers/public/javascripts/slick.dataview.js:157-171 | the items are sorted stably, the index exact again |

## Left out

- Sizzle's tokenizer and selector lexing, `querySelectorAll` shortcuts, feature detection and the old-browser branches other than the fallback comparator (also `sourceIndex` in `siblingCheck`, and `compareDocumentPosition`): browser behaviour that the repository does not show.
- Positional pseudo-classes, `setMatcher` and nested selectors such as `:not` and `:has`: a nested run does not advance `cachedruns` per element. A simple selector is any predicate on nodes, an attribute or class test being one.
- The parsing of `an+b` arguments (`apps/willrogers/public/javascripts/jquery-1.10.2.js:1951-1980`): the filter is modelled for all integers `a` and `b`.
- The lookup of candidates by tag, `expandContext` and the compiler cache: candidates are any list of nodes of the tree.
- The `expando` slots are maps from nodes to entries; that they live in one object per node shared by `addCombinator` and `CHILD` under different names is not modelled.
- The `unique` and `stopOnFalse` options of `Callbacks`, and `empty`: they change what "exactly once" means. `add` takes functions only, its arrays already flattened.
- A callback that throws: `fire` then never lowers `firing`, so every later fire of a repeatable list waits for good.
- Callbacks.CallbackList.Fire: of a fire in whose middle the list is disabled it states that its invocations are on record, and not which entries they left out.
- Callbacks.CallbackList.Perform: a running callback's calls go to its own list; calls on other lists are left to `Deferred`, where any list may be called from any callback.
- `Deferred.Machine`: the three lists are records in a machine state, not three objects of the class `CallbackList`; the steps on them are the same functions (`CallbackState`) that the class is proved against. `then`, `always`, `pipe` and `promise` only build on `done`, `fail` and `progress`.
- `When.Waiter`: the contexts and the progress values are left out, and the Deferreds among the arguments are given by their outcomes, which settle at most once as `Deferred.SettlesOnce` shows. A foreign object with a `promise` method is taken to behave so too. A single Deferred argument is its own master, and nothing is stated about it.
- Data of plain objects, elements that accept no data, and the values stored: `DataIds` follows who holds which id. Handlers of ordinary event types count as present or not; binding and unbinding them is only what `cleanData` and `removeData` see of it.
- `special.remove` hooks, which `event.remove` calls inside its loop over the handlers and which may enter that loop again; the hooks in `DataIds` are `teardown` hooks, run once a type has lost its handlers.
- DataIds.Store.CleanData: the exact store afterwards, and which hooks were run, is stated when hooks do nothing or no element has special events; for other hooks it is safety, under the two conditions on what they do, and, for one element, that each of its types had its hook run if hooks clean only elements without special events. Hooks that unbind types are not modelled, nor that a hook which cleans the element being cleaned and binds on it again leaves the loop with the old events object.
- Dispatch of delegated handlers along the bubbling path: `EventHandlers.HandlerList.Cut` stops where the two kinds are told apart.
- Array.prototype.sort is taken to be stable, which `apps/willrogers/public/javascripts/slick.dataview.js:187` names as the assumption; with a comparer that is no total preorder only the permutation is stated.
- Groups, rows and items are values, and the arrays of `DataView` sequences; of arrays that are one, `items`, `filteredItems` and `rows` are followed. The array given to `setItems` is taken to be the client's no longer, and not the one already there.
- Grouping values are strings; values of other types that become the same key are not modelled.
- The numbers in totals, aggregators, lazy totals, `aggregateChildGroups` and the compiled accumulators: only whether a group has totals is modelled.
- `compileFilter` and its caching form rewrite the filter's source text; `fastSort` overrides `Object.prototype.toString`; `reSort` and `groupBy` only call what is modelled.
- Page sizes are whole numbers from zero; that the page number stays below the number of pages is not claimed: the code can rest on the empty page behind the last.
- DataView.View.UpdateItem: an index that points outside the items, possible only after duplicate ids, is treated as an unknown id; so it is in `DeleteItem`. The inherited names are those of `Object.prototype` in ECMAScript 5 and the usual accessors.
- Collapse.ExpandCollapseAll: for a level that does not exist the source also leaves an unused toggle map behind before it throws; nothing reads it.
- The id property is `id`; `rowsById`, selection and cell style synchronisation, and the paging event are left out; the row count event is there only as what makes a listener resize its mirror.
- Names are lower-cased as ASCII; element names are compared without their namespaces.
- Integers are unbounded, where the source has doubles; the only double modelled as such is a page number that is `NaN`.

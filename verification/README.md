# Verified models of the workflow editor and its libraries

The workflow editor (`handywedge-wf-editor`) is a browser program that draws status nodes and links on tabs and numbers
them. It carries complete copies of lodash 3.10.1, jQuery 2.2.4 and Backbone 1.3.3, and the difficult algorithms are in
those. This project models the algorithms in Dafny and proves what they promise: for every input, every run or every
reachable state. `dafny verify dfyconfig.toml` checks all of it.

Code that computes by expressions is modelled by functions. Code that works by updating variables, arrays or objects is
modelled by methods and classes whose contracts tie the new state to a specification function, and the promises are
lemmas about that function. Code that calls back into itself (callback lists, deferreds, event dispatch, nested `set`)
is a machine of explicit steps, in which the steps of user code may come wherever the source lets user code run.

| file | what it models |
|---|---|
| `Selectors.dfy`, `Sizzle.dfy` | what selectors mean on a tree, and matching them with combinator caches on the nodes |
| `LazySequence.dfy`, `LazyMeaning.dfy`, `LazyShapes.dfy` | lodash chains compiled to views, direction, iteratees and a take count, and exactly which shapes of chains the fused loop evaluates faithfully |
| `ObjectGraph.dfy`, `DeepClone.dfy`, `DeepEqual.dfy` | deep cloning and deep comparison of shared and cyclic objects |
| `Callbacks.dfy`, `CallbackPass.dfy`, `CallbackLocks.dfy` | jQuery callback lists, one firing pass, and what a lock prevents |
| `Deferreds.dfy`, `DeferredEnds.dfy`, `DeferredProgress.dfy`, `DeferredObjects.dfy` | the promise protocol on three such lists, as a machine, the end of its firings, its progress notifications, and the object |
| `Debounce.dfy`, `DebounceTiming.dfy` | `debounce` and `throttle` with their two timers, and when they run a call |
| `PartialArgs.dfy`, `PartialSides.dfy` | partial arguments with placeholders, merging nested ones, and partials on both sides |
| `Numerals.dfy`, `SetOperations.dfy` | the hash cache for `uniq`, `difference` and `intersection`, down to the text of numbers used as keys |
| `Ordering.dfy`, `BinarySearch.dfy`, `MultiSort.dfy` | the sort order of lodash, its binary searches, and sorting by several criteria |
| `EventLinks.dfy`, `EventHandlers.dfy` | Backbone listener bookkeeping, and the handlers that each call leaves |
| `EventTrigger.dfy`, `EventRuns.dfy`, `EventBindings.dfy` | Backbone event dispatch, step by step and over whole runs |
| `ModelChanges.dfy`, `ModelEvents.dfy`, `ModelAnnouncements.dfy`, `ModelObjects.dfy` | Backbone `Model.set`: change tracking, events of nested calls, what handlers are told, and the object |
| `Collections.dfy` | Backbone `Collection.set`: the ordered list and its index |
| `WorkflowCodes.dfy` | numbering and editing of status and action codes across tabs |
| `Options.dfy`, `Lists.dfy` | the optional value and the list function shared by the others |

## Where the code falls short

Some of the promises hold only under a condition. The code is modelled as it is; the first lemma named shows an input for
which the promise fails, the second gives the exact condition.

- Lazy chains of some shapes lose or misplace a step: `LazyMeaning.RefusedCallsFail`, `LazyShapes.ShapeExact`. For the
  single calls: `takeRight` on a filtered chain (`LazyMeaning.TakeRightExact`), a `filter` behind a `take`
  (`FilterWhenLimitedExact`), a second `drop` (`DropTwiceExact`).
- A callback list with memory that has been locked is unlocked by the next `add`, which replays the memory:
  `CallbackLocks.LockUndone`, `CallbackLocks.LockLastsExact`. So a settled deferred may pass on later notifications:
  `DeferredProgress.NotifiedLate`, `DeferredProgress.NotifyExact`.
- Deep comparison of cyclic data tells some indistinguishable values apart: `DeepEqual.UnrolledCycleDiffers`,
  `DeepEqual.EqualExact`.
- `debounce` with `leading`, `trailing` and a `maxWait` longer than `wait` can drop a call: `Debounce.LossyRun`,
  `Debounce.DropsNoCall`.
- Merging nested partial arguments swallows or misplaces arguments when the outer ones do not fill the inner
  placeholders, `PartialArgs.UncoveredDiffers`, `PartialArgs.MergeExact`, or when inner left and outer right partials
  compete, `PartialSides.SidesCompete`, `PartialSides.SidesCommuteExact`.
- `uniq` with an iteratee keeps several elements of key NaN in small arrays, one in large ones:
  `SetOperations.NaNKeysKept`, `SetOperations.LinearUniqExact`.
- Sorting with a NaN criterion uses an inconsistent comparison: `MultiSort.NaNAfterItself`, `MultiSort.ConsistentExact`.
- `Model.set` with `unset` and values other than undefined records a wrong difference:
  `ModelChanges.UnsetWithValueFails`, `ModelChanges.RecordExact`.
- A model that takes the id of another member breaks the index of the collection: `Collections.TakenIdFails`,
  `Collections.RekeyedExact`.

## Model

| member | source | states |
|---|---|---|
| `Sizzle.Engine.Select` | handywedge-wf-editor/lib/jquery.js:2140-2432 | whatever caches earlier runs left on the nodes, a query returns exactly the elements that are subjects of some group of the selector in the sense of section 8 of Selectors Level 3, in the order given |
| `Sizzle.Engine.SuperMatcher` | handywedge-wf-editor/lib/jquery.js:2396-2432 | one run over the elements appends those that some compiled matcher accepts by the uncached walk; the new run number makes every older entry stale |
| `Sizzle.Engine.Match` | handywedge-wf-editor/lib/jquery.js:2140-2210 | a compiled matcher answers as the uncached recursive walk does, from any truthful cache, and leaves the cache truthful |
| `Sizzle.Engine.MatchCached` | handywedge-wf-editor/lib/jquery.js:2156-2194 | the memoised walk of a descendant or general-sibling combinator, with one entry shared by the nodes it passes, gives the answer of the plain walk |
| `Sizzle.Engine.Probe` | handywedge-wf-editor/lib/jquery.js:2183-2191 | putting the shared entry on a node and asking the inner matcher keeps every other entry truthful, although the inner matcher writes caches too |
| `Sizzle.Engine.MatchUncached` | handywedge-wf-editor/lib/jquery.js:2161-2168 | the walk used for XML documents gives the answer of the plain walk |
| `Sizzle.Engine.MatchClosest` | handywedge-wf-editor/lib/jquery.js:2145-2153 | a child or adjacent-sibling combinator stops at the closest eligible node |
| `Sizzle.Engine.AddCombinator` | handywedge-wf-editor/lib/jquery.js:2140-2143 | every compiled combinator gets a name of its own, above the names inside it |
| `Sizzle.Engine.ContextMatcher` | handywedge-wf-editor/lib/jquery.js:2335-2357 | the foundational matcher means: reachable from the context, or no check for a nested or XML run without a leading combinator |
| `Sizzle.Engine.MatcherFromTokens` | handywedge-wf-editor/lib/jquery.js:2335-2391 | the compiled matcher of a token list accepts an element exactly when it is a subject of the list, in every scope |
| `Sizzle.Engine.Compile` | handywedge-wf-editor/lib/jquery.js:2504-2530 | the groups of a selector are compiled last first, each to a matcher that means its group |
| `Sizzle.WalkIsReached` | handywedge-wf-editor/lib/jquery.js:2145-2196 | the walk succeeds exactly when some node on its axis, or only the closest eligible one, satisfies the inner matcher |
| `Sizzle.ReachedStep` | handywedge-wf-editor/lib/jquery.js:2145-2196 | the nodes reached from an element in terms of those reached from its neighbour |
| `Sizzle.ReachedIsRelated` | handywedge-wf-editor/lib/jquery.js:1552-1557 | the walks of the four combinators reach exactly the ancestors, the parent, the preceding siblings and the adjacent one, said in terms of the nodes alone |
| `Sizzle.WalkIsRelated` | handywedge-wf-editor/lib/jquery.js:2145-2196 | the walk of a combinator succeeds exactly when some node in its relation satisfies the inner matcher |
| `Sizzle.RelativeMeaning` | handywedge-wf-editor/lib/jquery.js:2359-2361 | one more combinator in the compiled matcher is one more relation in the meaning |
| `Sizzle.FilterMeaning` | handywedge-wf-editor/lib/jquery.js:2198-2210 | one more simple selector in the compiled conjunction is one more test in the meaning |
| `LazySequence.LazyValue` | handywedge-wf-editor/lib/lodash.js:1060-1107 | evaluating a lazy wrapper gives the value of the specification: the recorded actions for small or whole arrays, otherwise the fused loop |
| `LazySequence.FusedLoop` | handywedge-wf-editor/lib/lodash.js:1079-1106 | the loop over a window in either direction collects at most `takeCount` results of the pipeline of iteratees, stopping at the first element a `takeWhile` refuses |
| `LazySequence.RunIteratees` | handywedge-wf-editor/lib/lodash.js:1085-1103 | an element runs through the iteratees until one maps, skips or stops it |
| `LazySequence.GetView` | handywedge-wf-editor/lib/lodash.js:3957-3973 | folding the views gives the window of the specification |
| `LazySequence.BaseWrapperValue` | handywedge-wf-editor/lib/lodash.js:2758-2770 | the actions are applied one after another |
| `LazySequence.FusedIsCapped` | handywedge-wf-editor/lib/lodash.js:1060-1107 | limiting the loop to the length of the window changes nothing |
| `LazyMeaning.FusedIsEager` | handywedge-wf-editor/lib/lodash.js:1040-1107 | a chain accepted by the state machine evaluates, on either return path, to what its calls give one by one, for every array and all iteratees |
| `LazyMeaning.SafeFormIsEager` | handywedge-wf-editor/lib/lodash.js:12115-12148 | every chain of positional calls and maps, then maps, filters and `takeWhile`, then maps, `takeWhile` and `take`, is evaluated faithfully |
| `LazyMeaning.SafeFormStates` | handywedge-wf-editor/lib/lodash.js:12115-12148 | the state machine accepts every chain of that form |
| `LazyMeaning.CallStandsFor` | handywedge-wf-editor/lib/lodash.js:12217-12263 | one more call keeps the wrapper standing for the eager value, whichever of views, direction, iteratees and take count it changes |
| `LazyMeaning.PipeExtended` | handywedge-wf-editor/lib/lodash.js:12138-12148 | an iteratee pushed last acts on what came through the others |
| `LazyMeaning.PipeMapsCommute` | handywedge-wf-editor/lib/lodash.js:12115-12135 | positional calls commute with a pipeline of maps, so views may be applied first |
| `LazyMeaning.ViewNarrows` | handywedge-wf-editor/lib/lodash.js:12115-12135 | a view pushed by an unfiltered wrapper does to the visited elements what the call does, in either direction |
| `LazyMeaning.WrappingCallStandsFor` | handywedge-wf-editor/lib/lodash.js:1040-1050 | `reverse`, `drop` and `dropRight` on a filtered wrapper wrap it and keep standing for the eager value |
| `LazyMeaning.TakeRightWhenFiltered` | handywedge-wf-editor/lib/lodash.js:12132-12134 | `takeRight` on a filtered wrapper returns the right elements, but reversed, once the array is large and longer than the count |
| `LazyMeaning.TakeRightExact` | handywedge-wf-editor/lib/lodash.js:12132-12134 | `takeRight` on a filtered wrapper is right exactly when the array is small, not longer than the count, or its last elements read the same backwards |
| `LazyMeaning.FilterWhenLimited` | handywedge-wf-editor/lib/lodash.js:12115-12148 | what a `filter` behind a take count really returns: it is counted before the limit |
| `LazyMeaning.FilterWhenLimitedExact` | handywedge-wf-editor/lib/lodash.js:12115-12148 | a filter behind a take count is harmless for every predicate exactly when the wrapper takes the eager path or the elements cut off cannot be told from those kept |
| `LazyMeaning.ViewWhenDetached` | handywedge-wf-editor/lib/lodash.js:12115-12130 | what a positional call behind a `drop` on a filtered wrapper really returns: the drop is skipped on the fused path |
| `LazyMeaning.DropTwiceExact` | handywedge-wf-editor/lib/lodash.js:12115-12130 | a second `drop` on a filtered wrapper is right exactly when the array is small, or it drops nothing or everything |
| `LazyMeaning.RefusedCallsFail` | handywedge-wf-editor/lib/lodash.js:12115-12148 | concrete chains on 200 elements for which `takeRight`, a second `drop` and a late `filter` differ from their eager meaning |
| `LazyShapes.ShapeExact` | handywedge-wf-editor/lib/lodash.js:12115-12148 | a shape of chain (its methods, without counts and iteratees) is evaluated faithfully for all counts, iteratees and arrays exactly when the state machine accepts it |
| `LazyShapes.RefusedShapeFails` | handywedge-wf-editor/lib/lodash.js:12115-12148 | for every refused shape there are counts and iteratees for which the chain on 1000 numbers returns something else than its calls one by one |
| `LazyShapes.RefusedCallFails` | handywedge-wf-editor/lib/lodash.js:12115-12148 | the first refused call already loses a step, for suitable calls before it |
| `LazyShapes.NeutralCall` | handywedge-wf-editor/lib/lodash.js:12115-12148 | a call that should leave its elements alone leaves the value of every wrapper alone, on either path, so a wrong value stays wrong |
| `DeepClone.CloneDeep` | handywedge-wf-editor/lib/lodash.js:8399-8403 | on every finite graph of plain objects and arrays, shared or cyclic, cloning ends with a fresh graph isomorphic to exactly the part the value reaches |
| `DeepClone.BaseClone` | handywedge-wf-editor/lib/lodash.js:1686-1737 | the stacks grow by pairs of a source and its finished copy, and the result is the image of the value under the pairing |
| `DeepClone.CloneNode` | handywedge-wf-editor/lib/lodash.js:1728-1736 | a node not met before is paired with a new node and populated; the number of nodes not on the stack bounds the recursion |
| `DeepClone.Populate` | handywedge-wf-editor/lib/lodash.js:1732-1735 | all properties of the clone become the images of those of the source, in the same order |
| `DeepClone.Search` | handywedge-wf-editor/lib/lodash.js:1722-1727 | a node on the stack is found, wherever it is |
| `DeepClone.PartClosed` | handywedge-wf-editor/lib/lodash.js:1686-1737 | the nodes on the stack are closed under references |
| `DeepClone.ImageClosed` | handywedge-wf-editor/lib/lodash.js:1686-1737 | nothing in the copy leads back to the source |
| `DeepClone.SharingPreserved` | handywedge-wf-editor/lib/lodash.js:1686-1737 | two places of the copy hold the same node exactly when the two places of the source do |
| `DeepClone.PathsAgree` | handywedge-wf-editor/lib/lodash.js:1686-1737 | every path of property names leads to the same primitive, to corresponding nodes, or nowhere, in copy and source |
| `DeepEqual.IsEqual` | handywedge-wf-editor/lib/lodash.js:8636-8640 | strict comparison ends on every finite graph and returns the answer of the specification with an empty stack |
| `DeepEqual.BaseIsEqual` | handywedge-wf-editor/lib/lodash.js:2125-2133 | primitives by identity with NaN equal to itself, nodes by deep comparison, below any stack |
| `DeepEqual.BaseIsEqualDeep` | handywedge-wf-editor/lib/lodash.js:2150-2211 | a pair under way is assumed equal only to the partner it was pushed with; the stacks are restored on return |
| `DeepEqual.EqualNodes` | handywedge-wf-editor/lib/lodash.js:3711-3743 | nodes of one kind are equal exactly when they have the same keys and equal values under each |
| `DeepEqual.SameKeys` | handywedge-wf-editor/lib/lodash.js:3798-3813 | the count of keys and the backward test of each decide whether the key sets are equal |
| `DeepEqual.EqualProperties` | handywedge-wf-editor/lib/lodash.js:3720-3742 | the loop decides whether the values under all keys are equal |
| `DeepEqual.EqualIsBisimilar` | handywedge-wf-editor/lib/lodash.js:2125-2211 | a true answer comes with a bisimulation that relates the two values, on every finite graph |
| `DeepEqual.VisitedPairs` | handywedge-wf-editor/lib/lodash.js:2150-2211 | the pairs visited agree key by key, up to pairs visited or still on the stack |
| `DeepEqual.FunctionalIsEqual` | handywedge-wf-editor/lib/lodash.js:2150-2211 | values related by a bisimulation that matches no node twice are found equal, also on cyclic graphs |
| `DeepEqual.AcyclicIsStructural` | handywedge-wf-editor/lib/lodash.js:2125-2211 | on acyclic data the answer is structural equality, exactly |
| `DeepEqual.EqualExact` | handywedge-wf-editor/lib/lodash.js:2125-2211 | on every finite graph the answer is true exactly when the values are bisimilar and no node of the first comes back on its own way with another partner |
| `DeepEqual.UnrolledCycleDiffers` | handywedge-wf-editor/lib/lodash.js:2190-2200 | a cycle and the same cycle with one step unrolled are bisimilar, yet are told apart: a concrete graph |
| `Callbacks.CallbackList.Add` | handywedge-wf-editor/lib/jquery.js:3222-3250 | `add` appends the functions (skipping known ones on a unique list), and queues the remembered arguments when the list is not firing |
| `Callbacks.CallbackList.Remove` | handywedge-wf-editor/lib/jquery.js:3253-3266 | all entries of the function go, and the firing index moves back by the number of those at or before it |
| `Callbacks.CallbackList.Disable` | handywedge-wf-editor/lib/jquery.js:3287-3291 | list, queue and memory are cleared, and the list is locked |
| `Callbacks.CallbackList.Lock` | handywedge-wf-editor/lib/jquery.js:3299-3305 | the queue is cleared and the list locked; without memory it is disabled as well |
| `Callbacks.CallbackList.FireWith` | handywedge-wf-editor/lib/jquery.js:3311-3321 | arguments are queued unless the list is locked; the list fires unless it is firing already |
| `Callbacks.CallbackList.Advance` | handywedge-wf-editor/lib/jquery.js:3182-3216 | from the test of the inner loop the list goes to the next entry to run, to the next queued arguments, or to its end |
| `Callbacks.CallbackList.Return` | handywedge-wf-editor/lib/jquery.js:3187-3193 | a result `false` on a stop-on-false list ends the pass and forgets the arguments |
| `Callbacks.RemoveEntries` | handywedge-wf-editor/lib/jquery.js:3253-3266 | the splicing loop removes every entry of the function and counts those up to the firing index |
| `Callbacks.Advanced` | handywedge-wf-editor/lib/jquery.js:3182-3216 | while the list is firing its index is that of an entry; afterwards it is -1 |
| `Callbacks.PushedMeaning` | handywedge-wf-editor/lib/jquery.js:3231-3243 | a list that is not unique takes every function; a unique one takes those it does not hold yet and stays without duplicates |
| `Callbacks.ReturnMeaning` | handywedge-wf-editor/lib/jquery.js:3187-3193 | on a stop-on-false list a function that returns false is the last of its pass, and `add` will not replay its arguments; any other result changes nothing |
| `Callbacks.EmptyMeaning` | handywedge-wf-editor/lib/jquery.js:3277-3291 | an emptied or disabled list runs nothing more, and a disabled one takes nothing again |
| `CallbackPass.NothingSkipped` | handywedge-wf-editor/lib/jquery.js:3174-3266 | during a pass, whatever the running functions add or remove, no entry runs twice, and at its end exactly the surviving entries have run, in order |
| `CallbackPass.AddOnTrack` | handywedge-wf-editor/lib/jquery.js:3222-3250 | `add` keeps the entries up to the firing index the surviving entries already run |
| `CallbackPass.RemoveOnTrack` | handywedge-wf-editor/lib/jquery.js:3253-3266 | so does `remove` |
| `CallbackPass.RunOnTrack` | handywedge-wf-editor/lib/jquery.js:3184-3194 | so does running the next entry |
| `CallbackPass.StartOnTrack` | handywedge-wf-editor/lib/jquery.js:3174-3184 | `fire` starts a pass on which nothing has run |
| `CallbackPass.AddStartsOnTrack` | handywedge-wf-editor/lib/jquery.js:3225-3248 | so does `add` on a list that remembers arguments, the entries before the new ones counting as already run |
| `CallbackPass.CountedOff` | handywedge-wf-editor/lib/jquery.js:3253-3266 | the number by which `remove` moves the firing index is the number of entries it takes from the part already run |
| `CallbackLocks.LockLastsExact` | handywedge-wf-editor/lib/jquery.js:3296-3306 | a locked list stays locked under every sequence of calls and returns exactly when it is a `once` list or has no memory that `add` replays, now or when it is done firing |
| `CallbackLocks.LockUndone` | handywedge-wf-editor/lib/jquery.js:3174-3216 | a list with memory, fired with 1 and locked, is unlocked by an `add`, and a function then runs with the 2 of a later `fire` |
| `CallbackLocks.DisabledLasts` | handywedge-wf-editor/lib/jquery.js:3279-3290 | a disabled list never has a function again under any sequence of calls and returns, also when a function it was running disabled it: when that returns, it stops firing for good |
| `CallbackLocks.StepStaysClosed` | handywedge-wf-editor/lib/jquery.js:3173-3306 | every call and return keeps a lock that has no memory to replay |
| `CallbackLocks.Reopen` | handywedge-wf-editor/lib/jquery.js:3223-3244 | any other lock can be undone: the running functions return, and `add` fires |
| `Deferreds.FirstCallDecides` | handywedge-wf-editor/lib/jquery.js:3341-3432 | in every run the first `resolve` or `reject` decides: its callbacks run once each, in registration order, with its arguments, all of them once the library is done; those of the other list never run |
| `Deferreds.HistoryOf` | handywedge-wf-editor/lib/jquery.js:3400-3419 | the registrations and the calls of `resolve` and `reject` in the state of the machine are those of the history |
| `Deferreds.FateIsFinal` | handywedge-wf-editor/lib/jquery.js:3341-3432 | the state leaves pending at most once and then never changes |
| `Deferreds.RunSound` | handywedge-wf-editor/lib/jquery.js:3341-3432 | the invariant of the three lists, the state and the call stack holds over every run |
| `Deferreds.StepSound` | handywedge-wf-editor/lib/jquery.js:3341-3432 | each registration, firing, return and library step keeps the invariant |
| `Deferreds.NeverStuck` | handywedge-wf-editor/lib/jquery.js:3174-3216 | inside the library there is always a next step |
| `Deferreds.RegisterSound` | handywedge-wf-editor/lib/jquery.js:3400-3401 | registering, before, during or after the decision, keeps the invariant |
| `Deferreds.FireSound` | handywedge-wf-editor/lib/jquery.js:3414-3419 | so does calling `resolve`, `reject` or `notify` anywhere, also inside callbacks |
| `Deferreds.ContinueInstalled` | handywedge-wf-editor/lib/jquery.js:3404-3412 | the three functions installed first set the state, disable the other list and lock the progress list, in this order, before any callback runs |
| `Deferreds.ContinueUsers` | handywedge-wf-editor/lib/jquery.js:3184-3194 | the registered callbacks run next, in order, with the remembered arguments |
| `DeferredProgress.NotifyExact` | handywedge-wf-editor/lib/jquery.js:3391-3423 | in every run, once the deferred is settled, `notify` does nothing at all exactly when no `notify` came before or no progress callback has been registered since while none was running; otherwise its arguments are handed to the progress callbacks |
| `DeferredProgress.NotifiedLate` | handywedge-wf-editor/lib/jquery.js:3391-3423 | a deferred notified, resolved, and then given a progress callback runs it with the arguments of a later `notify` |
| `DeferredProgress.RunProgress` | handywedge-wf-editor/lib/jquery.js:3404-3423 | what holds of the progress list over every run: its memory, its lock and its functions as the history says |
| `DeferredProgress.StepProgress` | handywedge-wf-editor/lib/jquery.js:3404-3423 | each step keeps this |
| `DeferredEnds.AllCallbacksRun` | handywedge-wf-editor/lib/jquery.js:3341-3432 | from the end of any run in which the deferred was settled, every callback registered on the winning list runs, in order and with the settling arguments, once the callbacks in progress return |
| `DeferredEnds.Unwound` | handywedge-wf-editor/lib/jquery.js:3174-3216 | all firings in progress come to an end when the callbacks return |
| `DeferredEnds.AdvancedNearer` | handywedge-wf-editor/lib/jquery.js:3182-3216 | a firing list goes to its next entry, to its next arguments, or to its end |
| `DeferredObjects.Deferred.constructor` | handywedge-wf-editor/lib/jquery.js:3339-3432 | the three lists are made with the functions that set the state, disable the other list and lock the progress list |
| `DeferredObjects.Deferred.Install` | handywedge-wf-editor/lib/jquery.js:3404-3412 | a `done` or `fail` list starts with the functions that set the state, disable the other list and lock the progress list |
| `DeferredObjects.Deferred.Register` | handywedge-wf-editor/lib/jquery.js:3400-3401 | adding a callback changes the lists as the registering step of the machine does |
| `DeferredObjects.Deferred.Fire` | handywedge-wf-editor/lib/jquery.js:3414-3419 | resolving, rejecting or notifying changes the lists as the firing step does |
| `DeferredObjects.Deferred.Proceed` | handywedge-wf-editor/lib/jquery.js:3182-3216 | the list on top of the call stack goes on as the library step does, and the function it comes to acts on state and lists |
| `DeferredObjects.Deferred.Return` | handywedge-wf-editor/lib/jquery.js:3187-3193 | the return of a callback is the returning step |
| `DeferredObjects.Deferred.Perform` | handywedge-wf-editor/lib/jquery.js:3404-3412 | the installed functions set the state, disable the other list and lock the progress list; a callback is recorded and takes over |
| `Debounce.Configure` | handywedge-wf-editor/lib/lodash.js:7670-7678 | after the normalisation of the options `maxWait` is at least `wait` |
| `Debounce.Throttle` | handywedge-wf-editor/lib/lodash.js:8245-8259 | throttling is debouncing with `maxWait` equal to `wait` |
| `Debounce.ThrottleSpacing` | handywedge-wf-editor/lib/lodash.js:8245-8259 | any two runs of a throttled function are at least `wait` apart, in every run of calls, time and late timers |
| `Debounce.ThrottleTrailing` | handywedge-wf-editor/lib/lodash.js:8245-8259 | with `trailing` on, a call not run at once leaves a pending timer that runs it with the latest arguments |
| `Debounce.AtMostOncePerCall` | handywedge-wf-editor/lib/lodash.js:7655-7761 | each call is run at most once, with its own arguments, and only while it is the latest |
| `Debounce.DropsNoCall` | handywedge-wf-editor/lib/lodash.js:7655-7761 | with `trailing` on, no run drops a call exactly when there is no `maxWait`, or no `leading`, or `maxWait` equals `wait` |
| `Debounce.LossyRun` | handywedge-wf-editor/lib/lodash.js:7705-7712 | under every other configuration a run of three calls drops the third, whatever the clock says once it is past `maxWait` |
| `Debounce.RunSound` | handywedge-wf-editor/lib/lodash.js:7655-7761 | the invariant of timers, times and runs holds in every run |
| `Debounce.Debounced.Debounce` | handywedge-wf-editor/lib/lodash.js:7718-7758 | a call of the debounced function changes the closure variables and timers as the specification says |
| `Debounce.Debounced.CheckMaxWait` | handywedge-wf-editor/lib/lodash.js:7724-7743 | the middle part: run at once when `maxWait` is over, or arm its timer |
| `Debounce.Debounced.CheckWait` | handywedge-wf-editor/lib/lodash.js:7744-7756 | the last part: clear or arm the `wait` timer, run on the leading edge, forget the arguments |
| `Debounce.Debounced.DelayedCallback` | handywedge-wf-editor/lib/lodash.js:7705-7712 | the `wait` timer completes when `wait` has passed since the last call, and is armed again otherwise |
| `Debounce.Debounced.MaxDelayedCallback` | handywedge-wf-editor/lib/lodash.js:7714-7716 | the `maxWait` timer completes |
| `Debounce.Debounced.CompleteTimer` | handywedge-wf-editor/lib/lodash.js:7691-7703 | completing clears the other timer and runs the function if asked to |
| `DebounceTiming.RunsJustified` | handywedge-wf-editor/lib/lodash.js:7655-7761 | every run has a reason: the caller has been silent for `wait`; or, without `maxWait`, it is the leading call after such a silence; or `maxWait` is over; and without `trailing` it is at its own call |
| `DebounceTiming.SilenceRuns` | handywedge-wf-editor/lib/lodash.js:7705-7716 | with `trailing`, where no call is dropped: once the caller has been silent for `wait`, or `maxWait` is over since the first call not run, a timer is due that runs the latest call |
| `DebounceTiming.WaitsOn` | handywedge-wf-editor/lib/lodash.js:7705-7712 | a `wait` timer that expires before the caller has been silent for `wait` runs nothing, and is set anew for `wait` after the latest call |
| `DebounceTiming.CallRunsAtOnce` | handywedge-wf-editor/lib/lodash.js:7718-7757 | a call is run at once exactly when it is a leading one made with no timer pending, or `maxWait` is over since the latest run or the first call not run |
| `DebounceTiming.RunsAreNow` | handywedge-wf-editor/lib/lodash.js:7691-7757 | each step runs nothing, or the latest call, now and with its arguments |
| `DebounceTiming.HistoryOf` | handywedge-wf-editor/lib/lodash.js:7718-7721 | the clock and the calls in the state of the machine are those of the history |
| `DebounceTiming.RunTimely` | handywedge-wf-editor/lib/lodash.js:7655-7761 | the invariant of timers, calls and reasons holds in every run |
| `PartialArgs.MergeExact` | handywedge-wf-editor/lib/lodash.js:2913-2963 | merging nested partial arguments keeps the meaning of every call exactly when the outer ones are at least as many as the inner holes, for `composeArgs` and for `composeArgsRight` |
| `PartialArgs.MergedLeft` | handywedge-wf-editor/lib/lodash.js:2913-2931 | filling the merged partials delivers what filling the outer and then the inner partials delivers |
| `PartialArgs.MergedRight` | handywedge-wf-editor/lib/lodash.js:2943-2963 | the same for partials applied from the right |
| `PartialArgs.UncoveredDiffers` | handywedge-wf-editor/lib/lodash.js:2913-2963 | with too few outer partials the merged list passes on an argument that the nested calls swallow |
| `PartialArgs.ComposeArgs` | handywedge-wf-editor/lib/lodash.js:2913-2931 | the three loops fill the holes from the left and append the surplus |
| `PartialArgs.ComposeArgsRight` | handywedge-wf-editor/lib/lodash.js:2943-2963 | the three loops put the surplus first and fill the holes with the rest |
| `PartialArgs.ReplaceHolders` | handywedge-wf-editor/lib/lodash.js:576-589 | the recomputed holders are the positions of the placeholders |
| `PartialArgs.FillAt` | handywedge-wf-editor/lib/lodash.js:2913-2931 | every position of a filled list: the partial, or the argument with the number of the hole |
| `PartialArgs.HoldersDistinct` | handywedge-wf-editor/lib/lodash.js:576-589 | every placeholder is listed once, under its number |
| `PartialArgs.WrapperData.MergeData` | handywedge-wf-editor/lib/lodash.js:4196-4249 | mergeable metadata gets composed partials with recomputed holders, and the flags, `thisArg`, positions, `ary` and arity of the rules; other metadata stays as it is |
| `PartialArgs.SmallerAryMeaning` | handywedge-wf-editor/lib/lodash.js:4237-4239 | a merged `ary` lets through what the outer and then the inner one would |
| `PartialArgs.BitmaskMeaning` | handywedge-wf-editor/lib/lodash.js:4198-4216 | the merged wrapper has the flags of both, and one more when a bound function is wrapped by an unbound one |
| `PartialArgs.WrapperData.Compose` | handywedge-wf-editor/lib/lodash.js:3467-3491 | the arguments a wrapper passes on are filled from the left, then from the right |
| `PartialArgs.MergeLeft` | handywedge-wf-editor/lib/lodash.js:4217-4223 | one side of the merge, with its holders |
| `PartialArgs.MergeRight` | handywedge-wf-editor/lib/lodash.js:4224-4230 | the other side |
| `PartialSides.SidesCommuteExact` | handywedge-wf-editor/lib/lodash.js:4196-4249 | inner left and outer right partials may change places for all calls exactly when the list with fewer placeholders has nothing else, or with equally many the left values lie before the right ones |
| `PartialSides.CallsCommuteExact` | handywedge-wf-editor/lib/lodash.js:4196-4249 | the same for calls without placeholders among their arguments |
| `PartialSides.CompatibleCommute` | handywedge-wf-editor/lib/lodash.js:2913-2963 | under that condition they commute for every call |
| `PartialSides.SidesCompete` | handywedge-wf-editor/lib/lodash.js:2913-2963 | inner left partials `_, 1` and outer right partials `2, _` called with 3: nested calls deliver 2, 1, 3 and merged ones 3, 2, 1 |
| `PartialSides.CrossedDiffer` | handywedge-wf-editor/lib/lodash.js:2913-2963 | with equally many placeholders and a right value before the last left one, placeholders for arguments come out at different places |
| `PartialSides.MergeKeepsMeaning` | handywedge-wf-editor/lib/lodash.js:4196-4249 | a merged wrapper with partials on both sides delivers what the nested wrappers deliver, when each side covers and inner left and outer right partials are compatible |
| `Numerals.ReadBack` | handywedge-wf-editor/lib/lodash.js:1221-1228 | the property name of a finite number determines its digits and its decimal point (section 7.1.12.1 of ECMA-262 6th edition, all four layouts) |
| `Numerals.TextInjective` | handywedge-wf-editor/lib/lodash.js:1221-1228 | two numbers have the same property name exactly when they are equal, the two zeros being one |
| `SetOperations.HashKeyInjective` | handywedge-wf-editor/lib/lodash.js:1206-1228 | values other than strings and objects share a hash key exactly when they are the same under SameValueZero |
| `SetOperations.SetCache.Push` | handywedge-wf-editor/lib/lodash.js:1221-1228 | pushing a value adds exactly the values that are the same under SameValueZero |
| `SetOperations.SetCache.Filled` | handywedge-wf-editor/lib/lodash.js:1188-1195 | a filled cache has exactly the values of the array |
| `SetOperations.BaseIndexOf` | handywedge-wf-editor/lib/lodash.js:342-355 | the first position with the same value under SameValueZero, NaN included, or -1 |
| `SetOperations.IndexOfNaN` | handywedge-wf-editor/lib/lodash.js:530-541 | the first position of NaN, or -1 |
| `SetOperations.BaseDifference` | handywedge-wf-editor/lib/lodash.js:1785-1821 | cached or scanned, the result is the elements, in order, that the second list does not contain |
| `SetOperations.BaseUniq` | handywedge-wf-editor/lib/lodash.js:2663-2704 | without iteratee, cached or scanned, the result is the first occurrences in order; with one, exactly unless the array is small and a NaN key repeats |
| `SetOperations.UniqCached` | handywedge-wf-editor/lib/lodash.js:2663-2704 | the cached path keeps the first element of each key |
| `SetOperations.UniqLinear` | handywedge-wf-editor/lib/lodash.js:2663-2704 | what the scanning path keeps, key by key |
| `SetOperations.LinearUniqExact` | handywedge-wf-editor/lib/lodash.js:2663-2704 | the two paths of `uniq` agree exactly when no element other than NaN repeats the key NaN; without iteratee they always agree |
| `SetOperations.NaNKeysKept` | handywedge-wf-editor/lib/lodash.js:2663-2704 | two elements other than NaN with the key NaN: the scanning path keeps both, the cached path the first |
| `SetOperations.IntersectionOf` | handywedge-wf-editor/lib/lodash.js:5004-5039 | for any number of arrays, each cached or not, the result is the first occurrences in the first array that all others contain |
| `SetOperations.Caches` | handywedge-wf-editor/lib/lodash.js:5012-5019 | the cache of the first array starts empty, the others hold their arrays |
| `SetOperations.MemberOfAll` | handywedge-wf-editor/lib/lodash.js:5025-5031 | the inner loop decides membership in all other arrays |
| `SetOperations.UniqMeaning` | handywedge-wf-editor/lib/lodash.js:5612-5629 | `uniq` keeps every value once |
| `SetOperations.DifferenceMeaning` | handywedge-wf-editor/lib/lodash.js:4533-4537 | `difference` contains exactly what the first list contains and the second does not |
| `SetOperations.IntersectionByDifference` | handywedge-wf-editor/lib/lodash.js:5004-5039 | the intersection of two lists is what is left, each value once, after removing what the second one lacks |
| `Ordering.CompareAscendingExact` | handywedge-wf-editor/lib/lodash.js:287-309 | the branches over `<`, `>` and the special values give the order numbers, null, undefined, NaN, and are antisymmetric exactly unless both values are NaN |
| `Ordering.BeforeIsWeakOrder` | handywedge-wf-editor/lib/lodash.js:287-309 | that order is a strict weak order |
| `BinarySearch.BinaryIndexBy` | handywedge-wf-editor/lib/lodash.js:2817-2850 | on sorted keys the search returns the number of elements before the value, or not after it with `retHighest`, capped at the largest array index |
| `BinarySearch.BinaryIndex` | handywedge-wf-editor/lib/lodash.js:2784-2802 | so does the fast path for numbers, whose midpoint is computed in 32 bits |
| `BinarySearch.HalvedExact` | handywedge-wf-editor/lib/lodash.js:2788-2790 | the 32-bit midpoint is right for all ranges of an array exactly up to length 2^31 |
| `BinarySearch.SetLowIsLeftOf` | handywedge-wf-editor/lib/lodash.js:2829-2842 | the chain of tests decides whether an element belongs left of the insertion point |
| `BinarySearch.InsertedSorted` | handywedge-wf-editor/lib/lodash.js:2784-2850 | inserting at the index keeps the array sorted, before the equal elements or after them |
| `BinarySearch.BoundSplits` | handywedge-wf-editor/lib/lodash.js:2784-2850 | in a sorted array the counted bound separates the elements left of the insertion point from the others |
| `MultiSort.CompareMultiple` | handywedge-wf-editor/lib/lodash.js:443-468 | the loop over the criteria returns the comparison of the specification |
| `MultiSort.CompareIsOrder` | handywedge-wf-editor/lib/lodash.js:443-468 | without NaN the comparison is lexicographic in the directions asked for, then by index |
| `MultiSort.ConsistentExact` | handywedge-wf-editor/lib/lodash.js:443-468 | the comparison is a consistent comparison function (section 22.1.3.24 of ECMA-262 6th edition) exactly when no criterion is NaN |
| `MultiSort.NaNAfterItself` | handywedge-wf-editor/lib/lodash.js:443-468 | an entry with a NaN criterion is compared as greater than itself |
| `MultiSort.AnySortIsStable` | handywedge-wf-editor/lib/lodash.js:2602-2610 | every sort that is correct for consistent comparisons returns the entries in the order of stable insertion |
| `MultiSort.SortingUnique` | handywedge-wf-editor/lib/lodash.js:2602-2610 | two sortings of the same entries by a comparison without ties are equal |
| `MultiSort.StableSortOrdered` | handywedge-wf-editor/lib/lodash.js:2621-2635 | stable insertion orders by the criteria, and by the index among equals |
| `MultiSort.StableSortMeaning` | handywedge-wf-editor/lib/lodash.js:443-468 | the stable order in terms of the collection alone: a rearrangement in which any two elements are ordered by the first iteratee that tells them apart, in its direction, and else as before |
| `MultiSort.SortTwice` | handywedge-wf-editor/lib/lodash.js:2621-2635 | sorting by a less important criterion first and by a more important one then gives what sorting by both criteria gives, in any directions |
| `MultiSort.BaseSortBy` | handywedge-wf-editor/lib/lodash.js:2602-2610 | sorting and unwrapping from the last entry gives the values of the sorted entries |
| `MultiSort.BaseSortByOrder` | handywedge-wf-editor/lib/lodash.js:2621-2635 | whatever correct sort the host has, the result is the values in the stable order |
| `EventLinks.AlwaysConsistent` | handywedge-wf-editor/lib/backbone.js:162-302 | after any sequence of `on`, `listenTo`, `off` and `stopListening` on any objects, "A listens to B" is recorded on both sides or on neither, and its count is the positive number of handlers on B that carry the record |
| `EventLinks.OnConsistent` | handywedge-wf-editor/lib/backbone.js:162-180 | `on` keeps this |
| `EventLinks.ListenToConsistent` | handywedge-wf-editor/lib/backbone.js:185-201 | `listenTo` keeps this |
| `EventLinks.OffConsistent` | handywedge-wf-editor/lib/backbone.js:219-302 | `off` keeps this, whatever it is asked to remove |
| `EventLinks.StopListeningConsistent` | handywedge-wf-editor/lib/backbone.js:230-247 | `stopListening` keeps this |
| `EventLinks.StopListeningSilences` | handywedge-wf-editor/lib/backbone.js:230-247 | after `stopListening()` the object has no records, nothing it listened to holds a handler with it as context, and other objects are untouched |
| `EventLinks.OffContext` | handywedge-wf-editor/lib/backbone.js:219-302 | `off` by context removes every handler with the context and its record, and no other edge |
| `EventLinks.OffSlotsMissed` | handywedge-wf-editor/lib/backbone.js:267-301 | the handlers left by `off`, with a name or without, are exactly those of other names and those with another callback or context than asked for, under their names |
| `EventLinks.EventTables.Bind` | handywedge-wf-editor/lib/backbone.js:162-180 | `on` appends one handler to its event |
| `EventLinks.EventTables.Listen` | handywedge-wf-editor/lib/backbone.js:185-213 | `listenTo` appends one handler and counts it in the record, made if need be |
| `EventLinks.EventTables.Unbind` | handywedge-wf-editor/lib/backbone.js:219-302 | the loops of `offApi` remove the handlers asked for and delete records with their last handler |
| `EventLinks.EventTables.RemoveListeners` | handywedge-wf-editor/lib/backbone.js:256-265 | `off()` deletes all records of the listeners on both sides |
| `EventLinks.EventTables.RemoveHandlers` | handywedge-wf-editor/lib/backbone.js:276-292 | the inner loop keeps the handlers not asked for and counts the others down |
| `EventLinks.EventTables.Unlisten` | handywedge-wf-editor/lib/backbone.js:230-247 | `stopListening` goes through the ids and stops at the first it does not listen to |
| `EventLinks.PushInto` | handywedge-wf-editor/lib/backbone.js:204-213 | the handler goes to the end of the list of its name |
| `EventHandlers.OffExact` | handywedge-wf-editor/lib/backbone.js:219-301 | `off` with a name, a callback or a context leaves under each name, in order, exactly the handlers of another event, callback or context; without arguments it leaves none and nobody listening; other objects keep theirs |
| `EventHandlers.StopListeningExact` | handywedge-wf-editor/lib/backbone.js:230-247 | `stopListening` for some objects, a name or a callback takes from each object, up to the first one not listened to, exactly the handlers with this listener as context that are asked for |
| `EventHandlers.OnExact` | handywedge-wf-editor/lib/backbone.js:162-213 | `on` puts the handler at the end of the list of its name and touches no other list |
| `EventHandlers.ListenToExact` | handywedge-wf-editor/lib/backbone.js:185-213 | `listenTo` does the same on the other object, with the listener as context and with their record |
| `EventHandlers.OffOtherEdges` | handywedge-wf-editor/lib/backbone.js:250-301 | no form of `off` touches the listeners of another object |
| `EventHandlers.AlwaysUnique` | handywedge-wf-editor/lib/backbone.js:204-213 | after any sequence of calls no object has two lists for a name |
| `EventTrigger.StepSound` | handywedge-wf-editor/lib/backbone.js:339-374 | each step keeps it |
| `EventTrigger.TriggerSound` | handywedge-wf-editor/lib/backbone.js:351-360 | starting a dispatch keeps it: the list for "all" is copied when there are named handlers |
| `EventTrigger.OnceVisit` | handywedge-wf-editor/lib/backbone.js:324-333 | a `once` wrapper unbinds itself before it runs, which keeps it |
| `EventRuns.TriggerIsExact` | handywedge-wf-editor/lib/backbone.js:339-374 | each `trigger` comes to exactly the handlers registered when it was called, named ones first and then those for "all", in order, whatever the handlers bind, unbind or trigger; it runs each of them, except a `once` binding that has run before |
| `EventRuns.VisitsExplained` | handywedge-wf-editor/lib/backbone.js:308-333 | in every run, a handler that is come to is run, unless it is a `once` binding whose callback has run before, in this trigger or another |
| `EventRuns.RunExtends` | handywedge-wf-editor/lib/backbone.js:339-374 | every enabled step can be taken after every run, so the runs leave nothing out |
| `EventRuns.EveryTriggerEnds` | handywedge-wf-editor/lib/backbone.js:339-374 | from the end of any run, every trigger under way comes to all the handlers it promised, once the handlers in progress return |
| `EventRuns.Unwound` | handywedge-wf-editor/lib/backbone.js:365-374 | all dispatches under way come to an end when the handlers return |
| `EventRuns.OnceRunsOnce` | handywedge-wf-editor/lib/backbone.js:308-333 | a `once` callback runs at most once per binding, also under nested triggers |
| `EventRuns.RunSound` | handywedge-wf-editor/lib/backbone.js:339-374 | the invariant of dispatches under way and shared handler arrays holds over every run |
| `EventBindings.TablesFollow` | handywedge-wf-editor/lib/backbone.js:162-374 | in every run, the handlers of each event follow the calls: `on` and `once` add one at the end, `off` takes those asked for, a `once` binding goes when it runs, nothing else changes them; and a trigger promises those of its event and then those of "all" |
| `EventBindings.StepFollows` | handywedge-wf-editor/lib/backbone.js:162-374 | each step does so, although arrays of handlers are shared with the dispatches under way |
| `EventBindings.RunSeparate` | handywedge-wf-editor/lib/backbone.js:204-301 | no two names ever share an array |
| `ModelChanges.RecordExact` | handywedge-wf-editor/lib/backbone.js:498-507 | the loop turns a true record of changes into a true one exactly when an `unset` passes undefined values only |
| `ModelChanges.ChangesMeaning` | handywedge-wf-editor/lib/backbone.js:498-500 | the attributes reported are exactly those whose value the call alters |
| `ModelChanges.Touched` | handywedge-wf-editor/lib/backbone.js:498-507 | what the loop leaves at an attribute it names |
| `ModelChanges.UnsetWithValueFails` | handywedge-wf-editor/lib/backbone.js:498-507 | unsetting an attribute with a defined value records that value as the current one |
| `ModelObjects.Model.constructor` | handywedge-wf-editor/lib/backbone.js:394-405 | a model starts without attributes and without running calls |
| `ModelObjects.Model.Set` | handywedge-wf-editor/lib/backbone.js:464-511 | a call changes the fields as the calling step of the machine does, wherever it is made |
| `ModelObjects.Model.Proceed` | handywedge-wf-editor/lib/backbone.js:512-532 | from one event to the next, or to the return, the object does what the library step does |
| `ModelObjects.Model.EndEvent` | handywedge-wf-editor/lib/backbone.js:515-528 | the end of an event is the ending step |
| `ModelObjects.Model.BeginSet` | handywedge-wf-editor/lib/backbone.js:482-514 | a call up to its first event: previous attributes and record reset by an outermost call only, attributes, record, id and pending options updated |
| `ModelObjects.Model.AssignEach` | handywedge-wf-editor/lib/backbone.js:493-507 | the loop over the attributes gives the specified attributes, record and changes |
| `ModelEvents.ChangedIsDifference` | handywedge-wf-editor/lib/backbone.js:464-533 | in every run of nested calls, the previous attributes are those at the start of the outermost call, `id` is the id attribute, and if no call unsets with defined values, `changed` is the difference between the attributes now and the previous ones |
| `ModelEvents.EverythingAnnounced` | handywedge-wf-editor/lib/backbone.js:464-533 | in every run, once no call is under way, every non-silent change is followed by a "change" event and had one event of its own, and every "change" event carried the options of the last non-silent change before it |
| `ModelEvents.RunInv` | handywedge-wf-editor/lib/backbone.js:464-533 | the invariant of fields, running calls and history holds over every run |
| `ModelEvents.CallSound` | handywedge-wf-editor/lib/backbone.js:482-514 | a call, outermost or nested, silent or not, keeps it |
| `ModelEvents.ProceedSound` | handywedge-wf-editor/lib/backbone.js:512-532 | every step of the library keeps it |
| `ModelEvents.EndSound` | handywedge-wf-editor/lib/backbone.js:513-529 | so does the end of an event |
| `ModelEvents.AnnouncedMeaning` | handywedge-wf-editor/lib/backbone.js:512-529 | nothing is pending exactly when every non-silent change is followed by a "change" event |
| `ModelAnnouncements.HandlersToldCurrent` | handywedge-wf-editor/lib/backbone.js:464-533 | in every run, the handlers of a "change:attr" event are told the value the attribute has at that moment; only calls change attributes, and the previous ones are those from before the outermost call |
| `ModelAnnouncements.CallTells` | handywedge-wf-editor/lib/backbone.js:464-533 | a call in whose handlers nothing is set tells the handlers of each attribute it changes the value passed, in the order of its input, and then those of "change"; a silent call tells nobody |
| `ModelAnnouncements.CallStores` | handywedge-wf-editor/lib/backbone.js:497-506 | a call stores the values passed, or with `unset` removes the attributes, and leaves the others alone |
| `ModelAnnouncements.RunEnds` | handywedge-wf-editor/lib/backbone.js:512-532 | in every run, whatever calls are under way end once the handlers return and set nothing more |
| `ModelAnnouncements.TellingProceeds` | handywedge-wf-editor/lib/backbone.js:512-532 | each step of such a call tells what is next |
| `Collections.Collection.Set` | handywedge-wf-editor/lib/backbone.js:825-938 | `length`, the ordered duplicate-free models and the index agree again after any `set`, and the models are those the options ask for |
| `Collections.DefaultSetMeaning` | handywedge-wf-editor/lib/backbone.js:825-914 | by default the models become what the valid entries stand for, old members or new ones, one for each attributes entry without an id, first occurrences only, in input order |
| `Collections.AddMeaning` | handywedge-wf-editor/lib/backbone.js:825-914 | with `remove: false` the old list stays, with the new members spliced in, in their order, at the clamped position |
| `Collections.PruneMeaning` | handywedge-wf-editor/lib/backbone.js:825-914 | with `add: false` nothing comes in; with `remove` exactly the old members that some entry stands for stay, in order, and without it all do |
| `Collections.AllResolved` | handywedge-wf-editor/lib/backbone.js:858-888 | each entry becomes a model it stands for, an old one if possible; attributes without an id become a model of their own, and a model added that existed before was passed in |
| `Collections.InsertionPointMeaning` | handywedge-wf-editor/lib/backbone.js:836-839 | the position is the end by default and beyond it, the one asked for within, and counted from the end when negative |
| `Collections.Collection.Resolve` | handywedge-wf-editor/lib/backbone.js:858-888 | the loop over the input turns each entry into an existing or a new member |
| `Collections.Collection.RemoveModels` | handywedge-wf-editor/lib/backbone.js:1120-1145 | the entries found go from models, length and index |
| `Collections.Collection.Install` | handywedge-wf-editor/lib/backbone.js:899-913 | the new order replaces the models, or the new members are spliced in |
| `Collections.Collection.ChangeId` | handywedge-wf-editor/lib/backbone.js:1174-1186 | following the change of an id keeps the collection in agreement exactly when no other member has the new id |
| `Collections.RekeyedExact` | handywedge-wf-editor/lib/backbone.js:1178-1185 | the same, for the index |
| `Collections.TakenIdFails` | handywedge-wf-editor/lib/backbone.js:1178-1185 | a member that takes the id of another one hides it from the index, and with its next change removes the id |
| `Collections.LookupFinds` | handywedge-wf-editor/lib/backbone.js:985-989 | `get` finds a member that an entry stands for, by id or by identity, whenever there is one |
| `Collections.ReferencedIndexed` | handywedge-wf-editor/lib/backbone.js:1154-1159 | adding a reference keeps the index right when id and cid are free |
| `Collections.DereferencedIndexed` | handywedge-wf-editor/lib/backbone.js:1162-1168 | removing a reference keeps the index right |
| `Collections.ResolveAllSound` | handywedge-wf-editor/lib/backbone.js:858-888 | what holds during the loop over the input |
| `Collections.RemovedMembers` | handywedge-wf-editor/lib/backbone.js:1120-1145 | removing members leaves the others in order, and an index of them |
| `Collections.RemovedOneMeaning` | handywedge-wf-editor/lib/backbone.js:1120-1145 | an entry removes the member it stands for, by id or by identity, and nothing when there is none |
| `Collections.SetIndexed` | handywedge-wf-editor/lib/backbone.js:890-913 | the index left by the removal of stale members is that of the new models |
| `Collections.Splice` | handywedge-wf-editor/lib/backbone.js:769-777 | the three loops insert the elements at the position |
| `WorkflowCodes.RunUnique` | handywedge-wf-editor/wf_model.js:423-495 | over every run of adding tabs, nodes and links, edits, deletions and closing tabs, no two cells of one kind share a code, in any tab |
| `WorkflowCodes.StepUnique` | handywedge-wf-editor/wf_model.js:423-495 | each step keeps this |
| `WorkflowCodes.StepPlaced` | handywedge-wf-editor/wf_model.js:423-495 | each step keeps every cell at one place in one tab |
| `WorkflowCodes.FreeNumber` | handywedge-wf-editor/wf_model.js:423-432 | there is a smallest number whose code is free, at most one more than the number of cells of the kind |
| `WorkflowCodes.Pigeonhole` | handywedge-wf-editor/wf_model.js:423-432 | n cells cannot take more than n of the codes |
| `WorkflowCodes.CodeInjective` | handywedge-wf-editor/wf_model.js:423-432 | different numbers have different codes |
| `WorkflowCodes.Project.FreeStatus` | handywedge-wf-editor/wf_model.js:426-429 | the loop ends at the smallest free number, within one try more than there are other status nodes |
| `WorkflowCodes.Project.InitStatus` | handywedge-wf-editor/wf_model.js:423-432 | a node without a code gets that number |
| `WorkflowCodes.Project.FreeCode` | handywedge-wf-editor/wf_model.js:671-687 | the loop over all links of all graphs ends at the smallest free number, within one try more than there are links |
| `WorkflowCodes.Project.InitCode` | handywedge-wf-editor/wf_model.js:669-690 | a new link without a code gets that number before it is added |
| `WorkflowCodes.Project.AddNode` | handywedge-wf-editor/wf_model.js:423-432 | adding a node gives the state with one numbered node more |
| `WorkflowCodes.Project.AddLink` | handywedge-wf-editor/wf_model.js:488-495 | adding a link gives the state with one numbered link more |
| `WorkflowCodes.Project.Edit` | handywedge-wf-editor/wf_model.js:477-487 | an edit is accepted exactly when no other cell of the kind, in any tab, carries the code; then the cell carries it, and nothing else changes; the handler at lines 744-754 is the same for links |
| `WorkflowCodes.Project.CountCode` | handywedge-wf-editor/wf_model.js:674-681 | the count is zero exactly when no link has the code |
| `WorkflowCodes.Project.Validate` | handywedge-wf-editor/wf_cont.js:7-26 | the duplicates are reported tab by tab, with their tab and id |
| `WorkflowCodes.DoubledMeaning` | handywedge-wf-editor/wf_cont.js:7-26 | nothing is reported exactly when no other cell of the kind, in any tab, has the code |
| `WorkflowCodes.DoubledPlaces` | handywedge-wf-editor/wf_cont.js:7-26 | the places reported are those of the other cells of the kind that carry the code |
| `WorkflowCodes.NewNodeMeaning` | handywedge-wf-editor/wf_model.js:423-432 | a new node is numbered by the first of S1, S2, … that no node has, and nothing else changes |
| `WorkflowCodes.NewLinkMeaning` | handywedge-wf-editor/wf_model.js:669-690 | a new link is numbered by the first of L1, L2, … that no link has, and nothing else changes |
| `WorkflowCodes.RemoveMeaning` | handywedge-wf-editor/wf_model.js:414 | removing a cell takes it and its place, and leaves all others in order |
| `WorkflowCodes.CloseMeaning` | handywedge-wf-editor/wf_cont.js:141-149 | closing a tab takes its cells, and leaves the other tabs in order |
| `WorkflowCodes.Project.FindKind` | handywedge-wf-editor/wf_cont.js:9-13 | the kind is that of the cell with the id, wherever it is |
| `WorkflowCodes.Project.CloseTab` | handywedge-wf-editor/wf_cont.js:141-149 | closing a tab takes its cells and leaves the others |
| `WorkflowCodes.Project.AddTab` | handywedge-wf-editor/wf_cont.js:96-129 | a new tab starts empty |
| `WorkflowCodes.Project.Remove` | handywedge-wf-editor/wf_model.js:414 | removing a cell takes it from its tab and leaves the others |

## Left out

General:

- DOM, CSS, Ajax, routing and all rendering; loading project files and writing CSV, SQL or JSON; parsing of selectors and templates.
- JavaScript coercions, getters, prototypes and symbols; exceptions thrown by user functions; iteratees and predicates that are not pure.
- Call stack limits of recursive functions.

Sizzle:

- Sizzle.Engine.Select: pseudo selectors that call Sizzle again, positional set matchers, the random increment of the run number and the exact scoping of `outermostContext` are not modelled; whether a run is outermost is part of its scope, and selectors arrive as tokens. A compiled selector is compiled again for each query; the caching of compiled selectors is not modelled.

lodash:

- LazySequence.LazyValue: `slice`, `reject`, `first`, `last`, `initial`, `rest`, `compact`, `pluck` and `where` on lazy wrappers, infinite or fractional counts, arrays that are not arrays, iteratees of another length than one, and the in-place effect of an eager `reverse` are not modelled.
- LazyMeaning.FusedIsEager: goes one way, for a chain with its counts and iteratees; which shapes are safe for all of them is exact (`LazyShapes.ShapeExact`), and the single refused calls have their exact values or conditions.
- LazyMeaning.ViewWhenDetached: covers one positional call behind one `drop`; longer tails are not given exactly.
- DeepClone.CloneDeep: functions, dates, regular expressions, typed arrays, DOM nodes, customizers, the `index` and `input` properties of match results and prototypes are not modelled.
- DeepEqual.IsEqual: customizers, loose comparison, wrapper objects, `__wrapped__` properties, differing constructors and values compared by tag are not modelled.
- Debounce.Debounced.Debounce: `cancel`, the return value, `this`, and a function that calls its own debounced form are not modelled; time is a natural number.
- PartialSides.MergeKeepsMeaning: goes one way for wrappers with partials on both sides, as other partials of the wrappers may hide a difference; the condition is exact for each side (`PartialArgs.MergeExact`) and for the two sides that change places (`SidesCommuteExact`).
- PartialArgs.WrapperData.MergeData: the metadata is copied, not shared, and the bitmask is the set of its bits; what currying, `ary` and `rearg` do to the arguments of a call is not modelled.
- SetOperations.BaseUniq: custom `indexOf` functions, sparse arrays and the sorted variant of `uniq` are not modelled; the hash is the set of its property names.
- Ordering.CompareAscendingExact: strings, booleans and objects among the values, which `<` coerces, are not modelled.
- BinarySearch.BinaryIndexBy: an array argument that is null or undefined is the empty array here.
- MultiSort.BaseSortByOrder: the sort of the host is a parameter that is required to sort by every consistent comparison; nothing is claimed when a criterion is NaN.

jQuery:

- Callbacks.CallbackList.Add: nested arrays of functions and arguments that are not functions are not modelled; `this` of a call is part of its arguments.
- Deferreds.FirstCallDecides: is about the machine, whose steps `DeferredObjects` carries out on the lists; `then`, `always`, `pipe` and `jQuery.when`, which only build on it, are not modelled, nor are direct calls of `disable` or `empty` on the inner lists, which the promise does not expose.

Backbone:

- EventLinks.AlwaysConsistent: event maps, names separated by spaces, and `listenTo` without a callback are not modelled; objects and records go by ids.
- EventLinks.StopListeningSilences: is stated for `stopListening()` with the ids of its own table; the selective forms keep the bookkeeping right (`StopListeningConsistent`).
- EventRuns.TriggerIsExact: one object and plain event names; arguments and contexts of handlers are not modelled, and the shared handler arrays are places in a store, because dispatches under way and the table share them.
- ModelEvents.EverythingAnnounced: validation, `previous`, `changedAttributes` and other events that handlers may trigger are not modelled.
- Collections.Collection.Set: comparators, `parse`, merged attributes, events and handlers that change the collection meanwhile are not modelled; ids stay as they are during the call.
- Collections.Collection.ChangeId: the previous id is that before the change; changes nested in "change" handlers are not modelled.

Workflow editor:

- WorkflowCodes.RunUnique: loading a saved project, which may bring duplicate codes, is not modelled; adding a cell and numbering it is one step, and edit boxes edit cells of open tabs.

# state-engine in Dafny

A verified model of the core of state-engine, a library that turns a tree of *controllers*
into a redux state tree. A controller is a plain object whose function-valued properties are
*actions* and whose other properties are *state*. Loading a tree registers every action under
its dotted path. It also registers the action's four *lifecycle* actions: `<path>.$doing`,
`.$done`, `.$error` and `.$idle`. It builds one reducer per node and gathers the initial
state. Dispatching an action by path submits `doing`, runs the handler, and submits `done`
with the handler's response or `error` with what it threw. The library has two
implementations, and both are modelled:

- the class `StateEngineBase` of `src/engine.ts` with its helpers in `src/stateSpace.ts`:
  modules `StateSpace`, `StateSelect`, `StateReducers`, `EngineActions`, `EngineLoad`,
  `EngineDispatch` and the class `Engine.StateEngineBase`;
- the older module-level loader of `src/index.js`: the specification functions in `Legacy`,
  and the module's mutable `instance` as the class `LegacyInstance.Instance`.

JavaScript values are the datatype `Js.Value`. Objects are maps from property names to
values, and property order is not represented. Functions and promises are tagged values. What
a function does when called is a parameter `invoke: (nat, seq<Value>) -> Outcome`, supplied
by the caller of the model. The redux store is represented by the sequence of actions handed
to its `dispatch`.

Where the source mutates state step by step, the model is imperative Dafny. This covers the
engine's registries, `load` with its loops over properties and children, `dispatch`, the
legacy `instance` and its factories' captured data, and the selector's walk. Each method is
proved equal to a specification function of the old state and its inputs. The properties are
proved as lemmas about those functions.

Where specification and code differ, the model follows the code:

- The engine's `getActionByPath` consults an `ActionScope`, which `src/stateSpace.ts` does not
  define. The model returns the expanded table's entry, the `else` branch at
  `src/engine.ts:121-123`.
- `createNaiveReducer` is called with three arguments at `src/engine.ts:264`, but it takes
  two: `actionKeys` and `initState`. `combineSubReducers` is called with an array as its
  current reducer at `src/engine.ts:266`. The engine's reducers are therefore kept as the
  description `EngineLoad.ReducerForm` of the calls that build them. The reducers themselves
  are modelled separately in `StateReducers`.

## Model

| member | source | states |
|---|---|---|
| Js.OrEmpty | src/stateSpace.ts:39 | `v \|\| {}` is truthy; it is `v` when `v` is truthy and `{}` otherwise |
| Js.DefaultState | src/stateSpace.ts:29 | a `state = {}` parameter replaces only undefined |
| Js.Assign | src/stateSpace.ts:115 | `Object.assign`: the keys of both sides; the source's fields win and the target's other fields stay |
| Js.Flatten | src/engine.ts:363-371 | promise adoption never yields a promise as a fulfilled value |
| Js.KeysOf | src/engine.ts:144 | `Object.keys` lists exactly the keys of the object |
| Js.Split | src/stateSpace.ts:36 | `split` yields at least one piece |
| Js.JoinSplit | src/stateSpace.ts:36 | joining the pieces of a split gives back the string |
| Js.SplitFreeOf | src/stateSpace.ts:36 | no piece of a split contains the separator |
| Js.SplitJoin | src/stateSpace.ts:36 | splitting a join of separator-free pieces gives back the pieces |
| StateSpace.GetPropPath | src/stateSpace.ts:25-27 | defines a child's path: the name alone under the root, `<parent>.<name>` below it |
| StateSpace.GetActionNameByStatus | src/stateSpace.ts:20-23 | defines `<action>.$<status>`, with `undefined` for a status that is an own property name of the status array |
| StateSpace.PropPathRoundTrip | src/stateSpace.ts:25-27 | the child name can be read back from `getPropPath(parent, name)` |
| StateSpace.PropPathInjective | src/stateSpace.ts:25-27 | distinct names under one parent get distinct paths |
| StateSpace.StatusName | src/stateSpace.ts:20-23 | the lifecycle identifier of an action is `<action>.$<status value>` |
| StateSpace.StatusNameDecode | src/stateSpace.ts:20-23 | the status suffix and the action name are recovered from a lifecycle identifier |
| StateSpace.StatusNameInjective | src/stateSpace.ts:20-23 | lifecycle identifiers of different actions or statuses differ |
| StateSpace.FourStatusNames | src/stateSpace.ts:20-23 | for every status value the guard at line 21 passes the value through; the four identifiers are distinct |
| StateSpace.StatusOfPropPath | src/stateSpace.ts:20-27 | the identifier of a path under a parent is the parent-path of the identifier |
| StateSpace.ToLower | src/stateSpace.ts:157-161 | lower-casing keeps the length and lower-cases every character in place, ASCII letters only |
| StateSpace.CheckActionType | src/stateSpace.ts:145-152 | a falsy value is unknown; promise iff the value is a promise; sync iff it is a plain function; async iff an async function; generator iff a generator function |
| StateSpace.IsPrivateKey | src/stateSpace.ts:141-143 | defines a private key: longer than one character and starting with `$` |
| StateSpace.CheckPropertyType | src/stateSpace.ts:154-168 | an empty key is unknown; a private key is never an action or a property; action iff the value has a known handler kind, property otherwise |
| StateSpace.ToLowerIdempotent | src/stateSpace.ts:157-161 | lower-casing twice is lower-casing once |
| StateSpace.PrivateKeyIgnoresCase | src/stateSpace.ts:156-162 | a private key is classified by its lower-cased spelling |
| StateSelect.IdentifyStateByAbsolutePath | src/stateSpace.ts:29-46 | the state itself for no path and no name; `{name: state}` for a name alone; otherwise `{last segment or name: value}`, read through parents defaulted with `\|\| {}` |
| StateSelect.Selected | src/stateSpace.ts:29-46 | defines what `identifyStateByAbsolutePath` returns; the method above is proved equal to it |
| StateSelect.DescendPresent | src/stateSpace.ts:38-40 | where every intermediate property is truthy, the defaulting walk is plain nested access |
| StateSelect.SelectedPresentPath | src/stateSpace.ts:29-46 | selecting a present path yields the one-key object holding the value at that path |
| StateSelect.MergeStateToProps | src/stateSpace.ts:48-68 | the as-written state-to-props mapping, props aliasing the state at the empty path |
| StateSelect.MergedAsWritten | src/stateSpace.ts:48-68 | the as-written props are truthy; they are the general fold with props aliasing the state exactly when the current path is empty and the state an object |
| StateSelect.AsWrittenOffRoot | src/stateSpace.ts:50-59 | away from the aliasing case, the as-written props are the intended ones |
| StateSelect.CombineList | src/stateSpace.ts:55-59 | each listed path's selection is assigned into the props in turn |
| StateSelect.CombineNamed | src/stateSpace.ts:60-64 | each named path's selection is assigned into the props under its custom name in turn |
| StateSelect.MergedWith | src/stateSpace.ts:48-68 | the props are truthy |
| StateSelect.StringCombineIsSingletonList | src/stateSpace.ts:52-54 | a string combine is the one-element list; an empty string combines nothing |
| StateSelect.LaterPathWins | src/stateSpace.ts:56-59 | with or without aliasing, one more combined path writes every key of its selection, and every other key of the props so far stays |
| StateSelect.LaterPathWinsAsWritten | src/stateSpace.ts:50-59 | the same for the as-written props, whose last path is selected from the props so far at the root |
| StateSelect.LastCombinedPathReadsState | src/stateSpace.ts:56-59 | the last combined present path contributes the value found at it in the state |
| StateSelect.MergeTwoAtRoot | src/stateSpace.ts:50-59 | at the root, combining two paths is two assignments into the state, the second reading either the updated props (as written) or the state |
| StateSelect.AliasedCombineReadsOwnWrites | src/stateSpace.ts:50-59 | as written, a later path reads a key an earlier path wrote into the state; the fresh version reads the state |
| StateSelect.IdleAction | src/stateSpace.ts:81-83 | a dispatcher's `idle()` submits `{type: <path>.$idle, data: {}}` |
| StateSelect.MergeDispatchToProps | src/stateSpace.ts:69-87 | no dispatchers without action names; otherwise exactly one per name, bound to the name's path |
| StateSelect.DispatchersDistinct | src/stateSpace.ts:76-83 | different names get different paths and different idle actions |
| StateReducers.NaiveReducerBehaviour | src/stateSpace.ts:109-119 | on a listed type a fresh object, the state overridden by `payload.data`; otherwise the state, or the initial state when none is given |
| StateReducers.NaiveReduce | src/stateSpace.ts:113-118 | defines one call of the naive reducer; its behaviour is the row above |
| StateReducers.NaiveReducerHonest | src/stateSpace.ts:113-118 | the naive reducer reports returning its argument only when it does |
| StateReducers.SubResult | src/stateSpace.ts:100 | `reducer(prev, payload) \|\| {}` is truthy |
| StateReducers.Combination | src/stateSpace.ts:92-105 | one call of the combined reducer, as written |
| StateReducers.CombinedAsWritten | src/stateSpace.ts:92-105 | defines one call of `combination` as written, the same reference returned when the current reducer returned its state |
| StateReducers.WriteSubStates | src/stateSpace.ts:96-103 | the loop writes every sub-reducer's result under its key and flags a change iff some sub-reducer changed its slice |
| StateReducers.WrittenAlongIsWhole | src/stateSpace.ts:96-103 | handling keys one by one writes each key's result, whatever the order |
| StateReducers.ChangedAlongIsWhole | src/stateSpace.ts:96-103 | the change flag is raised iff some handled key changed |
| StateReducers.AllKeysHandled | src/stateSpace.ts:96-103 | once every key is handled the loop has written all updates and the flag is the overall change |
| StateReducers.AllKeysWritten | src/stateSpace.ts:96-103 | the fields after the loop are the initial fields overridden by all sub-results |
| StateReducers.CombineKeepsReference | src/stateSpace.ts:104 | when nothing changes, both versions return the state they were given |
| StateReducers.CombineSubKeys | src/stateSpace.ts:100-101 | under every sub-key the result holds that sub-reducer's result, or `{}` for a falsy one |
| StateReducers.CombineOtherKeys | src/stateSpace.ts:94 | every other key holds what the current reducer produced |
| StateReducers.CombinedFreshHonest | src/stateSpace.ts:92-105 | with fresh copies, combining honest reducers gives an honest reducer |
| StateReducers.CombinedFreshReportsChange | src/stateSpace.ts:92-105 | with fresh copies, the result is `===` the state iff nothing changed |
| StateReducers.AliasedCombineHidesChange | src/stateSpace.ts:94-104 | as written, an identity current reducer with a changing sub-reducer returns the given state object, mutated |
| EngineActions.InternalStatusNames | src/engine.ts:79-83 | a lifecycle identifier is internal iff its action is |
| EngineActions.IsInternalAction | src/engine.ts:79-83 | defines an internal action: its name starts with `_` |
| EngineActions.FactoryAction | src/engine.ts:149-165 | defines the action a status factory returns; its shape is the row below |
| EngineActions.FactoryActionShape | src/engine.ts:149-164 | a factory's action has its identifier path as type and `<name>$status` set; error stores the payload under `<name>$error`; done stores it under `<name>$response` and merges an object payload |
| EngineActions.FactoryOf | src/engine.ts:144-167 | a key that expansion treats as a factory is the identifier of a known action and status |
| EngineActions.FactoryOfStatusName | src/engine.ts:144-167 | the factory of an action and status is found again from its identifier |
| EngineActions.ExpandActions | src/engine.ts:126-168 | the loop over action names and statuses yields the expanded table |
| EngineActions.Expanded | src/engine.ts:144-167 | defines the expanded table, independent of the order of the loop; the lemmas below characterise it |
| EngineActions.ExpandAlongEntries | src/engine.ts:144-167 | after expanding some names, the keys are the actions and those names' identifiers, each with its entry |
| EngineActions.ExpandAlongIsExpanded | src/engine.ts:144-167 | expanding every action in any order gives the same table |
| EngineActions.ExpandKeepsOriginals | src/engine.ts:144-167 | every action stays, with its handler unless its name is itself an identifier of another action |
| EngineActions.ExpandInstallsFactories | src/engine.ts:146-165 | every action gets a factory under each of its four identifiers |
| EngineActions.ExpandAddsNothingElse | src/engine.ts:144-167 | every key is an action or an identifier of one |
| EngineActions.NoSecondExpansion | src/engine.ts:144 | the names are taken before the loop: installed factories are not expanded again |
| EngineLoad.PathsOfRegisters | src/engine.ts:86-88 | a path is among the registered paths iff it is the path of one of the names |
| EngineLoad.CacheAlongEntries | src/engine.ts:86-88 | registering names one by one keeps the others and registers each visited key |
| EngineLoad.CacheAlongIsCacheWith | src/engine.ts:85-94 | visiting every key in any order gives the same registry |
| EngineLoad.CacheRegistersEveryKey | src/engine.ts:86-88 | every key of the table is registered under its path, with its name and table |
| EngineLoad.CacheAddsNothingElse | src/engine.ts:86-88 | a path of no key keeps its old registration |
| EngineLoad.ChildResults | src/engine.ts:228-241 | one loaded result per child, in order |
| EngineLoad.LoadResult | src/engine.ts:196-285 | defines what `load` returns for a controller: its name, reducer and states |
| EngineLoad.LoadRegistry | src/engine.ts:196-285 | defines the registries after `load`: the id first, then the children, then the own actions |
| EngineLoad.Resolve | src/engine.ts:116-124 | no entry iff the path is not registered |
| EngineLoad.CachedActionHasLifecycle | src/engine.ts:259-261 | after expand and cache, each action's four identifiers resolve to its factories |
| EngineLoad.LoadKeepsOtherIds | src/engine.ts:205-208 | an id that no controller of the subtree carries keeps its registration |
| EngineLoad.KidsKeepOtherIds | src/engine.ts:228-229 | loading the children keeps the ids none of them carries |
| EngineLoad.LoadRegistersOwnId | src/engine.ts:205-208 | a named controller with an id maps `#<id>` to its path, unless a descendant claims the same id |
| EngineLoad.UnnamedRegistersNoId | src/engine.ts:205-208 | an unnamed controller registers no id |
| EngineLoad.LoadRegistersOwnActions | src/engine.ts:259-261 | each of a controller's actions is registered under its path, after its children have loaded; the only exception is an own action named like another own action's lifecycle identifier |
| EngineLoad.ChildResultsStep | src/engine.ts:228-229 | loading one more child appends what `load` returns for it to the results so far |
| EngineLoad.ChildResultsAll | src/engine.ts:228-241 | every result is its child's, under the child's name |
| EngineLoad.FoldNestNamed | src/engine.ts:236-239 | a named result is gathered under its name where no later result has the same name |
| EngineLoad.FoldSubStateKeys | src/engine.ts:236-239 | the gathered sub-state keys are the names of the named results |
| EngineLoad.FoldMergeUnnamed | src/engine.ts:231-234 | an unnamed result's field is merged in where no later unnamed result has it |
| EngineLoad.FoldStatesUnnamed | src/engine.ts:231-243 | the final states keep an unnamed child's field when nothing later overrides it |
| EngineLoad.NamedChildNested | src/engine.ts:236-243 | a named child's states are nested under its name, replacing an own field of that name |
| EngineLoad.UnnamedChildMerged | src/engine.ts:231-243 | an unnamed child's states are merged into the controller's own, field by field |
| EngineLoad.LeafStates | src/engine.ts:211-220 | without children the states are exactly the converted own properties filed as states |
| EngineLoad.LoadReducerKeys | src/engine.ts:263-266 | the node's reducer starts with its own reducer over every action and its identifiers, or the identity reducer when there are no actions |
| EngineDispatch.BranchOf | src/engine.ts:325-350 | a handler of unknown kind is the only one not run |
| EngineDispatch.CallEntry | src/engine.ts:325-350 | defines calling a table entry: a factory builds its action, a plain function runs, an async function gives a promise, anything else is a TypeError |
| EngineDispatch.StatusStep | src/engine.ts:298-310 | defines one `dispatchByStatus`, with the stand-in error action for a missing lifecycle entry |
| EngineDispatch.DispatchRun | src/engine.ts:287-377 | defines what `dispatch` submits and how it ends, for a given handler-kind `switch` |
| EngineDispatch.SettleRun | src/engine.ts:363-371 | defines what the promise continuation submits and how it settles |
| EngineDispatch.LifecycleStep | src/engine.ts:298-310 | a registered lifecycle submits exactly the factory-built action of its status, with the payload for done and error only |
| EngineDispatch.DispatchChecks | src/engine.ts:288-296 | not loaded throws; a non-string path or an unknown path submits an error action and returns; no doing is submitted |
| EngineDispatch.DoingComesFirst | src/engine.ts:314 | the doing action is submitted first |
| EngineDispatch.SyncHandlerReturns | src/engine.ts:335-359 | a sync handler returning a non-promise: doing, then done with the value, which is returned |
| EngineDispatch.SyncHandlerThrows | src/engine.ts:336-356 | a sync handler that throws: doing, then error with the exception, which is rethrown |
| EngineDispatch.PromiseHandlerPends | src/engine.ts:326-339 | an async function, a generator, a promise or a sync handler returning a promise: only doing is submitted, and the promise is returned |
| EngineDispatch.UnsupportedHandlerThrows | src/engine.ts:348-349 | a handler of unknown kind: doing is submitted, then the unsupported-action error is thrown |
| EngineDispatch.SettleSubmitsOutcome | src/engine.ts:363-371 | a fulfilled promise submits done and passes the value on; a rejected one submits error and rethrows |
| EngineDispatch.AsWrittenSkipsSyncAndAsync | src/engine.ts:325-350 | with the labels as written, sync and async handlers fall to `default` and throw after doing |
| Engine.SortProperties | src/engine.ts:211-220 | the loop over `others` files the converted properties as exactly the own states and actions |
| Engine.SortedAreOwn | src/engine.ts:211-220 | the loop's characterisation of states and actions is the specification's |
| Engine.FoldKidsStep | src/engine.ts:228-241 | folding one more child's result is one step |
| Engine.StateEngineBase.constructor | src/engine.ts:66-76 | empty registries, no reducer, empty initial state, no store |
| Engine.StateEngineBase.AttachStore | src/engine.ts:61 | a store is attached; nothing else changes |
| Engine.StateEngineBase.CacheActions | src/engine.ts:85-94 | the registry becomes the old registry with every key of the table registered |
| Engine.StateEngineBase.GetActionByPath | src/engine.ts:116-124 | no entry iff the path is not registered |
| Engine.StateEngineBase.Load | src/engine.ts:196-285 | the result, the registries and the root reducer and state are the specification's; the store is untouched |
| Engine.StateEngineBase.RegisterName | src/engine.ts:204-208 | the controller's path, and `#<id>` registered for a named controller with an id |
| Engine.StateEngineBase.KeepRoot | src/engine.ts:268-282 | a root keeps its reducer and states, nested under its name when it has one |
| Engine.StateEngineBase.LoadChildren | src/engine.ts:224-244 | the children's results, folded in order, and the registries after loading them |
| Engine.StateEngineBase.LoadChild | src/engine.ts:229 | one child loaded under the current path |
| Engine.StateEngineBase.DispatchByStatus | src/engine.ts:298-310 | submits what the lifecycle step submits and returns what it throws |
| Engine.StateEngineBase.Dispatch | src/engine.ts:287-377 | submits exactly what the dispatch specification submits and ends as it does, with the corrected `switch` `BranchOf`; the `switch` as written is the third finding |
| Engine.StateEngineBase.Settle | src/engine.ts:363-371 | the promise continuation submits and settles as specified |
| Legacy.CreateReduceIsNaive | src/index.js:55-66 | the legacy reducer is the naive reducer over the same keys with `initState \|\| {}` |
| Legacy.CreateReduce | src/index.js:55-66 | defines one call of the legacy reducer; its behaviour is the row below |
| Legacy.CreateReduceBehaviour | src/index.js:60-65 | on a listed type a fresh merge of state and `action.data`; otherwise the given state, or `initState \|\| {}` when none is given |
| Legacy.StringKeyIsList | src/index.js:56-59 | a string key behaves as the one-element list |
| Legacy.IsPrefixed | src/index.js:68 | a key is private iff it is longer than `$` and starts with it; the same test as the engine's |
| Legacy.WalkOwnPath | src/index.js:191-198 | along own properties the walk is nested access, keyed by the last segment |
| Legacy.WalkThrowStays | src/index.js:193-198 | once the walk has asked null or undefined, it throws whatever follows |
| Legacy.WalkSkipsMissing | src/index.js:194 | a segment that is not an own property is skipped, not an error |
| Legacy.SelectThrowStays | src/index.js:185-208 | a thrown selection entry makes the selector throw |
| Legacy.Selection | src/index.js:183-210 | defines the selector's result: a TypeError when the walk throws, the targets or `{}` otherwise |
| Legacy.RootSelectsState | src/index.js:188-189 | with no `$combine`, the root selector yields the whole state |
| Legacy.NodeSelectsOwnSlice | src/index.js:190-201 | at a node with no `$combine`, a present path yields the node's slice |
| Legacy.RootCombineWritesIntoState | src/index.js:185-209 | at the root, a string `$combine` writes the value it names into the state under its last segment |
| Legacy.LastKeyEmpty | src/index.js:89-93 | no key is found iff every segment is empty |
| Legacy.LastKeySkipsTrailingEmpty | src/index.js:89-93 | the key found is the last non-empty segment |
| Legacy.RegisterFunction | src/index.js:85-120 | defines the action table after loading a function at a path |
| Legacy.LoadTree | src/index.js:75-246 | defines the loaded data and module state after `load` |
| Legacy.StatusKeysDistinct | src/index.js:101 | the factory keys of a path differ from it and from each other |
| Legacy.InstallStatuses | src/index.js:99-117 | the factory loop installs doing, done and error in turn |
| Legacy.FunctionRegistersFactories | src/index.js:89-117 | a function at a path with a non-empty segment is registered there, with three factories whose data is `{<key>Status: <status>}` |
| Legacy.RegisteredHasFactories | src/index.js:94-117 | a function registered at a path with a non-empty segment has its three factories with their initial data |
| Legacy.FunctionKeepsOtherKeys | src/index.js:94-117 | registering a function changes no other key |
| Legacy.ActionPathsGrow | src/index.js:127-153 | gathered action paths only grow along the loop |
| Legacy.FunctionChildAddsPaths | src/index.js:136-143 | a function child at `p` adds `p.$doing`, `p.$done`, `p.$error` and `p` to the action paths |
| Legacy.IndexKeyHoldsOwnReducer | src/index.js:154-160 | with sub-reducers the node's own reducer goes under `__index__` beside them |
| Legacy.DoneFactoryAccumulates | src/index.js:102-108 | successive calls of one done factory accumulate fields in its captured data |
| Legacy.StatusCall | src/index.js:36-42 | calling a status factory keeps the keys of the action table |
| Legacy.DispatchActionRun | src/index.js:31-45 | defines what `dispatchAction` submits, the table after it and how it settles |
| Legacy.DispatchRun | src/index.js:47-52 | defines the three checks of `dispatch`, then `dispatchAction` |
| Legacy.DispatchChecks | src/index.js:47-50 | not loaded, a non-string name or an unknown name rejects, submitting nothing |
| Legacy.DispatchDone | src/index.js:31-40 | a handler returning `v`, whatever the factories' captured data: doing with its data, then done with `v`'s fields merged into its data, which the table keeps; resolves to `v` |
| Legacy.DispatchDoneKeepsFactories | src/index.js:31-40 | after a successful dispatch the handler and all three factories stay registered, done's data grown by `v` |
| Legacy.DispatchError | src/index.js:36-44 | a handler throwing `e`, whatever the factories' captured data: doing, then error with `e` under `<key>Error` in its data, which the table keeps; rejects with `e` |
| Legacy.DoneActionSetsStatus | src/index.js:60-63 | the done action, through the node's reducer, sets `<key>Status` to "done" |
| LegacyInstance.PopKey | src/index.js:89-93 | the popping loop finds the last non-empty segment |
| LegacyInstance.WalkPath | src/index.js:191-198 | the walk that reassigns `x` and `subkey` is the specification's walk |
| LegacyInstance.Select | src/index.js:183-210 | the selector loop gives the specification's selection |
| LegacyInstance.Instance.constructor | src/index.js:10-15 | nothing loaded, no store, nothing submitted |
| LegacyInstance.Instance.CreateStore | src/index.js:18-29 | the existing store, else a new one when reducers are loaded, else none |
| LegacyInstance.Instance.LoadFunction | src/index.js:85-120 | the action table after registering a function at a path |
| LegacyInstance.Instance.Load | src/index.js:75-246 | the loaded data and the module state are the specification's |
| LegacyInstance.Instance.KeepReducer | src/index.js:154-161 | the node's reducer, kept as root at the empty path |
| LegacyInstance.Instance.LoadProps | src/index.js:127-153 | the loop over own properties gathers and registers as specified |
| LegacyInstance.Instance.LoadProp | src/index.js:128-151 | one own property: skipped when private, loaded and folded in otherwise |
| LegacyInstance.Instance.CallAt | src/index.js:105-115 | an entry call, keeping what a factory wrote into its data |
| LegacyInstance.Instance.CallStatus | src/index.js:36-42 | a status factory call, a TypeError when the factory is missing |
| LegacyInstance.Instance.Submit | src/index.js:36 | the store's dispatch receives the action |
| LegacyInstance.Instance.Recover | src/index.js:41-44 | the catch submits the error action and rethrows |
| LegacyInstance.Instance.DispatchAction | src/index.js:31-45 | submits, updates the table and settles as the specification says |
| LegacyInstance.Instance.Dispatch | src/index.js:47-52 | the checks, then `dispatchAction`, as specified |

## Left out

- `src/index.ts`, which re-exports the engine, is not part of this model.
- `StateSelect.Selected`: `Js.Get` reads only the fields of plain objects, so an array index, a
  string index or `length` read along a path gives undefined in the model. A `null` state with
  a non-empty path throws a TypeError in JavaScript (`src/stateSpace.ts:39`, `42-43`); the model
  gives `{<key>: undefined}` there. The same holds for `StateSelect.IdentifyStateByAbsolutePath`
  and for `StateSelect.MergeStateToProps`, which selects through it.
- `StateSpace.GetActionNameByStatus`: the guard `status in Object.keys(ActionStatus)` also
  accepts inherited names such as `push` or `constructor`, for which JavaScript then reads
  `ActionStatus[status]` (`src/stateSpace.ts:21-22`). The model uses those names verbatim. Every
  caller passes one of the four status values.
- `Legacy.Selection`: at the root `targets` is the state itself (`src/index.js:189`), so a later
  `$combine` walk reads what an earlier one wrote into it. For the state `{a: {b: 1}, b: {c: 2}}`
  and `$combine` `["a.b", "b.c"]` JavaScript gives `{a: {b: 1}, b: 1}` and the model
  `{a: {b: 1}, b: 1, c: 2}`. The writes can place the state inside itself, which values cannot
  represent; each walk therefore reads the state as it was passed in.
- `Legacy.Put`: a write into an array or function target is dropped; JavaScript sets the
  property.
- `Legacy.WalkStep`: a function's own properties, such as `name` and `length`, are not seen.
- `Legacy.LoadTree`: the lemmas do not require `Legacy.WellFormedTree`; a `Leaf` holding an
  object, null or a promise goes through the leaf branch, where `src/index.js:121` sends objects
  to the object branch.
- Views are not modelled, because they need redux `connect` and React. This covers
  `connectView`, `getView`, `viewCache`, `rootView`, `views` and the view assembler
  (`src/engine.ts:170-183`, `248-258`). It also covers the legacy page connection through
  `connecter` and `withRouter`, and `instance.pages` (`src/index.js:179-181`, `226`). The
  legacy dispatchers (`src/index.js:212-225`) refer to an undefined `actionHandler` at
  `src/index.js:217`; they are part of the view binding and are left out. The selector of that
  binding, `$combine` included (`src/index.js:165-210`), is modelled as `Legacy.Selection`.
- `Legacy.RegisterFunction`: at the empty path the function itself becomes `instance.actions`
  (`src/index.js:86-87`). The model gives an empty table there; the function's own and
  inherited properties are not modelled as actions.
- `load` returns `instance.pages` at the empty path (`src/index.js:241-243`). The model
  returns the loaded data there.
- `middlewareForBindingActionScope` (`src/engine.ts:96-114`) and the `actionScopeCache` are
  not modelled. `ActionScope` and `getActionStatusByName` are imported but not defined in
  `src/stateSpace.ts`. `getActionByPath` is modelled without the action scope, and the
  handler's receiver `that` is not modelled.
- Redux `createStore`, `combineReducers` and `applyMiddleware` are not modelled, nor are
  `redux-thunk`, `co` and `console.log`. The store's `dispatch` is modelled as appending to
  `submitted`, and it is taken to return the action it is given, as redux's own `dispatch`
  does; a middleware that changes that value, and a store that throws, are not modelled.
  `EngineLoad.ReduxCombine` and `Legacy.Combined` record a `combineReducers` call without its
  behaviour.
- A generator handler's run through `co` is the caller-supplied outcome of `invoke`.
- `Object.prototype.toString` is modelled by the value's tag. The model distinguishes plain,
  async and generator functions, and promises. Other host objects report as unknown.
- Property order is not modelled, and objects are maps. Integer-like keys of a `$combine`
  object are enumerated first in JavaScript; the model keeps insertion order for them.
- `Object.assign` with a string or array source copies its indexed elements. `Js.FieldsOf`
  treats those sources as empty.
- `EngineLoad.Controller`: a missing `$children`, one that is not an array, and an empty array
  all load as no children. A non-string `$name` or `$id` counts as absent.
- `EngineActions.ExpandActions` returns the expanded table. It does not model that JavaScript
  mutates the `actions` object in place; the engine reads that object only after expansion.
- `StateSelect` and `StateReducers` return the objects the source mutates as new values. The
  aliasing effects that matter are modelled explicitly through an `aliased` flag and a `same`
  flag, and the findings below are stated with them. The legacy selector's writes into the
  store's own state at the empty path (`Legacy.RootCombineWritesIntoState`) appear only in the
  returned value.
- `LegacyInstance.Instance.Submit`: a submitted legacy action is a snapshot of its factory's
  data. In the source, later calls of the same factory also change actions submitted earlier,
  because they share one `data` object.
- `Legacy.WalkStep` treats strings and arrays as having no own properties.
  `"ab".hasOwnProperty("0")` holds in JavaScript.
- `Legacy.CombineSpec`: `$combine` entries that are not strings are not modelled. The
  selector calls `split` on them.
- `Legacy.GatherProps`: a property named `""` at the root is loaded at the empty path, as in
  the source. The source then destructures the `instance.pages` that this nested `load`
  returns; that is not modelled.
- `Legacy.LoadTree`: actions on the prototype of `instance.actions`, such as `call`, which
  exists when the root itself is a function, are not modelled. A leaf that is an object other
  than a plain object is treated as the object branch with no own properties.
- `EngineDispatch.UnsupportedAction`: the message includes the handler's source text in
  JavaScript. The model leaves it out.
- `src/engine.ts:372-376` (the throw when no promise was produced) is unreachable under both
  the written and the corrected `switch`. It is not modelled.
- Timing of asynchronous steps is abstracted: `DispatchRun` gives what is submitted
  synchronously, and `SettleRun` gives what the promise continuation submits later. Legacy
  dispatch is an `async` function, and it is modelled as its submissions and its settlement.
- Floating-point numbers are unbounded integers, and NaN is not modelled.

## Findings

| source | as written | input that shows it | evidently intended | confidence | as-written member | corrected member |
|---|---|---|---|---|---|---|
| src/stateSpace.ts:94-104 | when the current reducer returns `state` itself, `nextState` is `state`, so the sub-results are written into the given state and the same object is returned although `hasChanged` is true | current reducer `(s) => s` (a node without actions), one sub-reducer `c` producing `{x: 1}`, state `{}` | a fresh `nextState` whenever anything changed, as redux `combineReducers` does | not executed | StateReducers.AliasedCombineHidesChange | StateReducers.CombinedFreshReportsChange |
| src/stateSpace.ts:50-59 | at the empty current path `props` is the state object, and `Object.assign(props, ...)` writes each selection into the state, so a later combined path reads what an earlier one wrote | state `{x: {y: 1}, y: {z: v}}`, current path `""`, combine `["x.y", "y.z"]`: `props.z` is undefined | every combined path is selected from the state as passed in (`props.z` is `v`) | not executed | StateSelect.AliasedCombineReadsOwnWrites | StateSelect.LastCombinedPathReadsState |
| src/engine.ts:325-350 | the labels `ActionType.asyncFunction`, `asyncArrowFunction`, `syncFunction` and `syncArrowFunction` are not members of `ActionType` (`src/stateSpace.ts:133-139`), so they are undefined and sync and async handlers fall to `default` | dispatching a controller action that is a plain function: doing is submitted, then `unsupported action` is thrown | the `sync` and `async` cases run the handler | not executed | EngineDispatch.AsWrittenSkipsSyncAndAsync | EngineDispatch.SyncHandlerReturns |

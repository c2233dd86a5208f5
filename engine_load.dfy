/** What `StateEngineBase.load` of src/engine.ts computes, as functions of the controller tree:
    the registries it fills, the initial states it gathers and a description of the reducer
    it assembles. */
module EngineLoad {
  import opened Js
  import opened StateSpace
  import opened EngineActions

  /** `{name, actionScope, expandedActions}`: the action registered under a path, with the
      expanded table it belongs to (the action scope is not modelled). */
  datatype CacheEntry = CacheEntry(name: string, expandedActions: map<string, ActionEntry>)

  /** The absolute paths of `names` under `currentPath`. */
  function PathsOf(currentPath: string, names: set<string>): set<string> {
    set k | k in names :: GetPropPath(currentPath, k)
  }

  /** `p` is the path of one of `names` under `currentPath`. */
  predicate Registers(currentPath: string, names: set<string>, p: string) {
    ChildName(currentPath, p) in names && GetPropPath(currentPath, ChildName(currentPath, p)) == p
  }

  lemma PathsOfRegisters(currentPath: string, names: set<string>, p: string)
    ensures p in PathsOf(currentPath, names) <==> Registers(currentPath, names, p)
  {
    if p in PathsOf(currentPath, names) {
      var k :| k in names && p == GetPropPath(currentPath, k);
      PropPathRoundTrip(currentPath, k);
    }
  }

  /** The action registry after `cacheActions(currentPath, _, table)`. */
  function CacheWith(cache: map<string, CacheEntry>, currentPath: string, table: map<string, ActionEntry>)
    : map<string, CacheEntry>
  {
    map p | p in cache.Keys + PathsOf(currentPath, table.Keys) ::
      if Registers(currentPath, table.Keys, p) then CacheEntry(ChildName(currentPath, p), table) else cache[p]
  }

  /** The registry after the loop of `cacheActions` has visited `names`, in that order. */
  function CacheAlong(cache: map<string, CacheEntry>, currentPath: string, table: map<string, ActionEntry>,
                      names: seq<string>): map<string, CacheEntry>
  {
    if names == [] then cache
    else CacheAlong(cache, currentPath, table, AllButLast(names))
           [GetPropPath(currentPath, Last(names)) := CacheEntry(Last(names), table)]
  }

  lemma {:induction false} CacheAlongEntries(cache: map<string, CacheEntry>, currentPath: string,
                                             table: map<string, ActionEntry>, names: seq<string>)
    ensures forall p :: p in CacheAlong(cache, currentPath, table, names)
              <==> p in cache || Registers(currentPath, NameSet(names), p)
    ensures forall p :: p in CacheAlong(cache, currentPath, table, names) ==>
              CacheAlong(cache, currentPath, table, names)[p]
              == if Registers(currentPath, NameSet(names), p) then CacheEntry(ChildName(currentPath, p), table) else cache[p]
  {
    if names != [] {
      var prefix := AllButLast(names);
      var n := Last(names);
      CacheAlongEntries(cache, currentPath, table, prefix);
      assert NameSet(names) == NameSet(prefix) + {n} by {
        assert names == prefix + [n];
      }
      PropPathRoundTrip(currentPath, n);
    }
  }

  /** Visiting every key of the table, in any order, gives `CacheWith`. */
  lemma CacheAlongIsCacheWith(cache: map<string, CacheEntry>, currentPath: string,
                              table: map<string, ActionEntry>, names: seq<string>)
    requires forall k :: k in names <==> k in table
    ensures CacheAlong(cache, currentPath, table, names) == CacheWith(cache, currentPath, table)
  {
    CacheAlongEntries(cache, currentPath, table, names);
    assert NameSet(names) == table.Keys;
    forall p ensures p in CacheWith(cache, currentPath, table) <==> p in cache || Registers(currentPath, table.Keys, p) {
      PathsOfRegisters(currentPath, table.Keys, p);
    }
  }

  /** Every key of the table is registered under its path, with its name and the table. */
  lemma CacheRegistersEveryKey(cache: map<string, CacheEntry>, currentPath: string,
                               table: map<string, ActionEntry>, k: string)
    requires k in table
    ensures GetPropPath(currentPath, k) in CacheWith(cache, currentPath, table)
    ensures CacheWith(cache, currentPath, table)[GetPropPath(currentPath, k)] == CacheEntry(k, table)
  {
    PropPathRoundTrip(currentPath, k);
  }

  /** Nothing else changes: a path that is not the path of a key keeps its old registration. */
  lemma CacheAddsNothingElse(cache: map<string, CacheEntry>, currentPath: string,
                             table: map<string, ActionEntry>, p: string)
    requires forall k :: k in table ==> p != GetPropPath(currentPath, k)
    ensures p in CacheWith(cache, currentPath, table) <==> p in cache
    ensures p in cache ==> CacheWith(cache, currentPath, table)[p] == cache[p]
  {
    PathsOfRegisters(currentPath, table.Keys, p);
  }

  /** A controller: its own properties other than `$children`, and its children; a missing
      `$children`, one that is not an array and an empty one are all loaded alike, as no children. */
  datatype Controller = Controller(props: map<string, Value>, children: seq<Controller>)

  /** A reserved key, taken out of the controller by destructuring before properties are classified. */
  predicate Reserved(k: string) {
    k == "$name" || k == "$id" || k == "$view" || k == "$combine" || k == "$children"
  }

  /** `...others` */
  function Others(c: Controller): map<string, Value> {
    map k | k in c.props && !Reserved(k) :: c.props[k]
  }

  /** `$name`, when it is a string; "" stands for a missing or empty name. */
  function NameOf(c: Controller): string {
    match Get(Obj(c.props), "$name")
    case Str(s) => s
    case _ => ""
  }

  /** `$id`, when it is a string. */
  function IdOf(c: Controller): string {
    match Get(Obj(c.props), "$id")
    case Str(s) => s
    case _ => ""
  }

  /** The path of a controller's state slice: the parent's, extended by `$name` when it has one. */
  function CurrentPath(c: Controller, parentPath: string): string {
    if NameOf(c) != "" then GetPropPath(parentPath, NameOf(c)) else parentPath
  }

  /** The reducer `load` assembles, as a description of the calls that build it: the calls
      in src/engine.ts do not match the signatures of the helpers they name. */
  datatype ReducerForm =
      /** `createNaiveReducer(currentPath, Object.keys(actions), states)` */
    | NaiveCall(currentPath: string, actionKeys: set<string>, initState: map<string, Value>)
      /** `(stateInst = states) => stateInst` */
    | IdentityWithDefault(initState: map<string, Value>)
      /** `combineSubReducers([currentReducer, ...neighborReducers], subReducers)` */
    | CombineCall(reducers: seq<ReducerForm>, subReducers: map<string, ReducerForm>)
      /** redux `combineReducers(reducerObj)` */
    | ReduxCombine(reducerObj: map<string, ReducerForm>)

  /** `{name, reducer, states}` returned by `load` (views are not modelled). */
  datatype Loaded = Loaded(name: string, reducer: ReducerForm, states: map<string, Value>)

  /** The two registries `load` fills: actions by path, and `#<id>` to path. */
  datatype Registry = Registry(actionCache: map<string, CacheEntry>, namedPathCache: map<string, string>)

  /** What the loop over the children has gathered so far. */
  datatype Kids = Kids(states: map<string, Value>, neighbors: seq<ReducerForm>,
                       subReducers: map<string, ReducerForm>, subStates: map<string, Value>)

  /** The converted own properties filed as states. */
  function OwnStates(others: map<string, Value>, converter: Value -> Value): map<string, Value> {
    map k | k in others && CheckPropertyType(k, converter(others[k])) == Property :: converter(others[k])
  }

  /** The converted own properties filed as actions. */
  function OwnActions(others: map<string, Value>, converter: Value -> Value): map<string, Value> {
    map k | k in others && CheckPropertyType(k, converter(others[k])) == Action :: converter(others[k])
  }

  /** `#<id> -> currentPath`, when the controller is named and has an id. */
  function RegisterId(reg: Registry, c: Controller, currentPath: string): Registry {
    if NameOf(c) != "" && IdOf(c) != "" then reg.(namedPathCache := reg.namedPathCache["#" + IdOf(c) := currentPath])
    else reg
  }

  /** One child's result folded into what the loop has gathered: an unnamed child's reducer
      joins the neighbours and its states are merged in; a named child is nested under its name. */
  function AddKid(acc: Kids, res: Loaded): Kids {
    if res.name == "" then acc.(neighbors := acc.neighbors + [res.reducer], states := acc.states + res.states)
    else acc.(subReducers := acc.subReducers[res.name := res.reducer], subStates := acc.subStates[res.name := Obj(res.states)])
  }

  /** The reducer of the node's own actions. */
  function CurrentReducer(currentPath: string, table: map<string, ActionEntry>, states: map<string, Value>): ReducerForm {
    if |table| > 0 then NaiveCall(currentPath, table.Keys, states) else IdentityWithDefault(states)
  }

  /** What `load(controller, params, parentPath, false)` returns. */
  function LoadResult(c: Controller, converter: Value -> Value, parentPath: string): Loaded
    decreases c
  {
    var currentPath := CurrentPath(c, parentPath);
    var own := OwnStates(Others(c), converter);
    var table := Expanded(currentPath, OwnActions(Others(c), converter));
    var kidsStart := Kids(own, [], map[], map[]);
    var kids := FoldKids(kidsStart, ChildResults(c, |c.children|, converter, currentPath));
    var states := kids.states + kids.subStates;
    Loaded(NameOf(c), CombineCall([CurrentReducer(currentPath, table, states)] + kids.neighbors, kids.subReducers), states)
  }

  /** What `load` returns for the first `n` children of `parent`, in order. */
  function ChildResults(parent: Controller, n: nat, converter: Value -> Value, currentPath: string): (r: seq<Loaded>)
    requires n <= |parent.children|
    ensures |r| == n
    decreases parent, n
  {
    seq(n, j requires 0 <= j < n => LoadResult(parent.children[j], converter, currentPath))
  }

  /** The results of one more child extend the results so far by that child's. */
  lemma ChildResultsStep(parent: Controller, i: nat, converter: Value -> Value, currentPath: string)
    requires i < |parent.children|
    ensures ChildResults(parent, i + 1, converter, currentPath)
            == ChildResults(parent, i, converter, currentPath) + [LoadResult(parent.children[i], converter, currentPath)]
  {
    var longer := ChildResults(parent, i + 1, converter, currentPath);
    var before := ChildResults(parent, i, converter, currentPath);
    forall j | 0 <= j < i
      ensures longer[j] == (before + [LoadResult(parent.children[i], converter, currentPath)])[j]
    {
      assert longer[j] == before[j];
    }
  }

  /** The loop over the children's results, in order: what it gathers. */
  function FoldKids(acc: Kids, results: seq<Loaded>): Kids {
    if results == [] then acc else AddKid(FoldKids(acc, AllButLast(results)), Last(results))
  }

  /** The root reducer and initial state after `load(..., isRoot)` returned `res`: an unnamed
      root's reducer and states are kept as they are, a named root's are placed under its name;
      loading a child keeps them. */
  function RootAfter(isRoot: bool, res: Loaded, roots: (Option<ReducerForm>, map<string, Value>))
    : (Option<ReducerForm>, map<string, Value>)
  {
    if !isRoot then roots
    else if res.name == "" then (Some(res.reducer), res.states)
    else (Some(ReduxCombine(map[res.name := res.reducer])), roots.1[res.name := Obj(res.states)])
  }

  /** The registries after `load(controller, params, parentPath, false)`: the `#<id>` entry
      first, then the children's registrations, then the node's own actions. */
  function LoadRegistry(reg: Registry, c: Controller, converter: Value -> Value, parentPath: string): Registry
    decreases c
  {
    var currentPath := CurrentPath(c, parentPath);
    var reg1 := RegisterId(reg, c, currentPath);
    var kidsReg := KidsRegistry(reg1, c, |c.children|, converter, currentPath);
    kidsReg.(actionCache := CacheWith(kidsReg.actionCache, currentPath, Expanded(currentPath, OwnActions(Others(c), converter))))
  }

  /** The registries after the loop has loaded the first `n` children of `parent`. */
  function KidsRegistry(reg: Registry, parent: Controller, n: nat, converter: Value -> Value, currentPath: string): Registry
    requires n <= |parent.children|
    decreases parent, n
  {
    if n == 0 then reg
    else LoadRegistry(KidsRegistry(reg, parent, n - 1, converter, currentPath), parent.children[n - 1], converter, currentPath)
  }

  /** `getActionByPath` without the action scope: the entry registered under `path`, if any;
      a registration whose name is missing from its table resolves to undefined. */
  function Resolve(cache: map<string, CacheEntry>, path: string): (r: Option<ActionEntry>)
    ensures r.None? <==> path !in cache
  {
    if path !in cache then None
    else
      var entry := cache[path];
      Some(if entry.name in entry.expandedActions then entry.expandedActions[entry.name] else Handler(Undefined))
  }

  /** The four lifecycle identifiers of `path` resolve to the factories of action `a`, which
      build actions typed with those identifiers. */
  predicate HasLifecycle(cache: map<string, CacheEntry>, path: string, a: string) {
    forall s :: Resolve(cache, StatusName(path, s)) == Some(StatusFactory(a, s, StatusName(path, s)))
  }

  /** After `expandActions` and `cacheActions`, every action of the table resolves to its
      handler (unless its name is itself the lifecycle identifier of another action) and
      has its lifecycle registered. */
  lemma CachedActionHasLifecycle(cache: map<string, CacheEntry>, currentPath: string,
                                 actions: map<string, Value>, a: string)
    requires a in actions
    ensures HasLifecycle(CacheWith(cache, currentPath, Expanded(currentPath, actions)), GetPropPath(currentPath, a), a)
    ensures (forall b, s :: b in actions ==> a != StatusName(b, s)) ==>
            Resolve(CacheWith(cache, currentPath, Expanded(currentPath, actions)), GetPropPath(currentPath, a))
            == Some(Handler(actions[a]))
  {
    var table := Expanded(currentPath, actions);
    var path := GetPropPath(currentPath, a);
    forall s ensures Resolve(CacheWith(cache, currentPath, table), StatusName(path, s))
                     == Some(StatusFactory(a, s, StatusName(path, s))) {
      ExpandInstallsFactories(currentPath, actions, a, s);
      StatusOfPropPath(currentPath, a, s);
      CacheRegistersEveryKey(cache, currentPath, table, StatusName(a, s));
    }
    ExpandKeepsOriginals(currentPath, actions, a);
    CacheRegistersEveryKey(cache, currentPath, table, a);
  }

  /** The `#<id>` keys registered by the named controllers with an id in the subtree of `c`. */
  function IdKeys(c: Controller): set<string>
    decreases c
  {
    (if NameOf(c) != "" && IdOf(c) != "" then {"#" + IdOf(c)} else {}) + KidsIdKeys(c, |c.children|)
  }

  /** The `#<id>` keys registered under the first `n` children of `parent`. */
  function KidsIdKeys(parent: Controller, n: nat): set<string>
    requires n <= |parent.children|
    decreases parent, n
  {
    if n == 0 then {} else KidsIdKeys(parent, n - 1) + IdKeys(parent.children[n - 1])
  }

  /** A `#<id>` that no controller of the subtree carries keeps its registration. */
  lemma {:induction false} LoadKeepsOtherIds(reg: Registry, c: Controller, converter: Value -> Value,
                                             parentPath: string, key: string)
    requires key !in IdKeys(c)
    ensures key in LoadRegistry(reg, c, converter, parentPath).namedPathCache <==> key in reg.namedPathCache
    ensures key in reg.namedPathCache ==>
            LoadRegistry(reg, c, converter, parentPath).namedPathCache[key] == reg.namedPathCache[key]
    decreases c, 1
  {
    if |c.children| > 0 {
      var currentPath := CurrentPath(c, parentPath);
      KidsKeepOtherIds(RegisterId(reg, c, currentPath), c, |c.children|, converter, currentPath, key);
    }
  }

  lemma {:induction false} KidsKeepOtherIds(reg: Registry, parent: Controller, n: nat, converter: Value -> Value,
                                            currentPath: string, key: string)
    requires n <= |parent.children| && key !in KidsIdKeys(parent, n)
    ensures key in KidsRegistry(reg, parent, n, converter, currentPath).namedPathCache <==> key in reg.namedPathCache
    ensures key in reg.namedPathCache ==>
            KidsRegistry(reg, parent, n, converter, currentPath).namedPathCache[key] == reg.namedPathCache[key]
    decreases parent, 0, n
  {
    if n > 0 {
      KidsKeepOtherIds(reg, parent, n - 1, converter, currentPath, key);
      LoadKeepsOtherIds(KidsRegistry(reg, parent, n - 1, converter, currentPath), parent.children[n - 1],
                        converter, currentPath, key);
    }
  }

  /** `#<$id>` maps to the controller's path once it is loaded, when the controller is named
      and no controller below it carries the same id. */
  lemma LoadRegistersOwnId(reg: Registry, c: Controller, converter: Value -> Value, parentPath: string)
    requires NameOf(c) != "" && IdOf(c) != ""
    requires "#" + IdOf(c) !in KidsIdKeys(c, |c.children|)
    ensures "#" + IdOf(c) in LoadRegistry(reg, c, converter, parentPath).namedPathCache
    ensures LoadRegistry(reg, c, converter, parentPath).namedPathCache["#" + IdOf(c)]
            == GetPropPath(parentPath, NameOf(c))
  {
    if |c.children| > 0 {
      var currentPath := CurrentPath(c, parentPath);
      KidsKeepOtherIds(RegisterId(reg, c, currentPath), c, |c.children|, converter, currentPath, "#" + IdOf(c));
    }
  }

  /** An unnamed controller registers no id of its own, whatever its `$id`. */
  lemma UnnamedRegistersNoId(c: Controller)
    requires NameOf(c) == ""
    ensures IdKeys(c) == KidsIdKeys(c, |c.children|)
  {
  }

  /** Once a controller is loaded, each of its actions is registered under its path with its
      handler and its lifecycle: its own registrations come after its children's. */
  lemma LoadRegistersOwnActions(reg: Registry, c: Controller, converter: Value -> Value, parentPath: string, a: string)
    requires a in OwnActions(Others(c), converter)
    ensures var actions := OwnActions(Others(c), converter);
            var cache := LoadRegistry(reg, c, converter, parentPath).actionCache;
            && HasLifecycle(cache, GetPropPath(CurrentPath(c, parentPath), a), a)
            && ((forall b, s :: b in actions ==> a != StatusName(b, s)) ==>
                Resolve(cache, GetPropPath(CurrentPath(c, parentPath), a)) == Some(Handler(actions[a])))
  {
    var currentPath := CurrentPath(c, parentPath);
    var reg1 := RegisterId(reg, c, currentPath);
    var kidsReg := KidsRegistry(reg1, c, |c.children|, converter, currentPath);
    CachedActionHasLifecycle(kidsReg.actionCache, currentPath, OwnActions(Others(c), converter), a);
  }

  /** Each child's result is what `load` returns for it. */
  /** A named result, gathered where no later result has the same name. */
  lemma {:induction false} FoldNestNamed(acc: Kids, results: seq<Loaded>, i: nat)
    requires i < |results| && results[i].name != ""
    requires forall j :: i < j < |results| ==> results[j].name != results[i].name
    ensures results[i].name in FoldKids(acc, results).subStates
    ensures FoldKids(acc, results).subStates[results[i].name] == Obj(results[i].states)
  {
    if i < |results| - 1 {
      FoldNestNamed(acc, AllButLast(results), i);
    }
  }

  /** Which keys the named results add to the gathered sub-states. */
  lemma {:induction false} FoldSubStateKeys(acc: Kids, results: seq<Loaded>, k: string)
    requires forall j :: 0 <= j < |results| ==> results[j].name != k
    ensures k in FoldKids(acc, results).subStates <==> k in acc.subStates
  {
    if results != [] {
      FoldSubStateKeys(acc, AllButLast(results), k);
    }
  }

  /** An unnamed result's state field, merged in where no later unnamed result has the field. */
  lemma {:induction false} FoldMergeUnnamed(acc: Kids, results: seq<Loaded>, i: nat, k: string)
    requires i < |results| && results[i].name == "" && k in results[i].states
    requires forall j :: i < j < |results| && results[j].name == "" ==> k !in results[j].states
    ensures k in FoldKids(acc, results).states
    ensures FoldKids(acc, results).states[k] == results[i].states[k]
  {
    if i < |results| - 1 {
      FoldMergeUnnamed(acc, AllButLast(results), i, k);
    }
  }

  lemma ChildResultsAll(parent: Controller, converter: Value -> Value, currentPath: string)
    ensures forall j :: 0 <= j < |parent.children| ==>
              ChildResults(parent, |parent.children|, converter, currentPath)[j] == LoadResult(parent.children[j], converter, currentPath)
    ensures forall j :: 0 <= j < |parent.children| ==>
              ChildResults(parent, |parent.children|, converter, currentPath)[j].name == NameOf(parent.children[j])
  {
  }

  /** The gathered states keep an unnamed result's field when no later unnamed result and no
      named result overrides it. */
  lemma FoldStatesUnnamed(acc: Kids, results: seq<Loaded>, i: nat, k: string)
    requires i < |results| && results[i].name == "" && k in results[i].states
    requires forall j :: i < j < |results| && results[j].name == "" ==> k !in results[j].states
    requires forall j :: 0 <= j < |results| ==> results[j].name != k
    requires k !in acc.subStates
    ensures var kids := FoldKids(acc, results);
            k in kids.states + kids.subStates && (kids.states + kids.subStates)[k] == results[i].states[k]
  {
    FoldMergeUnnamed(acc, results, i, k);
    FoldSubStateKeys(acc, results, k);
  }

  /** A named child's states are nested under its name, replacing any own field of that name;
      the last child of a name wins. */
  lemma NamedChildNested(c: Controller, converter: Value -> Value, parentPath: string, i: nat)
    requires i < |c.children| && NameOf(c.children[i]) != ""
    requires forall j :: i < j < |c.children| ==> NameOf(c.children[j]) != NameOf(c.children[i])
    ensures NameOf(c.children[i]) in LoadResult(c, converter, parentPath).states
    ensures LoadResult(c, converter, parentPath).states[NameOf(c.children[i])]
            == Obj(LoadResult(c.children[i], converter, CurrentPath(c, parentPath)).states)
  {
    var results := ChildResults(c, |c.children|, converter, CurrentPath(c, parentPath));
    ChildResultsAll(c, converter, CurrentPath(c, parentPath));
    FoldNestNamed(Kids(OwnStates(Others(c), converter), [], map[], map[]), results, i);
  }

  /** An unnamed child's states are merged into the controller's own, field by field; a later
      unnamed child with the same field wins, and a named child of that name replaces it. */
  lemma UnnamedChildMerged(c: Controller, converter: Value -> Value, parentPath: string, i: nat, k: string)
    requires i < |c.children| && NameOf(c.children[i]) == ""
    requires k in LoadResult(c.children[i], converter, CurrentPath(c, parentPath)).states
    requires forall j :: i < j < |c.children| && NameOf(c.children[j]) == "" ==>
               k !in LoadResult(c.children[j], converter, CurrentPath(c, parentPath)).states
    requires forall j :: 0 <= j < |c.children| ==> NameOf(c.children[j]) != k
    ensures k in LoadResult(c, converter, parentPath).states
    ensures LoadResult(c, converter, parentPath).states[k]
            == LoadResult(c.children[i], converter, CurrentPath(c, parentPath)).states[k]
  {
    var currentPath := CurrentPath(c, parentPath);
    var results := ChildResults(c, |c.children|, converter, currentPath);
    ChildResultsAll(c, converter, currentPath);
    FoldStatesUnnamed(Kids(OwnStates(Others(c), converter), [], map[], map[]), results, i, k);
  }

  /** Without children, the states are exactly the converted own properties filed as states. */
  lemma LeafStates(c: Controller, converter: Value -> Value, parentPath: string)
    requires |c.children| == 0
    ensures LoadResult(c, converter, parentPath).states == OwnStates(Others(c), converter)
  {
  }

  /** The node's own reducer covers every action and its four lifecycle identifiers, with the
      gathered states as its initial state; a node without actions gets the identity reducer. */
  lemma LoadReducerKeys(c: Controller, converter: Value -> Value, parentPath: string)
    ensures var res := LoadResult(c, converter, parentPath);
            var actions := OwnActions(Others(c), converter);
            && res.name == NameOf(c)
            && res.reducer.CombineCall? && |res.reducer.reducers| >= 1
            && res.reducer.reducers[0]
               == if |actions| > 0 then NaiveCall(CurrentPath(c, parentPath), actions.Keys + StatusNames(actions.Keys), res.states)
                  else IdentityWithDefault(res.states)
  {
    var actions := OwnActions(Others(c), converter);
    var table := Expanded(CurrentPath(c, parentPath), actions);
    assert table.Keys == actions.Keys + StatusNames(actions.Keys);
    assert |actions| > 0 <==> |table| > 0 by {
      if |actions| > 0 {
        var a :| a in actions;
        assert a in table;
      }
    }
  }
}

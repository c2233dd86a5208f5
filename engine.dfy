/** `StateEngineBase` of src/engine.ts: the registries, the root reducer and initial state that
    `load` fills, and `dispatch`, which submits lifecycle actions to the store. */
module Engine {
  import opened Js
  import opened StateSpace
  import opened EngineActions
  import opened EngineLoad
  import opened EngineDispatch

  /** The `for (const prop in others)` loop of `load`: converts each property and files it as
      a state or an action by its kind; other kinds are dropped. */
  method SortProperties(others: map<string, Value>, converter: Value -> Value)
    returns (states: map<string, Value>, actions: map<string, Value>)
    ensures states == OwnStates(others, converter)
    ensures actions == OwnActions(others, converter)
  {
    var props := KeysOf(others);
    states, actions := map[], map[];
    for i := 0 to |props|
      invariant forall k :: k in states <==> k in props[..i] && k in others && CheckPropertyType(k, converter(others[k])) == Property
      invariant forall k :: k in actions <==> k in props[..i] && k in others && CheckPropertyType(k, converter(others[k])) == Action
      invariant forall k :: k in states ==> k in others && states[k] == converter(others[k])
      invariant forall k :: k in actions ==> k in others && actions[k] == converter(others[k])
    {
      var prop := props[i];
      var value := converter(others[prop]);
      var propType := CheckPropertyType(prop, value);
      if propType == Action {
        actions := actions[prop := value];
      } else if propType == Property {
        states := states[prop := value];
      }
      assert props[..i + 1] == props[..i] + [prop];
    }
    assert props[..|props|] == props;
    SortedAreOwn(others, converter, props, states, actions);
  }

  lemma SortedAreOwn(others: map<string, Value>, converter: Value -> Value, props: seq<string>,
                     states: map<string, Value>, actions: map<string, Value>)
    requires forall k :: k in props <==> k in others
    requires forall k :: k in states <==> k in props && k in others && CheckPropertyType(k, converter(others[k])) == Property
    requires forall k :: k in actions <==> k in props && k in others && CheckPropertyType(k, converter(others[k])) == Action
    requires forall k :: k in states ==> k in others && states[k] == converter(others[k])
    requires forall k :: k in actions ==> k in others && actions[k] == converter(others[k])
    ensures states == OwnStates(others, converter)
    ensures actions == OwnActions(others, converter)
  {
  }

  /** Folding in one more child's result is one `AddKid` step. */
  lemma FoldKidsStep(acc: Kids, results: seq<Loaded>, r: Loaded)
    ensures FoldKids(acc, results + [r]) == AddKid(FoldKids(acc, results), r)
  {
    assert AllButLast(results + [r]) == results;
  }

  class StateEngineBase {
    /** Every registered action path, with the name and table it belongs to. */
    var actionCache: map<string, CacheEntry>
    /** `#<id>` of each named controller with an id, to its path. */
    var namedPathCache: map<string, string>
    /** The root reducer, once a root controller is loaded. */
    var reducer: Option<ReducerForm>
    var initState: map<string, Value>
    /** `this.store && this.store.dispatch`: a store is attached. */
    var storeReady: bool
    /** The actions submitted to the store's `dispatch`, in order. */
    var submitted: seq<Value>

    function Registries(): Registry
      reads this
    {
      Registry(actionCache, namedPathCache)
    }

    /** The root reducer and initial state. */
    function Roots(): (Option<ReducerForm>, map<string, Value>)
      reads this
    {
      (reducer, initState)
    }

    /** Whether a store is attached, and what it has received. */
    function Store(): (bool, seq<Value>)
      reads this
    {
      (storeReady, submitted)
    }

    constructor()
      ensures actionCache == map[] && namedPathCache == map[]
      ensures reducer == None && initState == map[]
      ensures !storeReady && submitted == []
    {
      actionCache := map[];
      namedPathCache := map[];
      reducer := None;
      initState := map[];
      storeReady := false;
      submitted := [];
    }

    /** A store is created over the loaded reducer and attached. */
    method AttachStore()
      modifies this
      ensures storeReady
      ensures Registries() == old(Registries()) && reducer == old(reducer) && initState == old(initState)
      ensures submitted == old(submitted)
    {
      storeReady := true;
    }

    /** `cacheActions(currentPath, actionScope, table)`: each key of the table is registered under
        its path. */
    method CacheActions(currentPath: string, table: map<string, ActionEntry>)
      modifies this
      ensures actionCache == CacheWith(old(actionCache), currentPath, table)
      ensures namedPathCache == old(namedPathCache)
      ensures reducer == old(reducer) && initState == old(initState)
      ensures storeReady == old(storeReady) && submitted == old(submitted)
    {
      var names := KeysOf(table);
      for i := 0 to |names|
        invariant actionCache == CacheAlong(old(actionCache), currentPath, table, names[..i])
        invariant namedPathCache == old(namedPathCache)
        invariant reducer == old(reducer) && initState == old(initState)
        invariant storeReady == old(storeReady) && submitted == old(submitted)
      {
        var actionName := names[i];
        actionCache := actionCache[GetPropPath(currentPath, actionName) := CacheEntry(actionName, table)];
        assert AllButLast(names[..i + 1]) == names[..i];
      }
      assert names[..|names|] == names;
      CacheAlongIsCacheWith(old(actionCache), currentPath, table, names);
    }

    /** `getActionByPath(path)`: the entry registered under the path, or none. */
    function GetActionByPath(path: string): (r: Option<ActionEntry>)
      reads this
      ensures r.None? <==> path !in actionCache
      ensures r.Some? ==> r == Resolve(actionCache, path)
    {
      Resolve(actionCache, path)
    }

    /** `load(controller, params, parentPath, isRoot)`: registers the subtree's ids and actions,
        returns its name, reducer and states and, for the root, keeps its reducer and states. */
    method Load(c: Controller, converter: Value -> Value, parentPath: string, isRoot: bool) returns (res: Loaded)
      modifies this
      decreases c, 2
      ensures res == LoadResult(c, converter, parentPath)
      ensures Registries() == LoadRegistry(old(Registries()), c, converter, parentPath)
      ensures Roots() == RootAfter(isRoot, res, old(Roots()))
      ensures Store() == old(Store())
    {
      var currentPath := RegisterName(c, parentPath);
      var own, actions := SortProperties(Others(c), converter);
      var kids := LoadChildren(c, converter, currentPath, own);
      var states := kids.states + kids.subStates;
      var table := ExpandActions(currentPath, actions);
      CacheActions(currentPath, table);
      var currentReducer := if |table| > 0 then NaiveCall(currentPath, table.Keys, states) else IdentityWithDefault(states);
      res := Loaded(NameOf(c), CombineCall([currentReducer] + kids.neighbors, kids.subReducers), states);
      KeepRoot(isRoot, res);
    }

    /** The start of `load`: the path of the controller's slice and, for a named controller
        with an id, its `#<id>` entry. */
    method RegisterName(c: Controller, parentPath: string) returns (currentPath: string)
      modifies this
      ensures currentPath == CurrentPath(c, parentPath)
      ensures Registries() == RegisterId(old(Registries()), c, currentPath)
      ensures Roots() == old(Roots()) && Store() == old(Store())
    {
      var name := NameOf(c);
      currentPath := parentPath;
      if name != "" {
        currentPath := GetPropPath(parentPath, name);
        var id := IdOf(c);
        if id != "" {
          namedPathCache := namedPathCache["#" + id := currentPath];
        }
      }
    }

    /** The end of `load`: the root's reducer and states are kept. */
    method KeepRoot(isRoot: bool, res: Loaded)
      modifies this
      ensures Roots() == RootAfter(isRoot, res, old(Roots()))
      ensures Registries() == old(Registries()) && Store() == old(Store())
    {
      if isRoot {
        if res.name == "" {
          reducer := Some(res.reducer);
          initState := res.states;
        } else {
          reducer := Some(ReduxCombine(map[res.name := res.reducer]));
          initState := initState[res.name := Obj(res.states)];
        }
      }
    }

    /** The loop of `load` over `$children`: each child is loaded under `currentPath`; an
        unnamed child's reducer joins the neighbours and its states are merged into `states`,
        a named child's reducer and states are kept under its name. */
    method LoadChildren(c: Controller, converter: Value -> Value, currentPath: string, own: map<string, Value>)
      returns (kids: Kids)
      modifies this
      decreases c, 1
      ensures kids == FoldKids(Kids(own, [], map[], map[]), ChildResults(c, |c.children|, converter, currentPath))
      ensures Registries() == KidsRegistry(old(Registries()), c, |c.children|, converter, currentPath)
      ensures Roots() == old(Roots()) && Store() == old(Store())
    {
      ghost var start := Kids(own, [], map[], map[]);
      var states := own;
      var neighbors: seq<ReducerForm> := [];
      var subReducers: map<string, ReducerForm> := map[];
      var subStates: map<string, Value> := map[];
      for i := 0 to |c.children|
        invariant Kids(states, neighbors, subReducers, subStates) == FoldKids(start, ChildResults(c, i, converter, currentPath))
        invariant Registries() == KidsRegistry(old(Registries()), c, i, converter, currentPath)
        invariant Roots() == old(Roots()) && Store() == old(Store())
      {
        var r := LoadChild(c, i, converter, currentPath, old(Registries()));
        FoldKidsStep(start, ChildResults(c, i, converter, currentPath), r);
        if r.name == "" {
          neighbors := neighbors + [r.reducer];
          states := states + r.states;
        } else {
          subReducers := subReducers[r.name := r.reducer];
          subStates := subStates[r.name := Obj(r.states)];
        }
      }
      kids := Kids(states, neighbors, subReducers, subStates);
    }

    /** One turn of the loop over `$children`: `load(child, params, currentPath, false)`. */
    method LoadChild(c: Controller, i: nat, converter: Value -> Value, currentPath: string, ghost reg: Registry)
      returns (r: Loaded)
      requires i < |c.children|
      requires Registries() == KidsRegistry(reg, c, i, converter, currentPath)
      modifies this
      decreases c, 0
      ensures ChildResults(c, i + 1, converter, currentPath) == ChildResults(c, i, converter, currentPath) + [r]
      ensures Registries() == KidsRegistry(reg, c, i + 1, converter, currentPath)
      ensures Roots() == old(Roots()) && Store() == old(Store())
    {
      r := Load(c.children[i], converter, currentPath, false);
      ChildResultsStep(c, i, converter, currentPath);
    }

    /** `dispatchByStatus(status, payload)` inside `dispatch`. */
    method DispatchByStatus(path: string, s: ActionStatus, payload: Value, invoke: Interpreter) returns (thrown: Option<Value>)
      modifies this
      ensures submitted == old(submitted) + StatusStep(actionCache, path, s, payload, invoke).submitted
      ensures thrown == StatusStep(actionCache, path, s, payload, invoke).thrown
      ensures Registries() == old(Registries()) && reducer == old(reducer) && initState == old(initState)
      ensures storeReady == old(storeReady)
    {
      var args := if s == Doing || s == Idle then [] else [payload];
      var found := GetActionByPath(GetActionNameByStatus(path, StatusValue(s)));
      var call := if found.None? then Return(UnknownStatusAction(path, s)) else CallEntry(found.value, args, invoke);
      if call.Return? {
        submitted := submitted + [call.value];
        thrown := None;
      } else {
        thrown := Some(call.error);
      }
    }

    /** `dispatch(actionPath, ...params)`: what it submits before returning, and how it returns.
        The handler-kind `switch` is the one its case bodies intend. */
    method Dispatch(actionPath: Value, params: seq<Value>, invoke: Interpreter) returns (r: DispatchResult)
      modifies this
      ensures submitted == old(submitted) + DispatchRun(BranchOf, old(storeReady), old(actionCache), actionPath, params, invoke).submitted
      ensures r == DispatchRun(BranchOf, old(storeReady), old(actionCache), actionPath, params, invoke).result
      ensures Registries() == old(Registries()) && reducer == old(reducer) && initState == old(initState)
      ensures storeReady == old(storeReady)
    {
      if !storeReady {
        return Thrown(NotLoaded);
      }
      if !actionPath.Str? {
        submitted := submitted + [PathNotString];
        return Returned(PathNotString);
      }
      var path := actionPath.s;
      if path !in actionCache {
        submitted := submitted + [NoSuchAction];
        return Returned(NoSuchAction);
      }
      var thrown := DispatchByStatus(path, Doing, Undefined, invoke);
      if thrown.Some? {
        return Thrown(thrown.value);
      }
      var action := GetActionByPath(path).value;
      var res := Undefined;
      var err := Undefined;
      var isDone, isError := false, false;
      var promise: Option<Outcome> := None;
      match BranchOf(EntryType(action)) {
        case CallAsync =>
          var call := CallEntry(action, params, invoke);
          if call.Throw? {
            return Thrown(call.error);
          }
          if !call.value.Prom? {
            return Thrown(TypeError);
          }
          promise := Some(call.value.settles);
        case RunGenerator =>
          if !(action.Handler? && action.handler.Func?) {
            return Thrown(TypeError);
          }
          promise := Some(invoke(action.handler.id, params));
        case AwaitPromise =>
          if !(action.Handler? && action.handler.Prom?) {
            return Thrown(TypeError);
          }
          promise := Some(action.handler.settles);
        case CallSync =>
          var call := CallEntry(action, params, invoke);
          if call.Return? {
            res := call.value;
            if CheckActionType(res) == PromiseObj {
              promise := Some(res.settles);
            } else {
              isDone := true;
            }
          } else {
            isError := true;
            err := call.error;
          }
        case Unsupported =>
          return Thrown(UnsupportedAction(path));
      }
      if isError {
        thrown := DispatchByStatus(path, Error, err, invoke);
        return Thrown(if thrown.Some? then thrown.value else err);
      } else if isDone {
        thrown := DispatchByStatus(path, Done, res, invoke);
        return if thrown.Some? then Thrown(thrown.value) else Returned(res);
      } else {
        return Pending(Flatten(promise.value));
      }
    }

    /** The continuation `dispatch` attaches to the promise it returns, run when the promise
        settles with `settled`: what it submits and how the returned promise settles. */
    method Settle(path: string, settled: Outcome, invoke: Interpreter) returns (r: Outcome)
      modifies this
      ensures submitted == old(submitted) + SettleRun(old(actionCache), path, settled, invoke).0
      ensures r == SettleRun(old(actionCache), path, settled, invoke).1
      ensures Registries() == old(Registries()) && reducer == old(reducer) && initState == old(initState)
      ensures storeReady == old(storeReady)
    {
      var failure: Value;
      if settled.Return? {
        var thrown := DispatchByStatus(path, Done, settled.value, invoke);
        if thrown.None? {
          return settled;
        }
        failure := thrown.value;
      } else {
        failure := settled.error;
      }
      var thrown := DispatchByStatus(path, Error, failure, invoke);
      return Throw(if thrown.Some? then thrown.value else failure);
    }
  }
}

/** The module-level `instance` of src/index.js and the exported operations that update it:
    `store`, `load` and `dispatch`. */
module LegacyInstance {
  import opened Js
  import opened StateSpace
  import opened Legacy

  /** `while (!key && levels.length > 0) key = levels.pop()` */
  method PopKey(levels: seq<string>) returns (key: string)
    ensures key == LastKey(levels)
  {
    var rest := levels;
    key := "";
    while key == "" && |rest| > 0
      invariant LastKey(levels) == if key != "" then key else LastKey(rest)
      decreases |rest|
    {
      key := Last(rest);
      rest := AllButLast(rest);
    }
  }

  /** The `p.split('.').forEach(...)` walk of the selector, reassigning `x` and `subkey`. */
  method WalkPath(state: Value, key: string, p: string) returns (found: Option<(Value, string)>)
    ensures found == Walk(state, key, Split(p, '.'))
  {
    var segs := Split(p, '.');
    var x, subkey := state, key;
    for i := 0 to |segs|
      invariant Walk(state, key, segs[..i]) == Some((x, subkey))
    {
      var seg := segs[i];
      assert AllButLast(segs[..i + 1]) == segs[..i] && Last(segs[..i + 1]) == seg;
      if seg != "" {
        if x.Undefined? || x.Null? {
          WalkThrowStays(state, key, segs, i + 1);
          return None;
        }
        if x.Obj? && seg in x.fields {
          x, subkey := x.fields[seg], seg;
        }
      }
    }
    assert segs[..|segs|] == segs;
    found := Some((x, subkey));
  }

  /** The selector built over `combinePaths`: the loop over its entries gathering `targets`. */
  method Select(state: Value, entries: seq<(string, string)>) returns (r: Outcome)
    ensures r == Selection(state, entries)
  {
    var st := DefaultState(state);
    var targets := Null;
    for i := 0 to |entries|
      invariant SelectAlong(st, entries[..i]) == Some(targets)
    {
      var (key, p) := entries[i];
      assert AllButLast(entries[..i + 1]) == entries[..i] && Last(entries[..i + 1]) == entries[i];
      if p == "" {
        if key == "$this" {
          targets := st;
        }
      } else {
        var found := WalkPath(st, key, p);
        if found.None? {
          SelectThrowStays(st, entries, i + 1);
          return Throw(TypeError);
        }
        if !Truthy(targets) {
          targets := Obj(map[]);
        }
        if key == "$this" {
          targets := found.value.0;
        } else {
          var put := Put(targets, if IsPrefixed(key) then found.value.1 else key, found.value.0);
          if put.None? {
            SelectThrowStays(st, entries, i + 1);
            return Throw(TypeError);
          }
          targets := put.value;
        }
      }
    }
    assert entries[..|entries|] == entries;
    r := Return(OrEmpty(targets));
  }

  class Instance {
    /** `instance.actions`: `None` while it is null. */
    var actions: Option<map<string, Entry>>
    /** `instance.reducers`: the root reducer, `None` while it is null. */
    var reducers: Option<LReducer>
    /** Whether `instance.store` has been created. */
    var storeReady: bool
    /** The actions handed to the store's `dispatch`, in order. */
    var submitted: seq<Value>

    function State(): Loader
      reads this
    {
      Loader(actions, reducers)
    }

    function Store(): (bool, seq<Value>)
      reads this
    {
      (storeReady, submitted)
    }

    constructor ()
      ensures actions == None && reducers == None && !storeReady && submitted == []
    {
      actions := None;
      reducers := None;
      storeReady := false;
      submitted := [];
    }

    /** `store(...middlewares)`: the existing store, else a new one over the loaded reducers,
        else null. */
    method CreateStore() returns (created: bool)
      modifies this
      ensures created <==> old(storeReady) || reducers.Some?
      ensures storeReady == created
      ensures State() == old(State()) && submitted == old(submitted)
    {
      if storeReady {
        return true;
      }
      if reducers.None? {
        return false;
      }
      storeReady := true;
      created := true;
    }

    /** The function branch of `load`: registration under `path` and the three factories. */
    method LoadFunction(path: string, h: Handler)
      modifies this
      ensures actions == RegisterFunction(old(actions), path, h)
      ensures reducers == old(reducers) && Store() == old(Store())
    {
      if path == "" {
        actions := Some(map[]);
        return;
      }
      var key := PopKey(Split(path, '.'));
      var table := if actions.None? then map[] else actions.value;
      table := table[path := Registered(h)];
      if key != "" {
        var base := table;
        for j := 0 to |LegacyStatuses|
          invariant table == InstallAlong(base, path, key, LegacyStatuses[..j])
        {
          var s := LegacyStatuses[j];
          assert LegacyStatuses[..j + 1] == LegacyStatuses[..j] + [s];
          table := table[StatusName(path, s) := Factory(s, key, InitialData(s, key))];
        }
        assert LegacyStatuses[..|LegacyStatuses|] == LegacyStatuses;
      }
      actions := Some(table);
    }

    /** `load(t, {path, converter})`. */
    method Load(t: Tree, path: string, converter: Converter) returns (d: LoadedData)
      modifies this
      decreases t, 2
      ensures (d, State()) == LoadTree(t, path, converter, old(State()))
      ensures Store() == old(Store())
    {
      match t
      case Fun(k, id) =>
        LoadFunction(path, Call(k, id));
        d := FunctionLoaded;
      case Leaf(v) =>
        var h := ConvertLeaf(converter, v);
        if h.Some? {
          LoadFunction(path, h.value);
          d := FunctionLoaded;
        } else {
          d := LoadedData(false, None, Some(v));
        }
      case Object(props) =>
        var g := LoadProps(t, path, converter);
        var reducer := KeepReducer(g, path);
        d := LoadedData(false, reducer, if g.subStates.Some? then Some(Obj(g.subStates.value)) else None);
    }

    /** The node's reducer built from what its properties gave, kept as the root reducer at
        the empty path. */
    method KeepReducer(g: Gathered, path: string) returns (reducer: Option<LReducer>)
      modifies this
      ensures reducer == NodeReducer(g)
      ensures reducers == (if path == "" then reducer else old(reducers))
      ensures actions == old(actions) && Store() == old(Store())
    {
      reducer := if g.actionPaths.Some? then Some(Created(g.actionPaths.value, if g.subStates.Some? then Obj(g.subStates.value) else Null)) else None;
      var subReducers := g.subReducers;
      if subReducers.Some? && reducer.Some? {
        subReducers := Some(subReducers.value[IndexKey := reducer.value]);
      }
      if subReducers.Some? {
        reducer := Some(Combined(subReducers.value));
      }
      if path == "" {
        reducers := reducer;
      }
    }

    /** The `for (let key in ctlrs)` loop of the object branch. */
    method LoadProps(t: Tree, path: string, converter: Converter) returns (g: Gathered)
      requires t.Object?
      modifies this
      decreases t, 1
      ensures (g, State()) == GatherProps(t, |t.props|, path, converter, old(State()))
      ensures Store() == old(Store())
    {
      g := Gathered(None, [], None, None);
      for i := 0 to |t.props|
        invariant (g, State()) == GatherProps(t, i, path, converter, old(State()))
        invariant Store() == old(Store())
      {
        g := LoadProp(t, i, path, converter, g, old(State()));
      }
    }

    /** One own property: private keys are instructions for views; any other is loaded at
        its path and its result folded in. */
    method LoadProp(t: Tree, i: nat, path: string, converter: Converter, g: Gathered, ghost start: Loader)
      returns (next: Gathered)
      requires t.Object? && i < |t.props|
      requires (g, State()) == GatherProps(t, i, path, converter, start)
      modifies this
      decreases t, 0
      ensures (next, State()) == GatherProps(t, i + 1, path, converter, start)
      ensures Store() == old(Store())
    {
      var prop := t.props[i];
      if IsPrefixed(prop.key) {
        next := g;
      } else {
        var p := GetPropPath(path, prop.key);
        var res := Load(prop.node, p, converter);
        next := AddResult(g, prop.key, p, res);
      }
    }

    /** Calls the entry under `k`, keeping what a factory wrote into its captured data. */
    method CallAt(k: string, args: seq<Value>, invoke: (nat, seq<Value>) -> Outcome) returns (o: Outcome)
      requires actions.Some? && k in actions.value
      modifies this
      ensures var (call, entry) := CallEntry(k, old(actions).value[k], args, invoke);
              o == call && actions == Some(old(actions).value[k := entry])
      ensures reducers == old(reducers) && Store() == old(Store())
    {
      var call := CallEntry(k, actions.value[k], args, invoke);
      actions := Some(actions.value[k := call.1]);
      o := call.0;
    }

    /** `instance.actions[`${name}.$${s}`](...args)`: a TypeError when there is no such factory. */
    method CallStatus(name: string, s: ActionStatus, args: seq<Value>, invoke: (nat, seq<Value>) -> Outcome) returns (o: Outcome)
      requires actions.Some?
      modifies this
      ensures var (call, table) := StatusCall(old(actions).value, name, s, args, invoke);
              o == call && actions == Some(table)
      ensures reducers == old(reducers) && Store() == old(Store())
    {
      var k := StatusName(name, s);
      if k !in actions.value {
        return Throw(TypeError);
      }
      o := CallAt(k, args, invoke);
    }

    /** The store's `dispatch`. */
    method Submit(action: Value)
      modifies this
      ensures submitted == old(submitted) + [action]
      ensures State() == old(State()) && storeReady == old(storeReady)
    {
      submitted := submitted + [action];
    }

    /** The `catch` of `dispatchAction`. */
    method Recover(name: string, e: Value, invoke: (nat, seq<Value>) -> Outcome) returns (r: Outcome)
      requires actions.Some?
      modifies this
      ensures var run := Caught([], old(actions).value, name, e, invoke);
              submitted == old(submitted) + run.submitted && actions == run.table && r == run.outcome
      ensures reducers == old(reducers) && storeReady == old(storeReady)
    {
      var err := CallStatus(name, Error, [e], invoke);
      if err.Throw? {
        return err;
      }
      Submit(err.value);
      r := Throw(e);
    }

    /** `dispatchAction(instance.store.dispatch, name, ...params)`. */
    method DispatchAction(name: string, params: seq<Value>, invoke: (nat, seq<Value>) -> Outcome) returns (r: Outcome)
      modifies this
      ensures var run := DispatchActionRun(old(actions), name, params, invoke);
              submitted == old(submitted) + run.submitted && actions == run.table && r == run.outcome
      ensures reducers == old(reducers) && storeReady == old(storeReady)
    {
      if name == "" {
        return Throw(IllegalAction);
      }
      if actions.None? {
        return Throw(TypeError);
      }
      if name !in actions.value {
        return Throw(NoSuchAction);
      }
      var doing := CallStatus(name, Doing, [], invoke);
      if doing.Throw? {
        return doing;
      }
      Submit(doing.value);
      var call := CallAt(name, params, invoke);
      var awaited := Flatten(call);
      if awaited.Return? {
        var done := CallStatus(name, Done, [awaited.value], invoke);
        if done.Return? {
          Submit(done.value);
          return awaited;
        }
        r := Recover(name, done.error, invoke);
      } else {
        r := Recover(name, awaited.error, invoke);
      }
    }

    /** `dispatch(actionName, ...params)`. */
    method Dispatch(actionName: Value, params: seq<Value>, invoke: (nat, seq<Value>) -> Outcome) returns (r: Outcome)
      modifies this
      ensures var run := DispatchRun(old(actions), old(storeReady), actionName, params, invoke);
              submitted == old(submitted) + run.submitted && actions == run.table && r == run.outcome
      ensures reducers == old(reducers) && storeReady == old(storeReady)
    {
      if actions.None? || !storeReady {
        return Throw(NotLoaded);
      }
      if !actionName.Str? {
        return Throw(NameNotString);
      }
      if actionName.s !in actions.value {
        return Throw(NoSuchAction);
      }
      r := DispatchAction(actionName.s, params, invoke);
    }
  }
}

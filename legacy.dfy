/** The legacy loader and dispatcher of src/index.js, as functions: `createReducer`, the
    `$combine` selector, what `load` registers for a tree of controllers, and what
    `dispatch` submits. */
module Legacy {
  import opened Js
  import opened StateSpace
  import opened StateSelect
  import opened StateReducers

  const IndexKey: string := "__index__"
  const Prefix: string := "$"

  /** `actionStatuses`: the legacy loader knows three statuses, in this order. */
  const LegacyStatuses: seq<ActionStatus> := [Doing, Done, Error]

  // ---------------------------------------------------------------- createReducer

  /** The `actionKeys` argument: a single key or a list of keys. */
  datatype ActionKeys = KeyString(key: string) | KeyList(keys: seq<string>)

  function KeyListOf(actionKeys: ActionKeys): seq<string> {
    match actionKeys
    case KeyString(k) => [k]
    case KeyList(ks) => ks
  }

  function KeySet(actionKeys: ActionKeys): set<string> {
    set k | k in KeyListOf(actionKeys)
  }

  /** The reducer `createReducer(actionKeys, initState)` returns, applied to `(state, action)`. */
  function CreateReduce(actionKeys: ActionKeys, initState: Value, state: Value, action: Value): Next {
    var s := if state == Undefined then OrEmpty(initState) else state;
    var t := Get(action, "type");
    if t.Str? && t.s in KeyListOf(actionKeys) then Next(Assign(s, Get(action, "data")), false)
    else Next(s, state != Undefined)
  }

  /** The legacy reducer is the engine's naive reducer over the same keys, with `initState || {}`. */
  lemma CreateReduceIsNaive(actionKeys: ActionKeys, initState: Value, state: Value, action: Value)
    ensures CreateReduce(actionKeys, initState, state, action)
            == NaiveReduce(KeySet(actionKeys), OrEmpty(initState), state, action)
  {
  }

  /** On a listed type: a fresh merge of the state and `action.data`; otherwise the state it
      was given, or `initState || {}` when it was given none. */
  lemma CreateReduceBehaviour(actionKeys: ActionKeys, initState: Value, state: Value, action: Value)
    ensures var r := CreateReduce(actionKeys, initState, state, action);
      var s := if state == Undefined then OrEmpty(initState) else state;
      var data := Get(action, "data");
      var listed := Get(action, "type").Str? && Get(action, "type").s in KeyListOf(actionKeys);
      (listed ==>
            !r.same && r.value.Obj?
            && r.value.fields.Keys == FieldsOf(s).Keys + FieldsOf(data).Keys
            && (forall k :: k in FieldsOf(data) ==> Get(r.value, k) == FieldsOf(data)[k])
            && (forall k :: k in FieldsOf(s) && k !in FieldsOf(data) ==> Get(r.value, k) == FieldsOf(s)[k]))
      && (!listed ==> r.value == s && (r.same <==> state != Undefined))
  {
    var keys := KeySet(actionKeys);
    CreateReduceIsNaive(actionKeys, initState, state, action);
    NaiveReducerBehaviour(keys, OrEmpty(initState), state, action);
    assert TypeMatches(keys, action) <==> Get(action, "type").Str? && Get(action, "type").s in KeyListOf(actionKeys);
  }

  /** A single key behaves as the one-element list. */
  lemma StringKeyIsList(key: string, initState: Value, state: Value, action: Value)
    ensures CreateReduce(KeyString(key), initState, state, action) == CreateReduce(KeyList([key]), initState, state, action)
  {
  }

  /** `isPrivateKey`: longer than the prefix and starting with it; the same test as the engine's. */
  function IsPrefixed(key: string): (r: bool)
    ensures r <==> IsPrivateKey(key)
  {
    |key| > |Prefix| && key[..|Prefix|] == Prefix
  }

  // ---------------------------------------------------------------- the $combine selector

  /** One segment of the walk: descends into `seg` when it is an own property of the current
      node, and otherwise stays. `None` is the TypeError of asking null or undefined. */
  function WalkStep(x: Value, subkey: string, seg: string): Option<(Value, string)> {
    if seg == "" then Some((x, subkey))
    else if x.Undefined? || x.Null? then None
    else if x.Obj? && seg in x.fields then Some((x.fields[seg], seg))
    else Some((x, subkey))
  }

  /** The walk over `segs`, in order, from `x` with `subkey` as the key so far. */
  function Walk(x: Value, subkey: string, segs: seq<string>): Option<(Value, string)> {
    if segs == [] then Some((x, subkey))
    else
      match Walk(x, subkey, AllButLast(segs))
      case None => None
      case Some(pair) => WalkStep(pair.0, pair.1, Last(segs))
  }

  /** Every segment is non-empty and an own property of the node the walk has reached. */
  predicate OwnPath(x: Value, segs: seq<string>) {
    forall i :: 0 <= i < |segs| ==>
      segs[i] != "" && DeepGet(x, segs[..i]).Obj? && segs[i] in DeepGet(x, segs[..i]).fields
  }

  /** Along a path of own properties the walk is plain nested access, keyed by the last segment. */
  lemma {:induction false} WalkOwnPath(x: Value, subkey: string, segs: seq<string>)
    requires OwnPath(x, segs)
    ensures Walk(x, subkey, segs) == Some((DeepGet(x, segs), if segs == [] then subkey else Last(segs)))
  {
    if segs != [] {
      var prefix := AllButLast(segs);
      assert OwnPath(x, prefix) by {
        forall i | 0 <= i < |prefix|
          ensures prefix[i] != "" && DeepGet(x, prefix[..i]).Obj? && prefix[i] in DeepGet(x, prefix[..i]).fields
        {
          assert prefix[..i] == segs[..i];
        }
      }
      WalkOwnPath(x, subkey, prefix);
      var n := |segs| - 1;
      assert segs[..n] == prefix;
      assert DeepGet(x, segs) == Get(DeepGet(x, prefix), Last(segs));
    }
  }

  /** Once the walk has thrown, later segments do not matter. */
  lemma {:induction false} WalkThrowStays(x: Value, subkey: string, segs: seq<string>, n: nat)
    requires n <= |segs| && Walk(x, subkey, segs[..n]) == None
    ensures Walk(x, subkey, segs) == None
    decreases |segs| - n
  {
    if n < |segs| {
      assert AllButLast(segs[..n + 1]) == segs[..n];
      WalkThrowStays(x, subkey, segs, n + 1);
    } else {
      assert segs[..n] == segs;
    }
  }

  /** A segment that is not an own property of an object node is skipped, not an error. */
  lemma WalkSkipsMissing(x: Value, subkey: string, segs: seq<string>, seg: string)
    requires Walk(x, subkey, segs).Some? && Walk(x, subkey, segs).value.0.Obj?
    requires seg !in Walk(x, subkey, segs).value.0.fields
    ensures Walk(x, subkey, segs + [seg]) == Walk(x, subkey, segs)
  {
    assert AllButLast(segs + [seg]) == segs;
  }

  /** `targets[k] = x`: on an object the property is set; on a primitive strict-mode code
      throws (`None`); other objects are returned as they are. */
  function Put(targets: Value, k: string, x: Value): Option<Value> {
    if targets.Obj? then Some(Obj(targets.fields[k := x]))
    else if IsPrimitive(targets) then None
    else Some(targets)
  }

  /** One `(key, path)` entry of `combinePaths` applied to the targets gathered so far. */
  function SelectStep(state: Value, targets: Value, entry: (string, string)): Option<Value> {
    var (key, p) := entry;
    if p == "" then Some(if key == "$this" then state else targets)
    else
      match Walk(state, key, Split(p, '.'))
      case None => None
      case Some(found) =>
        var t := if Truthy(targets) then targets else Obj(map[]);
        if key == "$this" then Some(found.0)
        else Put(t, if IsPrefixed(key) then found.1 else key, found.0)
  }

  /** The targets after the entries of `combinePaths`, in order, starting from null. */
  function SelectAlong(state: Value, entries: seq<(string, string)>): Option<Value> {
    if entries == [] then Some(Null)
    else
      match SelectAlong(state, AllButLast(entries))
      case None => None
      case Some(t) => SelectStep(state, t, Last(entries))
  }

  /** Once the selector has thrown, later entries do not matter. */
  lemma {:induction false} SelectThrowStays(state: Value, entries: seq<(string, string)>, n: nat)
    requires n <= |entries| && SelectAlong(state, entries[..n]) == None
    ensures SelectAlong(state, entries) == None
    decreases |entries| - n
  {
    if n < |entries| {
      assert AllButLast(entries[..n + 1]) == entries[..n];
      SelectThrowStays(state, entries, n + 1);
    } else {
      assert entries[..n] == entries;
    }
  }

  /** The selector `(state = {}) => targets || {}` built over `combinePaths`. */
  function Selection(state: Value, entries: seq<(string, string)>): Outcome {
    match SelectAlong(DefaultState(state), entries)
    case None => Throw(TypeError)
    case Some(t) => Return(OrEmpty(t))
  }

  /** The `$combine` instruction, as `load` distinguishes it. */
  datatype CombineSpec = CombineNone | CombineList(paths: seq<string>) | CombineObject(entries: seq<(string, string)>) | CombineString(path: string)

  /** Sets `k` in an ordered property list: in place when present, appended otherwise. */
  function SetEntry(entries: seq<(string, string)>, k: string, v: string): seq<(string, string)> {
    if entries == [] then [(k, v)]
    else if Last(entries).0 == k then AllButLast(entries) + [(k, v)]
    else if k in KeysIn(AllButLast(entries)) then SetEntry(AllButLast(entries), k, v) + [Last(entries)]
    else entries + [(k, v)]
  }

  function KeysIn(entries: seq<(string, string)>): set<string> {
    set i | 0 <= i < |entries| :: entries[i].0
  }

  /** Decimal digits of `n`. */
  function Decimal(n: nat): string {
    if n < 10 then ["0123456789"[n]] else Decimal(n / 10) + ["0123456789"[n % 10]]
  }

  function ThatEntries(paths: seq<string>): seq<(string, string)> {
    if paths == [] then [] else ThatEntries(AllButLast(paths)) + [("$that_" + Decimal(|paths| - 1), Last(paths))]
  }

  function AssignEntries(base: seq<(string, string)>, extra: seq<(string, string)>): seq<(string, string)> {
    if extra == [] then base else SetEntry(AssignEntries(base, AllButLast(extra)), Last(extra).0, Last(extra).1)
  }

  /** `combinePaths`: `$this` is the node's own path, then the `$combine` paths. */
  function CombinePathsOf(path: string, combine: CombineSpec): seq<(string, string)> {
    var base := [("$this", path)];
    match combine
    case CombineNone => base
    case CombineList(paths) => base + ThatEntries(paths)
    case CombineObject(entries) => AssignEntries(base, entries)
    case CombineString(p) => if p == "" then base else base + [("$that", p)]
  }

  /** With no `$combine`, the root node's selector yields the whole state (or `{}` for a falsy one). */
  lemma RootSelectsState(state: Value)
    ensures Selection(state, CombinePathsOf("", CombineNone)) == Return(OrEmpty(DefaultState(state)))
  {
    var x := DefaultState(state);
    assert AllButLast([("$this", "")]) == [];
    assert SelectAlong(x, []) == Some(Null);
    assert SelectStep(x, Null, ("$this", "")) == Some(x);
    assert SelectAlong(x, [("$this", "")]) == Some(x);
  }

  /** At a non-root node with no `$combine`, a present path yields the node's slice itself. */
  lemma NodeSelectsOwnSlice(state: Value, path: string)
    requires path != "" && DefaultState(state).Obj? && OwnPath(DefaultState(state), Split(path, '.'))
    ensures Selection(state, CombinePathsOf(path, CombineNone)) == Return(OrEmpty(DeepGet(DefaultState(state), Split(path, '.'))))
  {
    var x := DefaultState(state);
    var segs := Split(path, '.');
    WalkOwnPath(x, "$this", segs);
    assert AllButLast([("$this", path)]) == [];
    assert SelectAlong(x, []) == Some(Null);
    assert SelectStep(x, Null, ("$this", path)) == Some(DeepGet(x, segs));
  }

  /** At the root, a string `$combine` naming a present path writes the value it names into
      the state itself, under the path's last segment. */
  lemma RootCombineWritesIntoState(state: Value, p: string)
    requires p != "" && state.Obj? && OwnPath(state, Split(p, '.'))
    ensures var segs := Split(p, '.');
            Selection(state, CombinePathsOf("", CombineString(p))) == Return(Obj(state.fields[Last(segs) := DeepGet(state, segs)]))
  {
    var segs := Split(p, '.');
    WalkOwnPath(state, "$that", segs);
    var entries := [("$this", ""), ("$that", p)];
    assert AllButLast(entries) == [("$this", "")];
    assert AllButLast([("$this", "")]) == [];
    assert SelectAlong(state, [("$this", "")]) == Some(state);
    assert IsPrefixed("$that");
  }

  // ---------------------------------------------------------------- load

  /** A controller tree as `load` tells its nodes apart by `typeof`: functions, objects (and
      arrays and null, with their own properties in order) and other leaves. */
  datatype Tree = Fun(kind: FunctionKind, id: nat) | Object(props: seq<Prop>) | Leaf(v: Value)
  datatype Prop = Prop(key: string, node: Tree)

  /** A leaf holds what `typeof` sends to the converter branch: undefined, a boolean, a number
      or a string. Null, arrays, promises and other objects are `Object` nodes. */
  predicate LeafValue(v: Value) {
    v.Undefined? || v.Bool? || v.Num? || v.Str?
  }

  /** A tree whose leaves are all `LeafValue`s: the shape of what `load` receives. */
  predicate WellFormedTree(t: Tree) {
    match t
    case Fun(_, _) => true
    case Leaf(v) => LeafValue(v)
    case Object(props) => forall i :: 0 <= i < |props| ==> WellFormedTree(props[i].node)
  }

  /** `params.converter`: the default `prop => () => prop`, a caller's function, or a value
      that is not a function. */
  datatype Converter = Wrapping | Custom(f: Value -> Value) | NotCallable

  /** A registered action: a function of the tree, or the default converter's `() => prop`. */
  datatype Handler = Call(kind: FunctionKind, id: nat) | Constant(v: Value)

  /** An entry of `instance.actions`. A status factory keeps the `data` object it captured:
      its type is the key it is registered under. */
  datatype Entry = Registered(handler: Handler) | Factory(status: ActionStatus, key: string, data: map<string, Value>)

  /** The reducers `load` builds: `createReducer(actionPaths, subStates)` and redux
      `combineReducers(subReducers)`. */
  datatype LReducer = Created(actionPaths: seq<string>, initState: Value) | Combined(reducers: map<string, LReducer>)

  /** `loadedData`: `state` is `None` for null. */
  datatype LoadedData = LoadedData(isAction: bool, reducer: Option<LReducer>, state: Option<Value>)

  /** What `load` changes in the module's `instance`: `actions` (`None` for null) and `reducers`. */
  datatype Loader = Loader(actions: Option<map<string, Entry>>, reducers: Option<LReducer>)

  /** The key the `while (!key && levels.length > 0) key = levels.pop()` loop finds: the last
      non-empty segment, or "" when there is none. */
  function LastKey(levels: seq<string>): string {
    if levels == [] then ""
    else if Last(levels) != "" then Last(levels)
    else LastKey(AllButLast(levels))
  }

  /** No key is found exactly when every segment is empty. */
  lemma {:induction false} LastKeyEmpty(levels: seq<string>)
    ensures LastKey(levels) == "" <==> forall i :: 0 <= i < |levels| ==> levels[i] == ""
  {
    if levels != [] {
      var prefix := AllButLast(levels);
      LastKeyEmpty(prefix);
      assert forall i :: 0 <= i < |prefix| ==> prefix[i] == levels[i];
      assert levels[|levels| - 1] == Last(levels);
    }
  }

  /** The key found is the last non-empty segment: trailing empty segments are popped past. */
  lemma {:induction false} LastKeySkipsTrailingEmpty(prefix: seq<string>, key: string, rest: seq<string>)
    requires key != "" && forall i :: 0 <= i < |rest| ==> rest[i] == ""
    ensures LastKey(prefix + [key] + rest) == key
    decreases |rest|
  {
    if rest != [] {
      var shorter := AllButLast(rest);
      assert AllButLast(prefix + [key] + rest) == prefix + [key] + shorter;
      assert Last(prefix + [key] + rest) == rest[|rest| - 1];
      LastKeySkipsTrailingEmpty(prefix, key, shorter);
    }
  }

  /** The captured `data` of a fresh factory: `<key>Status` set to the status value. */
  function InitialData(s: ActionStatus, key: string): map<string, Value> {
    map[key + "Status" := Str(StatusValue(s))]
  }

  /** The table after the loop over `statuses` has installed their factories for `path`. */
  function InstallAlong(table: map<string, Entry>, path: string, key: string, statuses: seq<ActionStatus>): map<string, Entry> {
    if statuses == [] then table
    else InstallAlong(table, path, key, AllButLast(statuses))[StatusName(path, Last(statuses)) := Factory(Last(statuses), key, InitialData(Last(statuses), key))]
  }

  /** Loading a function at `path`: at the empty path it becomes `instance.actions` itself
      (a function with no entries); otherwise it is registered under `path`, followed by its
      three status factories when the path has a non-empty segment. */
  function RegisterFunction(actions: Option<map<string, Entry>>, path: string, h: Handler): Option<map<string, Entry>> {
    if path == "" then Some(map[])
    else
      var table := (if actions.Some? then actions.value else map[])[path := Registered(h)];
      var key := LastKey(Split(path, '.'));
      Some(if key == "" then table else InstallAlong(table, path, key, LegacyStatuses))
  }

  /** Factory keys of different statuses differ, and none is the path itself. */
  lemma StatusKeysDistinct(path: string, s: ActionStatus, t: ActionStatus)
    ensures StatusName(path, s) != path
    ensures s != t ==> StatusName(path, s) != StatusName(path, t)
  {
    assert |StatusName(path, s)| > |path|;
    if s != t && StatusName(path, s) == StatusName(path, t) {
      StatusNameInjective(path, s, path, t);
    }
  }

  /** The three updates the factory loop makes, written out. */
  function WithFactories(table: map<string, Entry>, path: string, key: string): map<string, Entry> {
    table[StatusName(path, Doing) := Factory(Doing, key, InitialData(Doing, key))]
         [StatusName(path, Done) := Factory(Done, key, InitialData(Done, key))]
         [StatusName(path, Error) := Factory(Error, key, InitialData(Error, key))]
  }

  lemma InstallStatuses(table: map<string, Entry>, path: string, key: string)
    ensures InstallAlong(table, path, key, LegacyStatuses) == WithFactories(table, path, key)
  {
    assert AllButLast(LegacyStatuses) == [Doing, Done] && Last(LegacyStatuses) == Error;
    assert AllButLast([Doing, Done]) == [Doing] && Last([Doing, Done]) == Done;
    assert AllButLast([Doing]) == [] && Last([Doing]) == Doing;
    var t1 := table[StatusName(path, Doing) := Factory(Doing, key, InitialData(Doing, key))];
    assert InstallAlong(table, path, key, [Doing]) == t1;
    assert InstallAlong(table, path, key, [Doing, Done]) == t1[StatusName(path, Done) := Factory(Done, key, InitialData(Done, key))];
  }

  /** A function at a path with a non-empty segment is registered under the path, with the
      three factories keyed by the last such segment. */
  lemma FunctionRegistersFactories(actions: Option<map<string, Entry>>, path: string, h: Handler)
    requires path != "" && LastKey(Split(path, '.')) != ""
    ensures var r := RegisterFunction(actions, path, h);
            var key := LastKey(Split(path, '.'));
            && r.Some? && path in r.value && r.value[path] == Registered(h)
            && (forall s :: s in LegacyStatuses ==>
                  StatusName(path, s) in r.value && r.value[StatusName(path, s)] == Factory(s, key, InitialData(s, key)))
  {
    StatusKeysDistinct(path, Doing, Done);
    StatusKeysDistinct(path, Doing, Error);
    StatusKeysDistinct(path, Done, Error);
    StatusKeysDistinct(path, Doing, Doing);
    StatusKeysDistinct(path, Done, Done);
    StatusKeysDistinct(path, Error, Error);
    var key := LastKey(Split(path, '.'));
    InstallStatuses((if actions.Some? then actions.value else map[])[path := Registered(h)], path, key);
  }

  /** Loading a function changes no key but its path and its status paths. */
  lemma FunctionKeepsOtherKeys(actions: Option<map<string, Entry>>, path: string, h: Handler, k: string)
    requires path != "" && k != path && k != StatusName(path, Doing) && k != StatusName(path, Done) && k != StatusName(path, Error)
    ensures var r := RegisterFunction(actions, path, h);
            && r.Some?
            && (k in r.value <==> actions.Some? && k in actions.value)
            && (k in r.value ==> r.value[k] == actions.value[k])
  {
    var key := LastKey(Split(path, '.'));
    InstallStatuses((if actions.Some? then actions.value else map[])[path := Registered(h)], path, key);
  }

  /** What the loop over an object's own properties has gathered. */
  datatype Gathered = Gathered(actionPaths: Option<seq<string>>, reducerKeys: seq<string>,
                               subReducers: Option<map<string, LReducer>>, subStates: Option<map<string, Value>>)

  /** One loaded child folded in: an action adds its key and its four paths, otherwise its
      reducer, or failing that its non-null state, is kept under its key. */
  function AddResult(g: Gathered, key: string, p: string, res: LoadedData): Gathered {
    if res.isAction then
      g.(reducerKeys := g.reducerKeys + [key],
         actionPaths := Some((if g.actionPaths.Some? then g.actionPaths.value else [])
                             + [StatusName(p, Doing), StatusName(p, Done), StatusName(p, Error), p]))
    else if res.reducer.Some? then
      g.(subReducers := Some((if g.subReducers.Some? then g.subReducers.value else map[])[key := res.reducer.value]))
    else if res.state.Some? then
      g.(subStates := Some((if g.subStates.Some? then g.subStates.value else map[])[key := res.state.value]))
    else g
  }

  /** The node's reducer: its action paths' reducer, installed under `__index__` beside the
      children's reducers when there are any. */
  function NodeReducer(g: Gathered): Option<LReducer> {
    var own := if g.actionPaths.Some? then Some(Created(g.actionPaths.value, if g.subStates.Some? then Obj(g.subStates.value) else Null)) else None;
    if g.subReducers.Some? then Some(Combined(if own.Some? then g.subReducers.value[IndexKey := own.value] else g.subReducers.value))
    else own
  }

  /** The converted value of a leaf, when it is a function. */
  function ConvertLeaf(converter: Converter, v: Value): Option<Handler> {
    match converter
    case Wrapping => Some(Constant(v))
    case Custom(f) => if f(v).Func? then Some(Call(f(v).kind, f(v).id)) else None
    case NotCallable => None
  }

  const FunctionLoaded: LoadedData := LoadedData(true, None, Some(Undefined))

  /** `load(tree, {path, converter})`: the loaded data and the module state after it. */
  function LoadTree(t: Tree, path: string, converter: Converter, st: Loader): (LoadedData, Loader)
    decreases t, 1
  {
    match t
    case Fun(k, id) => (FunctionLoaded, st.(actions := RegisterFunction(st.actions, path, Call(k, id))))
    case Leaf(v) =>
      (match ConvertLeaf(converter, v)
       case Some(h) => (FunctionLoaded, st.(actions := RegisterFunction(st.actions, path, h)))
       case None => (LoadedData(false, None, Some(v)), st))
    case Object(props) =>
      var (g, st1) := GatherProps(t, |props|, path, converter, st);
      var reducer := NodeReducer(g);
      (LoadedData(false, reducer, if g.subStates.Some? then Some(Obj(g.subStates.value)) else None),
       if path == "" then st1.(reducers := reducer) else st1)
  }

  /** The loop over the first `n` own properties of the object `t`. */
  function GatherProps(t: Tree, n: nat, path: string, converter: Converter, st: Loader): (Gathered, Loader)
    requires t.Object? && n <= |t.props|
    decreases t, 0, n
  {
    if n == 0 then (Gathered(None, [], None, None), st)
    else
      var (g, st1) := GatherProps(t, n - 1, path, converter, st);
      var prop := t.props[n - 1];
      if IsPrefixed(prop.key) then (g, st1)
      else
        var p := GetPropPath(path, prop.key);
        var (res, st2) := LoadTree(prop.node, p, converter, st1);
        (AddResult(g, prop.key, p, res), st2)
  }

  /** The action paths gathered only grow along the loop. */
  lemma {:induction false} ActionPathsGrow(t: Tree, m: nat, n: nat, path: string, converter: Converter, st: Loader, q: string)
    requires t.Object? && m <= n <= |t.props|
    requires var g := GatherProps(t, m, path, converter, st).0; g.actionPaths.Some? && q in g.actionPaths.value
    ensures var g := GatherProps(t, n, path, converter, st).0; g.actionPaths.Some? && q in g.actionPaths.value
    decreases n
  {
    if m < n {
      ActionPathsGrow(t, m, n - 1, path, converter, st, q);
      ActionPathsStep(t, n - 1, path, converter, st, q);
    }
  }

  /** One more property keeps the action paths gathered so far. */
  lemma ActionPathsStep(t: Tree, n: nat, path: string, converter: Converter, st: Loader, q: string)
    requires t.Object? && n < |t.props|
    requires var g := GatherProps(t, n, path, converter, st).0; g.actionPaths.Some? && q in g.actionPaths.value
    ensures var g := GatherProps(t, n + 1, path, converter, st).0; g.actionPaths.Some? && q in g.actionPaths.value
  {
  }

  /** A function child at `p` puts `p` and its three status paths among the node's action paths. */
  lemma FunctionChildAddsPaths(t: Tree, i: nat, path: string, converter: Converter, st: Loader)
    requires t.Object? && i < |t.props| && t.props[i].node.Fun? && !IsPrefixed(t.props[i].key)
    ensures var g := GatherProps(t, |t.props|, path, converter, st).0;
            var p := GetPropPath(path, t.props[i].key);
            && g.actionPaths.Some?
            && p in g.actionPaths.value
            && (forall s :: s in LegacyStatuses ==> StatusName(p, s) in g.actionPaths.value)
  {
    var p := GetPropPath(path, t.props[i].key);
    var before := GatherProps(t, i, path, converter, st);
    assert LoadTree(t.props[i].node, p, converter, before.1).0 == FunctionLoaded;
    var g := GatherProps(t, i + 1, path, converter, st).0;
    assert g == AddResult(before.0, t.props[i].key, p, FunctionLoaded);
    assert g.actionPaths.Some? && p in g.actionPaths.value;
    ActionPathsGrow(t, i + 1, |t.props|, path, converter, st, p);
    forall s | s in LegacyStatuses
      ensures StatusName(p, s) in GatherProps(t, |t.props|, path, converter, st).0.actionPaths.value
    {
      assert StatusName(p, s) in g.actionPaths.value;
      ActionPathsGrow(t, i + 1, |t.props|, path, converter, st, StatusName(p, s));
    }
  }

  /** With named sub-reducers, the node's own reducer sits under `__index__` beside them. */
  lemma IndexKeyHoldsOwnReducer(g: Gathered)
    requires g.subReducers.Some? && g.actionPaths.Some?
    ensures var r := NodeReducer(g);
            && r.Some? && r.value.Combined?
            && r.value.reducers.Keys == g.subReducers.value.Keys + {IndexKey}
            && r.value.reducers[IndexKey] == Created(g.actionPaths.value, if g.subStates.Some? then Obj(g.subStates.value) else Null)
  {
  }

  // ---------------------------------------------------------------- dispatch

  /** Calling a function of the tree with `args`. */
  function CallFunction(kind: FunctionKind, id: nat, args: seq<Value>, invoke: (nat, seq<Value>) -> Outcome): Outcome {
    match kind
    case Plain => invoke(id, args)
    case Async => Return(Prom(invoke(id, args)))
    case Generator => Return(Opaque(id))
  }

  /** Calling the entry registered under `actionType` with `args`: how the call ends, and the entry
      afterwards. A done factory merges its argument into its captured data, an error factory
      stores it under `<key>Error`; both return that same data. */
  function CallEntry(actionType: string, e: Entry, args: seq<Value>, invoke: (nat, seq<Value>) -> Outcome): (Outcome, Entry) {
    match e
    case Registered(Call(k, id)) => (CallFunction(k, id, args, invoke), e)
    case Registered(Constant(v)) => (Return(v), e)
    case Factory(s, key, data) =>
      var data' := if s == Done then data + FieldsOf(FirstArg(args))
                   else if s == Error then data[key + "Error" := FirstArg(args)]
                   else data;
      (Return(ActionObject(actionType, Obj(data'))), Factory(s, key, data'))
  }

  /** Successive calls of one done factory accumulate: fields of the first response remain
      unless the second overrides them, and the status field stays unless a response sets it. */
  lemma DoneFactoryAccumulates(actionType: string, key: string, r1: Value, r2: Value, invoke: (nat, seq<Value>) -> Outcome)
    ensures var first := CallEntry(actionType, Factory(Done, key, InitialData(Done, key)), [r1], invoke);
            var second := CallEntry(actionType, first.1, [r2], invoke);
            var data := second.1.data;
            && (forall k :: k in FieldsOf(r1) && k !in FieldsOf(r2) ==> k in data && data[k] == FieldsOf(r1)[k])
            && (forall k :: k in FieldsOf(r2) ==> k in data && data[k] == FieldsOf(r2)[k])
            && (key + "Status" !in FieldsOf(r1) && key + "Status" !in FieldsOf(r2) ==> data[key + "Status"] == Str("done"))
            && second.0 == Return(ActionObject(actionType, Obj(data)))
  {
  }

  /** `instance.actions[`${name}.$${status}`](...args)`, with the entry's captured data updated;
      calling a missing factory is a TypeError. */
  function StatusCall(table: map<string, Entry>, name: string, s: ActionStatus, args: seq<Value>,
                      invoke: (nat, seq<Value>) -> Outcome): (r: (Outcome, map<string, Entry>))
    ensures r.1.Keys == table.Keys
  {
    var k := StatusName(name, s);
    if k !in table then (Throw(TypeError), table)
    else
      var (o, e) := CallEntry(k, table[k], args, invoke);
      (o, table[k := e])
  }

  /** What a dispatch submits, the table afterwards, and how its promise settles. */
  datatype LRun = LRun(submitted: seq<Value>, table: Option<map<string, Entry>>, outcome: Outcome)

  const IllegalAction: Value := Str("Dispatching illegal action")
  const NoSuchAction: Value := Str("action does not exist")
  const NotLoaded: Value := Str("Controllers not loaded yet")
  const NameNotString: Value := Str("action name should be a string")

  /** The `catch` of `dispatchAction`: the error factory is called with the error, its action
      submitted, and the error rethrown. */
  function Caught(submitted: seq<Value>, table: map<string, Entry>, name: string, e: Value,
                  invoke: (nat, seq<Value>) -> Outcome): LRun
  {
    var (err, t) := StatusCall(table, name, Error, [e], invoke);
    if err.Return? then LRun(submitted + [err.value], Some(t), Throw(e)) else LRun(submitted, Some(t), err)
  }

  /** `dispatchAction(store.dispatch, name, ...params)`: doing, then the awaited handler, then
      done with its result or error with what it threw. */
  function DispatchActionRun(actions: Option<map<string, Entry>>, name: string, params: seq<Value>,
                             invoke: (nat, seq<Value>) -> Outcome): LRun
  {
    if name == "" then LRun([], actions, Throw(IllegalAction))
    else if actions.None? then LRun([], actions, Throw(TypeError))
    else if name !in actions.value then LRun([], actions, Throw(NoSuchAction))
    else
      var (doing, t1) := StatusCall(actions.value, name, Doing, [], invoke);
      if doing.Throw? then LRun([], Some(t1), doing)
      else
        var (call, entry) := CallEntry(name, t1[name], params, invoke);
        var t2 := t1[name := entry];
        match Flatten(call)
        case Return(res) =>
          var (done, t3) := StatusCall(t2, name, Done, [res], invoke);
          if done.Return? then LRun([doing.value, done.value], Some(t3), Return(res))
          else Caught([doing.value], t3, name, done.error, invoke)
        case Throw(e) => Caught([doing.value], t2, name, e, invoke)
  }

  /** `dispatch(actionName, ...params)`: the three checks, then `dispatchAction`. */
  function DispatchRun(actions: Option<map<string, Entry>>, storeReady: bool, actionName: Value, params: seq<Value>,
                       invoke: (nat, seq<Value>) -> Outcome): LRun
  {
    if actions.None? || !storeReady then LRun([], actions, Throw(NotLoaded))
    else if !actionName.Str? then LRun([], actions, Throw(NameNotString))
    else if actionName.s !in actions.value then LRun([], actions, Throw(NoSuchAction))
    else DispatchActionRun(actions, actionName.s, params, invoke)
  }

  /** The checks of `dispatch` reject without submitting anything or touching the table. */
  lemma DispatchChecks(actions: Option<map<string, Entry>>, storeReady: bool, actionName: Value, params: seq<Value>,
                       invoke: (nat, seq<Value>) -> Outcome)
    ensures actions.None? || !storeReady ==> DispatchRun(actions, storeReady, actionName, params, invoke) == LRun([], actions, Throw(NotLoaded))
    ensures actions.Some? && storeReady && !actionName.Str? ==>
              DispatchRun(actions, storeReady, actionName, params, invoke) == LRun([], actions, Throw(NameNotString))
    ensures actions.Some? && storeReady && actionName.Str? && actionName.s !in actions.value ==>
              DispatchRun(actions, storeReady, actionName, params, invoke) == LRun([], actions, Throw(NoSuchAction))
  {
  }

  /** The three factories of the function at `path` under `key`, holding the captured data
      `dd`, `dn` and `de`: `InitialData` before the first dispatch, and what earlier calls have
      merged into it afterwards. */
  predicate HasFactories(table: map<string, Entry>, path: string, key: string,
                         dd: map<string, Value>, dn: map<string, Value>, de: map<string, Value>) {
    && StatusName(path, Doing) in table && table[StatusName(path, Doing)] == Factory(Doing, key, dd)
    && StatusName(path, Done) in table && table[StatusName(path, Done)] == Factory(Done, key, dn)
    && StatusName(path, Error) in table && table[StatusName(path, Error)] == Factory(Error, key, de)
  }

  /** A handler that returns a non-promise `v`: doing, then done with `v` merged into the done
      factory's data, which the factory keeps; the promise resolves to `v`. */
  lemma DispatchDone(table: map<string, Entry>, path: string, key: string, kind: FunctionKind, id: nat,
                     params: seq<Value>, invoke: (nat, seq<Value>) -> Outcome, v: Value,
                     dd: map<string, Value>, dn: map<string, Value>, de: map<string, Value>)
    requires path != "" && path in table && table[path] == Registered(Call(kind, id))
    requires HasFactories(table, path, key, dd, dn, de)
    requires kind != Generator && invoke(id, params) == Return(v) && !v.Prom?
    ensures var run := DispatchActionRun(Some(table), path, params, invoke);
            && run.submitted == [ActionObject(StatusName(path, Doing), Obj(dd)),
                                 ActionObject(StatusName(path, Done), Obj(dn + FieldsOf(v)))]
            && run.table == Some(table[StatusName(path, Done) := Factory(Done, key, dn + FieldsOf(v))])
            && run.outcome == Return(v)
  {
    StatusKeysDistinct(path, Doing, Done);
    var kDoing, kDone := StatusName(path, Doing), StatusName(path, Done);
    var doingAction := ActionObject(kDoing, Obj(dd));
    assert table[kDoing := table[kDoing]] == table;
    assert StatusCall(table, path, Doing, [], invoke) == (Return(doingAction), table);
    var call := CallFunction(kind, id, params, invoke);
    assert CallEntry(path, table[path], params, invoke) == (call, table[path]);
    assert Flatten(call) == Return(v);
    assert table[path := table[path]] == table;
    var doneData := dn + FieldsOf(v);
    assert StatusCall(table, path, Done, [v], invoke)
           == (Return(ActionObject(kDone, Obj(doneData))), table[kDone := Factory(Done, key, doneData)]);
  }

  /** A handler that throws or rejects with `e`: doing, then error with `e` stored under
      `<key>Error` in the error factory's data, which the factory keeps; the promise rejects
      with `e`. */
  lemma DispatchError(table: map<string, Entry>, path: string, key: string, kind: FunctionKind, id: nat,
                      params: seq<Value>, invoke: (nat, seq<Value>) -> Outcome, e: Value,
                      dd: map<string, Value>, dn: map<string, Value>, de: map<string, Value>)
    requires path != "" && path in table && table[path] == Registered(Call(kind, id))
    requires HasFactories(table, path, key, dd, dn, de)
    requires kind != Generator && invoke(id, params) == Throw(e)
    ensures var run := DispatchActionRun(Some(table), path, params, invoke);
            && run.submitted == [ActionObject(StatusName(path, Doing), Obj(dd)),
                                 ActionObject(StatusName(path, Error), Obj(de[key + "Error" := e]))]
            && run.table == Some(table[StatusName(path, Error) := Factory(Error, key, de[key + "Error" := e])])
            && run.outcome == Throw(e)
  {
    StatusKeysDistinct(path, Doing, Error);
    var kDoing, kError := StatusName(path, Doing), StatusName(path, Error);
    var doingAction := ActionObject(kDoing, Obj(dd));
    assert table[kDoing := table[kDoing]] == table;
    assert StatusCall(table, path, Doing, [], invoke) == (Return(doingAction), table);
    var call := CallFunction(kind, id, params, invoke);
    assert CallEntry(path, table[path], params, invoke) == (call, table[path]);
    assert Flatten(call) == Throw(e);
    assert table[path := table[path]] == table;
    var errorData := de[key + "Error" := e];
    assert StatusCall(table, path, Error, [e], invoke)
           == (Return(ActionObject(kError, Obj(errorData))), table[kError := Factory(Error, key, errorData)]);
  }

  /** A dispatch keeps the factories in place: after a successful one the done factory holds its
      data with the response merged in, so the next dispatch continues from there. */
  lemma DispatchDoneKeepsFactories(table: map<string, Entry>, path: string, key: string, kind: FunctionKind, id: nat,
                                   params: seq<Value>, invoke: (nat, seq<Value>) -> Outcome, v: Value,
                                   dd: map<string, Value>, dn: map<string, Value>, de: map<string, Value>)
    requires path != "" && path in table && table[path] == Registered(Call(kind, id))
    requires HasFactories(table, path, key, dd, dn, de)
    requires kind != Generator && invoke(id, params) == Return(v) && !v.Prom?
    ensures var run := DispatchActionRun(Some(table), path, params, invoke);
            && run.table.Some? && path in run.table.value && run.table.value[path] == Registered(Call(kind, id))
            && HasFactories(run.table.value, path, key, dd, dn + FieldsOf(v), de)
  {
    DispatchDone(table, path, key, kind, id, params, invoke, v, dd, dn, de);
    StatusKeysDistinct(path, Done, Doing);
    StatusKeysDistinct(path, Done, Error);
  }

  /** Right after a function is registered, its factories hold their initial data. */
  lemma RegisteredHasFactories(actions: Option<map<string, Entry>>, path: string, h: Handler)
    requires path != "" && LastKey(Split(path, '.')) != ""
    ensures var key := LastKey(Split(path, '.'));
            HasFactories(RegisterFunction(actions, path, h).value, path, key,
                         InitialData(Doing, key), InitialData(Done, key), InitialData(Error, key))
  {
    FunctionRegistersFactories(actions, path, h);
    assert Doing in LegacyStatuses && Done in LegacyStatuses && Error in LegacyStatuses;
  }

  /** The done action, through the node's reducer, sets `<key>Status` to "done" in the state
      (unless the response itself carries that field). */
  lemma DoneActionSetsStatus(paths: seq<string>, initState: Value, state: Value, path: string, key: string, v: Value)
    requires StatusName(path, Done) in paths && key + "Status" !in FieldsOf(v)
    ensures var r := CreateReduce(KeyList(paths), initState, state,
                                  ActionObject(StatusName(path, Done), Obj(InitialData(Done, key) + FieldsOf(v))));
            Get(r.value, key + "Status") == Str("done")
  {
    var data := Obj(InitialData(Done, key) + FieldsOf(v));
    var action := ActionObject(StatusName(path, Done), data);
    assert Get(action, "type") == Str(StatusName(path, Done));
    assert Get(action, "data") == data;
    var s := if state == Undefined then OrEmpty(initState) else state;
    assert key + "Status" in FieldsOf(data);
  }
}

/** What `StateEngineBase.dispatch` of src/engine.ts submits to the store and how it ends, as
    functions of the action registry, the handler and the way the handler's calls end. */
module EngineDispatch {
  import opened Js
  import opened StateSpace
  import opened EngineActions
  import opened EngineLoad

  /** How `invoke(id, args)` ends: the call of function `id` with `args`. For an async function
      this is how its body ends, for a generator function how `co` settles running it. */
  type Interpreter = (nat, seq<Value>) -> Outcome

  /** The case of the handler-kind `switch` that runs the handler. */
  datatype Branch = CallAsync | RunGenerator | AwaitPromise | CallSync | Unsupported

  /** The `switch` as written: the labels `ActionType.asyncFunction`, `asyncArrowFunction`,
      `syncFunction` and `syncArrowFunction` name no member of `ActionType`, so they are
      undefined and no kind reaches their cases. */
  function BranchAsWritten(t: ActionType): Branch {
    match t
    case GeneratorFn => RunGenerator
    case PromiseObj => AwaitPromise
    case _ => Unsupported
  }

  /** The `switch` with one case per kind, as the case bodies intend. */
  function BranchOf(t: ActionType): (b: Branch)
    ensures b == Unsupported <==> t == UnknownAction
  {
    match t
    case AsyncFn => CallAsync
    case GeneratorFn => RunGenerator
    case PromiseObj => AwaitPromise
    case Sync => CallSync
    case UnknownAction => Unsupported
  }

  /** The kind of a table entry: the factories are plain arrow functions. */
  function EntryType(entry: ActionEntry): ActionType {
    match entry
    case StatusFactory(_, _, _) => Sync
    case Handler(v) => CheckActionType(v)
  }

  /** Calling a table entry with `args`. */
  function CallEntry(entry: ActionEntry, args: seq<Value>, invoke: Interpreter): Outcome {
    match entry
    case StatusFactory(a, s, t) => Return(FactoryAction(a, s, t, FirstArg(args)))
    case Handler(v) =>
      match v
      case Func(Plain, id) => invoke(id, args)
      case Func(Async, id) => Return(Prom(invoke(id, args)))
      case Func(Generator, id) => Return(Opaque(id))
      case _ => Throw(TypeError)
  }

  const NotLoaded: Value := Str("controllers must be loaded before dispatching actions")
  const PathNotString: Value := ActionObject("error", Str("action path should be a string"))
  const NoSuchAction: Value := ActionObject("error", Str("action does not exist"))

  /** The stand-in action `dispatchByStatus` submits when no lifecycle action is registered. */
  function UnknownStatusAction(path: string, s: ActionStatus): Value {
    ActionObject("error", Obj(map["message" := Str("unknown action '" + path + "' with status '" + StatusValue(s) + "'")]))
  }

  /** What `dispatch` throws for a handler of no supported kind. */
  function UnsupportedAction(path: string): Value {
    Str("unsupported action, at path'" + path + "'")
  }

  /** What one `dispatchByStatus` submits, and what it throws, if anything. */
  datatype Step = Step(submitted: seq<Value>, thrown: Option<Value>)

  /** `dispatchByStatus(status, payload)`: calls the lifecycle action of `path` (without an
      argument for doing and idle) and submits what it returns. */
  function StatusStep(cache: map<string, CacheEntry>, path: string, s: ActionStatus, payload: Value,
                      invoke: Interpreter): Step
  {
    var args := if s == Doing || s == Idle then [] else [payload];
    var call :=
      match Resolve(cache, GetActionNameByStatus(path, StatusValue(s)))
      case None => Return(UnknownStatusAction(path, s))
      case Some(entry) => CallEntry(entry, args, invoke);
    match call
    case Return(action) => Step([action], None)
    case Throw(e) => Step([], Some(e))
  }

  /** A registered lifecycle submits exactly the factory-built action of its status. */
  lemma LifecycleStep(cache: map<string, CacheEntry>, path: string, a: string, s: ActionStatus, payload: Value,
                      invoke: Interpreter)
    requires HasLifecycle(cache, path, a)
    ensures StatusStep(cache, path, s, payload, invoke)
            == Step([FactoryAction(a, s, StatusName(path, s), if s == Doing || s == Idle then Undefined else payload)], None)
  {
    assert Resolve(cache, StatusName(path, s)) == Some(StatusFactory(a, s, StatusName(path, s)));
  }

  /** How a call of `dispatch` ends: a value, a synchronous throw, or the promise it returns,
      with the way the handler's promise settles. */
  datatype DispatchResult = Returned(value: Value) | Thrown(error: Value) | Pending(settles: Outcome)

  /** The actions `dispatch` submits synchronously, in order, and how it ends. */
  datatype Run = Run(submitted: seq<Value>, result: DispatchResult)

  /** After the doing step: a done step for `res`, then `res` is returned. */
  function Finished(cache: map<string, CacheEntry>, path: string, previous: seq<Value>, res: Value,
                invoke: Interpreter): Run
  {
    var done := StatusStep(cache, path, Done, res, invoke);
    Run(previous + done.submitted, if done.thrown.Some? then Thrown(done.thrown.value) else Returned(res))
  }

  /** After the doing step: an error step for `err`, then `err` is rethrown. */
  function Broken(cache: map<string, CacheEntry>, path: string, previous: seq<Value>, err: Value,
                  invoke: Interpreter): Run
  {
    var error := StatusStep(cache, path, Error, err, invoke);
    Run(previous + error.submitted, Thrown(if error.thrown.Some? then error.thrown.value else err))
  }

  /** The async case: the call's promise is returned. (Its other outcomes are not reached by
      the entries this case receives.) */
  function AsyncRun(entry: ActionEntry, previous: seq<Value>, params: seq<Value>, invoke: Interpreter): Run {
    match CallEntry(entry, params, invoke)
    case Throw(e) => Run(previous, Thrown(e))
    case Return(p) => Run(previous, if p.Prom? then Pending(Flatten(p.settles)) else Thrown(TypeError))
  }

  /** The sync case: a returned promise is returned as it is; any other value completes the
      lifecycle with done, a throw with error. */
  function SyncRun(cache: map<string, CacheEntry>, path: string, entry: ActionEntry, previous: seq<Value>,
                   params: seq<Value>, invoke: Interpreter): Run
  {
    match CallEntry(entry, params, invoke)
    case Throw(e) => Broken(cache, path, previous, e, invoke)
    case Return(res) =>
      if CheckActionType(res) == PromiseObj then Run(previous, Pending(Flatten(res.settles)))
      else Finished(cache, path, previous, res, invoke)
  }

  /** `dispatch(actionPath, ...params)` with the handler-kind `switch` given by `branch`. */
  function DispatchRun(branch: ActionType -> Branch, storeReady: bool, cache: map<string, CacheEntry>,
                       actionPath: Value, params: seq<Value>, invoke: Interpreter): Run
  {
    if !storeReady then Run([], Thrown(NotLoaded))
    else if !actionPath.Str? then Run([PathNotString], Returned(PathNotString))
    else if actionPath.s !in cache then Run([NoSuchAction], Returned(NoSuchAction))
    else
      var path := actionPath.s;
      var doing := StatusStep(cache, path, Doing, Undefined, invoke);
      if doing.thrown.Some? then Run(doing.submitted, Thrown(doing.thrown.value))
      else
        var entry := Resolve(cache, path).value;
        match branch(EntryType(entry))
        case Unsupported => Run(doing.submitted, Thrown(UnsupportedAction(path)))
        case AwaitPromise =>
          Run(doing.submitted, if entry.Handler? && entry.handler.Prom? then Pending(Flatten(entry.handler.settles))
                               else Thrown(TypeError))
        case RunGenerator =>
          Run(doing.submitted, if entry.Handler? && entry.handler.Func? then Pending(Flatten(invoke(entry.handler.id, params)))
                               else Thrown(TypeError))
        case CallAsync => AsyncRun(entry, doing.submitted, params, invoke)
        case CallSync => SyncRun(cache, path, entry, doing.submitted, params, invoke)
  }

  /** The continuation attached to the returned promise: `.then` submits done and passes the
      value on; `.catch` submits error and rethrows, also when the done step threw. */
  function SettleRun(cache: map<string, CacheEntry>, path: string, settled: Outcome, invoke: Interpreter)
    : (seq<Value>, Outcome)
  {
    match settled
    case Return(v) =>
      var done := StatusStep(cache, path, Done, v, invoke);
      if done.thrown.None? then (done.submitted, Return(v))
      else
        var error := StatusStep(cache, path, Error, done.thrown.value, invoke);
        (done.submitted + error.submitted, Throw(if error.thrown.Some? then error.thrown.value else done.thrown.value))
    case Throw(e) =>
      var error := StatusStep(cache, path, Error, e, invoke);
      (error.submitted, Throw(if error.thrown.Some? then error.thrown.value else e))
  }

  /** The checks come first, in order; none of their failures submits a doing action. */
  lemma DispatchChecks(branch: ActionType -> Branch, storeReady: bool, cache: map<string, CacheEntry>,
                       actionPath: Value, params: seq<Value>, invoke: Interpreter)
    ensures !storeReady ==> DispatchRun(branch, storeReady, cache, actionPath, params, invoke) == Run([], Thrown(NotLoaded))
    ensures storeReady && !actionPath.Str? ==>
            DispatchRun(branch, storeReady, cache, actionPath, params, invoke) == Run([PathNotString], Returned(PathNotString))
    ensures storeReady && actionPath.Str? && actionPath.s !in cache ==>
            DispatchRun(branch, storeReady, cache, actionPath, params, invoke) == Run([NoSuchAction], Returned(NoSuchAction))
  {
  }

  /** The doing action of a registered lifecycle is the first thing submitted. */
  lemma DoingComesFirst(branch: ActionType -> Branch, cache: map<string, CacheEntry>, path: string, a: string,
                        params: seq<Value>, invoke: Interpreter)
    requires path in cache && HasLifecycle(cache, path, a)
    ensures var run := DispatchRun(branch, true, cache, Str(path), params, invoke);
            |run.submitted| >= 1 && run.submitted[0] == FactoryAction(a, Doing, StatusName(path, Doing), Undefined)
  {
    LifecycleStep(cache, path, a, Doing, Undefined, invoke);
    LifecycleStep(cache, path, a, Done, Undefined, invoke);
    var doing := StatusStep(cache, path, Doing, Undefined, invoke);
    var entry := Resolve(cache, path).value;
    match CallEntry(entry, params, invoke)
    case Throw(e) => LifecycleStep(cache, path, a, Error, e, invoke);
    case Return(res) => LifecycleStep(cache, path, a, Done, res, invoke);
  }

  /** A synchronous handler that returns a non-promise `v`: doing, then done with `v`; `v` is returned. */
  lemma SyncHandlerReturns(cache: map<string, CacheEntry>, path: string, a: string, id: nat,
                           params: seq<Value>, invoke: Interpreter, v: Value)
    requires Resolve(cache, path) == Some(Handler(Func(Plain, id))) && HasLifecycle(cache, path, a)
    requires invoke(id, params) == Return(v) && !v.Prom?
    ensures DispatchRun(BranchOf, true, cache, Str(path), params, invoke)
            == Run([FactoryAction(a, Doing, StatusName(path, Doing), Undefined),
                    FactoryAction(a, Done, StatusName(path, Done), v)], Returned(v))
  {
    LifecycleStep(cache, path, a, Doing, Undefined, invoke);
    LifecycleStep(cache, path, a, Done, v, invoke);
  }

  /** A synchronous handler that throws `e`: doing, then error with `e`; `e` is rethrown. */
  lemma SyncHandlerThrows(cache: map<string, CacheEntry>, path: string, a: string, id: nat,
                          params: seq<Value>, invoke: Interpreter, e: Value)
    requires Resolve(cache, path) == Some(Handler(Func(Plain, id))) && HasLifecycle(cache, path, a)
    requires invoke(id, params) == Throw(e)
    ensures DispatchRun(BranchOf, true, cache, Str(path), params, invoke)
            == Run([FactoryAction(a, Doing, StatusName(path, Doing), Undefined),
                    FactoryAction(a, Error, StatusName(path, Error), e)], Thrown(e))
  {
    LifecycleStep(cache, path, a, Doing, Undefined, invoke);
    LifecycleStep(cache, path, a, Error, e, invoke);
  }

  /** A promise, an async function, or a synchronous handler that returns a promise: only
      doing is submitted before the promise is returned. */
  lemma PromiseHandlerPends(cache: map<string, CacheEntry>, path: string, a: string,
                            params: seq<Value>, invoke: Interpreter)
    requires path in cache && HasLifecycle(cache, path, a)
    requires match Resolve(cache, path).value
             case Handler(Prom(_)) => true
             case Handler(Func(Async, _)) => true
             case Handler(Func(Plain, id)) => invoke(id, params).Return? && invoke(id, params).value.Prom?
             case _ => false
    ensures var run := DispatchRun(BranchOf, true, cache, Str(path), params, invoke);
            run.submitted == [FactoryAction(a, Doing, StatusName(path, Doing), Undefined)] && run.result.Pending?
  {
    LifecycleStep(cache, path, a, Doing, Undefined, invoke);
  }

  /** A handler of no supported kind: doing is submitted, then the dispatch throws. */
  lemma UnsupportedHandlerThrows(cache: map<string, CacheEntry>, path: string, a: string, v: Value,
                                 params: seq<Value>, invoke: Interpreter)
    requires Resolve(cache, path) == Some(Handler(v)) && HasLifecycle(cache, path, a)
    requires CheckActionType(v) == UnknownAction
    ensures DispatchRun(BranchOf, true, cache, Str(path), params, invoke)
            == Run([FactoryAction(a, Doing, StatusName(path, Doing), Undefined)], Thrown(UnsupportedAction(path)))
  {
    LifecycleStep(cache, path, a, Doing, Undefined, invoke);
  }

  /** Settlement: a fulfilled promise submits done with its value and passes it on; a
      rejected one submits error with its reason and rejects with it. */
  lemma SettleSubmitsOutcome(cache: map<string, CacheEntry>, path: string, a: string, settled: Outcome,
                             invoke: Interpreter)
    requires HasLifecycle(cache, path, a)
    ensures settled.Return? ==>
              SettleRun(cache, path, settled, invoke) == ([FactoryAction(a, Done, StatusName(path, Done), settled.value)], settled)
    ensures settled.Throw? ==>
              SettleRun(cache, path, settled, invoke) == ([FactoryAction(a, Error, StatusName(path, Error), settled.error)], settled)
  {
    match settled
    case Return(v) => LifecycleStep(cache, path, a, Done, v, invoke);
    case Throw(e) => LifecycleStep(cache, path, a, Error, e, invoke);
  }

  /** As written, a synchronous or async handler never runs: after doing, the dispatch throws
      as for a handler of no supported kind. */
  lemma AsWrittenSkipsSyncAndAsync(cache: map<string, CacheEntry>, path: string, a: string, k: FunctionKind, id: nat,
                                   params: seq<Value>, invoke: Interpreter)
    requires Resolve(cache, path) == Some(Handler(Func(k, id))) && HasLifecycle(cache, path, a)
    requires k == Plain || k == Async
    ensures DispatchRun(BranchAsWritten, true, cache, Str(path), params, invoke)
            == Run([FactoryAction(a, Doing, StatusName(path, Doing), Undefined)], Thrown(UnsupportedAction(path)))
  {
    LifecycleStep(cache, path, a, Doing, Undefined, invoke);
  }
}

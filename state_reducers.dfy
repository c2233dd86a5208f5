/** The reducers of src/stateSpace.ts: `createNaiveReducer` and `combineSubReducers`.
    A reducer call is modelled by the value it returns together with whether that value is
    the very state object it was given, which is what `===` compares. */
module StateReducers {
  import opened Js

  /** The result of a reducer call. `same` holds when the reducer returned its own state
      argument (the same reference, possibly changed in place). */
  datatype Next = Next(value: Value, same: bool)

  /** A reducer `(state, payload) => nextState`. */
  type Reducer = (Value, Value) -> Next

  /** `prev === next`, where `prev` is the state the reducer was given. */
  predicate StrictEquals(prev: Value, n: Next) {
    n.same || (IsPrimitive(n.value) && n.value == prev)
  }

  /** A reducer that reports returning its argument only when it returns that argument with
      its contents unchanged. */
  ghost predicate Honest(r: Reducer) {
    forall s, p :: r(s, p).same ==> r(s, p).value == s
  }

  /** The payload's `type` matches one of the keys. */
  predicate TypeMatches(keys: set<string>, payload: Value) {
    Get(payload, "type").Str? && Get(payload, "type").s in keys
  }

  /** The reducer that `createNaiveReducer(actionKeys, initState)` returns, applied to
      `(state, payload)`. */
  function NaiveReduce(keys: set<string>, initState: Value, state: Value, payload: Value): Next {
    var s := if state == Undefined then initState else state;
    if TypeMatches(keys, payload) then Next(Assign(s, Get(payload, "data")), false)
    else Next(s, state != Undefined)
  }

  function NaiveReducer(keys: set<string>, initState: Value): Reducer {
    (state, payload) => NaiveReduce(keys, initState, state, payload)
  }

  /** On a matching type the naive reducer returns a new object: the state's properties
      overridden by the payload's data. On any other type it returns the state it was given,
      or the initial state when it was given none. */
  lemma NaiveReducerBehaviour(keys: set<string>, initState: Value, state: Value, payload: Value)
    ensures var r := NaiveReducer(keys, initState)(state, payload);
      var s := if state == Undefined then initState else state;
      var data := Get(payload, "data");
      (TypeMatches(keys, payload) ==>
         !r.same && r.value.Obj?
         && r.value.fields.Keys == FieldsOf(s).Keys + FieldsOf(data).Keys
         && (forall k :: k in FieldsOf(data) ==> Get(r.value, k) == FieldsOf(data)[k])
         && (forall k :: k in FieldsOf(s) && k !in FieldsOf(data) ==> Get(r.value, k) == FieldsOf(s)[k]))
      && (!TypeMatches(keys, payload) ==> r.value == s && (r.same <==> state != Undefined))
  {
  }

  lemma NaiveReducerHonest(keys: set<string>, initState: Value)
    ensures Honest(NaiveReducer(keys, initState))
  {
  }

  /** `reducer(prev, payload) || {}`: a falsy result is replaced by a fresh empty object. */
  function SubResult(r: Reducer, prev: Value, payload: Value): (n: Next)
    ensures Truthy(n.value)
  {
    var n := r(prev, payload);
    if Truthy(n.value) then n else Next(Obj(map[]), false)
  }

  /** Sub-key `k` changed: its reducer returned something other than (`!==`) what it was given. */
  predicate KeyChanged(subs: map<string, Reducer>, k: string, s: Value, payload: Value)
    requires k in subs
  {
    !StrictEquals(Get(s, k), SubResult(subs[k], Get(s, k), payload))
  }

  /** The value written under each sub-reducer key. */
  function SubUpdates(subs: map<string, Reducer>, s: Value, payload: Value): map<string, Value> {
    map k | k in subs :: SubResult(subs[k], Get(s, k), payload).value
  }

  /** Some sub-reducer returned something other than what it was given. */
  predicate SubsChanged(subs: map<string, Reducer>, s: Value, payload: Value) {
    exists k :: k in subs && KeyChanged(subs, k, s, payload)
  }

  /** The loop's variables: the properties of `nextState` and whether a sub-key changed. */
  datatype Progress = Progress(fields: map<string, Value>, changed: bool)

  /** The loop's variables once it has handled `keys`, in order, starting from the properties
      `fields0` and no change. */
  function Along(subs: map<string, Reducer>, keys: seq<string>, s: Value, payload: Value,
                 fields0: map<string, Value>): Progress
    decreases |keys|
  {
    if keys == [] then Progress(fields0, false)
    else
      var before := Along(subs, AllButLast(keys), s, payload, fields0);
      var k := Last(keys);
      if k in subs then
        Progress(before.fields[k := SubResult(subs[k], Get(s, k), payload).value],
                 before.changed || KeyChanged(subs, k, s, payload))
      else before
  }

  /** Handling the keys one by one writes every key's result, in any order. */
  lemma {:induction false} WrittenAlongIsWhole(subs: map<string, Reducer>, keys: seq<string>, s: Value,
                                               payload: Value, fields0: map<string, Value>)
    requires forall i :: 0 <= i < |keys| ==> keys[i] in subs
    ensures Along(subs, keys, s, payload, fields0).fields
         == fields0 + map k | k in keys :: SubResult(subs[k], Get(s, k), payload).value
    decreases |keys|
  {
    if keys != [] {
      var prefix, k := AllButLast(keys), Last(keys);
      assert keys == prefix + [k];
      WrittenAlongIsWhole(subs, prefix, s, payload, fields0);
      var v := SubResult(subs[k], Get(s, k), payload).value;
      var before := map k' | k' in prefix :: SubResult(subs[k'], Get(s, k'), payload).value;
      var after := map k' | k' in keys :: SubResult(subs[k'], Get(s, k'), payload).value;
      assert after == before[k := v];
      UpdateAfterMerge(fields0, before, k, v);
    }
  }

  lemma UpdateAfterMerge<K, V>(m: map<K, V>, u: map<K, V>, k: K, v: V)
    ensures (m + u)[k := v] == m + u[k := v]
  {
  }

  /** Handling the keys one by one flags a change exactly when some key changed. */
  lemma {:induction false} ChangedAlongIsWhole(subs: map<string, Reducer>, keys: seq<string>, s: Value,
                                               payload: Value, fields0: map<string, Value>)
    requires forall i :: 0 <= i < |keys| ==> keys[i] in subs
    ensures Along(subs, keys, s, payload, fields0).changed <==> exists k :: k in keys && KeyChanged(subs, k, s, payload)
    decreases |keys|
  {
    if keys != [] {
      var prefix, k := AllButLast(keys), Last(keys);
      assert keys == prefix + [k];
      ChangedAlongIsWhole(subs, prefix, s, payload, fields0);
    }
  }

  /** `currentReducer(state, payload) || {}` */
  function BaseResult(current: Reducer, s: Value, payload: Value): Next {
    SubResult(current, s, payload)
  }

  /** `hasChanged` at the end of the loop. */
  predicate Changed(current: Reducer, subs: map<string, Reducer>, s: Value, payload: Value) {
    !StrictEquals(s, BaseResult(current, s, payload)) || SubsChanged(subs, s, payload)
  }

  /** The contents of `nextState` once every sub-key has been written into it. */
  function Written(current: Reducer, subs: map<string, Reducer>, s: Value, payload: Value): Value {
    Obj(FieldsOf(BaseResult(current, s, payload).value) + SubUpdates(subs, s, payload))
  }

  /** `combination(state, payload)` as written. When the current reducer returns `state`
      itself, the sub-results are written into `state` in place, and the result is the same
      reference whether or not anything changed. */
  function CombinedAsWritten(current: Reducer, subs: map<string, Reducer>, state: Value, payload: Value): Next {
    var s := DefaultState(state);
    var base := BaseResult(current, s, payload);
    var written := Written(current, subs, s, payload);
    if Changed(current, subs, s, payload) then Next(written, base.same && state != Undefined)
    else if base.same then Next(written, state != Undefined)
    else Next(s, state != Undefined)
  }

  /** `combination(state, payload)` with `nextState` a fresh copy whenever anything changed,
      as the redux `combineReducers` it was adapted from does. */
  function CombinedFresh(current: Reducer, subs: map<string, Reducer>, state: Value, payload: Value): Next {
    var s := DefaultState(state);
    if Changed(current, subs, s, payload) then Next(Written(current, subs, s, payload), false)
    else Next(s, state != Undefined)
  }

  function CombinedAsWrittenReducer(current: Reducer, subs: map<string, Reducer>): Reducer {
    (state, payload) => CombinedAsWritten(current, subs, state, payload)
  }

  function CombinedFreshReducer(current: Reducer, subs: map<string, Reducer>): Reducer {
    (state, payload) => CombinedFresh(current, subs, state, payload)
  }

  /** One call of the reducer `combineSubReducers(current, subs)` returns. */
  method Combination(current: Reducer, subs: map<string, Reducer>, state: Value, payload: Value)
    returns (r: Next)
    ensures r == CombinedAsWritten(current, subs, state, payload)
  {
    var s := if state == Undefined then Obj(map[]) else state;
    var nextState := current(s, payload);
    if !Truthy(nextState.value) {
      nextState := Next(Obj(map[]), false);
    }
    var hasChanged := !StrictEquals(s, nextState);
    var fields, subChanged := WriteSubStates(subs, s, payload, FieldsOf(nextState.value));
    hasChanged := hasChanged || subChanged;
    assert nextState == BaseResult(current, s, payload);
    if hasChanged {
      r := Next(Obj(fields), nextState.same && state != Undefined);
    } else if nextState.same {
      r := Next(Obj(fields), state != Undefined);
    } else {
      r := Next(s, state != Undefined);
    }
  }

  /** The loop of `combination`: writes each sub-reducer's result into the properties of
      `nextState` and reports whether any of them differs from what it was given. */
  method WriteSubStates(subs: map<string, Reducer>, s: Value, payload: Value, fields0: map<string, Value>)
    returns (fields: map<string, Value>, hasChanged: bool)
    ensures fields == fields0 + SubUpdates(subs, s, payload)
    ensures hasChanged == SubsChanged(subs, s, payload)
  {
    var subReducerKeys := KeysOf(subs);
    fields := fields0;
    hasChanged := false;
    for i := 0 to |subReducerKeys|
      invariant fields == Along(subs, subReducerKeys[..i], s, payload, fields0).fields
      invariant hasChanged == Along(subs, subReducerKeys[..i], s, payload, fields0).changed
    {
      var key := subReducerKeys[i];
      var reducer := subs[key];
      var previousStateForKey := Get(s, key);
      var nextStateForKey := SubResult(reducer, previousStateForKey, payload);
      AlongStep(subs, subReducerKeys, i, s, payload, fields0);
      fields := fields[key := nextStateForKey.value];
      hasChanged := hasChanged || !StrictEquals(previousStateForKey, nextStateForKey);
    }
    AllKeysHandled(subs, subReducerKeys, s, payload, fields0, fields, hasChanged);
  }

  /** Handling key `i` of `keys` after the keys before it. */
  lemma AlongStep(subs: map<string, Reducer>, keys: seq<string>, i: nat, s: Value, payload: Value,
                  fields0: map<string, Value>)
    requires i < |keys| && keys[i] in subs
    ensures var before := Along(subs, keys[..i], s, payload, fields0);
      var k := keys[i];
      Along(subs, keys[..i + 1], s, payload, fields0)
      == Progress(before.fields[k := SubResult(subs[k], Get(s, k), payload).value],
                  before.changed || KeyChanged(subs, k, s, payload))
  {
    assert AllButLast(keys[..i + 1]) == keys[..i];
  }

  /** Once all keys have been handled, the loop has written `SubUpdates` and flagged `SubsChanged`. */
  lemma AllKeysHandled(subs: map<string, Reducer>, keys: seq<string>, s: Value, payload: Value,
                       fields0: map<string, Value>, fields: map<string, Value>, changed: bool)
    requires forall k :: k in keys <==> k in subs
    requires fields == Along(subs, keys[..|keys|], s, payload, fields0).fields
    requires changed == Along(subs, keys[..|keys|], s, payload, fields0).changed
    ensures fields == fields0 + SubUpdates(subs, s, payload)
    ensures changed == SubsChanged(subs, s, payload)
  {
    assert keys[..|keys|] == keys;
    AllKeysWritten(subs, keys, s, payload, fields0);
    ChangedAlongIsWhole(subs, keys, s, payload, fields0);
  }

  lemma AllKeysWritten(subs: map<string, Reducer>, keys: seq<string>, s: Value, payload: Value,
                       fields0: map<string, Value>)
    requires forall k :: k in keys <==> k in subs
    ensures Along(subs, keys, s, payload, fields0).fields == fields0 + SubUpdates(subs, s, payload)
  {
    WrittenAlongIsWhole(subs, keys, s, payload, fields0);
    assert (map k | k in keys :: SubResult(subs[k], Get(s, k), payload).value) == SubUpdates(subs, s, payload);
  }

  /** When the current reducer returns `state` and every sub-reducer returns its own truthy
      argument, the combined reducer returns the very same `state`. */
  lemma CombineKeepsReference(current: Reducer, subs: map<string, Reducer>, state: Value, payload: Value)
    requires state.Obj?
    requires current(state, payload) == Next(state, true)
    requires forall k :: k in subs ==> subs[k](Get(state, k), payload) == Next(Get(state, k), true)
    requires forall k :: k in subs ==> Truthy(Get(state, k))
    ensures CombinedAsWritten(current, subs, state, payload) == Next(state, true)
    ensures CombinedFresh(current, subs, state, payload) == Next(state, true)
  {
    assert !Changed(current, subs, state, payload);
    var written := Written(current, subs, state, payload);
    assert written.fields == state.fields by {
      forall k | k in subs ensures k in state.fields && SubUpdates(subs, state, payload)[k] == state.fields[k] {
        assert Truthy(Get(state, k));
      }
    }
  }

  /** Under every sub-key, both versions hold that sub-reducer's result, or `{}` when
      that result is falsy. */
  lemma CombineSubKeys(current: Reducer, subs: map<string, Reducer>, state: Value, payload: Value)
    requires forall k :: k in subs ==> Honest(subs[k])
    ensures forall k :: k in subs ==>
      Get(CombinedAsWritten(current, subs, state, payload).value, k)
      == SubResult(subs[k], Get(DefaultState(state), k), payload).value
    ensures forall k :: k in subs ==>
      Get(CombinedFresh(current, subs, state, payload).value, k)
      == SubResult(subs[k], Get(DefaultState(state), k), payload).value
  {
    var s := DefaultState(state);
    if !Changed(current, subs, s, payload) {
      forall k | k in subs ensures Get(s, k) == SubResult(subs[k], Get(s, k), payload).value {
        var n := subs[k](Get(s, k), payload);
        assert StrictEquals(Get(s, k), SubResult(subs[k], Get(s, k), payload));
        if n.same {
          assert n.value == Get(s, k);
        }
      }
    }
  }

  /** Every other key holds what the current reducer's result holds under it. */
  lemma CombineOtherKeys(current: Reducer, subs: map<string, Reducer>, state: Value, payload: Value, k: string)
    requires Honest(current) && k !in subs
    ensures Get(CombinedAsWritten(current, subs, state, payload).value, k)
         == Get(BaseResult(current, DefaultState(state), payload).value, k)
    ensures Get(CombinedFresh(current, subs, state, payload).value, k)
         == Get(BaseResult(current, DefaultState(state), payload).value, k)
  {
    var s := DefaultState(state);
    var base := BaseResult(current, s, payload);
    if !Changed(current, subs, s, payload) && base.same {
      assert current(s, payload).same;
    }
  }

  /** With fresh copies, combining honest reducers gives an honest reducer. */
  lemma CombinedFreshHonest(current: Reducer, subs: map<string, Reducer>)
    requires Honest(current)
    requires forall k :: k in subs ==> Honest(subs[k])
    ensures Honest(CombinedFreshReducer(current, subs))
  {
    forall state, payload | CombinedFreshReducer(current, subs)(state, payload).same
      ensures CombinedFreshReducer(current, subs)(state, payload).value == state
    {
    }
  }

  /** With fresh copies, the combined result is `===` to the state it was given exactly when
      the current reducer or some sub-reducer changed something. */
  lemma CombinedFreshReportsChange(current: Reducer, subs: map<string, Reducer>, state: Value, payload: Value)
    requires state != Undefined
    ensures StrictEquals(state, CombinedFresh(current, subs, state, payload))
        <==> !Changed(current, subs, state, payload)
  {
  }

  /** The reducer that returns its state, as the current reducer of a node without actions. */
  function KeepState(): Reducer {
    (state, payload) => Next(state, true)
  }

  /** A sub-reducer that always produces the fresh object `v`. */
  function Produce(v: Value): Reducer {
    (state, payload) => Next(v, false)
  }

  /** As written, a node whose current reducer keeps the state and whose sub-reducer `c`
      produces a new object reports the same reference although `state.c` has changed: the
      combined reducer of honest reducers is not honest. */
  lemma AliasedCombineHidesChange()
    ensures var subs := map["c" := Produce(Obj(map["x" := Num(1)]))];
      var r := CombinedAsWritten(KeepState(), subs, Obj(map[]), Undefined);
      r.same && r.value != Obj(map[]) && Get(r.value, "c") == Obj(map["x" := Num(1)])
    ensures Honest(KeepState()) && Honest(Produce(Obj(map["x" := Num(1)])))
    ensures !Honest(CombinedAsWrittenReducer(KeepState(), map["c" := Produce(Obj(map["x" := Num(1)]))]))
  {
    var subs := map["c" := Produce(Obj(map["x" := Num(1)]))];
    var s := Obj(map[]);
    assert SubResult(subs["c"], Get(s, "c"), Undefined) == Next(Obj(map["x" := Num(1)]), false);
    assert SubsChanged(subs, s, Undefined);
    var r := CombinedAsWritten(KeepState(), subs, s, Undefined);
    assert Get(r.value, "c") == Obj(map["x" := Num(1)]);
    assert CombinedAsWrittenReducer(KeepState(), subs)(s, Undefined) == r;
  }
}

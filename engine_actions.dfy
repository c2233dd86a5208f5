/** The action tables of src/engine.ts: the lifecycle factories that `expandActions` adds
    next to each action handler, and the internal-action naming rule. */
module EngineActions {
  import opened Js
  import opened StateSpace

  /** An entry of an expanded action table: a handler taken from the controller, or the
      factory `expandActions` installs for one action in one lifecycle status, which builds
      actions of the type `actionType`. */
  datatype ActionEntry =
    | Handler(handler: Value)
    | StatusFactory(actionName: string, status: ActionStatus, actionType: string)

  /** `isInternalAction`: the name starts with an underscore. */
  predicate IsInternalAction(actionName: string) {
    actionName != "" && actionName[0] == '_'
  }

  /** A lifecycle identifier is internal exactly when its action is. */
  lemma InternalStatusNames(actionName: string, s: ActionStatus)
    ensures IsInternalAction(StatusName(actionName, s)) <==> IsInternalAction(actionName)
  {
    var k := StatusName(actionName, s);
    if actionName == "" {
      assert k[0] == '.';
    } else {
      assert k[0] == actionName[0];
    }
  }

  /** A done payload is merged field by field when it is a non-null object. */
  predicate MergesPayload(s: ActionStatus, payload: Value) {
    s == Done && Truthy(payload) && IsObjectType(payload)
  }

  /** The `data` object a factory builds for action `actionName` in status `s`. */
  function FactoryData(actionName: string, s: ActionStatus, payload: Value): map<string, Value> {
    var statusField := map[actionName + "$status" := Str(StatusValue(s))];
    match s
    case Error => statusField[actionName + "$error" := payload]
    case Done =>
      var data := statusField[actionName + "$response" := payload];
      if MergesPayload(s, payload) then data + FieldsOf(payload) else data
    case _ => statusField
  }

  /** What a status factory returns when it is called with `payload`. */
  function FactoryAction(actionName: string, s: ActionStatus, actionType: string, payload: Value): Value {
    ActionObject(actionType, Obj(FactoryData(actionName, s, payload)))
  }

  /** The shape of a factory-built action: its type, the status field, the error field of an
      error action, and for a done action the response field with an object payload's own
      fields merged on top of it. */
  lemma FactoryActionShape(actionName: string, s: ActionStatus, actionType: string, payload: Value)
    ensures Get(FactoryAction(actionName, s, actionType, payload), "type") == Str(actionType)
    ensures var data := FactoryData(actionName, s, payload);
      && Get(FactoryAction(actionName, s, actionType, payload), "data") == Obj(data)
      && (s == Doing || s == Idle ==> data == map[actionName + "$status" := Str(StatusValue(s))])
      && (s == Error ==> (data.Keys == {actionName + "$status", actionName + "$error"}
                          && data[actionName + "$status"] == Str("error") && data[actionName + "$error"] == payload))
      && (s == Done ==> data.Keys == {actionName + "$status", actionName + "$response"}
                                     + (if MergesPayload(s, payload) then FieldsOf(payload).Keys else {}))
      && (MergesPayload(s, payload) ==> forall k :: k in FieldsOf(payload) ==> data[k] == FieldsOf(payload)[k])
      && (s == Done && !(MergesPayload(s, payload) && actionName + "$response" in FieldsOf(payload))
          ==> data[actionName + "$response"] == payload)
      && (!(MergesPayload(s, payload) && actionName + "$status" in FieldsOf(payload))
          ==> data[actionName + "$status"] == Str(StatusValue(s)))
  {
    assert |actionName + "$status"| != |actionName + "$error"|;
    assert |actionName + "$status"| != |actionName + "$response"|;
  }

  /** The action and status of the factory that expansion installs under `k`, when `k` is the
      lifecycle identifier of one of `names`. */
  function FactoryOf(names: set<string>, k: string): (r: Option<(string, ActionStatus)>)
    ensures r.Some? ==> r.value.0 in names && k == StatusName(r.value.0, r.value.1)
  {
    match StatusSuffix(k)
    case None => None
    case Some(s) =>
      SuffixEncode(k, s);
      if BaseName(k, s) in names then Some((BaseName(k, s), s)) else None
  }

  /** A key with a status suffix is the lifecycle identifier of the name in front of it. */
  lemma SuffixEncode(k: string, s: ActionStatus)
    requires StatusSuffix(k) == Some(s)
    ensures k == StatusName(BaseName(k, s), s)
  {
    if s == Doing { EncodeDoing(k); }
    else if s == Done { EncodeDone(k); }
    else if s == Error { EncodeError(k); }
    else { EncodeIdle(k); }
  }

  lemma EncodeDoing(k: string)
    requires StatusSuffix(k) == Some(Doing)
    ensures k == StatusName(BaseName(k, Doing), Doing)
  {
    assert |k| >= 7 && k[|k| - 7..] == ".$doing";
    EncodeWith(k, ".$doing", Doing);
  }

  lemma EncodeDone(k: string)
    requires StatusSuffix(k) == Some(Done)
    ensures k == StatusName(BaseName(k, Done), Done)
  {
    assert |k| >= 6 && k[|k| - 6..] == ".$done";
    EncodeWith(k, ".$done", Done);
  }

  lemma EncodeError(k: string)
    requires StatusSuffix(k) == Some(Error)
    ensures k == StatusName(BaseName(k, Error), Error)
  {
    assert |k| >= 7 && k[|k| - 7..] == ".$error";
    EncodeWith(k, ".$error", Error);
  }

  lemma EncodeIdle(k: string)
    requires StatusSuffix(k) == Some(Idle)
    ensures k == StatusName(BaseName(k, Idle), Idle)
  {
    assert |k| >= 6 && k[|k| - 6..] == ".$idle";
    EncodeWith(k, ".$idle", Idle);
  }

  lemma EncodeWith(k: string, suffix: string, s: ActionStatus)
    requires suffix == ".$" + StatusValue(s)
    requires |k| >= |suffix| && k[|k| - |suffix|..] == suffix
    ensures k == StatusName(BaseName(k, s), s)
  {
    assert k == k[..|k| - |suffix|] + suffix;
  }

  /** The factory of `actionName` in `s` is found again from its identifier. */
  lemma FactoryOfStatusName(names: set<string>, actionName: string, s: ActionStatus)
    requires actionName in names
    ensures FactoryOf(names, StatusName(actionName, s)) == Some((actionName, s))
  {
    StatusNameDecode(actionName, s);
  }

  /** The four lifecycle identifiers of each name in `names`. */
  function StatusNames(names: set<string>): set<string> {
    set a, s | a in names && s in Statuses :: StatusName(a, s)
  }

  /** The entry expansion leaves under key `k`, when the actions named `names` have been expanded. */
  function EntryAt(currentPath: string, actions: map<string, Value>, names: set<string>, k: string): ActionEntry {
    match FactoryOf(names, k)
    case Some(f) => StatusFactory(f.0, f.1, GetPropPath(currentPath, k))
    case None => Handler(if k in actions then actions[k] else Undefined)
  }

  /** The action table after `expandActions(currentPath, actions)`. */
  function Expanded(currentPath: string, actions: map<string, Value>): map<string, ActionEntry> {
    map k | k in actions.Keys + StatusNames(actions.Keys) :: EntryAt(currentPath, actions, actions.Keys, k)
  }

  /** The table before expansion: one handler per action. */
  function Handlers(actions: map<string, Value>): map<string, ActionEntry> {
    map k | k in actions :: Handler(actions[k])
  }

  /** The table after the inner loop has installed the factories of `actionName` for `statuses`. */
  function AddFactories(currentPath: string, table: map<string, ActionEntry>, actionName: string,
                        statuses: seq<ActionStatus>): map<string, ActionEntry>
  {
    if statuses == [] then table
    else
      var s := Last(statuses);
      Install(currentPath, AddFactories(currentPath, table, actionName, AllButLast(statuses)), actionName, s)
  }

  /** The table after the outer loop has expanded the actions `names`, in that order. */
  function ExpandAlong(currentPath: string, actions: map<string, Value>, names: seq<string>): map<string, ActionEntry> {
    if names == [] then Handlers(actions)
    else AddFactories(currentPath, ExpandAlong(currentPath, actions, AllButLast(names)), Last(names), Statuses)
  }

  /** `expandActions`: for every action name taken before the loop and every status, installs
      the status factory under the lifecycle identifier, in place of whatever was there. */
  method ExpandActions(currentPath: string, actions: map<string, Value>) returns (table: map<string, ActionEntry>)
    ensures table == Expanded(currentPath, actions)
  {
    var actionNames := KeysOf(actions);
    table := Handlers(actions);
    for i := 0 to |actionNames|
      invariant table == ExpandAlong(currentPath, actions, actionNames[..i])
    {
      var actionName := actionNames[i];
      ghost var before := table;
      for j := 0 to |Statuses|
        invariant table == AddFactories(currentPath, before, actionName, Statuses[..j])
      {
        var status := Statuses[j];
        var statusActionName := GetActionNameByStatus(actionName, StatusValue(status));
        var statusActionPath := GetPropPath(currentPath, statusActionName);
        table := table[statusActionName := StatusFactory(actionName, status, statusActionPath)];
        assert AllButLast(Statuses[..j + 1]) == Statuses[..j];
      }
      assert Statuses[..|Statuses|] == Statuses;
      assert AllButLast(actionNames[..i + 1]) == actionNames[..i];
    }
    assert actionNames[..|actionNames|] == actionNames;
    ExpandAlongIsExpanded(currentPath, actions, actionNames);
  }

  function NameSet(names: seq<string>): set<string> {
    set n | n in names
  }

  /** The keys and entries after expanding `names`. */
  lemma {:induction false} ExpandAlongEntries(currentPath: string, actions: map<string, Value>, names: seq<string>)
    ensures forall k :: k in ExpandAlong(currentPath, actions, names)
              <==> k in actions || k in StatusNames(NameSet(names))
    ensures forall k :: k in ExpandAlong(currentPath, actions, names)
              ==> ExpandAlong(currentPath, actions, names)[k] == EntryAt(currentPath, actions, NameSet(names), k)
  {
    if names != [] {
      var prefix := AllButLast(names);
      ExpandAlongEntries(currentPath, actions, prefix);
      AddFactoriesEntries(currentPath, actions, NameSet(prefix), Last(names),
                          ExpandAlong(currentPath, actions, prefix));
      assert NameSet(names) == NameSet(prefix) + {Last(names)} by {
        assert names == prefix + [Last(names)];
      }
    }
  }

  /** Installing the factories of one more action keeps the table described by `EntryAt`. */
  lemma AddFactoriesEntries(currentPath: string, actions: map<string, Value>, names: set<string>,
                            actionName: string, table: map<string, ActionEntry>)
    requires forall k :: k in table <==> k in actions || k in StatusNames(names)
    requires forall k :: k in table ==> table[k] == EntryAt(currentPath, actions, names, k)
    ensures forall k :: k in AddFactories(currentPath, table, actionName, Statuses)
              <==> k in actions || k in StatusNames(names + {actionName})
    ensures forall k :: k in AddFactories(currentPath, table, actionName, Statuses)
              ==> AddFactories(currentPath, table, actionName, Statuses)[k]
                  == EntryAt(currentPath, actions, names + {actionName}, k)
  {
    AddFactoriesEntryKeys(currentPath, actions, names, actionName, table);
    AddFactoriesEntryValues(currentPath, actions, names, actionName, table);
  }

  /** The keys after installing the factories of one more action. */
  lemma AddFactoriesEntryKeys(currentPath: string, actions: map<string, Value>, names: set<string>,
                              actionName: string, table: map<string, ActionEntry>)
    requires forall k :: k in table <==> k in actions || k in StatusNames(names)
    ensures forall k :: k in AddFactories(currentPath, table, actionName, Statuses)
              <==> k in actions || k in StatusNames(names + {actionName})
  {
    var after := AddFactories(currentPath, table, actionName, Statuses);
    AddFactoriesKeys(currentPath, table, actionName);
    var all := names + {actionName};
    forall k ensures k in after <==> k in actions || k in StatusNames(all) {
      if k in StatusNames(all) {
        var a, s :| a in all && s in Statuses && k == StatusName(a, s);
      }
    }
  }

  /** The entries after installing the factories of one more action. */
  lemma AddFactoriesEntryValues(currentPath: string, actions: map<string, Value>, names: set<string>,
                                actionName: string, table: map<string, ActionEntry>)
    requires forall k :: k in table ==> table[k] == EntryAt(currentPath, actions, names, k)
    ensures forall k :: k in AddFactories(currentPath, table, actionName, Statuses)
              ==> AddFactories(currentPath, table, actionName, Statuses)[k]
                  == EntryAt(currentPath, actions, names + {actionName}, k)
  {
    var after := AddFactories(currentPath, table, actionName, Statuses);
    AddFactoriesKeys(currentPath, table, actionName);
    var all := names + {actionName};
    forall k | k in after ensures after[k] == EntryAt(currentPath, actions, all, k) {
      if s :| s in Statuses && k == StatusName(actionName, s) {
        FactoryOfStatusName(all, actionName, s);
      } else {
        FactoryOfOneMore(names, actionName, k);
      }
    }
  }

  /** The four installed keys and what is left under every other key. */
  lemma AddFactoriesKeys(currentPath: string, table: map<string, ActionEntry>, actionName: string)
    ensures forall k :: k in AddFactories(currentPath, table, actionName, Statuses)
              <==> k in table || exists s :: s in Statuses && k == StatusName(actionName, s)
    ensures forall s :: s in Statuses ==>
              AddFactories(currentPath, table, actionName, Statuses)[StatusName(actionName, s)]
              == StatusFactory(actionName, s, GetPropPath(currentPath, StatusName(actionName, s)))
    ensures forall k :: k in table && (forall s :: s in Statuses ==> k != StatusName(actionName, s)) ==>
              AddFactories(currentPath, table, actionName, Statuses)[k] == table[k]
  {
    AddFactoriesFour(currentPath, table, actionName);
    FourStatusNames(actionName);
    AddFactoriesDomain(currentPath, table, actionName);
    AddFactoriesInstalled(currentPath, table, actionName);
    AddFactoriesFrame(currentPath, table, actionName);
  }

  lemma AddFactoriesDomain(currentPath: string, table: map<string, ActionEntry>, actionName: string)
    ensures forall k :: k in AddFactories(currentPath, table, actionName, Statuses)
              <==> k in table || exists s :: s in Statuses && k == StatusName(actionName, s)
  {
    AddFactoriesFour(currentPath, table, actionName);
  }

  lemma AddFactoriesInstalled(currentPath: string, table: map<string, ActionEntry>, actionName: string)
    ensures forall s :: s in Statuses ==> StatusName(actionName, s) in AddFactories(currentPath, table, actionName, Statuses)
    ensures forall s :: s in Statuses ==>
              AddFactories(currentPath, table, actionName, Statuses)[StatusName(actionName, s)]
              == StatusFactory(actionName, s, GetPropPath(currentPath, StatusName(actionName, s)))
  {
    AddFactoriesFour(currentPath, table, actionName);
    FourStatusNames(actionName);
  }

  lemma AddFactoriesFrame(currentPath: string, table: map<string, ActionEntry>, actionName: string)
    ensures forall k :: k in table ==> k in AddFactories(currentPath, table, actionName, Statuses)
    ensures forall k :: k in table && (forall s :: s in Statuses ==> k != StatusName(actionName, s)) ==>
              AddFactories(currentPath, table, actionName, Statuses)[k] == table[k]
  {
    AddFactoriesFour(currentPath, table, actionName);
  }

  lemma AddFactoriesFour(currentPath: string, table: map<string, ActionEntry>, actionName: string)
    ensures AddFactories(currentPath, table, actionName, Statuses)
         == Install(currentPath, Install(currentPath, Install(currentPath, Install(currentPath,
              table, actionName, Doing), actionName, Done), actionName, Error), actionName, Idle)
  {
    AddFactoriesUnfold(currentPath, table, actionName, Statuses[..1]);
    AddFactoriesUnfold(currentPath, table, actionName, Statuses[..2]);
    AddFactoriesUnfold(currentPath, table, actionName, Statuses[..3]);
    AddFactoriesUnfold(currentPath, table, actionName, Statuses);
    assert AllButLast(Statuses[..1]) == [];
    assert AllButLast(Statuses[..2]) == Statuses[..1];
    assert AllButLast(Statuses[..3]) == Statuses[..2];
    assert AllButLast(Statuses) == Statuses[..3];
  }

  /** The factory of `actionName` in status `s`, installed under its identifier. */
  function Install(currentPath: string, table: map<string, ActionEntry>, actionName: string, s: ActionStatus)
    : map<string, ActionEntry>
  {
    table[StatusName(actionName, s) := StatusFactory(actionName, s, GetPropPath(currentPath, StatusName(actionName, s)))]
  }

  lemma AddFactoriesUnfold(currentPath: string, table: map<string, ActionEntry>, actionName: string,
                           statuses: seq<ActionStatus>)
    requires statuses != []
    ensures AddFactories(currentPath, table, actionName, statuses)
         == Install(currentPath, AddFactories(currentPath, table, actionName, AllButLast(statuses)), actionName, Last(statuses))
  {
  }

  /** Adding an action changes the factory found under `k` only at that action's identifiers. */
  lemma FactoryOfOneMore(names: set<string>, actionName: string, k: string)
    requires forall s :: s in Statuses ==> k != StatusName(actionName, s)
    ensures FactoryOf(names + {actionName}, k) == FactoryOf(names, k)
  {
    match StatusSuffix(k)
    case None =>
    case Some(s) =>
      SuffixEncode(k, s);
      assert s in Statuses;
  }

  /** Expanding every action, in any order, gives `Expanded`. */
  lemma ExpandAlongIsExpanded(currentPath: string, actions: map<string, Value>, names: seq<string>)
    requires forall k :: k in names <==> k in actions
    ensures ExpandAlong(currentPath, actions, names) == Expanded(currentPath, actions)
  {
    ExpandAlongEntries(currentPath, actions, names);
    assert NameSet(names) == actions.Keys;
  }

  /** Every original action stays in the table; it keeps its handler unless its name is itself
      the lifecycle identifier of another action. */
  lemma ExpandKeepsOriginals(currentPath: string, actions: map<string, Value>, k: string)
    requires k in actions
    ensures k in Expanded(currentPath, actions)
    ensures (forall a, s :: a in actions ==> k != StatusName(a, s))
            ==> Expanded(currentPath, actions)[k] == Handler(actions[k])
  {
  }

  /** Every action gets a factory under each of its four lifecycle identifiers, building actions
      typed with the identifier's path under `currentPath`. */
  lemma ExpandInstallsFactories(currentPath: string, actions: map<string, Value>, a: string, s: ActionStatus)
    requires a in actions
    ensures StatusName(a, s) in Expanded(currentPath, actions)
    ensures Expanded(currentPath, actions)[StatusName(a, s)]
            == StatusFactory(a, s, GetPropPath(currentPath, StatusName(a, s)))
  {
    FactoryOfStatusName(actions.Keys, a, s);
    assert s in Statuses;
  }

  /** Nothing else is added: every key is an original action or one of its identifiers. */
  lemma ExpandAddsNothingElse(currentPath: string, actions: map<string, Value>, k: string)
    requires k in Expanded(currentPath, actions)
    ensures k in actions || exists a, s :: a in actions && k == StatusName(a, s)
  {
  }

  /** The action names are taken before the loop: the identifiers it installs are not expanded
      again, unless they were already actions themselves. */
  lemma NoSecondExpansion(currentPath: string, actions: map<string, Value>, a: string, s: ActionStatus, t: ActionStatus)
    requires a in actions && StatusName(a, s) !in actions
    requires StatusName(StatusName(a, s), t) !in actions
    ensures StatusName(StatusName(a, s), t) !in Expanded(currentPath, actions)
  {
    var k := StatusName(StatusName(a, s), t);
    if k in Expanded(currentPath, actions) {
      ExpandAddsNothingElse(currentPath, actions, k);
      var a', s' :| a' in actions && k == StatusName(a', s');
      StatusNameInjective(StatusName(a, s), t, a', s');
      assert false;
    }
  }
}

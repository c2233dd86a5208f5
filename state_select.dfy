/** Selecting parts of the state tree for a view, and building a view's dispatchers
    (src/stateSpace.ts: identifyStateByAbsolutePath, mergeStateToProps, mergeDispatchToProps). */
module StateSelect {
  import opened Js
  import opened StateSpace

  /** Walking down `segs` from `v`, where a missing or falsy property counts as `{}`. */
  function Descend(v: Value, segs: seq<string>): Value
    decreases |segs|
  {
    if segs == [] then v else OrEmpty(Get(Descend(v, segs[..|segs| - 1]), Last(segs)))
  }

  /** Plain nested property access, with no defaulting of missing properties. */
  function DeepGet(v: Value, segs: seq<string>): Value
    decreases |segs|
  {
    if segs == [] then v else Get(DeepGet(v, segs[..|segs| - 1]), Last(segs))
  }

  /** Every proper prefix of `segs` leads to a truthy value. */
  predicate PathPresent(v: Value, segs: seq<string>) {
    forall i :: 0 <= i < |segs| ==> Truthy(DeepGet(v, segs[..i]))
  }

  /** The value `identifyStateByAbsolutePath(state, path, customName)` returns. */
  function Selected(state: Value, path: string, customName: string): Value {
    var s := DefaultState(state);
    if path == "" && customName == "" then s
    else if path == "" then Obj(map[customName := s])
    else
      var segs := Split(path, '.');
      var key := if customName == "" then Last(segs) else customName;
      Obj(map[key := Get(Descend(s, AllButLast(segs)), Last(segs))])
  }

  /** `identifyStateByAbsolutePath`: the state itself, the state under a custom name, or the
      one property that `path` names, under its last segment or under the custom name. */
  method IdentifyStateByAbsolutePath(state: Value, path: string, customName: string) returns (r: Value)
    ensures path == "" && customName == "" ==> r == DefaultState(state)
    ensures path == "" && customName != "" ==> r == Obj(map[customName := DefaultState(state)])
    ensures path != "" ==>
      var segs := Split(path, '.');
      r == Obj(map[(if customName == "" then Last(segs) else customName)
                   := Get(Descend(DefaultState(state), AllButLast(segs)), Last(segs))])
    ensures r == Selected(state, path, customName)
  {
    var s := if state == Undefined then Obj(map[]) else state;
    if path == "" && customName == "" {
      return s;
    }
    var result: map<string, Value> := map[];
    if path == "" {
      result := result[customName := s];
    } else {
      var segments := Split(path, '.');
      var parent := s;
      var i := 0;
      while i < |segments| - 1
        invariant 0 <= i <= |segments| - 1
        invariant parent == Descend(s, segments[..i])
      {
        assert segments[..i + 1][..i] == segments[..i];
        parent := OrEmpty(Get(parent, segments[i]));
        i := i + 1;
      }
      var originalName := segments[|segments| - 1];
      if customName == "" {
        result := result[originalName := Get(parent, originalName)];
      } else {
        result := result[customName := Get(parent, originalName)];
      }
    }
    r := Obj(result);
  }

  /** Where every intermediate property exists and is truthy, the defaulting walk is plain access. */
  lemma {:induction false} DescendPresent(v: Value, segs: seq<string>, n: nat)
    requires n < |segs| && PathPresent(v, segs)
    ensures Descend(v, segs[..n]) == DeepGet(v, segs[..n])
  {
    if n > 0 {
      DescendPresent(v, segs, n - 1);
      assert segs[..n][..n - 1] == segs[..n - 1];
      assert Truthy(DeepGet(v, segs[..n - 1]));
    }
  }

  /** Selecting a path that exists in the state yields a one-key object holding the value at
      that path, keyed by the path's last segment. */
  lemma SelectedPresentPath(state: Value, segs: seq<string>)
    requires |segs| >= 1 && FreeOf(segs, '.') && Join(segs, '.') != ""
    requires PathPresent(DefaultState(state), segs)
    ensures Selected(state, Join(segs, '.'), "")
         == Obj(map[Last(segs) := DeepGet(DefaultState(state), segs)])
  {
    SplitJoin(segs, '.');
    var s := DefaultState(state);
    var m := |segs| - 1;
    DescendPresent(s, segs, m);
    assert segs[..m] == AllButLast(segs);
    assert segs[..m + 1] == segs;
  }

  /** The shapes a `$combine` setting can take. */
  datatype Combines =
    | NoCombine                                  // absent, or another falsy value
    | OnePath(path: string)                      // a string (the empty string is falsy)
    | PathList(paths: seq<string>)               // an array of paths
    | NamedPaths(entries: seq<(string, string)>) // a plain object `{customName: path}`, in key order
    | OtherCombine                               // any other truthy value

  /** The combine setting takes part in the selection. */
  predicate Combining(c: Combines) {
    (c.OnePath? && c.path != "") || c.PathList? || c.NamedPaths?
  }

  /** The (custom name, path) selections a combine setting asks for, in order. */
  function CombinePairs(c: Combines): seq<(string, string)> {
    match c
    case OnePath(p) => [("", p)]
    case PathList(ps) => Unnamed(ps)
    case NamedPaths(entries) => entries
    case _ => []
  }

  /** Each path of a list, selected under its own last segment. */
  function Unnamed(paths: seq<string>): (r: seq<(string, string)>)
    ensures |r| == |paths|
    decreases |paths|
  {
    if paths == [] then [] else Unnamed(AllButLast(paths)) + [("", Last(paths))]
  }

  lemma UnnamedTwo(p1: string, p2: string)
    ensures Unnamed([p1, p2]) == [("", p1), ("", p2)]
  {
    assert AllButLast([p1, p2]) == [p1];
    assert AllButLast([p1]) == [];
  }

  /** `props` after each selection of `pairs` has been assigned into it in turn. When
      `aliased` holds, `props` is the state object itself, so each selection reads the state
      as the earlier assignments left it. */
  function FoldProps(props: Value, state: Value, pairs: seq<(string, string)>, aliased: bool): (r: Value)
    ensures pairs != [] ==> r.Obj?
    decreases |pairs|
  {
    if pairs == [] then props
    else
      var p := Last(pairs);
      var acc := FoldProps(props, state, AllButLast(pairs), aliased);
      Assign(OrEmpty(acc), Selected(if aliased then acc else state, p.1, p.0))
  }

  /** Folding one more selection. */
  lemma FoldStep(props0: Value, state: Value, pairs: seq<(string, string)>, i: nat, aliased: bool,
                 props: Value)
    requires i < |pairs|
    requires props == FoldProps(props0, state, pairs[..i], aliased)
    ensures Assign(OrEmpty(props), Selected(if aliased then props else state, pairs[i].1, pairs[i].0)) == FoldProps(props0, state, pairs[..i + 1], aliased)
  {
    assert AllButLast(pairs[..i + 1]) == pairs[..i];
  }

  /** The props computed for `state` with the given aliasing of props and state. */
  function MergedWith(state: Value, currentPath: string, combines: Combines, aliased: bool): (r: Value)
    ensures Truthy(r)
  {
    var s := DefaultState(state);
    var props := Selected(s, currentPath, "");
    if Combining(combines) then OrEmpty(FoldProps(props, s, CombinePairs(combines), aliased))
    else OrEmpty(props)
  }

  /** With an empty current path, the selection of the current path is the state object itself,
      and `Object.assign(props, ...)` writes into it. */
  predicate PropsAliasState(state: Value, currentPath: string) {
    currentPath == "" && DefaultState(state).Obj?
  }

  /** What `mergeStateToProps(currentPath, combines)` computes for `state`, as written. */
  function MergedAsWritten(state: Value, currentPath: string, combines: Combines): (r: Value)
    ensures Truthy(r)
  {
    MergedWith(state, currentPath, combines, PropsAliasState(state, currentPath))
  }

  /** The intended props: every combined path is selected from the state as it was passed in. */
  function MergedState(state: Value, currentPath: string, combines: Combines): (r: Value)
    ensures Truthy(r)
  {
    MergedWith(state, currentPath, combines, false)
  }

  /** The state-to-props mapping of `mergeStateToProps`, applied to `state`, as written. */
  method MergeStateToProps(currentPath: string, combines: Combines, state: Value) returns (props: Value)
    ensures props == MergedAsWritten(state, currentPath, combines)
  {
    var s := if state == Undefined then Obj(map[]) else state;
    props := IdentifyStateByAbsolutePath(s, currentPath, "");
    if !Combining(combines) {
      return OrEmpty(props);
    }
    // `props` and `state` are one object exactly when the current path is empty
    var aliased := currentPath == "" && s.Obj?;
    var combinedPaths := if combines.OnePath? then PathList([combines.path]) else combines;
    assert CombinePairs(combinedPaths) == CombinePairs(combines);
    if combinedPaths.PathList? {
      props := CombineList(props, s, combinedPaths.paths, aliased);
    } else {
      props := CombineNamed(props, s, combinedPaths.entries, aliased);
    }
    props := OrEmpty(props);
  }

  /** `props = Object.assign(props || {}, identifyStateByAbsolutePath(state, path, customName))` */
  method CombineOne(props: Value, state: Value, path: string, customName: string) returns (next: Value)
    ensures next == Assign(OrEmpty(props), Selected(state, path, customName))
  {
    var combinedState := IdentifyStateByAbsolutePath(state, path, customName);
    next := Assign(OrEmpty(props), combinedState);
  }

  /** Assigns the selection of each path in turn into `props`. */
  method CombineList(props0: Value, s: Value, paths: seq<string>, aliased: bool) returns (props: Value)
    ensures props == FoldProps(props0, s, Unnamed(paths), aliased)
  {
    props := props0;
    var i := 0;
    while i < |paths|
      invariant 0 <= i <= |paths|
      invariant props == FoldProps(props0, s, Unnamed(paths[..i]), aliased)
    {
      FoldListStep(props0, s, paths, i, aliased, props);
      props := CombineOne(props, if aliased then props else s, paths[i], "");
      i := i + 1;
    }
    assert paths[..i] == paths;
  }

  /** Folding the selection of one more path of a list. */
  lemma FoldListStep(props0: Value, state: Value, paths: seq<string>, i: nat, aliased: bool,
                     props: Value)
    requires i < |paths|
    requires props == FoldProps(props0, state, Unnamed(paths[..i]), aliased)
    ensures Assign(OrEmpty(props), Selected(if aliased then props else state, paths[i], "")) == FoldProps(props0, state, Unnamed(paths[..i + 1]), aliased)
  {
    assert AllButLast(paths[..i + 1]) == paths[..i];
  }

  /** Assigns the selection of each path, under its custom name, in turn into `props`. */
  method CombineNamed(props0: Value, s: Value, entries: seq<(string, string)>, aliased: bool)
    returns (props: Value)
    ensures props == FoldProps(props0, s, entries, aliased)
  {
    props := props0;
    var i := 0;
    while i < |entries|
      invariant 0 <= i <= |entries|
      invariant props == FoldProps(props0, s, entries[..i], aliased)
    {
      FoldStep(props0, s, entries, i, aliased, props);
      props := CombineOne(props, if aliased then props else s, entries[i].1, entries[i].0);
      i := i + 1;
    }
    assert entries[..i] == entries;
  }

  /** A string combine setting selects exactly what the one-element list does; the empty
      string, being falsy, selects nothing beyond the current path. */
  lemma StringCombineIsSingletonList(state: Value, currentPath: string, p: string, aliased: bool)
    ensures p != "" ==> MergedWith(state, currentPath, OnePath(p), aliased) == MergedWith(state, currentPath, PathList([p]), aliased)
    ensures MergedWith(state, currentPath, OnePath(""), aliased) == MergedWith(state, currentPath, NoCombine, aliased)
  {
    assert CombinePairs(PathList([p])) == [("", p)];
  }

  /** Everywhere except the root of an object state, props and state are different objects,
      so the props as written are the intended ones. */
  lemma AsWrittenOffRoot(state: Value, currentPath: string, combines: Combines)
    requires !PropsAliasState(state, currentPath)
    ensures MergedAsWritten(state, currentPath, combines) == MergedState(state, currentPath, combines)
  {
  }

  /** With a list of paths, a later path's selection overwrites the keys it shares with the
      earlier ones, and leaves the other keys as they were. This holds as written (`aliased`,
      where the later selection reads the props built so far) and for the fresh version (where
      it reads the state passed in). */
  lemma LaterPathWins(state: Value, currentPath: string, ps: seq<string>, p: string, aliased: bool)
    requires aliased ==> PropsAliasState(state, currentPath)
    ensures var before := MergedWith(state, currentPath, PathList(ps), aliased);
            var sel := Selected(if aliased then before else DefaultState(state), p, "");
            var after := MergedWith(state, currentPath, PathList(ps + [p]), aliased);
            && (forall k :: k in FieldsOf(sel) ==> Get(after, k) == Get(sel, k))
            && (forall k :: k in FieldsOf(before) && k !in FieldsOf(sel) ==> Get(after, k) == Get(before, k))
  {
    var s := DefaultState(state);
    var props := Selected(s, currentPath, "");
    var pairs := CombinePairs(PathList(ps + [p]));
    assert AllButLast(pairs) == CombinePairs(PathList(ps));
    assert Last(pairs) == ("", p);
    var acc := FoldProps(props, s, CombinePairs(PathList(ps)), aliased);
    if aliased {
      assert props == s;
      assert acc.Obj?;
    }
    assert MergedWith(state, currentPath, PathList(ps), aliased) == OrEmpty(acc);
    assert MergedWith(state, currentPath, PathList(ps + [p]), aliased)
        == Assign(OrEmpty(acc), Selected(if aliased then acc else s, p, ""));
  }

  /** The overwriting of `LaterPathWins` for the props as `mergeStateToProps` computes them. */
  lemma LaterPathWinsAsWritten(state: Value, currentPath: string, ps: seq<string>, p: string)
    ensures var aliased := PropsAliasState(state, currentPath);
            var before := MergedAsWritten(state, currentPath, PathList(ps));
            var sel := Selected(if aliased then before else DefaultState(state), p, "");
            var after := MergedAsWritten(state, currentPath, PathList(ps + [p]));
            && (forall k :: k in FieldsOf(sel) ==> Get(after, k) == Get(sel, k))
            && (forall k :: k in FieldsOf(before) && k !in FieldsOf(sel) ==> Get(after, k) == Get(before, k))
  {
    LaterPathWins(state, currentPath, ps, p, PropsAliasState(state, currentPath));
  }

  /** The last of the combined paths, when it exists in the state, contributes the value at
      that path in the state that was passed in. */
  lemma LastCombinedPathReadsState(state: Value, currentPath: string, ps: seq<string>, segs: seq<string>)
    requires |segs| >= 1 && FreeOf(segs, '.') && Join(segs, '.') != ""
    requires PathPresent(DefaultState(state), segs)
    ensures Get(MergedState(state, currentPath, PathList(ps + [Join(segs, '.')])), Last(segs))
         == DeepGet(DefaultState(state), segs)
  {
    SelectedPresentPath(state, segs);
    LaterPathWins(state, currentPath, ps, Join(segs, '.'), false);
  }

  /** Selecting a two-segment path `a.b`. */
  lemma SelectedTwoSegments(v: Value, a: string, b: string)
    requires '.' !in a && '.' !in b
    ensures Selected(v, a + "." + b, "") == Obj(map[b := Get(OrEmpty(Get(DefaultState(v), a)), b)])
  {
    var path := a + "." + b;
    assert path == Join([a, b], '.');
    SplitJoin([a, b], '.');
    assert path != "";
    var s := DefaultState(v);
    var segs := Split(path, '.');
    assert AllButLast(segs) == [a] && Last(segs) == b;
    assert [a][..0] == [];
    assert Descend(s, [a]) == OrEmpty(Get(s, a));
  }

  /** Folding two selections. */
  lemma FoldTwo(props: Value, state: Value, p1: (string, string), p2: (string, string), aliased: bool)
    ensures FoldProps(props, state, [p1, p2], aliased)
         == var acc := Assign(OrEmpty(props), Selected(if aliased then props else state, p1.1, p1.0));
            Assign(acc, Selected(if aliased then acc else state, p2.1, p2.0))
  {
    assert AllButLast([p1, p2]) == [p1];
    assert AllButLast([p1]) == [];
    assert FoldProps(props, state, AllButLast([p1]), aliased) == props;
    assert Last([p1]) == p1;
    var acc := FoldProps(props, state, [p1], aliased);
    assert acc == Assign(OrEmpty(props), Selected(if aliased then props else state, p1.1, p1.0));
    assert OrEmpty(acc) == acc;
  }

  /** The state and combine list of the aliasing counterexample. */
  function AliasState(x: string, y: string, z: string, v: Value): Value {
    Obj(map[x := Obj(map[y := Num(1)]), y := Obj(map[z := v])])
  }

  function AliasCombines(x: string, y: string, z: string): Combines {
    PathList([x + "." + y, y + "." + z])
  }

  /** The state after the first combined path has been assigned into it. */
  lemma AliasFirstStep(x: string, y: string, z: string, v: Value)
    requires x != y && '.' !in x && '.' !in y && '.' !in z
    ensures var state := AliasState(x, y, z, v);
      var first := Assign(state, Selected(state, x + "." + y, ""));
      Get(first, y) == Num(1)
      && Selected(first, y + "." + z, "") == Obj(map[z := Undefined])
      && Selected(state, y + "." + z, "") == Obj(map[z := v])
  {
    var state := AliasState(x, y, z, v);
    SelectedTwoSegments(state, x, y);
    var first := Assign(state, Selected(state, x + "." + y, ""));
    SelectedTwoSegments(first, y, z);
    SelectedTwoSegments(state, y, z);
  }

  /** Combining two paths at the root of an object state. */
  lemma MergeTwoAtRoot(state: Value, p1: string, p2: string, aliased: bool)
    requires state.Obj?
    ensures var acc := Assign(state, Selected(state, p1, ""));
      MergedWith(state, "", PathList([p1, p2]), aliased) == Assign(acc, Selected(if aliased then acc else state, p2, ""))
  {
    UnnamedTwo(p1, p2);
    assert Selected(state, "", "") == state;
    FoldTwo(state, state, ("", p1), ("", p2), aliased);
  }

  lemma AliasFoldAsWritten(x: string, y: string, z: string, v: Value)
    ensures var state := AliasState(x, y, z, v);
      var first := Assign(state, Selected(state, x + "." + y, ""));
      MergedAsWritten(state, "", AliasCombines(x, y, z)) == Assign(first, Selected(first, y + "." + z, ""))
  {
    var state := AliasState(x, y, z, v);
    assert PropsAliasState(state, "");
    MergeTwoAtRoot(state, x + "." + y, y + "." + z, true);
  }

  lemma AliasFoldFresh(x: string, y: string, z: string, v: Value)
    ensures var state := AliasState(x, y, z, v);
      var first := Assign(state, Selected(state, x + "." + y, ""));
      MergedState(state, "", AliasCombines(x, y, z)) == Assign(first, Selected(state, y + "." + z, ""))
  {
    MergeTwoAtRoot(AliasState(x, y, z, v), x + "." + y, y + "." + z, false);
  }

  /** As written, with an empty current path the second combined path reads the key the first
      one wrote into the state: for the state `{x: {y: 1}, y: {z: v}}` and the combine list
      `["x.y", "y.z"]`, `z` comes out undefined instead of `v`. */
  lemma AliasedCombineReadsOwnWrites(x: string, y: string, z: string, v: Value)
    requires x != y && '.' !in x && '.' !in y && '.' !in z
    ensures Get(MergedAsWritten(AliasState(x, y, z, v), "", AliasCombines(x, y, z)), z) == Undefined
    ensures Get(MergedState(AliasState(x, y, z, v), "", AliasCombines(x, y, z)), z) == v
  {
    AliasFirstStep(x, y, z, v);
    AliasFoldAsWritten(x, y, z, v);
    AliasFoldFresh(x, y, z, v);
  }

  /** A dispatcher of a view: calling it forwards `(actionPath, ...params)` to the engine's
      dispatch; its `idle()` submits `IdleAction`. */
  datatype Dispatcher = Dispatcher(actionPath: string)

  /** The action `dispatcher.idle()` submits. */
  function IdleAction(d: Dispatcher): (r: Value)
    ensures r == ActionObject(d.actionPath + ".$idle", Obj(map[]))
  {
    assert StatusName(d.actionPath, Idle) == d.actionPath + ".$idle";
    ActionObject(StatusName(d.actionPath, Idle), Obj(map[]))
  }

  /** `mergeDispatchToProps`: one dispatcher per action name, bound to the action's path.
      `actionNames` is `None` when the actions object is absent. */
  method MergeDispatchToProps(currentPath: string, actionNames: Option<seq<string>>)
    returns (dispatchers: map<string, Dispatcher>)
    ensures actionNames.None? ==> dispatchers == map[]
    ensures actionNames.Some? ==> dispatchers.Keys == set n | n in actionNames.value
    ensures forall n :: n in dispatchers ==> dispatchers[n] == Dispatcher(GetPropPath(currentPath, n))
  {
    dispatchers := map[];
    if actionNames.None? || |actionNames.value| == 0 {
      return;
    }
    var names := actionNames.value;
    var i := 0;
    while i < |names|
      invariant 0 <= i <= |names|
      invariant dispatchers.Keys == set n | n in names[..i]
      invariant forall n :: n in dispatchers ==> dispatchers[n] == Dispatcher(GetPropPath(currentPath, n))
    {
      var actionPath := GetPropPath(currentPath, names[i]);
      dispatchers := dispatchers[names[i] := Dispatcher(actionPath)];
      assert names[..i + 1] == names[..i] + [names[i]];
      i := i + 1;
    }
    assert names[..i] == names;
  }

  /** Different action names of one view get dispatchers with different paths and different
      idle actions. */
  lemma DispatchersDistinct(currentPath: string, a: string, b: string)
    requires a != b
    ensures GetPropPath(currentPath, a) != GetPropPath(currentPath, b)
    ensures IdleAction(Dispatcher(GetPropPath(currentPath, a))) != IdleAction(Dispatcher(GetPropPath(currentPath, b)))
  {
    if GetPropPath(currentPath, a) == GetPropPath(currentPath, b) {
      PropPathInjective(currentPath, a, b);
    }
    var pa, pb := GetPropPath(currentPath, a), GetPropPath(currentPath, b);
    if IdleAction(Dispatcher(pa)) == IdleAction(Dispatcher(pb)) {
      assert Get(IdleAction(Dispatcher(pa)), "type") == Str(pa + ".$idle");
      StatusNameInjective(pa, Idle, pb, Idle);
    }
  }
}

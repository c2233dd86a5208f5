/** Naming and classification helpers of src/stateSpace.ts: dotted property paths,
    lifecycle action identifiers, and the classification of controller keys and handlers. */
module StateSpace {
  import opened Js

  /** `enum ActionStatus { doing, done, error, idle }` */
  datatype ActionStatus = Doing | Done | Error | Idle

  function StatusValue(s: ActionStatus): string {
    match s
    case Doing => "doing"
    case Done => "done"
    case Error => "error"
    case Idle => "idle"
  }

  /** `Object.keys(ActionStatus)`, in declaration order. */
  const Statuses: seq<ActionStatus> := [Doing, Done, Error, Idle]

  /** `getPropPath`: a child's path under its parent's path. */
  function GetPropPath(parentPath: string, propName: string): string {
    if parentPath != "" then parentPath + "." + propName else propName
  }

  /** Recovers the child name from a path built by `GetPropPath` under `parentPath`. */
  function ChildName(parentPath: string, path: string): string {
    if parentPath == "" then path
    else if |path| >= |parentPath| + 1 then path[|parentPath| + 1..]
    else path
  }

  /** For a fixed parent, the child name can be read back from the path. */
  lemma PropPathRoundTrip(parentPath: string, propName: string)
    ensures ChildName(parentPath, GetPropPath(parentPath, propName)) == propName
  {
    if parentPath != "" {
      var p := GetPropPath(parentPath, propName);
      assert p[|parentPath| + 1..] == propName;
    }
  }

  /** Distinct names under the same parent get distinct paths. */
  lemma PropPathInjective(parentPath: string, a: string, b: string)
    requires GetPropPath(parentPath, a) == GetPropPath(parentPath, b)
    ensures a == b
  {
    PropPathRoundTrip(parentPath, a);
    PropPathRoundTrip(parentPath, b);
  }

  /** The array's own property names that `status in Object.keys(ActionStatus)` accepts: its
      indices and `length`, not its elements. The inherited names of arrays and objects
      (`push`, `map`, `constructor`, `toString`, ...) are accepted as well; they are left out. */
  predicate IsKeyOfStatusArray(status: string) {
    status == "0" || status == "1" || status == "2" || status == "3" || status == "length"
  }

  /** `getActionNameByStatus`: `<actionName>.$<statusValue>`. The lookup that the guard selects
      yields undefined for the own names it accepts; other names are used verbatim. */
  function GetActionNameByStatus(actionName: string, status: string): string {
    var statusValue := if IsKeyOfStatusArray(status) then "undefined" else status;
    actionName + ".$" + statusValue
  }

  /** The identifier of action `actionName` in lifecycle status `s`. */
  function StatusName(actionName: string, s: ActionStatus): (r: string)
    ensures r == actionName + ".$" + StatusValue(s)
  {
    GetActionNameByStatus(actionName, StatusValue(s))
  }

  /** The status whose `.$<status>` suffix ends `k`, if any. */
  function StatusSuffix(k: string): (r: Option<ActionStatus>)
  {
    if |k| >= 7 && k[|k| - 7..] == ".$doing" then Some(Doing)
    else if |k| >= 6 && k[|k| - 6..] == ".$done" then Some(Done)
    else if |k| >= 7 && k[|k| - 7..] == ".$error" then Some(Error)
    else if |k| >= 6 && k[|k| - 6..] == ".$idle" then Some(Idle)
    else None
  }

  /** The action name in front of a status suffix. */
  function BaseName(k: string, s: ActionStatus): string {
    var n := |StatusValue(s)| + 2;
    if |k| >= n then k[..|k| - n] else k
  }

  /** A lifecycle identifier determines both its action name and its status. */
  lemma StatusNameDecode(actionName: string, s: ActionStatus)
    ensures StatusSuffix(StatusName(actionName, s)) == Some(s)
    ensures BaseName(StatusName(actionName, s), s) == actionName
  {
    var k := StatusName(actionName, s);
    var suffix := ".$" + StatusValue(s);
    assert k == actionName + suffix;
    assert k[..|k| - |suffix|] == actionName;
    match s
    case Doing => DecodeDoing(actionName, k);
    case Done => DecodeDone(actionName, k);
    case Error => DecodeError(actionName, k);
    case Idle => DecodeIdle(actionName, k);
  }

  lemma DecodeDoing(actionName: string, k: string)
    requires k == actionName + ".$doing"
    ensures StatusSuffix(k) == Some(Doing)
  {
    assert k[|k| - 7..] == ".$doing";
  }

  lemma DecodeDone(actionName: string, k: string)
    requires k == actionName + ".$done"
    ensures StatusSuffix(k) == Some(Done)
  {
    var n := |k|;
    assert k[n - 6..] == ".$done";
    assert k[n - 1] == 'e';
    assert n < 7 || k[n - 7..][6] == 'e';
  }

  lemma DecodeError(actionName: string, k: string)
    requires k == actionName + ".$error"
    ensures StatusSuffix(k) == Some(Error)
  {
    var n := |k|;
    assert k[n - 7..] == ".$error";
    assert k[n - 1] == 'r';
    assert k[n - 7..][6] == 'r';
    assert k[n - 6..][5] == 'r';
  }

  lemma DecodeIdle(actionName: string, k: string)
    requires k == actionName + ".$idle"
    ensures StatusSuffix(k) == Some(Idle)
  {
    var n := |k|;
    assert k[n - 6..] == ".$idle";
    assert k[n - 1] == 'e' && k[n - 2] == 'l';
    assert n < 7 || k[n - 7..][6] == 'e';
    assert k[n - 6..][4] == 'l';
  }

  /** The lifecycle identifiers of all actions and statuses are pairwise distinct. */
  lemma StatusNameInjective(a1: string, s1: ActionStatus, a2: string, s2: ActionStatus)
    requires StatusName(a1, s1) == StatusName(a2, s2)
    ensures a1 == a2 && s1 == s2
  {
    StatusNameDecode(a1, s1);
    StatusNameDecode(a2, s2);
  }

  /** For the four statuses the identifier is `<action>.$<status>`; the four are distinct. */
  lemma FourStatusNames(actionName: string)
    ensures GetActionNameByStatus(actionName, "doing") == actionName + ".$doing"
    ensures GetActionNameByStatus(actionName, "done") == actionName + ".$done"
    ensures GetActionNameByStatus(actionName, "error") == actionName + ".$error"
    ensures GetActionNameByStatus(actionName, "idle") == actionName + ".$idle"
    ensures forall s1, s2 :: s1 != s2 ==> StatusName(actionName, s1) != StatusName(actionName, s2)
  {
    forall s1, s2 | s1 != s2 ensures StatusName(actionName, s1) != StatusName(actionName, s2) {
      if StatusName(actionName, s1) == StatusName(actionName, s2) {
        StatusNameInjective(actionName, s1, actionName, s2);
      }
    }
  }

  /** A status identifier under a path is the path of the status identifier under its parent. */
  lemma StatusOfPropPath(parentPath: string, actionName: string, s: ActionStatus)
    ensures StatusName(GetPropPath(parentPath, actionName), s)
         == GetPropPath(parentPath, StatusName(actionName, s))
  {
  }

  /** `isPrivateKey`: a string longer than one character that starts with `$`. */
  predicate IsPrivateKey(key: string) {
    |key| > 1 && key[0] == '$'
  }

  /** One character, lower-cased in the ASCII range. */
  function LowerChar(c: char): char {
    if 'A' <= c <= 'Z' then (c - 'A' + 'a') as char else c
  }

  /** ASCII lower-casing. For comparisons against the ASCII keywords below this agrees with
      `toLowerCase`: no other character lower-cases to one of their letters. */
  function ToLower(s: string): (r: string)
    ensures |r| == |s|
    ensures forall i :: 0 <= i < |s| ==> r[i] == LowerChar(s[i])
  {
    if s == [] then []
    else [LowerChar(s[0])] + ToLower(s[1..])
  }

  /** `enum ActionType` */
  datatype ActionType = Sync | AsyncFn | GeneratorFn | PromiseObj | UnknownAction

  /** `checkActionType`: the handler shape, read off the value's runtime tag. */
  function CheckActionType(action: Value): (r: ActionType)
    ensures !Truthy(action) ==> r == UnknownAction
    ensures r == PromiseObj <==> action.Prom?
    ensures r == Sync <==> action.Func? && action.kind == Plain
    ensures r == AsyncFn <==> action.Func? && action.kind == Async
    ensures r == GeneratorFn <==> action.Func? && action.kind == Generator
  {
    if !Truthy(action) then UnknownAction
    else match action
      case Prom(_) => PromiseObj
      case Func(Async, _) => AsyncFn
      case Func(Generator, _) => GeneratorFn
      case Func(Plain, _) => Sync
      case _ => UnknownAction
  }

  /** `enum PropertyType` */
  datatype PropertyType = Action | Property | Name | Combine | Id | Children | View | UnknownProperty

  /** `checkPropertyType`: what a controller key stands for. */
  function CheckPropertyType(prop: string, value: Value): (r: PropertyType)
    ensures prop == "" ==> r == UnknownProperty
    ensures IsPrivateKey(prop) ==> r != Action && r != Property
    ensures r == Action <==> prop != "" && !IsPrivateKey(prop) && CheckActionType(value) != UnknownAction
    ensures r == Property <==> prop != "" && !IsPrivateKey(prop) && CheckActionType(value) == UnknownAction
  {
    if prop == "" then UnknownProperty
    else if IsPrivateKey(prop) then
      var lower := ToLower(prop);
      if lower == "$name" then Name
      else if lower == "$id" then Id
      else if lower == "$combine" then Combine
      else if lower == "$children" then Children
      else if lower == "$view" then View
      else UnknownProperty
    else if CheckActionType(value) != UnknownAction then Action
    else Property
  }

  /** Lower-casing twice is lower-casing once. */
  lemma {:induction false} ToLowerIdempotent(s: string)
    ensures ToLower(ToLower(s)) == ToLower(s)
  {
    if s != [] {
      ToLowerIdempotent(s[1..]);
      assert ToLower(s)[1..] == ToLower(s[1..]);
    }
  }

  /** A private key is classified by its lower-cased spelling: `$Name`, `$NAME` and `$name`
      all stand for the name, and no spelling of a private key is an action or a property. */
  lemma PrivateKeyIgnoresCase(prop: string, value: Value)
    requires IsPrivateKey(prop)
    ensures CheckPropertyType(prop, value) == CheckPropertyType(ToLower(prop), value)
  {
    ToLowerIdempotent(prop);
    assert ToLower(prop)[0] == '$';
  }
}

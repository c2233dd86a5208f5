/** The JavaScript values that the state engine reads and builds, as immutable data.
    Objects are finite maps from property name to value (their own enumerable properties);
    functions and promises are tagged values whose behaviour is supplied separately. */
module Js {

  /** What `Object.prototype.toString` reports for a callable: `[object Function]`,
      `[object AsyncFunction]` or `[object GeneratorFunction]`. */
  datatype FunctionKind = Plain | Async | Generator

  datatype Value =
    | Undefined
    | Null
    | Bool(b: bool)
    | Num(n: int)
    | Str(s: string)
    | Arr(items: seq<Value>)
    | Obj(fields: map<string, Value>)
      /** A function; `id` names its body for the caller-supplied interpreter. */
    | Func(kind: FunctionKind, id: nat)
      /** A promise, with the way it eventually settles. */
    | Prom(settles: Outcome)
      /** A host object with no own enumerable properties (a generator object, a class instance). */
    | Opaque(id: nat)
      /** An exception raised by the JavaScript runtime itself, such as a TypeError. */
    | HostError(name: string)

  /** How a call or a promise ends: with a value, or with a thrown/rejected value. */
  datatype Outcome = Return(value: Value) | Throw(error: Value)

  datatype Option<T> = None | Some(value: T)

  const TypeError: Value := HostError("TypeError")

  /** JavaScript truthiness (NaN is not modelled). */
  predicate Truthy(v: Value) {
    match v
    case Undefined => false
    case Null => false
    case Bool(b) => b
    case Num(n) => n != 0
    case Str(s) => s != ""
    case _ => true
  }

  predicate IsPrimitive(v: Value) {
    v.Undefined? || v.Null? || v.Bool? || v.Num? || v.Str?
  }

  /** `typeof v === 'object' && v !== null` */
  predicate IsObjectType(v: Value) {
    v.Arr? || v.Obj? || v.Prom? || v.Opaque? || v.HostError?
  }

  /** `v || {}` */
  function OrEmpty(v: Value): (r: Value)
    ensures Truthy(r)
    ensures Truthy(v) ==> r == v
    ensures !Truthy(v) ==> r == Obj(map[])
  {
    if Truthy(v) then v else Obj(map[])
  }

  /** A parameter declared `state = {}`: only undefined is replaced by a fresh empty object. */
  function DefaultState(state: Value): (r: Value)
    ensures r != Undefined
    ensures state != Undefined ==> r == state
  {
    if state == Undefined then Obj(map[]) else state
  }

  /** The own enumerable string-keyed properties of a plain object; other values contribute none. */
  function FieldsOf(v: Value): map<string, Value> {
    if v.Obj? then v.fields else map[]
  }

  /** `v[k]` for a plain object: a missing property reads as undefined. */
  function Get(v: Value, k: string): Value {
    if v.Obj? && k in v.fields then v.fields[k] else Undefined
  }

  /** The contents of `Object.assign(target, source)`: the source's fields win. */
  function Assign(target: Value, source: Value): (r: Value)
    ensures r.Obj? && r.fields.Keys == FieldsOf(target).Keys + FieldsOf(source).Keys
    ensures forall k :: k in FieldsOf(source) ==> Get(r, k) == FieldsOf(source)[k]
    ensures forall k :: k in FieldsOf(target) && k !in FieldsOf(source) ==> Get(r, k) == FieldsOf(target)[k]
  {
    Obj(FieldsOf(target) + FieldsOf(source))
  }

  /** A plain action object `{type, data}` as it is submitted to the store. */
  function ActionObject(actionType: string, data: Value): Value {
    Obj(map["type" := Str(actionType), "data" := data])
  }

  /** The first call argument, or undefined when there is none. */
  function FirstArg(args: seq<Value>): Value {
    if |args| > 0 then args[0] else Undefined
  }

  /** Promise adoption: a promise resolved with another promise settles as that one does. */
  function Flatten(o: Outcome): (r: Outcome)
    ensures r.Return? ==> !r.value.Prom?
  {
    match o
    case Return(Prom(inner)) => Flatten(inner)
    case _ => o
  }

  /** `Object.keys(m)`: the keys, in some order. */
  method KeysOf<V>(m: map<string, V>) returns (keys: seq<string>)
    ensures forall k :: k in keys <==> k in m
  {
    keys := [];
    var remaining := m.Keys;
    while remaining != {}
      invariant forall k :: k in m <==> k in remaining || k in keys
      decreases remaining
    {
      var key :| key in remaining;
      keys := keys + [key];
      remaining := remaining - {key};
    }
  }

  /** `s.split(sep)` */
  function Split(s: string, sep: char): (r: seq<string>)
    ensures |r| >= 1
  {
    if s == [] then [[]]
    else
      var rest := Split(s[1..], sep);
      if s[0] == sep then [[]] + rest else [[s[0]] + rest[0]] + rest[1..]
  }

  /** `parts.join(sep)` */
  function Join(parts: seq<string>, sep: char): string
    requires |parts| >= 1
  {
    if |parts| == 1 then parts[0] else parts[0] + [sep] + Join(parts[1..], sep)
  }

  function Last<T>(s: seq<T>): T
    requires |s| > 0
  {
    s[|s| - 1]
  }

  function AllButLast<T>(s: seq<T>): seq<T>
    requires |s| > 0
  {
    s[..|s| - 1]
  }

  /** No element of `parts` contains `sep`. */
  predicate FreeOf(parts: seq<string>, sep: char) {
    forall i :: 0 <= i < |parts| ==> sep !in parts[i]
  }

  /** Joining what was split gives back the string. */
  lemma {:induction false} JoinSplit(s: string, sep: char)
    ensures Join(Split(s, sep), sep) == s
  {
    if s != [] {
      var rest := Split(s[1..], sep);
      JoinSplit(s[1..], sep);
      if s[0] == sep {
        assert Split(s, sep) == [[]] + rest;
        assert s == [] + [sep] + s[1..];
      } else {
        var r := Split(s, sep);
        assert r == [[s[0]] + rest[0]] + rest[1..];
        if |rest| == 1 {
          assert s == [s[0]] + s[1..];
        } else {
          assert r[1..] == rest[1..];
          assert Join(rest, sep) == rest[0] + [sep] + Join(rest[1..], sep);
          assert s == [s[0]] + s[1..];
        }
      }
    }
  }

  /** The pieces of a split never contain the separator. */
  lemma {:induction false} SplitFreeOf(s: string, sep: char)
    ensures FreeOf(Split(s, sep), sep)
  {
    if s != [] {
      SplitFreeOf(s[1..], sep);
      var rest := Split(s[1..], sep);
      if s[0] != sep {
        assert sep !in rest[0];
        var r := Split(s, sep);
        forall i | 0 <= i < |r| ensures sep !in r[i] {
          if i > 0 { assert r[i] == rest[i]; }
        }
      }
    }
  }

  /** Splitting what was joined from separator-free pieces gives back the pieces. */
  lemma {:induction false} SplitJoin(parts: seq<string>, sep: char)
    requires |parts| >= 1 && FreeOf(parts, sep)
    ensures Split(Join(parts, sep), sep) == parts
  {
    if |parts| == 1 {
      SplitNoSep(parts[0], sep);
    } else {
      assert FreeOf(parts[1..], sep) by {
        forall i | 0 <= i < |parts[1..]| ensures sep !in parts[1..][i] {
          assert parts[1..][i] == parts[i + 1];
        }
      }
      SplitJoin(parts[1..], sep);
      SplitPrefix(parts[0], Join(parts[1..], sep), sep);
      assert [parts[0]] + parts[1..] == parts;
    }
  }

  lemma {:induction false} SplitNoSep(p: string, sep: char)
    requires sep !in p
    ensures Split(p, sep) == [p]
  {
    if p != [] {
      SplitNoSep(p[1..], sep);
      assert [p[0]] + p[1..] == p;
    }
  }

  /** Splitting `p + sep + rest`, with `p` free of `sep`, yields `p` followed by the split of `rest`. */
  lemma {:induction false} SplitPrefix(p: string, rest: string, sep: char)
    requires sep !in p
    ensures Split(p + [sep] + rest, sep) == [p] + Split(rest, sep)
  {
    var s := p + [sep] + rest;
    if p == [] {
      assert s[0] == sep && s[1..] == rest;
    } else {
      assert s[0] == p[0];
      assert s[1..] == p[1..] + [sep] + rest;
      SplitPrefix(p[1..], rest, sep);
      assert [p[0]] + p[1..] == p;
    }
  }
}

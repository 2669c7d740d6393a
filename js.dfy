/**
 * JavaScript run-time values as the TypeScript sources see them: the
 * `unknown` values their type guards test, numbers that may be NaN, the
 * errors they throw, and the Option/Result wrappers used for absent
 * values and for thrown exceptions.
 */
module Js {

  datatype Option<+T> = None | Some(value: T)

  /** `Failure` stands for an exception thrown (or a promise rejected). */
  datatype Result<+T, +E> = Success(value: T) | Failure(error: E)

  /** An element of a `Uint8Array`. */
  type byte = b: int | 0 <= b < 256

  /** The numbers the sources compute: integers, or NaN from a failed `parseInt`. */
  datatype Number = Int(n: int) | NaN

  /** A JavaScript value of static type `unknown`. */
  datatype Unknown =
    | Undefined
    | Null
    | Bool(b: bool)
    | Num(num: Number)
    | Str(s: string)
    | Arr(items: seq<Unknown>)
    | Obj(fields: map<string, Unknown>)

  /** JavaScript truthiness (ToBoolean): what `if (v)` and `Boolean(v)` test. */
  predicate Truthy(v: Unknown) {
    match v
    case Undefined => false
    case Null => false
    case Bool(b) => b
    case Num(n) => n.Int? && n.n != 0
    case Str(s) => s != ""
    case Arr(_) => true
    case Obj(_) => true
  }

  /** The exceptions the modelled code throws or returns. */
  datatype Error =
    | Error(message: string)
    | TypeError(message: string)
    | InvalidCharacterError
    | UriError
    | MissingRequiredHeaderError(message: string)
    | Thrown(value: Unknown)  // a non-Error value passed to `throw`

  /** `v.key`: reading a property; reading from undefined or null throws a TypeError. */
  function GetProperty(v: Unknown, key: string): (r: Result<Unknown, Error>)
    ensures r.Failure? <==> v.Undefined? || v.Null?
    ensures v.Obj? && key in v.fields ==> r == Success(v.fields[key])
  {
    match v
    case Undefined => Failure(TypeError("cannot read properties of undefined"))
    case Null => Failure(TypeError("cannot read properties of null"))
    case Obj(fields) => Success(if key in fields then fields[key] else Undefined)
    case _ => Success(Undefined)
  }

  /**
   * `v[0]`: the first element of an array or the first character of a
   * string (undefined when there is none), the property "0" of an object,
   * undefined on other primitives; undefined and null throw a TypeError.
   */
  function GetFirstElement(v: Unknown): (r: Result<Unknown, Error>)
    ensures r.Failure? <==> v.Undefined? || v.Null?
    ensures v.Arr? && v.items != [] ==> r == Success(v.items[0])
    ensures v.Arr? && v.items == [] ==> r == Success(Undefined)
  {
    match v
    case Undefined => Failure(TypeError("cannot read properties of undefined"))
    case Null => Failure(TypeError("cannot read properties of null"))
    case Arr(items) => Success(if items != [] then items[0] else Undefined)
    case Str(s) => Success(if s != [] then Str([s[0]]) else Undefined)
    case Obj(fields) => Success(if "0" in fields then fields["0"] else Undefined)
    case _ => Success(Undefined)
  }

  /**
   * `Object.fromEntries(entries)`: each entry becomes an own property of
   * the object, and a later entry for the same name overwrites an earlier
   * one.
   */
  function FromEntries(entries: seq<(string, string)>): (obj: map<string, string>)
    ensures obj.Keys == set i | 0 <= i < |entries| :: entries[i].0
  {
    if entries == [] then map[]
    else FromEntries(entries[..|entries| - 1])[entries[|entries| - 1].0 := entries[|entries| - 1].1]
  }

  /**
   * The one name an assignment cannot add to a plain object: `object.__proto__ = v`
   * goes to the `__proto__` accessor of `Object.prototype`, which ignores a string.
   */
  const ProtoName := "__proto__"

  /**
   * The object built from `{}` by assigning `object[name] = value` for each
   * entry in turn: a later entry for the same name overwrites an earlier
   * one, and an entry named `__proto__` adds nothing.
   */
  function AssignEntries(entries: seq<(string, string)>): (obj: map<string, string>)
    ensures obj.Keys == (set i | 0 <= i < |entries| :: entries[i].0) - {ProtoName}
  {
    if entries == [] then map[]
    else
      var last := entries[|entries| - 1];
      var earlier := AssignEntries(entries[..|entries| - 1]);
      if last.0 == ProtoName then earlier else earlier[last.0 := last.1]
  }

  /** Assigning the entries one by one gives `Object.fromEntries` of them without `__proto__`. */
  lemma {:induction false} AssignEntriesDropsProto(entries: seq<(string, string)>)
    ensures AssignEntries(entries) == FromEntries(entries) - {ProtoName}
  {
    if entries != [] {
      AssignEntriesDropsProto(entries[..|entries| - 1]);
    }
  }

  /** The entry at `i` is the last one for its name. */
  predicate IsLastFor(entries: seq<(string, string)>, i: int)
    requires 0 <= i < |entries|
  {
    forall j | i < j < |entries| :: entries[j].0 != entries[i].0
  }

  /** Each name of `FromEntries(entries)` maps to the value of the last entry for that name. */
  lemma {:induction false} FromEntriesLastWins(entries: seq<(string, string)>, i: int)
    requires 0 <= i < |entries| && IsLastFor(entries, i)
    ensures entries[i].0 in FromEntries(entries)
    ensures FromEntries(entries)[entries[i].0] == entries[i].1
  {
    if i < |entries| - 1 {
      var prefix := entries[..|entries| - 1];
      assert IsLastFor(prefix, i) by {
        forall j | i < j < |prefix| ensures prefix[j].0 != prefix[i].0 {
          assert prefix[j] == entries[j];
        }
      }
      FromEntriesLastWins(prefix, i);
      assert entries[|entries| - 1].0 != entries[i].0;
    }
  }
}

/** The JavaScript values a request body can hold once parsed, and the
    operations the route handlers apply to them: property access,
    truthiness and `typeof` tests. */
module Js {

  /** A parsed JSON value, extended with `undefined` (the value of a missing
      property). Numbers are integers; see README. */
  datatype Value =
    | Undefined
    | Null
    | Bool(b: bool)
    | Num(n: int)
    | Str(s: string)
    | Arr(items: seq<Value>)
    | Obj(fields: map<string, Value>)

  /** `v == null` in the loose sense: reading a property of such a value,
      or destructuring it, throws a TypeError. */
  predicate IsNullish(v: Value) {
    v.Undefined? || v.Null?
  }

  /** `v.key` for a value that is not nullish. Primitives and arrays have
      none of the property names the handlers read, so they give
      `undefined`. */
  function Get(v: Value, key: string): (r: Value)
    requires !IsNullish(v)
    ensures !v.Obj? ==> r.Undefined?
    ensures v.Obj? && key !in v.fields ==> r.Undefined?
  {
    if v.Obj? && key in v.fields then v.fields[key] else Undefined
  }

  /** JavaScript truthiness (`!!v`). */
  predicate Truthy(v: Value) {
    match v
    case Undefined => false
    case Null => false
    case Bool(b) => b
    case Num(n) => n != 0
    case Str(s) => s != ""
    case Arr(_) => true
    case Obj(_) => true
  }

  /** `!v || typeof v !== 'string'` fails, i.e. a non-empty string: the
      check every create handler applies to its required name or title. */
  predicate IsNonEmptyString(v: Value) {
    v.Str? && v.s != ""
  }

  lemma NonEmptyStringIsTruthyString(v: Value)
    ensures IsNonEmptyString(v) <==> Truthy(v) && v.Str?
  {
  }

  /** The decimal digits of `n`, most significant first. */
  function NatString(n: nat): (s: string)
    ensures s != [] && forall i :: 0 <= i < |s| ==> '0' <= s[i] <= '9'
  {
    var d := [('0' as int + n % 10) as char];
    if n < 10 then d else NatString(n / 10) + d
  }

  /** `String(n)` for an integer: an optional `-`, then the digits. */
  function DecimalString(n: int): (s: string)
    ensures s != [] && (s[0] == '-' || '0' <= s[0] <= '9')
  {
    if n < 0 then "-" + NatString(-n) else NatString(n)
  }

  /** `parts.join(',')`. */
  function Join(parts: seq<string>): string {
    if parts == [] then ""
    else if |parts| == 1 then parts[0]
    else parts[0] + "," + Join(parts[1..])
  }

  /** The string a value becomes when it is used as a property key,
      `obj[v]`: `String(v)`, where an array joins its elements with commas
      (`null` and `undefined` elements giving empty strings) and an object
      gives `"[object Object]"`. */
  function ToPropertyKey(v: Value): string {
    match v
    case Undefined => "undefined"
    case Null => "null"
    case Bool(b) => if b then "true" else "false"
    case Num(n) => DecimalString(n)
    case Str(s) => s
    case Arr(items) =>
      Join(seq(|items|, i requires 0 <= i < |items| =>
        if IsNullish(items[i]) then "" else ToPropertyKey(items[i])))
    case Obj(_) => "[object Object]"
  }

  /** The properties every plain object `{}` inherits from
      `Object.prototype`. Reading one of them from a fresh record gives a
      function or, for `__proto__`, the prototype itself, never
      `undefined`. */
  const ObjectPrototypeNames: set<string> := {
    "constructor", "__defineGetter__", "__defineSetter__", "hasOwnProperty",
    "__lookupGetter__", "__lookupSetter__", "isPrototypeOf",
    "propertyIsEnumerable", "toString", "valueOf", "__proto__", "toLocaleString"
  }

  /** `key` names a property a fresh record already has. */
  predicate Inherited(key: string) {
    key in ObjectPrototypeNames
  }

  /** No number, boolean, `null`, `undefined` or object names an inherited
      property: every inherited name starts with a letter or `_`. */
  lemma NonStringKeysAreOwn(v: Value)
    requires !v.Str? && !v.Arr?
    ensures !Inherited(ToPropertyKey(v))
  {
    if v.Num? {
      var s := DecimalString(v.n);
      assert forall t :: t in ObjectPrototypeNames ==> t[0] == '_' || 'a' <= t[0] <= 'z';
    }
  }

  /** A one-element array is keyed like its element, so `["constructor"]`
      names the same property as `"constructor"`. */
  lemma SingletonArrayKey(v: Value)
    requires !IsNullish(v)
    ensures ToPropertyKey(Arr([v])) == ToPropertyKey(v)
  {
    var parts := seq(1, i requires 0 <= i < 1 => if IsNullish([v][i]) then "" else ToPropertyKey([v][i]));
    assert parts == [ToPropertyKey(v)];
  }
}

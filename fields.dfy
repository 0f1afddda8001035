/** The values the server's shared `fields` object holds, with JavaScript's
    truthiness and property lookup on them (non-strict code, ECMAScript 5.1).
    A lookup finds an own property first and otherwise a member of the
    value's prototype: the built-in methods of `Object.prototype` (section
    15.2.4), `String.prototype` (15.5.4, with `substr` of Annex B),
    `Number.prototype` (15.7.4), `Boolean.prototype` (15.6.4) and
    `Function.prototype` (15.3.4). A string also has its own `length` and one
    own property per character index (15.5.5). Arrays are not modelled. */
module Fields {

  /** `null`, a boolean, a number (only its truthiness matters here: 0 and
      `NaN` are falsy), a string, or a plain object with its own properties. */
  datatype Value = Null | Bool(b: bool) | Number(truthy: bool) | Str(s: string) | Obj(items: map<string, Value>)

  /** A property lookup's result: `undefined`, a value, or one of the
      built-in methods a value inherits (a function, so truthy). */
  datatype Lookup = Undefined | Found(value: Value) | Method

  /** The members of `Object.prototype`. */
  predicate ObjectMember(k: string) {
    k in {"constructor", "toString", "toLocaleString", "valueOf", "hasOwnProperty",
          "isPrototypeOf", "propertyIsEnumerable"}
  }

  /** The members of `String.prototype` and those it inherits. */
  predicate StringMember(k: string) {
    || ObjectMember(k)
    || k in {"charAt", "charCodeAt", "concat", "indexOf", "lastIndexOf", "localeCompare",
             "match", "replace", "search", "slice", "split", "substring", "substr",
             "toLowerCase", "toLocaleLowerCase", "toUpperCase", "toLocaleUpperCase", "trim"}
  }

  /** The members of `Number.prototype` and those it inherits. */
  predicate NumberMember(k: string) {
    ObjectMember(k) || k in {"toFixed", "toExponential", "toPrecision"}
  }

  /** The members of `Boolean.prototype` (`toString`, `valueOf`) and those it
      inherits. */
  predicate BooleanMember(k: string) {
    ObjectMember(k)
  }

  /** The members of `Function.prototype` and those it inherits. */
  predicate FunctionMember(k: string) {
    ObjectMember(k) || k in {"apply", "call", "bind"}
  }

  /** `fields[key]` on a plain object: its own property, else a member of
      `Object.prototype`. */
  function Get(m: map<string, Value>, key: string): (r: Lookup)
    ensures r.Found? <==> key in m
    ensures r.Found? ==> r.value == m[key]
    ensures r == Method <==> key !in m && ObjectMember(key)
  {
    if key in m then Found(m[key])
    else if ObjectMember(key) then Method
    else Undefined
  }

  /** JavaScript truthiness of a lookup: `undefined`, `null`, `false`, 0,
      `NaN` and the empty string are falsy; objects and functions are truthy. */
  predicate Truthy(v: Lookup) {
    match v
    case Undefined => false
    case Method => true
    case Found(Null) => false
    case Found(Bool(b)) => b
    case Found(Number(t)) => t
    case Found(Str(s)) => |s| > 0
    case Found(Obj(_)) => true
  }

  /** Whether `v[item]` throws a TypeError: reading a property of `undefined`
      or `null` does. */
  predicate ItemThrows(v: Lookup) {
    v == Undefined || v == Found(Null)
  }

  predicate IsDigit(c: char) {
    '0' <= c <= '9'
  }

  /** A property name that is an array index in canonical form: decimal
      digits, without a leading zero unless it is "0". */
  predicate IsIndexName(k: string) {
    |k| > 0 && (forall i :: 0 <= i < |k| ==> IsDigit(k[i])) && (k[0] == '0' ==> |k| == 1)
  }

  /** The number a string of decimal digits denotes. */
  function DecimalValue(k: string): (n: nat)
    requires forall i :: 0 <= i < |k| ==> IsDigit(k[i])
  {
    if |k| == 0 then 0
    else
      var m := DecimalValue(k[..|k| - 1]);
      assert IsDigit(k[|k| - 1]);
      10 * m + (k[|k| - 1] as int - '0' as int)
  }

  /** The character index a property name of a string stands for, or -1. */
  function CharIndex(k: string): (i: int)
    ensures i >= -1
    ensures i >= 0 <==> IsIndexName(k)
  {
    if IsIndexName(k) then DecimalValue(k) else -1
  }

  /** Whether `item` is an own property of the value. */
  predicate Own(v: Lookup, item: string) {
    match v
    case Found(Obj(items)) => item in items
    case Found(Str(s)) => item == "length" || 0 <= CharIndex(item) < |s|
    case _ => false
  }

  /** Whether the value inherits a member `item` from its prototype (an
      inherited method is looked up on `Function.prototype`). */
  predicate Inherits(v: Lookup, item: string) {
    match v
    case Found(Obj(_)) => ObjectMember(item)
    case Found(Str(_)) => StringMember(item)
    case Found(Number(_)) => NumberMember(item)
    case Found(Bool(_)) => BooleanMember(item)
    case _ => FunctionMember(item)
  }

  /** `v[item]` for a value whose lookup does not throw. An own property
      comes first, then an inherited built-in method. Of an inherited method
      only the members of `Function.prototype` are looked up. */
  function Item(v: Lookup, item: string): (r: Lookup)
    requires !ItemThrows(v)
    ensures r.Found? ==> Own(v, item)
    ensures r == Method <==> !Own(v, item) && Inherits(v, item)
    ensures r == Undefined <==> !Own(v, item) && !Inherits(v, item)
    ensures v.Found? && v.value.Obj? && item in v.value.items ==> r == Found(v.value.items[item])
    ensures v.Found? && v.value.Str? && item == "length" ==> r == Found(Number(|v.value.s| > 0))
    ensures v.Found? && v.value.Str? && 0 <= CharIndex(item) < |v.value.s| ==>
              r == Found(Str([v.value.s[CharIndex(item)]]))
  {
    match v
    case Method => if FunctionMember(item) then Method else Undefined
    case Found(Obj(items)) => Get(items, item)
    case Found(Str(s)) =>
      if item == "length" then Found(Number(|s| > 0))
      else
        var i := CharIndex(item);
        if 0 <= i < |s| then Found(Str([s[i]]))
        else if StringMember(item) then Method
        else Undefined
    case Found(Number(_)) => if NumberMember(item) then Method else Undefined
    case Found(Bool(_)) => if BooleanMember(item) then Method else Undefined
  }

  /** What makes `v[item]` truthy: a truthy own property (a string's own
      `length` when the string is not empty, any of its characters), and
      otherwise any inherited method. */
  lemma ItemTruthy(v: Lookup, item: string)
    requires !ItemThrows(v)
    ensures Truthy(Item(v, item)) <==>
              if Own(v, item) then
                && (v.value.Obj? ==> Truthy(Found(v.value.items[item])))
                && (v.value.Str? && item == "length" ==> |v.value.s| > 0)
              else Inherits(v, item)
  {
  }

  /** `send !== false` for the optional `send` argument of the field setters:
      only an explicit `false` keeps the flag unset. */
  predicate Marks(send: Option) {
    send != Given(false)
  }

  /** An optional boolean argument. */
  datatype Option = Omitted | Given(b: bool)
}

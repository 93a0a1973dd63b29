/** The slice of JavaScript value semantics the core relies on: JSON-shaped values,
    truthiness, conversion to string, `String.prototype.trim`, the `\s` class of
    regular expressions, ASCII `toLowerCase`, property reads and the errors thrown. */
module Js {
  import opened Wrappers

  /** A JSON value. Numbers are integers; objects keep their entries in order. */
  datatype Json =
    | JNull
    | JBool(b: bool)
    | JNum(n: int)
    | JStr(s: string)
    | JArr(items: seq<Json>)
    | JObj(fields: seq<(string, Json)>)

  /** What the core can throw. */
  datatype Error =
    | NotFound                         // 'Solicitação não encontrada.'
    | UnsupportedEngine(engine: string) // `Engine não suportada: ${engine}`
    | TypeError(what: string)          // a property read or call on null/undefined
    | EngineFailure(message: string)   // whatever an adapter throws
    | UrlNotFound                      // 'URL não encontrada no comando CURL.'
    | MissingApiKey                    // OPENAI_API_KEY is not set
    | HttpStatus(code: int)            // a response whose status is not 200
    | ParseError                       // JSON.parse rejected its input

  /** JavaScript's falsy values among JSON values: null, false, 0 and "". */
  predicate Falsy(v: Json) {
    v == JNull || v == JBool(false) || v == JNum(0) || v == JStr("")
  }

  /** Falsiness of a possibly-undefined value (None stands for `undefined`). */
  predicate FalsyOpt(v: Option<Json>) {
    v.None? || Falsy(v.value)
  }

  /** The JavaScript `\s` class; `String.prototype.trim` strips the same set. */
  predicate IsSpace(c: char) {
    c == '\t' || c == '\n' || c == '\U{B}' || c == '\U{C}' || c == '\r' || c == ' '
    || c == '\U{A0}' || c == '\U{1680}' || ('\U{2000}' <= c <= '\U{200A}')
    || c == '\U{2028}' || c == '\U{2029}' || c == '\U{202F}' || c == '\U{205F}'
    || c == '\U{3000}' || c == '\U{FEFF}'
  }

  /** The characters `.` does not match in a regular expression without the `s` flag. */
  predicate IsLineTerminator(c: char) {
    c == '\n' || c == '\r' || c == '\U{2028}' || c == '\U{2029}'
  }

  function TrimStart(s: string): (r: string)
    ensures |r| <= |s| && r == s[|s| - |r|..]
    ensures r != [] ==> !IsSpace(r[0])
    ensures forall i :: 0 <= i < |s| - |r| ==> IsSpace(s[i])
  {
    if s != [] && IsSpace(s[0]) then TrimStart(s[1..]) else s
  }

  function TrimEnd(s: string): (r: string)
    ensures |r| <= |s| && r == s[..|r|]
    ensures r != [] ==> !IsSpace(r[|r| - 1])
    ensures forall i :: |r| <= i < |s| ==> IsSpace(s[i])
  {
    if s != [] && IsSpace(s[|s| - 1]) then TrimEnd(s[..|s| - 1]) else s
  }

  /** `String.prototype.trim`. */
  function Trim(s: string): string {
    TrimEnd(TrimStart(s))
  }

  /** A trimmed string neither starts nor ends with white space, and a string that
      neither starts nor ends with white space is its own trim. */
  lemma TrimSpec(s: string)
    ensures var t := Trim(s); t != [] ==> !IsSpace(t[0]) && !IsSpace(t[|t| - 1])
    ensures s == [] || (!IsSpace(s[0]) && !IsSpace(s[|s| - 1])) ==> Trim(s) == s
  {
    var a := TrimStart(s);
    var t := TrimEnd(a);
    if t != [] {
      assert t[0] == a[0];
    }
  }

  function LowerChar(c: char): char {
    if 'A' <= c <= 'Z' then (c as int - 'A' as int + 'a' as int) as char else c
  }

  /** `String.prototype.toLowerCase`, on the ASCII letters. */
  function ToLower(s: string): (r: string)
    ensures |r| == |s|
    ensures forall i :: 0 <= i < |s| ==> r[i] == LowerChar(s[i])
  {
    if s == [] then [] else [LowerChar(s[0])] + ToLower(s[1..])
  }

  lemma ToLowerIdempotent(s: string)
    ensures ToLower(ToLower(s)) == ToLower(s)
  {
  }

  function DigitChar(d: nat): char
    requires d < 10
  {
    ('0' as int + d) as char
  }

  /** The decimal form of a natural number, as `String(n)` and template literals write it. */
  function NatToString(n: nat): (r: string)
    ensures |r| >= 1
    ensures n >= 10 ==> |r| >= 2
    ensures forall i :: 0 <= i < |r| ==> '0' <= r[i] <= '9'
  {
    if n < 10 then [DigitChar(n)] else NatToString(n / 10) + [DigitChar(n % 10)]
  }

  /** Distinct numbers have distinct decimal forms, so the keys `k.0`, `k.1`, ...
      never collide. */
  lemma {:induction false} NatToStringInjective(a: nat, b: nat)
    requires NatToString(a) == NatToString(b)
    ensures a == b
  {
    var ra, rb := NatToString(a), NatToString(b);
    if a < 10 || b < 10 {
      assert |ra| == 1 && |rb| == 1;
      assert ra[0] == rb[0];
    } else {
      assert ra[|ra| - 1] == rb[|rb| - 1];
      assert a % 10 == b % 10;
      assert NatToString(a / 10) == ra[..|ra| - 1] == rb[..|rb| - 1] == NatToString(b / 10);
      NatToStringInjective(a / 10, b / 10);
    }
  }

  function IntToString(n: int): string {
    if n < 0 then "-" + NatToString(-n) else NatToString(n)
  }

  /** `String(v)`: how a value is written when a template substitutes it. */
  function ToJsString(v: Json): string
    decreases v, 1
  {
    match v
    case JNull => "null"
    case JBool(b) => if b then "true" else "false"
    case JNum(n) => IntToString(n)
    case JStr(s) => s
    case JArr(items) => JoinItems(v, |items|)
    case JObj(_) => "[object Object]"
  }

  /** `Array.prototype.join(',')` over the first `n` items of array `v`: null elements
      are written as the empty string. */
  function JoinItems(v: Json, n: nat): string
    requires v.JArr? && n <= |v.items|
    decreases v, 0, n
  {
    if n == 0 then ""
    else
      var last := v.items[n - 1];
      var piece := if last == JNull then "" else ToJsString(last);
      if n == 1 then piece else JoinItems(v, n - 1) + "," + piece
  }

  /** The properties every plain object inherits from `Object.prototype`: reading one of
      them from an object that does not own it finds the inherited value. */
  const ObjectPrototype: seq<string> :=
    ["constructor", "__proto__", "__defineGetter__", "__defineSetter__", "__lookupGetter__",
     "__lookupSetter__", "hasOwnProperty", "isPrototypeOf", "propertyIsEnumerable",
     "toLocaleString", "toString", "valueOf"]

  /** The accessor property `Object.prototype.__proto__`: assigning a primitive to it
      (`obj["__proto__"] = "x"`) is ignored and creates no own property. */
  const ProtoKey: string := "__proto__"

  predicate Inherited(key: string) {
    key in ObjectPrototype
  }

  /** `String(...)` of the inherited value of property `name`: `[object Object]` for the
      prototype itself, and otherwise the source text of a native function. */
  function InheritedValueText(name: string): (r: string)
    ensures r != ""
  {
    if name == "__proto__" then "[object Object]"
    else if name == "constructor" then "function Object() { [native code] }"
    else "function " + name + "() { [native code] }"
  }

  /** The lookup along the prototype's property names. */
  function LookupInherited(names: seq<string>, key: string): (r: string)
    ensures r != "" <==> key in names
  {
    if names == [] then ""
    else if names[0] == key then InheritedValueText(key)
    else LookupInherited(names[1..], key)
  }

  /** `String(o[key] || '')` for a plain object `o` that does not own `key`: the source text
      of an inherited method, `[object Object]` for the prototype itself, and otherwise the
      empty string, since `undefined` is falsy. */
  function InheritedText(key: string): (r: string)
    ensures r != "" <==> Inherited(key)
    ensures key == "constructor" ==> r == "function Object() { [native code] }"
  {
    LookupInherited(ObjectPrototype, key)
  }

  /** Reading property `key` of a value: None is `undefined`; reading from null throws. */
  function Prop(v: Json, key: string): (r: Result<Option<Json>, Error>)
    ensures r.Failure? <==> v == JNull
    ensures v.JObj? && r.value.Some? ==> (key, r.value.value) in v.fields
  {
    match v
    case JNull => Failure(TypeError("Cannot read properties of null"))
    case JObj(fields) => Success(FindField(fields, key))
    case _ => Success(None)
  }

  /** The value of the last entry named `key` (JSON.parse keeps the last duplicate). */
  function FindField(fields: seq<(string, Json)>, key: string): (r: Option<Json>)
    ensures r.Some? ==> (key, r.value) in fields
    ensures r.None? <==> forall i :: 0 <= i < |fields| ==> fields[i].0 != key
  {
    if fields == [] then None
    else if fields[|fields| - 1].0 == key then Some(fields[|fields| - 1].1)
    else FindField(fields[..|fields| - 1], key)
  }
}

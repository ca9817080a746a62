/** The JavaScript values that cross the contact relay: request payloads,
    response bodies and the bodies the form reads back. */
module JsValue {
  import opened JsString

  /** A JavaScript value as JSON and a request framework can produce it. An
      object is the list of its properties as written; when a name repeats,
      the last one counts, as `JSON.parse` keeps it. */
  datatype Value =
    | Undefined
    | Null
    | Bool(b: bool)
    | Num(n: int)
    | Str(s: string)
    | Arr(items: seq<Value>)
    | Obj(props: seq<(string, Value)>)

  /** The outcome of `JSON.parse`: a value, or the exception it throws. */
  datatype Parsed = Parsed(value: Value) | ParseError

  /** JavaScript truthiness. */
  function Truthy(v: Value): (b: bool)
    ensures !b <==> v in {Undefined, Null, Bool(false), Num(0), Str("")}
  {
    match v
    case Undefined => false
    case Null => false
    case Bool(b) => b
    case Num(n) => n != 0
    case Str(s) => s != ""
    case Arr(_) => true
    case Obj(_) => true
  }

  /** `typeof v === "object"`: `null`, arrays and plain objects. */
  predicate IsObjectType(v: Value)
  {
    v.Null? || v.Arr? || v.Obj?
  }

  /** The value held by the last property called `key`, if there is one. */
  function LastValue(props: seq<(string, Value)>, key: string): (r: Option<Value>)
    ensures r.Some? <==> exists i :: 0 <= i < |props| && props[i].0 == key
  {
    if props == [] then None
    else if props[|props| - 1].0 == key then Some(props[|props| - 1].1)
    else LastValue(props[..|props| - 1], key)
  }

  datatype Option<T> = None | Some(value: T)

  /** `Object.entries(v)` for an object or an array: the own properties in
      order; an array's are its indices written in decimal. */
  function Entries(v: Value): (e: seq<(string, Value)>)
    requires v.Obj? || v.Arr?
    ensures v.Arr? ==> |e| == |v.items| && forall i :: 0 <= i < |e| ==> AllDigits(e[i].0)
  {
    match v
    case Obj(props) => props
    case Arr(items) => seq(|items|, i requires 0 <= i < |items| => (NatToString(i), items[i]))
  }

  /** Property access `v.key` on a value that is neither `null` nor
      `undefined`. Only plain objects carry the names this model looks up. */
  function Property(v: Value, key: string): Value
  {
    if v.Obj? then
      match LastValue(v.props, key)
      case Some(x) => x
      case None => Undefined
    else Undefined
  }

  /** `a ?? b`. */
  function Coalesce(a: Value, b: Value): (r: Value)
    ensures (a.Undefined? || a.Null?) ==> r == b
    ensures !(a.Undefined? || a.Null?) ==> r == a
  {
    if a.Undefined? || a.Null? then b else a
  }

  /** `String(v)`, the conversion `new Error(message)` applies to its argument. */
  function ToStr(v: Value): (r: string)
    ensures v.Str? ==> r == v.s
    ensures v.Obj? ==> r == "[object Object]"
    ensures v.Arr? && v.items == [] ==> r == ""
    ensures !v.Str? && !v.Arr? ==> |r| > 0
  {
    match v
    case Undefined => "undefined"
    case Null => "null"
    case Bool(b) => if b then "true" else "false"
    case Num(n) => IntToString(n)
    case Str(s) => s
    case Arr(items) => Join(seq(|items|, i requires 0 <= i < |items| =>
                             if items[i].Undefined? || items[i].Null? then "" else ToStr(items[i])), ",")
    case Obj(_) => "[object Object]"
  }

  function Hex(d: nat): (c: char)
    requires d < 16
  {
    if d < 10 then Digit(d) else ('a' as int + d - 10) as char
  }

  /** How `JSON.stringify` writes one character inside a string literal. */
  function EscapeJsonChar(c: char): (r: string)
    ensures |r| >= 1
    ensures r[0] == '\\' <==> (c == '"' || c == '\\' || c < ' ')
  {
    if c == '"' then "\\\""
    else if c == '\\' then "\\\\"
    else if c == '\U{0008}' then "\\b"
    else if c == '\t' then "\\t"
    else if c == '\n' then "\\n"
    else if c == '\U{000C}' then "\\f"
    else if c == '\r' then "\\r"
    else if c < ' ' then "\\u00" + [Hex(c as int / 16), Hex(c as int % 16)]
    else [c]
  }

  function EscapeJsonString(s: string): string
  {
    if s == [] then "" else EscapeJsonChar(s[0]) + EscapeJsonString(s[1..])
  }

  /** A JSON string literal. */
  function Quote(s: string): (r: string)
    ensures |r| >= 2 && r[0] == '"' && r[|r| - 1] == '"'
  {
    "\"" + EscapeJsonString(s) + "\""
  }

  /** `JSON.stringify(v)` for a value that is not itself `undefined`: object
      properties holding `undefined` are left out and array elements holding
      it are written `null`. The objects this model stringifies never repeat
      a property name. */
  function Stringify(v: Value): string
    decreases v, 1, 0
  {
    match v
    case Undefined => "null"
    case Null => "null"
    case Bool(b) => if b then "true" else "false"
    case Num(n) => IntToString(n)
    case Str(s) => Quote(s)
    case Arr(items) => "[" + Join(seq(|items|, i requires 0 <= i < |items| => Stringify(items[i])), ",") + "]"
    case Obj(props) => "{" + Join(StringifyProps(v, 0), ",") + "}"
  }

  /** The kind of JSON text `Stringify` writes: never empty, a string
      literal for a string, an array in brackets, an object in braces, and
      `null` for `null` (and for `undefined`, which this model writes as
      `null` where it is a member). */
  lemma StringifyShape(v: Value)
    ensures var r := Stringify(v);
            |r| > 0 &&
            (v.Str? ==> r[0] == '"' && r[|r| - 1] == '"') &&
            (v.Arr? ==> r[0] == '[' && r[|r| - 1] == ']') &&
            (v.Obj? ==> r[0] == '{' && r[|r| - 1] == '}') &&
            (v.Undefined? || v.Null? ==> r == "null")
  {
  }

  /** The `"name":value` members of object `v` from its `i`-th property on. */
  function StringifyProps(v: Value, i: nat): seq<string>
    requires v.Obj? && i <= |v.props|
    decreases v, 0, |v.props| - i
  {
    if i == |v.props| then []
    else
      var rest := StringifyProps(v, i + 1);
      if v.props[i].1.Undefined? then rest
      else [Quote(v.props[i].0) + ":" + Stringify(v.props[i].1)] + rest
  }

  /** A character `JSON.stringify` writes as it is inside a string literal. */
  predicate PlainJsonChar(c: char)
  {
    c != '"' && c != '\\' && c >= ' '
  }

  /** A string of plain characters is written between the quotes unchanged. */
  lemma {:induction false} EscapePlain(s: string)
    requires forall i :: 0 <= i < |s| ==> PlainJsonChar(s[i])
    ensures EscapeJsonString(s) == s
  {
    if s != [] {
      EscapePlain(s[1..]);
      assert s == [s[0]] + s[1..];
    }
  }

  /** The JSON text of a one-property object whose value is a plain string. */
  lemma StringifySingleton(key: string, value: string)
    ensures Stringify(Obj([(key, Str(value))])) == "{" + Quote(key) + ":" + Quote(value) + "}"
  {
    var v := Obj([(key, Str(value))]);
    assert StringifyProps(v, 1) == [];
    assert StringifyProps(v, 0) == [Quote(key) + ":" + Quote(value)];
  }

  /** The last property with a given name decides its value. */
  lemma {:induction false} LastValueAt(props: seq<(string, Value)>, j: nat)
    requires j < |props|
    requires forall i :: j < i < |props| ==> props[i].0 != props[j].0
    ensures LastValue(props, props[j].0) == Some(props[j].1)
  {
    var n := |props|;
    if j < n - 1 {
      var front := props[..n - 1];
      assert forall i :: j < i < |front| ==> front[i] == props[i];
      LastValueAt(front, j);
    }
  }
}

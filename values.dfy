/** The dynamically typed values that flow through the modelled code as
    entries of Python dicts (event payloads, chunk metadata, content-list
    blocks, parsed configuration files, JWT payloads). */
module Values {
  import opened Text

  datatype Value =
    | VNone
    | VBool(b: bool)
    | VInt(i: int)
      /** A float, with the text Python's str() prints for it. */
    | VFloat(x: real, text: string)
    | VStr(s: string)
    | VList(items: seq<Value>)
    | VDict(entries: map<string, Value>)
      /** Any other object: what str() prints for it and its truth value. */
    | VOther(text: string, truthy: bool)

  /** A value or Python's None. */
  function OptionalStr(v: Option<string>): Value {
    if v.Some? then VStr(v.value) else VNone
  }

  function OptionalInt(v: Option<int>): Value {
    if v.Some? then VInt(v.value) else VNone
  }

  type Dict = map<string, Value>

  /** Python truthiness. */
  predicate Truthy(v: Value) {
    match v
    case VNone => false
    case VBool(b) => b
    case VInt(i) => i != 0
    case VFloat(x, _) => x != 0.0
    case VStr(s) => s != ""
    case VList(items) => items != []
    case VDict(m) => m != map[]
    case VOther(_, t) => t
  }

  /** isinstance(v, int): a bool is an int in Python. */
  predicate IsInt(v: Value) {
    v.VInt? || v.VBool?
  }

  /** isinstance(v, (int, float)). */
  predicate IsNumber(v: Value) {
    v.VInt? || v.VBool? || v.VFloat?
  }

  /** int(x) of a float truncates toward zero. */
  function Trunc(x: real): (r: int)
    ensures x >= 0.0 ==> r as real <= x < r as real + 1.0
    ensures x < 0.0 ==> r as real - 1.0 < x <= r as real
  {
    if x >= 0.0 then x.Floor else -((-x).Floor)
  }

  /** int(v) of a number. */
  function IntOf(v: Value): int
    requires IsNumber(v)
  {
    match v
    case VBool(b) => if b then 1 else 0
    case VInt(i) => i
    case VFloat(x, _) => Trunc(x)
  }

  /** The value as an int when isinstance(v, int) holds. */
  function AsInt(v: Value): int
    requires IsInt(v)
  {
    IntOf(v)
  }

  /** Python's `v == 1` (True and 1.0 compare equal to 1). */
  predicate EqualsOne(v: Value) {
    v == VInt(1) || v == VBool(true) || (v.VFloat? && v.x == 1.0)
  }

  function IntToString(i: int): string {
    if i < 0 then "-" + NatToString(-i) else NatToString(i)
  }

  /** str(v) (repr = false) and repr(v) (repr = true). Quote escaping inside
      repr and the entries of a nested dict are not rendered. */
  function Render(v: Value, repr: bool): string
  {
    match v
    case VNone => "None"
    case VBool(b) => if b then "True" else "False"
    case VInt(i) => IntToString(i)
    case VFloat(_, text) => text
    case VStr(s) => if repr then "'" + s + "'" else s
    case VList(items) => "[" + Join(seq(|items|, k requires 0 <= k < |items| => Render(items[k], true)), ", ") + "]"
    case VDict(_) => "{...}"
    case VOther(text, _) => text
  }

  function Str(v: Value): string {
    Render(v, false)
  }

  /** d.get(k, default). */
  function Get(d: Dict, k: string, default: Value): Value {
    if k in d then d[k] else default
  }

  /** str(d.get(k) or ""). */
  function StrOr(d: Dict, k: string): string {
    if k in d && Truthy(d[k]) then Str(d[k]) else ""
  }

  /** Python's `"x" in d` where d is known to be a dict. */
  predicate Has(d: Dict, k: string) {
    k in d
  }

  /** str(x) on a str gives it back unchanged. */
  lemma StrOfStr(s: string)
    ensures Str(VStr(s)) == s
  {
  }
}

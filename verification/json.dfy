/** JSON-like values: what `json.load` returns and `json.dump` accepts, and
    what the extraction records are made of. */
module Json {
  import opened Results
  import opened Dicts
  import Text

  datatype Value =
    | Null
    | Bool(b: bool)
    | Num(n: int)
    | Str(s: string)
    | List(items: seq<Value>)
    | Obj(fields: Dict<Value>)

  /** A Python dict with string keys, e.g. one extraction result. */
  type Record = Dict<Value>

  /** Python truthiness (`if v:`). */
  predicate Truthy(v: Value) {
    match v
    case Null => false
    case Bool(b) => b
    case Num(n) => n != 0
    case Str(s) => |s| > 0
    case List(xs) => |xs| > 0
    case Obj(fs) => |fs| > 0
  }

  /** `v in (None, '', [], {})`. Unlike falsiness, 0 and False are not blank. */
  predicate IsBlank(v: Value) {
    v == Null || v == Str("") || v == List([]) || v == Obj([])
  }

  /** `r.get(k)`: the stored value, or None when the key is absent. */
  function Get(r: Record, k: string): (v: Value)
    ensures !Has(r, k) ==> v == Null
  {
    Lookup(r, k).GetOr(Null)
  }

  /** `r.get(k, default)`. */
  function GetOr(r: Record, k: string, default: Value): (v: Value)
    ensures Has(r, k) ==> v == Get(r, k)
    ensures !Has(r, k) ==> v == default
  {
    Lookup(r, k).GetOr(default)
  }

  /** The name `type(v).__name__` reports. */
  function TypeName(v: Value): string {
    match v
    case Null => "NoneType"
    case Bool(_) => "bool"
    case Num(_) => "int"
    case Str(_) => "str"
    case List(_) => "list"
    case Obj(_) => "dict"
  }

  /** `str(v)`: a string is itself, anything else is its `repr`. */
  function PyStr(v: Value): (r: string)
    ensures v.Str? ==> r == v.s
  {
    if v.Str? then v.s else Repr(v)
  }

  function Repr(v: Value): string
    decreases v, 1, 0
  {
    match v
    case Null => "None"
    case Bool(b) => if b then "True" else "False"
    case Num(n) => Text.IntToString(n)
    case Str(s) => "'" + s + "'"
    case List(xs) => "[" + ReprItems(v, 0) + "]"
    case Obj(fs) => "{" + ReprItems(v, 0) + "}"
  }

  /** The comma-separated element (or `key: value`) reprs of a list (or
      dict) from position `i` on. */
  function ReprItems(v: Value, i: nat): string
    requires v.List? || v.Obj?
    decreases v, 0, (if v.List? then |v.items| else |v.fields|) - i
  {
    var n := if v.List? then |v.items| else |v.fields|;
    if i >= n then ""
    else
      var item :=
        if v.List? then Repr(v.items[i])
        else
          assert v.fields[i] in v.fields;
          "'" + v.fields[i].0 + "': " + Repr(v.fields[i].1);
      (if i == 0 then "" else ", ") + item + ReprItems(v, i + 1)
  }
}

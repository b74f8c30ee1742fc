/** An already-parsed JSON value, as `json.load` hands it to the assistant, and
    Python's `str`/`repr` of such a value. */
module JsonValue {
  import opened Text

  /** One parsed JSON value. Objects keep their members in insertion order, as
      Python dictionaries do; a float carries its Python `repr` text. */
  datatype Json =
    | Null
    | Bool(b: bool)
    | Int(i: int)
    | Float(literal: string)
    | Str(s: string)
    | Arr(items: seq<Json>)
    | Obj(members: seq<Member>)

  datatype Member = Member(key: string, value: Json)

  /** `isinstance(v, (str, int, float))`; in Python a bool is an int, so it counts. */
  predicate IsScalar(v: Json) {
    v.Bool? || v.Int? || v.Float? || v.Str?
  }

  /** A dictionary produced by `json.load` never repeats a key. */
  predicate DistinctKeys(members: seq<Member>) {
    forall j, k :: 0 <= j < k < |members| ==> members[j].key != members[k].key
  }

  /** Python's `repr(v)`. Strings are quoted with single quotes. */
  function PyRepr(v: Json): string
    decreases v, 1, 0
  {
    match v
    case Null => "None"
    case Bool(b) => if b then "True" else "False"
    case Int(i) => IntToString(i)
    case Float(t) => t
    case Str(s) => "'" + s + "'"
    case Arr(items) => "[" + Join(", ", ReprItems(v, |items|)) + "]"
    case Obj(ms) => "{" + Join(", ", ReprMembers(v, |ms|)) + "}"
  }

  /** The reprs of the first `n` elements of the list `v`. */
  function ReprItems(v: Json, n: nat): (r: seq<string>)
    requires v.Arr? && n <= |v.items|
    ensures |r| == n
    decreases v, 0, n
  {
    if n == 0 then [] else ReprItems(v, n - 1) + [PyRepr(v.items[n - 1])]
  }

  /** The `'key': repr(value)` entries of the first `n` members of the object `v`. */
  function ReprMembers(v: Json, n: nat): (r: seq<string>)
    requires v.Obj? && n <= |v.members|
    ensures |r| == n
    decreases v, 0, n
  {
    if n == 0 then []
    else
      var m := v.members[n - 1];
      ReprMembers(v, n - 1) + ["'" + m.key + "': " + PyRepr(m.value)]
  }

  /** Python's `str(v)`: a string is itself, everything else is its repr. */
  function PyStr(v: Json): string {
    if v.Str? then v.s else PyRepr(v)
  }

  /** `map(str, items)`. */
  function StrItems(items: seq<Json>): (r: seq<string>)
    ensures |r| == |items|
    ensures forall k :: 0 <= k < |items| ==> r[k] == PyStr(items[k])
  {
    seq(|items|, k requires 0 <= k < |items| => PyStr(items[k]))
  }
}

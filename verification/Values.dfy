/** Loosely typed values of payload dictionaries, with Python's truth test. */
module Values {
  import opened Results

  /** Containers and other objects are opaque; only their truth value matters. */
  datatype Value =
    | Null
    | Bool(b: bool)
    | Number(n: real)
    | Text(s: string)
    | Opaque(tag: int, nonEmpty: bool)

  type Payload = map<string, Value>

  predicate Truthy(v: Value) {
    match v
    case Null => false
    case Bool(b) => b
    case Number(n) => n != 0.0
    case Text(s) => s != ""
    case Opaque(_, nonEmpty) => nonEmpty
  }

  /** `isinstance(v, (int, float))` and the number; a Python bool is an int. */
  function NumberOf(v: Value): Option<real> {
    match v
    case Bool(b) => Some(if b then 1.0 else 0.0)
    case Number(n) => Some(n)
    case _ => None
  }

  /** `payload.get(key)`. */
  function Get(p: Payload, key: string): Value {
    if key in p then p[key] else Null
  }

  /** `str(v)`; `repr` renders the numbers and containers. */
  function Str(v: Value, repr: Value -> string): string {
    match v
    case Null => "None"
    case Bool(b) => if b then "True" else "False"
    case Text(s) => s
    case _ => repr(v)
  }

  function LowerChar(c: char): char {
    if 'A' <= c <= 'Z' then c - 'A' + 'a' else c
  }

  /** `str.lower`, on ASCII letters. */
  function Lower(s: string): string {
    seq(|s|, i requires 0 <= i < |s| => LowerChar(s[i]))
  }

  predicate Exceeds(v: Value, limit: Option<real>) {
    NumberOf(v).Some? && limit.Some? && NumberOf(v).value > limit.value
  }

  /** The 26 characters from A, code 65, are moved by 32, and every other one stays. */
  lemma LowerIs(s: string, i: nat)
    requires i < |s|
    ensures |Lower(s)| == |s|
    ensures Lower(s)[i] as int == s[i] as int + if 65 <= s[i] as int < 91 then 32 else 0
  {
    assert Lower(s)[i] == LowerChar(s[i]);
  }
}

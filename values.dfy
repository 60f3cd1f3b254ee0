/** The parsed JSON-like values the export comparison works on: a JSON value
    (section 3 of RFC 8259) extended with Ruby's `Set`, which the normalisation
    step introduces. Numbers are integers only. */
module Values {

  datatype Value =
    | VMap(entries: map<string, Value>)
    | VArr(items: seq<Value>)
    | VSet(members: set<Value>)
    | VStr(str: string)
    | VInt(num: int)
    | VBool(flag: bool)
    | VNull

  /** The Ruby class of a value. `true` and `false` belong to different
      classes, and `nil` is the only member of its class. */
  datatype RubyClass =
    | HashClass
    | ArrayClass
    | SetClass
    | StringClass
    | IntegerClass
    | TrueClass
    | FalseClass
    | NilClass

  function ClassOf(v: Value): RubyClass {
    match v
    case VMap(_) => HashClass
    case VArr(_) => ArrayClass
    case VSet(_) => SetClass
    case VStr(_) => StringClass
    case VInt(_) => IntegerClass
    case VBool(b) => if b then TrueClass else FalseClass
    case VNull => NilClass
  }

  /** A value that is neither a Hash, an Array nor a Set. */
  predicate IsScalar(v: Value) {
    !v.VMap? && !v.VArr? && !v.VSet?
  }

  /** `Hash#[]`: an absent key reads as `nil`. */
  function Lookup(m: map<string, Value>, k: string): Value {
    if k in m then m[k] else VNull
  }

  /** `Array#[]` with a non-negative index: a position past the end reads as `nil`. */
  function At(s: seq<Value>, i: nat): Value {
    if i < |s| then s[i] else VNull
  }

  function Max(x: nat, y: nat): nat {
    if x < y then y else x
  }

  /** `set.new(array)`: the elements of a sequence, duplicates collapsed. */
  function Elements(s: seq<Value>): set<Value> {
    set x | x in s
  }
}

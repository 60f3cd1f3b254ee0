/** The recursive object diff behind the export comparison: `object_diff`,
    `hash_diff`, `array_diff` and `set_diff`. `None` stands for Ruby's `nil`
    ("no difference"); any `Some` is truthy. The functions are the definition;
    `HashDiffInject` and `ArrayDiffInject` are the accumulator loops that the
    Ruby code writes with `inject`, proved to compute the same thing. */
module StructuralDiff {
  import opened Wrappers
  import opened Values

  /** What `object_diff` returns when it finds a difference. */
  datatype Diff =
    | Pair(left: Value, right: Value)                     // the literal `[obj1, obj2]`
    | HashD(entries: map<string, Diff>)                   // `hash_diff`'s result hash
    | ArrD(items: seq<Diff>)                              // `array_diff`'s result array
    | SetD(leftOnly: set<Value>, rightOnly: set<Value>)   // `[set1 - set2, set2 - set1]`

  /** First component of the termination measure: `object_diff` never
      recurses once either side is `nil`. */
  function Nested(a: Value, b: Value): nat {
    if a == VNull || b == VNull then 0 else 1
  }

  // ---------------------------------------------------------------------------
  // The diff functions
  // ---------------------------------------------------------------------------

  /** `object_diff`: the literal pair when the Ruby classes differ, otherwise
      dispatch on Hash, Array and Set, and compare everything else by value. */
  function ObjectDiff(a: Value, b: Value): Option<Diff>
    decreases Nested(a, b), a, 2
  {
    if ClassOf(a) != ClassOf(b) then Some(Pair(a, b))
    else match a
      case VMap(m1) => HashDiff(m1, b.entries)
      case VArr(s1) => ArrayDiff(s1, b.items)
      case VSet(s1) => SetDiff(s1, b.members)
      case _ => if a == b then None else Some(Pair(a, b))
  }

  /** The entries `hash_diff` records for the keys in `keys`: a key is recursed
      into only when its two looked-up values differ, and kept only when that
      element diff is truthy. */
  function EntryDiffs(m1: map<string, Value>, m2: map<string, Value>, keys: set<string>): map<string, Diff>
    decreases 1, VMap(m1), 0
  {
    map k | k in keys && Lookup(m1, k) != Lookup(m2, k) && ObjectDiff(Lookup(m1, k), Lookup(m2, k)).Some?
      :: ObjectDiff(Lookup(m1, k), Lookup(m2, k)).value
  }

  /** `hash_diff`: the entry diffs over the union of both key sets, or `nil`
      when there are none. */
  function HashDiff(m1: map<string, Value>, m2: map<string, Value>): Option<Diff>
    decreases 1, VMap(m1), 1
  {
    var d := EntryDiffs(m1, m2, m1.Keys + m2.Keys);
    if d == map[] then None else Some(HashD(d))
  }

  /** The truthy element diffs `array_diff` accumulates for indices 0 .. n-1,
      in index order. */
  function Collect(s1: seq<Value>, s2: seq<Value>, n: nat): seq<Diff>
    decreases 1, VArr(s1), 0, n
  {
    if n == 0 then []
    else
      var d := ObjectDiff(At(s1, n - 1), At(s2, n - 1));
      Collect(s1, s2, n - 1) + (if d.Some? then [d.value] else [])
  }

  /** `array_diff`: indices 0 .. max(len1, len2) INCLUSIVE; the result is an
      array even when nothing differs. */
  function ArrayDiff(s1: seq<Value>, s2: seq<Value>): Option<Diff>
    decreases 1, VArr(s1), 1
  {
    Some(ArrD(Collect(s1, s2, Max(|s1|, |s2|) + 1)))
  }

  /** `set_diff`: `nil` exactly when the sets are equal, otherwise the two
      one-sided differences. */
  function SetDiff(s1: set<Value>, s2: set<Value>): (r: Option<Diff>)
    ensures r.None? <==> s1 == s2
    ensures r.Some? ==> r.value.SetD?
    ensures r.Some? ==> r.value.leftOnly + s2 == s1 + s2 && r.value.leftOnly !! s2
    ensures r.Some? ==> r.value.rightOnly + s1 == s1 + s2 && r.value.rightOnly !! s1
  {
    var diff1, diff2 := s1 - s2, s2 - s1;
    if diff1 == {} && diff2 == {} then None else Some(SetD(diff1, diff2))
  }

  // ---------------------------------------------------------------------------
  // The inject loops
  // ---------------------------------------------------------------------------

  /** `hash_diff` as the source writes it: walk the union of the key sets (in
      any order) and add `diff[k] = objdiff` for each truthy element diff. */
  method HashDiffInject(m1: map<string, Value>, m2: map<string, Value>) returns (r: Option<Diff>)
    ensures r == HashDiff(m1, m2)
  {
    var keys := m1.Keys + m2.Keys;
    var diff: map<string, Diff> := map[];
    ghost var visited: set<string> := {};
    while keys != {}
      invariant keys + visited == m1.Keys + m2.Keys
      invariant keys !! visited
      invariant diff == EntryDiffs(m1, m2, visited)
      decreases keys
    {
      var k :| k in keys;
      var v1, v2 := Lookup(m1, k), Lookup(m2, k);
      if v1 != v2 {
        var objdiff := ObjectDiff(v1, v2);
        if objdiff.Some? {
          diff := diff[k := objdiff.value];
        }
      }
      keys := keys - {k};
      visited := visited + {k};
    }
    r := if diff == map[] then None else Some(HashD(diff));
  }

  /** `array_diff` as the source writes it: indices 0 .. max inclusive,
      appending each truthy element diff with `diff << objdiff`. */
  method ArrayDiffInject(s1: seq<Value>, s2: seq<Value>) returns (r: Option<Diff>)
    ensures r == ArrayDiff(s1, s2)
  {
    var last := Max(|s1|, |s2|);
    var diff: seq<Diff> := [];
    var i := 0;
    while i <= last
      invariant 0 <= i <= last + 1
      invariant diff == Collect(s1, s2, i)
    {
      var objdiff := ObjectDiff(At(s1, i), At(s2, i));
      if objdiff.Some? {
        diff := diff + [objdiff.value];
      }
      i := i + 1;
    }
    r := Some(ArrD(diff));
  }
}

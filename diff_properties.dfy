/** What the object diff promises, and where it departs from an idealised
    structural diff: absent keys read as `nil`, arrays never compare as
    "no difference", and verdicts are symmetric. */
module DiffProperties {
  import opened Wrappers
  import opened Values
  import opened StructuralDiff

  // ---------------------------------------------------------------------------
  // object_diff: class dispatch
  // ---------------------------------------------------------------------------

  /** Values of different Ruby classes give the literal pair; two scalars of
      one class give `nil` exactly when they are equal, the pair otherwise. */
  lemma ObjectDiffDispatch(a: Value, b: Value)
    ensures ClassOf(a) != ClassOf(b) ==> ObjectDiff(a, b) == Some(Pair(a, b))
    ensures IsScalar(a) && ClassOf(a) == ClassOf(b) ==>
              ObjectDiff(a, b) == (if a == b then None else Some(Pair(a, b)))
    ensures a.VSet? && b.VSet? ==> ObjectDiff(a, b) == SetDiff(a.members, b.members)
  {
  }

  /** An object compared with itself gives `nil` unless it is an Array:
      `array_diff` never returns `nil`. */
  lemma ObjectDiffSelf(v: Value)
    ensures ObjectDiff(v, v).None? <==> !v.VArr?
  {
    if v.VMap? {
      HashDiffReflexive(v.entries);
    }
  }

  // ---------------------------------------------------------------------------
  // hash_diff
  // ---------------------------------------------------------------------------

  /** `hash_diff` is `nil` exactly when no key of either hash has differing
      looked-up values with a truthy element diff; otherwise its keys are
      exactly those keys, each mapped to its element diff. */
  lemma HashDiffKeys(m1: map<string, Value>, m2: map<string, Value>)
    ensures HashDiff(m1, m2).None? <==>
              forall k | k in m1.Keys + m2.Keys && Lookup(m1, k) != Lookup(m2, k) ::
                ObjectDiff(Lookup(m1, k), Lookup(m2, k)).None?
    ensures HashDiff(m1, m2).Some? ==>
              && HashDiff(m1, m2).value.HashD?
              && (forall k :: k in HashDiff(m1, m2).value.entries <==>
                    && k in m1.Keys + m2.Keys
                    && Lookup(m1, k) != Lookup(m2, k)
                    && ObjectDiff(Lookup(m1, k), Lookup(m2, k)).Some?)
              && (forall k | k in HashDiff(m1, m2).value.entries ::
                    HashDiff(m1, m2).value.entries[k] == ObjectDiff(Lookup(m1, k), Lookup(m2, k)).value)
  {
    var d := EntryDiffs(m1, m2, m1.Keys + m2.Keys);
    if d == map[] {
      forall k | k in m1.Keys + m2.Keys && Lookup(m1, k) != Lookup(m2, k)
        ensures ObjectDiff(Lookup(m1, k), Lookup(m2, k)).None?
      {
        assert k !in d;
      }
    }
  }

  /** Two hashes whose every key reads the same (`nil` when absent) have no
      difference. */
  lemma HashDiffSameLookups(m1: map<string, Value>, m2: map<string, Value>)
    requires forall k :: Lookup(m1, k) == Lookup(m2, k)
    ensures HashDiff(m1, m2) == None
  {
    assert EntryDiffs(m1, m2, m1.Keys + m2.Keys) == map[];
  }

  /** `hash_diff(h, h)` is `nil`. */
  lemma HashDiffReflexive(m: map<string, Value>)
    ensures HashDiff(m, m) == None
  {
    HashDiffSameLookups(m, m);
  }

  /** An absent key and a key holding `nil` cannot be told apart:
      `{"k" => nil}` and `{}` have no difference. */
  lemma AbsentKeyReadsAsNil(m: map<string, Value>, k: string)
    requires k !in m
    ensures HashDiff(m[k := VNull], m) == None
    ensures ObjectDiff(VMap(map[k := VNull]), VMap(map[])) == None
  {
    var m' := m[k := VNull];
    forall j ensures Lookup(m', j) == Lookup(m, j) {
    }
    HashDiffSameLookups(m', m);
    var e: map<string, Value> := map[];
    forall j ensures Lookup(map[k := VNull], j) == Lookup(e, j) {
    }
    HashDiffSameLookups(map[k := VNull], e);
  }

  // ---------------------------------------------------------------------------
  // array_diff
  // ---------------------------------------------------------------------------

  lemma {:induction false} CollectLength(s1: seq<Value>, s2: seq<Value>, n: nat)
    ensures |Collect(s1, s2, n)| <= n
  {
    if n > 0 {
      CollectLength(s1, s2, n - 1);
    }
  }

  /** `array_diff` is never `nil`, and although it visits one index past the
      longer array, that index reads `nil` on both sides and adds nothing:
      the result holds at most max(len1, len2) element diffs. */
  lemma ArrayDiffLength(s1: seq<Value>, s2: seq<Value>)
    ensures ArrayDiff(s1, s2).Some? && ArrayDiff(s1, s2).value.ArrD?
    ensures |ArrayDiff(s1, s2).value.items| <= Max(|s1|, |s2|)
  {
    var last := Max(|s1|, |s2|);
    assert At(s1, last) == VNull && At(s2, last) == VNull;
    assert ObjectDiff(VNull, VNull) == None;
    assert Collect(s1, s2, last + 1) == Collect(s1, s2, last);
    CollectLength(s1, s2, last);
  }

  /** The number of elements of a sequence that are themselves arrays. */
  function ArrayCount(s: seq<Value>): nat {
    if s == [] then 0 else ArrayCount(s[..|s| - 1]) + (if s[|s| - 1].VArr? then 1 else 0)
  }

  lemma {:induction false} CollectSelf(s: seq<Value>, n: nat)
    requires n <= |s|
    ensures |Collect(s, s, n)| == ArrayCount(s[..n])
    ensures forall i | 0 <= i < |Collect(s, s, n)| :: Collect(s, s, n)[i].ArrD?
  {
    if n > 0 {
      CollectSelf(s, n - 1);
      assert s[..n][..n - 1] == s[..n - 1];
      ObjectDiffSelf(s[n - 1]);
      if s[n - 1].VArr? {
        ArrayLength(s[n - 1].items, s[n - 1].items);
      }
    }
  }

  lemma ArrayLength(s1: seq<Value>, s2: seq<Value>)
    ensures ObjectDiff(VArr(s1), VArr(s2)) == ArrayDiff(s1, s2)
    ensures ArrayDiff(s1, s2).Some? && ArrayDiff(s1, s2).value.ArrD?
  {
  }

  /** Comparing an array with itself still gives an array diff, with one
      array-diff entry per nested array (itself empty only when that nested
      array holds no arrays): `[]` is truthy in Ruby. */
  lemma ArrayDiffSelf(s: seq<Value>)
    ensures ArrayDiff(s, s).Some?
    ensures |ArrayDiff(s, s).value.items| == ArrayCount(s)
    ensures forall i | 0 <= i < |ArrayDiff(s, s).value.items| :: ArrayDiff(s, s).value.items[i].ArrD?
  {
    assert ObjectDiff(At(s, |s|), At(s, |s|)) == None;
    assert Collect(s, s, |s| + 1) == Collect(s, s, |s|);
    CollectSelf(s, |s|);
    assert s[..|s|] == s;
  }

  /** Sequences compare by position while sets ignore order: swapping two
      different scalars is a difference in an Array and none in a Set. */
  lemma OrderSensitivity(x: Value, y: Value)
    requires IsScalar(x) && IsScalar(y) && x != y
    ensures ObjectDiff(VArr([x, y]), VArr([y, x])).Some?
    ensures ObjectDiff(VArr([x, y]), VArr([y, x])).value.ArrD?
    ensures ObjectDiff(VArr([x, y]), VArr([y, x])).value.items != []
    ensures ObjectDiff(VSet({x, y}), VSet({y, x})) == None
  {
    var s1, s2 := [x, y], [y, x];
    assert At(s1, 0) == x && At(s2, 0) == y;
    assert ObjectDiff(x, y) == Some(Pair(x, y));
    assert Collect(s1, s2, 1) == [Pair(x, y)];
    CollectPrefix(s1, s2, 1, 3);
  }

  /** Diffs found at lower indices stay at the front as more indices are visited. */
  lemma {:induction false} CollectPrefix(s1: seq<Value>, s2: seq<Value>, m: nat, n: nat)
    requires m <= n
    ensures |Collect(s1, s2, m)| <= |Collect(s1, s2, n)|
    ensures Collect(s1, s2, n)[..|Collect(s1, s2, m)|] == Collect(s1, s2, m)
  {
    if m < n {
      CollectPrefix(s1, s2, m, n - 1);
      var c := Collect(s1, s2, n - 1);
      assert Collect(s1, s2, n)[..|c|] == c;
    }
  }

  // ---------------------------------------------------------------------------
  // Symmetry: swapping the operands mirrors the diff
  // ---------------------------------------------------------------------------

  /** A diff read from the other side: pairs and set differences swapped. */
  function Mirror(d: Diff): Diff
    decreases d, 1
  {
    match d
    case Pair(x, y) => Pair(y, x)
    case HashD(e) => HashD(map k | k in e :: Mirror(e[k]))
    case ArrD(s) => ArrD(MirrorAll(s))
    case SetD(l, r) => SetD(r, l)
  }

  function MirrorAll(s: seq<Diff>): (r: seq<Diff>)
    decreases ArrD(s), 0
    ensures |r| == |s|
  {
    seq(|s|, i requires 0 <= i < |s| => Mirror(s[i]))
  }

  function MirrorOpt(o: Option<Diff>): Option<Diff> {
    match o
    case None => None
    case Some(d) => Some(Mirror(d))
  }

  /** Mirroring twice gives the diff back. */
  lemma {:induction false} MirrorInvolutive(d: Diff)
    ensures Mirror(Mirror(d)) == d
  {
    match d
    case Pair(_, _) =>
    case SetD(_, _) =>
    case HashD(e) =>
      forall k | k in e ensures Mirror(Mirror(e[k])) == e[k] {
        MirrorInvolutive(e[k]);
      }
      assert Mirror(Mirror(d)).entries == e;
    case ArrD(s) =>
      forall i | 0 <= i < |s| ensures Mirror(Mirror(s[i])) == s[i] {
        MirrorInvolutive(s[i]);
      }
      assert MirrorAll(MirrorAll(s)) == s;
  }

  lemma MirrorAllAppend(s: seq<Diff>, t: seq<Diff>)
    ensures MirrorAll(s + t) == MirrorAll(s) + MirrorAll(t)
  {
  }

  /** `object_diff(b, a)` is `object_diff(a, b)` read from the other side. */
  lemma {:induction false} ObjectDiffMirror(a: Value, b: Value)
    ensures ObjectDiff(b, a) == MirrorOpt(ObjectDiff(a, b))
    decreases Nested(a, b), a, 2
  {
    if ClassOf(a) == ClassOf(b) {
      match a
      case VMap(m1) => HashDiffMirror(m1, b.entries);
      case VArr(s1) =>
        assert Max(|b.items|, |s1|) == Max(|s1|, |b.items|);
        CollectMirror(s1, b.items, Max(|s1|, |b.items|) + 1);
      case _ =>
    }
  }

  lemma {:induction false} HashDiffMirror(m1: map<string, Value>, m2: map<string, Value>)
    ensures HashDiff(m2, m1) == MirrorOpt(HashDiff(m1, m2))
    decreases 1, VMap(m1), 1
  {
    var keys := m1.Keys + m2.Keys;
    forall k | k in keys
      ensures ObjectDiff(Lookup(m2, k), Lookup(m1, k)) == MirrorOpt(ObjectDiff(Lookup(m1, k), Lookup(m2, k)))
    {
      ObjectDiffMirror(Lookup(m1, k), Lookup(m2, k));
    }
    var d := EntryDiffs(m1, m2, keys);
    var d' := EntryDiffs(m2, m1, m2.Keys + m1.Keys);
    assert m2.Keys + m1.Keys == keys;
    assert d'.Keys == d.Keys;
    assert d' == map k | k in d :: Mirror(d[k]);
    if d == map[] {
      assert d' == map[];
    } else {
      assert HashDiff(m1, m2) == Some(HashD(d));
      assert Mirror(HashD(d)) == HashD(d');
    }
  }

  lemma {:induction false} CollectMirror(s1: seq<Value>, s2: seq<Value>, n: nat)
    ensures Collect(s2, s1, n) == MirrorAll(Collect(s1, s2, n))
    decreases 1, VArr(s1), 0, n
  {
    if n > 0 {
      CollectMirror(s1, s2, n - 1);
      ObjectDiffMirror(At(s1, n - 1), At(s2, n - 1));
      var d := ObjectDiff(At(s1, n - 1), At(s2, n - 1));
      MirrorAllAppend(Collect(s1, s2, n - 1), if d.Some? then [d.value] else []);
    }
  }

  /** The verdict does not depend on the order of the operands. */
  lemma VerdictSymmetric(a: Value, b: Value)
    ensures ObjectDiff(a, b).None? <==> ObjectDiff(b, a).None?
  {
    ObjectDiffMirror(a, b);
  }

  // ---------------------------------------------------------------------------
  // Soundness: no difference means equal up to nil-valued hash entries
  // ---------------------------------------------------------------------------

  /** A value with every hash entry whose value is `nil` removed, at every depth. */
  function NilErased(v: Value): Value {
    match v
    case VMap(m) => VMap(map k | k in m && m[k] != VNull :: NilErased(m[k]))
    case VArr(s) => VArr(seq(|s|, i requires 0 <= i < |s| => NilErased(s[i])))
    case VSet(t) => VSet(set x | x in t :: NilErased(x))
    case _ => v
  }

  lemma NilErasedNil(v: Value)
    ensures NilErased(v) == VNull <==> v == VNull
  {
  }

  /** When `object_diff` reports no difference, the two values are equal once
      `nil`-valued hash entries are dropped: `nil` and absent are the only
      thing it confuses. */
  lemma {:induction false} NoDiffMeansNilErasedEqual(a: Value, b: Value)
    requires ObjectDiff(a, b).None?
    ensures NilErased(a) == NilErased(b)
    decreases Nested(a, b), a, 2
  {
    match a
    case VMap(m1) => HashNoDiffMeansNilErasedEqual(m1, b.entries);
    case VArr(_) =>
    case _ =>
  }

  lemma {:induction false} HashNoDiffMeansNilErasedEqual(m1: map<string, Value>, m2: map<string, Value>)
    requires HashDiff(m1, m2).None?
    ensures NilErased(VMap(m1)) == NilErased(VMap(m2))
    decreases 1, VMap(m1), 1
  {
    HashDiffKeys(m1, m2);
    forall k ensures NilErased(Lookup(m1, k)) == NilErased(Lookup(m2, k)) {
      if Lookup(m1, k) != Lookup(m2, k) {
        assert k in m1.Keys + m2.Keys;
        NoDiffMeansNilErasedEqual(Lookup(m1, k), Lookup(m2, k));
      }
    }
    var e1 := NilErased(VMap(m1)).entries;
    var e2 := NilErased(VMap(m2)).entries;
    forall k ensures k in e1 <==> k in e2 {
      NilErasedNil(Lookup(m1, k));
      NilErasedNil(Lookup(m2, k));
    }
    forall k | k in e1 ensures e1[k] == e2[k] {
      assert e1[k] == NilErased(Lookup(m1, k));
      assert e2[k] == NilErased(Lookup(m2, k));
    }
  }

  // ---------------------------------------------------------------------------
  // Every leaf of a diff is a real point of divergence
  // ---------------------------------------------------------------------------

  /** Every pair holds two different values, every hash diff is non-empty,
      every set diff has a non-empty side; an array diff may be empty, as
      `array_diff` returns `[]` for equal arrays. */
  predicate Pinpoints(d: Diff) {
    match d
    case Pair(x, y) => x != y
    case HashD(e) => e != map[] && forall k | k in e :: Pinpoints(e[k])
    case ArrD(s) => forall i | 0 <= i < |s| :: Pinpoints(s[i])
    case SetD(l, r) => l != {} || r != {}
  }

  lemma {:induction false} ObjectDiffPinpoints(a: Value, b: Value)
    requires ObjectDiff(a, b).Some?
    ensures Pinpoints(ObjectDiff(a, b).value)
    decreases Nested(a, b), a, 2
  {
    if ClassOf(a) == ClassOf(b) {
      match a
      case VMap(m1) => HashDiffPinpoints(m1, b.entries);
      case VArr(s1) =>
        var c := Collect(s1, b.items, Max(|s1|, |b.items|) + 1);
        assert ObjectDiff(a, b) == Some(ArrD(c));
        CollectPinpoints(s1, b.items, Max(|s1|, |b.items|) + 1);
        assert Pinpoints(ArrD(c));
      case _ =>
    }
  }

  lemma {:induction false} HashDiffPinpoints(m1: map<string, Value>, m2: map<string, Value>)
    requires HashDiff(m1, m2).Some?
    ensures Pinpoints(HashDiff(m1, m2).value)
    decreases 1, VMap(m1), 1
  {
    HashDiffKeys(m1, m2);
    var e := HashDiff(m1, m2).value.entries;
    forall k | k in e ensures Pinpoints(e[k]) {
      ObjectDiffPinpoints(Lookup(m1, k), Lookup(m2, k));
    }
  }

  lemma {:induction false} CollectPinpoints(s1: seq<Value>, s2: seq<Value>, n: nat)
    ensures forall i | 0 <= i < |Collect(s1, s2, n)| :: Pinpoints(Collect(s1, s2, n)[i])
    decreases 1, VArr(s1), 0, n
  {
    if n > 0 {
      CollectPinpoints(s1, s2, n - 1);
      var d := ObjectDiff(At(s1, n - 1), At(s2, n - 1));
      if d.Some? {
        ObjectDiffPinpoints(At(s1, n - 1), At(s2, n - 1));
      }
    }
  }

  // ---------------------------------------------------------------------------
  // Every divergence is reported
  // ---------------------------------------------------------------------------

  /** Every truthy element diff among the first n indices is collected. */
  lemma {:induction false} CollectContains(s1: seq<Value>, s2: seq<Value>, n: nat, i: nat)
    requires i < n
    requires ObjectDiff(At(s1, i), At(s2, i)).Some?
    ensures ObjectDiff(At(s1, i), At(s2, i)).value in Collect(s1, s2, n)
  {
    if i < n - 1 {
      CollectContains(s1, s2, n - 1, i);
    }
  }

  /** Nothing is collected exactly when no index has a truthy element diff. */
  lemma {:induction false} CollectEmpty(s1: seq<Value>, s2: seq<Value>, n: nat)
    ensures Collect(s1, s2, n) == [] <==> forall i | 0 <= i < n :: ObjectDiff(At(s1, i), At(s2, i)).None?
  {
    if n > 0 {
      CollectEmpty(s1, s2, n - 1);
    }
  }

  /** `array_diff` is `[]` exactly when no position of the longer array holds
      a truthy element diff, and otherwise records every one of them. */
  lemma ArrayDiffEmpty(s1: seq<Value>, s2: seq<Value>)
    ensures ArrayDiff(s1, s2).Some? && ArrayDiff(s1, s2).value.ArrD?
    ensures ArrayDiff(s1, s2).value.items == [] <==>
              forall i | 0 <= i < Max(|s1|, |s2|) :: ObjectDiff(At(s1, i), At(s2, i)).None?
    ensures forall i | 0 <= i < Max(|s1|, |s2|) && ObjectDiff(At(s1, i), At(s2, i)).Some? ::
              ObjectDiff(At(s1, i), At(s2, i)).value in ArrayDiff(s1, s2).value.items
  {
    var last := Max(|s1|, |s2|);
    assert ObjectDiff(At(s1, last), At(s2, last)) == None;
    CollectEmpty(s1, s2, last + 1);
    forall i | 0 <= i < last && ObjectDiff(At(s1, i), At(s2, i)).Some?
      ensures ObjectDiff(At(s1, i), At(s2, i)).value in ArrayDiff(s1, s2).value.items
    {
      CollectContains(s1, s2, last + 1, i);
    }
  }
}

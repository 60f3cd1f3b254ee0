/** The normalisation ("munging") applied to parsed export documents before
    they are diffed: the metadata loses its `timestamp`, and a catalog's
    resources, and each resource's tags, become sets. The Ruby code mutates
    the parsed hash in place; `ExportDocument` is that hash, and the
    functions below state what each mutation leaves behind. */
module Normalizer {
  import opened Wrappers
  import opened Values
  import opened StructuralDiff
  import opened DiffProperties

  /** Why munging a catalog raises. Ruby raises `NoMethodError`, `TypeError`
      or `ArgumentError`; only the place of the failure is kept. */
  datatype MungeError =
    | DataNotAHash            // `meta["data"]` is not a Hash
    | ResourcesNotEnumerable  // `meta["data"]["resources"]` has no `map`
    | BadResource             // a resource is not a Hash, or its tags are not enumerable

  const TimestampKey: string := "timestamp"
  const DataKey: string := "data"
  const ResourcesKey: string := "resources"
  const TagsKey: string := "tags"

  // ---------------------------------------------------------------------------
  // Metadata
  // ---------------------------------------------------------------------------

  /** `munge_metadata_for_comparison`: the metadata hash without its
      `timestamp` key, every other key and value unchanged. */
  function MungedMetadata(meta: map<string, Value>): (r: map<string, Value>)
    ensures r.Keys == meta.Keys - {TimestampKey}
    ensures forall k | k in r :: r[k] == meta[k]
  {
    meta - {TimestampKey}
  }

  /** Metadata hashes that differ only in `timestamp` (its value, or whether
      it is there at all) munge to the same hash, so `hash_diff` finds no
      difference between them. */
  lemma TimestampIgnored(meta1: map<string, Value>, meta2: map<string, Value>)
    requires forall k | k != TimestampKey :: k in meta1 <==> k in meta2
    requires forall k | k in meta1 && k in meta2 && k != TimestampKey :: meta1[k] == meta2[k]
    ensures MungedMetadata(meta1) == MungedMetadata(meta2)
    ensures HashDiff(MungedMetadata(meta1), MungedMetadata(meta2)) == None
  {
    var r1, r2 := MungedMetadata(meta1), MungedMetadata(meta2);
    assert r1.Keys == r2.Keys;
    forall k | k in r1 ensures r1[k] == r2[k] {
      assert k in meta1 && k in meta2 && k != TimestampKey;
    }
    HashDiffReflexive(r1);
  }

  // ---------------------------------------------------------------------------
  // Resources and tags
  // ---------------------------------------------------------------------------

  /** `Set.new(resource['tags'])`: `nil` gives the empty set, an Array its
      elements, a Hash its `[key, value]` pairs, a Set itself; anything else
      is not enumerable and raises. */
  function TagSet(tags: Value): (r: Result<set<Value>, MungeError>)
    ensures tags.VArr? ==> r == Ok(Elements(tags.items))
    ensures r.Ok? <==> tags.VNull? || tags.VArr? || tags.VMap? || tags.VSet?
  {
    match tags
    case VNull => Ok({})
    case VArr(s) => Ok(Elements(s))
    case VMap(m) => Ok(set k | k in m :: VArr([VStr(k), m[k]]))
    case VSet(t) => Ok(t)
    case _ => Err(BadResource)
  }

  /** `munge_resource_for_comparison`: the resource hash with `tags`
      replaced by the set of its tags (added, as an empty set, when absent). */
  function MungedResource(resource: Value): (r: Result<Value, MungeError>)
    ensures r.Ok? <==> resource.VMap? && TagSet(Lookup(resource.entries, TagsKey)).Ok?
    ensures r.Ok? ==> r.value.VMap? && r.value.entries.Keys == resource.entries.Keys + {TagsKey}
    ensures r.Ok? ==> r.value.entries[TagsKey] == VSet(TagSet(Lookup(resource.entries, TagsKey)).value)
    ensures r.Ok? ==> forall k | k in resource.entries && k != TagsKey :: r.value.entries[k] == resource.entries[k]
  {
    match resource
    case VMap(fields) =>
      var tags :- TagSet(Lookup(fields, TagsKey));
      Ok(VMap(fields[TagsKey := VSet(tags)]))
    case _ => Err(BadResource)
  }

  /** A resource as the normaliser leaves it: a hash whose tags are a set. */
  predicate MungedShape(resource: Value) {
    resource.VMap? && TagsKey in resource.entries && resource.entries[TagsKey].VSet?
  }

  /** `resources.map { |r| munge_resource_for_comparison(r) }` over an
      Array: the munged resources in order, or the failure of the first
      resource that cannot be munged. */
  function MungeAll(resources: seq<Value>): Result<seq<Value>, MungeError> {
    if resources == [] then Ok([])
    else
      var init :- MungeAll(resources[..|resources| - 1]);
      var last :- MungedResource(resources[|resources| - 1]);
      Ok(init + [last])
  }

  /** The munged images of the resources in a set that munge successfully. */
  function MungedImage(resources: set<Value>): set<Value> {
    set r | r in resources && MungedResource(r).Ok? :: MungedResource(r).value
  }

  predicate AllMungeable(resources: set<Value>) {
    forall r | r in resources :: MungedResource(r).Ok?
  }

  /** `Set.new(resources.map { ... })`: Ruby's `map` accepts an Array, a Set
      or a Hash (whose `[key, value]` pairs are not hashes, so only an empty
      Hash munges); anything else has no `map`. */
  function MungedResources(resources: Value): (r: Result<set<Value>, MungeError>)
    ensures r.Ok? ==> forall x | x in r.value :: MungedShape(x)
    ensures r.Err? ==> r.error == BadResource || r.error == ResourcesNotEnumerable
    ensures resources.VArr? ==>
              && (r.Ok? <==> AllMungeable(Elements(resources.items)))
              && (r.Ok? ==> r.value == MungedImage(Elements(resources.items)))
    ensures resources.VSet? ==>
              && (r.Ok? <==> AllMungeable(resources.members))
              && (r.Ok? ==> r.value == MungedImage(resources.members))
    ensures resources.VMap? ==> (r.Ok? <==> resources.entries == map[]) && (r.Ok? ==> r.value == {})
    ensures !resources.VArr? && !resources.VSet? && !resources.VMap? ==> r == Err(ResourcesNotEnumerable)
  {
    match resources
    case VArr(s) =>
      MungeAllImage(s);
      var list :- MungeAll(s);
      Ok(Elements(list))
    case VSet(t) =>
      if AllMungeable(t) then Ok(MungedImage(t)) else Err(BadResource)
    case VMap(m) =>
      if m == map[] then Ok({}) else Err(BadResource)
    case _ => Err(ResourcesNotEnumerable)
  }

  /** Munging an Array of resources in order gives, as a set, the munged
      image of its elements; it fails exactly when some element fails. */
  lemma {:induction false} MungeAllImage(s: seq<Value>)
    ensures MungeAll(s).Ok? <==> AllMungeable(Elements(s))
    ensures MungeAll(s).Ok? ==> Elements(MungeAll(s).value) == MungedImage(Elements(s))
    ensures MungeAll(s).Err? ==> MungeAll(s).error == BadResource
  {
    if s != [] {
      var init := s[..|s| - 1];
      var last := s[|s| - 1];
      MungeAllImage(init);
      assert s == init + [last];
      assert Elements(s) == Elements(init) + {last};
      if MungeAll(s).Ok? {
        var m := MungeAll(init).value;
        assert MungeAll(s).value == m + [MungedResource(last).value];
        assert Elements(m + [MungedResource(last).value]) == Elements(m) + {MungedResource(last).value};
      }
    }
  }

  // ---------------------------------------------------------------------------
  // Catalogs
  // ---------------------------------------------------------------------------

  /** `munge_catalog_for_comparison`: `data.resources` replaced by the set of
      its munged resources; every other field of the catalog and of `data`
      unchanged. */
  function MungedCatalog(meta: map<string, Value>): (r: Result<map<string, Value>, MungeError>)
    ensures r == Err(DataNotAHash) <==> !Lookup(meta, DataKey).VMap?
    ensures r.Ok? ==> r.value.Keys == meta.Keys
    ensures r.Ok? ==> forall k | k in meta && k != DataKey :: r.value[k] == meta[k]
    ensures r.Ok? ==>
              && r.value[DataKey].VMap?
              && r.value[DataKey].entries.Keys == meta[DataKey].entries.Keys
              && (forall k | k in meta[DataKey].entries && k != ResourcesKey ::
                    r.value[DataKey].entries[k] == meta[DataKey].entries[k])
    ensures r.Ok? ==>
              && ResourcesKey in r.value[DataKey].entries
              && r.value[DataKey].entries[ResourcesKey].VSet?
              && forall x | x in r.value[DataKey].entries[ResourcesKey].members :: MungedShape(x)
    ensures Lookup(meta, DataKey).VMap? ==>
              var resources := Lookup(Lookup(meta, DataKey).entries, ResourcesKey);
              && (r.Ok? <==> MungedResources(resources).Ok?)
              && (r.Ok? ==> r.value[DataKey].entries[ResourcesKey] == VSet(MungedResources(resources).value))
              && (r.Err? ==> r.error == MungedResources(resources).error)
    ensures r.Ok? && Lookup(meta[DataKey].entries, ResourcesKey).VArr? ==>
              r.value[DataKey].entries[ResourcesKey] ==
                VSet(MungedImage(Elements(Lookup(meta[DataKey].entries, ResourcesKey).items)))
  {
    var data := Lookup(meta, DataKey);
    if !data.VMap? then Err(DataNotAHash)
    else
      var resources :- MungedResources(Lookup(data.entries, ResourcesKey));
      Ok(meta[DataKey := VMap(data.entries[ResourcesKey := VSet(resources)])])
  }

  /** The order of the resources does not matter, and neither does anything
      that munging a single resource erases (the order of its tags): two
      catalogs whose resource arrays munge to the same set of results munge
      to the same catalog. */
  lemma ResourceOrderIgnored(meta: map<string, Value>, data: map<string, Value>, s1: seq<Value>, s2: seq<Value>)
    requires (set r | r in s1 :: MungedResource(r)) == (set r | r in s2 :: MungedResource(r))
    ensures MungedCatalog(meta[DataKey := VMap(data[ResourcesKey := VArr(s1)])])
         == MungedCatalog(meta[DataKey := VMap(data[ResourcesKey := VArr(s2)])])
  {
    SameResultsSameImage(s1, s2);
    var d1 := VMap(data[ResourcesKey := VArr(s1)]);
    var d2 := VMap(data[ResourcesKey := VArr(s2)]);
    assert Lookup(meta[DataKey := d1], DataKey) == d1;
    assert Lookup(meta[DataKey := d2], DataKey) == d2;
    assert Lookup(d1.entries, ResourcesKey) == VArr(s1);
    assert Lookup(d2.entries, ResourcesKey) == VArr(s2);
    var munged := MungedResources(VArr(s1));
    if munged.Ok? {
      var v := VSet(munged.value);
      assert d1.entries[ResourcesKey := v] == data[ResourcesKey := v] == d2.entries[ResourcesKey := v];
      assert meta[DataKey := d1][DataKey := VMap(d1.entries[ResourcesKey := v])]
          == meta[DataKey := d2][DataKey := VMap(d2.entries[ResourcesKey := v])];
    }
  }

  lemma SameResultsSameImage(s1: seq<Value>, s2: seq<Value>)
    requires (set r | r in s1 :: MungedResource(r)) == (set r | r in s2 :: MungedResource(r))
    ensures MungedResources(VArr(s1)) == MungedResources(VArr(s2))
  {
    MungeAllImage(s1);
    MungeAllImage(s2);
    var R1 := set r | r in s1 :: MungedResource(r);
    var R2 := set r | r in s2 :: MungedResource(r);
    assert AllMungeable(Elements(s1)) <==> forall o | o in R1 :: o.Ok? by {
      if !AllMungeable(Elements(s1)) {
        var r :| r in Elements(s1) && MungedResource(r).Err?;
        assert MungedResource(r) in R1;
      }
    }
    assert AllMungeable(Elements(s2)) <==> forall o | o in R2 :: o.Ok? by {
      if !AllMungeable(Elements(s2)) {
        var r :| r in Elements(s2) && MungedResource(r).Err?;
        assert MungedResource(r) in R2;
      }
    }
    forall x ensures x in MungedImage(Elements(s1)) <==> x in MungedImage(Elements(s2)) {
      if x in MungedImage(Elements(s1)) {
        var r :| r in s1 && MungedResource(r).Ok? && MungedResource(r).value == x;
        assert MungedResource(r) in R2;
      }
      if x in MungedImage(Elements(s2)) {
        var r :| r in s2 && MungedResource(r).Ok? && MungedResource(r).value == x;
        assert MungedResource(r) in R1;
      }
    }
    assert AllMungeable(Elements(s1)) <==> AllMungeable(Elements(s2));
    assert MungedImage(Elements(s1)) == MungedImage(Elements(s2));
  }

  /** Two resources that differ only in the order (or repetition) of their
      tags munge to the same resource. */
  lemma TagOrderIgnored(fields: map<string, Value>, t1: seq<Value>, t2: seq<Value>)
    requires Elements(t1) == Elements(t2)
    ensures MungedResource(VMap(fields[TagsKey := VArr(t1)])) == MungedResource(VMap(fields[TagsKey := VArr(t2)]))
    ensures MungedResource(VMap(fields[TagsKey := VArr(t1)])).Ok?
  {
    assert fields[TagsKey := VArr(t1)][TagsKey := VSet(Elements(t1))]
        == fields[TagsKey := VArr(t2)][TagsKey := VSet(Elements(t2))];
  }

  // ---------------------------------------------------------------------------
  // The parsed document, munged in place
  // ---------------------------------------------------------------------------

  /** A parsed export document (a JSON object), as the hash that the munge
      functions mutate. */
  class ExportDocument {
    var root: map<string, Value>

    constructor (parsed: map<string, Value>)
      ensures root == parsed
    {
      root := parsed;
    }

    /** `meta.delete("timestamp")` */
    method MungeMetadata()
      modifies this
      ensures root == MungedMetadata(old(root))
    {
      if TimestampKey in root {
        root := map k | k in root && k != TimestampKey :: root[k];
      }
    }

    /** `meta["data"]["resources"] = Set.new(munged_resources)`, after
        munging each resource in turn. On failure the document is left as it
        was and the failure is returned. */
    method MungeCatalog() returns (failure: Option<MungeError>)
      modifies this
      ensures MungedCatalog(old(root)).Ok? ==> failure == None && root == MungedCatalog(old(root)).value
      ensures MungedCatalog(old(root)).Err? ==> failure == Some(MungedCatalog(old(root)).error) && root == old(root)
    {
      var data := Lookup(root, DataKey);
      if !data.VMap? {
        return Some(DataNotAHash);
      }
      var resources := Lookup(data.entries, ResourcesKey);
      var munged: set<Value>;
      match resources {
        case VArr(s) =>
          var list: seq<Value> := [];
          var i := 0;
          while i < |s|
            invariant 0 <= i <= |s|
            invariant MungeAll(s[..i]) == Ok(list)
          {
            assert s[..i + 1][..i] == s[..i];
            var resource := MungedResource(s[i]);
            if resource.Err? {
              MungeAllImage(s[..i + 1]);
              MungeAllImage(s);
              assert MungedResource(s[..i + 1][i]).Err?;
              return Some(resource.error);
            }
            list := list + [resource.value];
            i := i + 1;
          }
          assert s[..i] == s;
          MungeAllImage(s);
          munged := Elements(list);
          assert MungedResources(resources) == Ok(munged);
        case VSet(t) =>
          munged := {};
          var todo := t;
          while todo != {}
            invariant todo <= t
            invariant AllMungeable(t - todo)
            invariant munged == MungedImage(t - todo)
            decreases todo
          {
            var r :| r in todo;
            var resource := MungedResource(r);
            if resource.Err? {
              return Some(BadResource);
            }
            munged := munged + {resource.value};
            todo := todo - {r};
          }
          assert t - todo == t;
          assert MungedResources(resources) == Ok(munged);
        case VMap(m) =>
          if m != map[] {
            return Some(BadResource);
          }
          munged := {};
          assert MungedResources(resources) == Ok(munged);
        case _ =>
          return Some(ResourcesNotEnumerable);
      }
      root := root[DataKey := VMap(data.entries[ResourcesKey := VSet(munged)])];
      return None;
    }
  }
}

/** `compare_export_data` with `compare_catalog` and `compare_metadata`: walk
    the entries of the first extracted export, require each to exist in the
    second, diff the metadata and the catalogs after munging, and finally
    reject entries that only the second export has. The first failed
    assertion ends the comparison. */
module ExportComparison {
  import opened Wrappers
  import opened Values
  import opened StructuralDiff
  import opened DiffProperties
  import opened EntryClassifier
  import opened Normalizer

  /** The failure that ends a comparison (an `assert` or `fail` in the source,
      or an exception raised while reading or munging a document). */
  datatype Failure =
    | MissingEntry(path: string)                   // in the first export, not in the second
    | UnrecognizedEntry(path: string)              // a file of unknown type
    | Unreadable(path: string)                     // not readable as a JSON object
    | MungeFailed(path: string, error: MungeError)
    | CatalogMismatch(path: string, diff: Diff)
    | MetadataMismatch(path: string, diff: Diff)
    | ExtraEntries(paths: set<string>)             // only in the second export

  /** One extracted export as the comparison sees it: the relative paths that
      the recursive `Dir.glob` lists, in its order; which of them are directories;
      and the parsed JSON object of each file that reads and parses as one. */
  datatype ExportTree = ExportTree(
    entries: seq<string>,
    directories: set<string>,
    documents: map<string, map<string, Value>>)

  function PathSet(paths: seq<string>): set<string> {
    set p | p in paths
  }

  // ---------------------------------------------------------------------------
  // What one entry contributes
  // ---------------------------------------------------------------------------

  /** `compare_catalog`: munge both catalogs (the first one first), then
      `hash_diff` them; a difference fails the comparison. */
  function CatalogOutcome(path: string, tree1: ExportTree, tree2: ExportTree): Option<Failure> {
    if path !in tree1.documents then Some(Unreadable(path))
    else match MungedCatalog(tree1.documents[path])
      case Err(e) => Some(MungeFailed(path, e))
      case Ok(cat1) =>
        if path !in tree2.documents then Some(Unreadable(path))
        else match MungedCatalog(tree2.documents[path])
          case Err(e) => Some(MungeFailed(path, e))
          case Ok(cat2) =>
            match HashDiff(cat1, cat2)
            case Some(d) => Some(CatalogMismatch(path, d))
            case None => None
  }

  /** `compare_metadata`: drop both timestamps, then `hash_diff`. */
  function MetadataOutcome(path: string, tree1: ExportTree, tree2: ExportTree): Option<Failure> {
    if path !in tree1.documents || path !in tree2.documents then Some(Unreadable(path))
    else match HashDiff(MungedMetadata(tree1.documents[path]), MungedMetadata(tree2.documents[path]))
      case Some(d) => Some(MetadataMismatch(path, d))
      case None => None
  }

  /** One pass of the `Dir.glob` block: the entry must exist in the second
      export (directories included); directories are then skipped, and files
      are compared by type. */
  function EntryOutcome(path: string, tree1: ExportTree, tree2: ExportTree): Option<Failure> {
    if path !in PathSet(tree2.entries) then Some(MissingEntry(path))
    else if path in tree1.directories then None
    else match GetExportEntryType(path)
      case Catalog => CatalogOutcome(path, tree1, tree2)
      case Metadata => MetadataOutcome(path, tree1, tree2)
      case Unknown => Some(UnrecognizedEntry(path))
  }

  /** The failure of the first entry, in glob order, that fails. */
  function FirstFailure(paths: seq<string>, tree1: ExportTree, tree2: ExportTree): Option<Failure> {
    if paths == [] then None
    else match EntryOutcome(paths[0], tree1, tree2)
      case Some(f) => Some(f)
      case None => FirstFailure(paths[1..], tree1, tree2)
  }

  /** The whole comparison: the first failing entry, or else the entries of
      the second export that the first does not have. */
  function ExportOutcome(tree1: ExportTree, tree2: ExportTree): Option<Failure> {
    match FirstFailure(tree1.entries, tree1, tree2)
    case Some(f) => Some(f)
    case None =>
      var extra := PathSet(tree2.entries) - PathSet(tree1.entries);
      if extra == {} then None else Some(ExtraEntries(extra))
  }

  // ---------------------------------------------------------------------------
  // The source's procedures
  // ---------------------------------------------------------------------------

  /** `compare_catalog`, munging the two parsed documents in place. */
  method CompareCatalog(path: string, tree1: ExportTree, tree2: ExportTree) returns (failure: Option<Failure>)
    ensures failure == CatalogOutcome(path, tree1, tree2)
  {
    if path !in tree1.documents {
      return Some(Unreadable(path));
    }
    var cat1 := new ExportDocument(tree1.documents[path]);
    var error1 := cat1.MungeCatalog();
    if error1.Some? {
      return Some(MungeFailed(path, error1.value));
    }
    if path !in tree2.documents {
      return Some(Unreadable(path));
    }
    var cat2 := new ExportDocument(tree2.documents[path]);
    var error2 := cat2.MungeCatalog();
    if error2.Some? {
      return Some(MungeFailed(path, error2.value));
    }
    var diff := HashDiffInject(cat1.root, cat2.root);
    failure := if diff.Some? then Some(CatalogMismatch(path, diff.value)) else None;
  }

  /** `compare_metadata`, munging the two parsed documents in place. */
  method CompareMetadata(path: string, tree1: ExportTree, tree2: ExportTree) returns (failure: Option<Failure>)
    ensures failure == MetadataOutcome(path, tree1, tree2)
  {
    if path !in tree1.documents || path !in tree2.documents {
      return Some(Unreadable(path));
    }
    var meta1 := new ExportDocument(tree1.documents[path]);
    meta1.MungeMetadata();
    var meta2 := new ExportDocument(tree2.documents[path]);
    meta2.MungeMetadata();
    var diff := HashDiffInject(meta1.root, meta2.root);
    failure := if diff.Some? then Some(MetadataMismatch(path, diff.value)) else None;
  }

  /** `compare_export_data` over two already extracted exports. */
  method CompareExportData(tree1: ExportTree, tree2: ExportTree) returns (failure: Option<Failure>)
    ensures failure == ExportOutcome(tree1, tree2)
  {
    var present2 := PathSet(tree2.entries);
    var export1Files: set<string> := {};
    var i := 0;
    while i < |tree1.entries|
      invariant 0 <= i <= |tree1.entries|
      invariant export1Files == PathSet(tree1.entries[..i])
      invariant FirstFailure(tree1.entries, tree1, tree2) == FirstFailure(tree1.entries[i..], tree1, tree2)
    {
      var relativePath := tree1.entries[i];
      assert tree1.entries[..i + 1] == tree1.entries[..i] + [relativePath];
      assert tree1.entries[i..][1..] == tree1.entries[i + 1..];
      export1Files := export1Files + {relativePath};
      if relativePath !in present2 {
        return Some(MissingEntry(relativePath));
      }
      if relativePath !in tree1.directories {
        var outcome: Option<Failure>;
        match GetExportEntryType(relativePath) {
          case Catalog =>
            outcome := CompareCatalog(relativePath, tree1, tree2);
          case Metadata =>
            outcome := CompareMetadata(relativePath, tree1, tree2);
          case Unknown =>
            outcome := Some(UnrecognizedEntry(relativePath));
        }
        if outcome.Some? {
          return outcome;
        }
      }
      i := i + 1;
    }
    assert tree1.entries[..i] == tree1.entries;
    var extra := present2 - export1Files;
    failure := if extra == {} then None else Some(ExtraEntries(extra));
  }

  // ---------------------------------------------------------------------------
  // What a passing or failing comparison means
  // ---------------------------------------------------------------------------

  lemma {:induction false} FirstFailureNone(paths: seq<string>, tree1: ExportTree, tree2: ExportTree)
    ensures FirstFailure(paths, tree1, tree2).None? <==>
              forall i | 0 <= i < |paths| :: EntryOutcome(paths[i], tree1, tree2).None?
  {
    if paths != [] {
      FirstFailureNone(paths[1..], tree1, tree2);
      assert forall i | 1 <= i < |paths| :: paths[i] == paths[1..][i - 1];
    }
  }

  /** A failing entry ends the comparison: the failure reported is that of
      the first entry, in glob order, that fails, and every entry before it
      passed. */
  lemma {:induction false} FirstFailureIsFirst(paths: seq<string>, tree1: ExportTree, tree2: ExportTree)
    requires FirstFailure(paths, tree1, tree2).Some?
    ensures exists i | 0 <= i < |paths| ::
              && EntryOutcome(paths[i], tree1, tree2) == FirstFailure(paths, tree1, tree2)
              && forall j | 0 <= j < i :: EntryOutcome(paths[j], tree1, tree2).None?
  {
    if EntryOutcome(paths[0], tree1, tree2).None? {
      FirstFailureIsFirst(paths[1..], tree1, tree2);
      var i :| 0 <= i < |paths[1..]| &&
                EntryOutcome(paths[1..][i], tree1, tree2) == FirstFailure(paths[1..], tree1, tree2) &&
                forall j | 0 <= j < i :: EntryOutcome(paths[1..][j], tree1, tree2).None?;
      assert forall j | 1 <= j < i + 1 :: paths[j] == paths[1..][j - 1];
      assert EntryOutcome(paths[i + 1], tree1, tree2) == FirstFailure(paths, tree1, tree2);
    } else {
      assert EntryOutcome(paths[0], tree1, tree2) == FirstFailure(paths, tree1, tree2);
    }
  }

  /** A comparison passes exactly when every entry of the first export passes
      and the second export has no entry the first lacks; and then the two
      exports list the same paths, directories included. */
  lemma PassingComparison(tree1: ExportTree, tree2: ExportTree)
    ensures ExportOutcome(tree1, tree2).None? <==>
              && (forall i | 0 <= i < |tree1.entries| :: EntryOutcome(tree1.entries[i], tree1, tree2).None?)
              && PathSet(tree2.entries) <= PathSet(tree1.entries)
    ensures ExportOutcome(tree1, tree2).None? ==> PathSet(tree1.entries) == PathSet(tree2.entries)
  {
    FirstFailureNone(tree1.entries, tree1, tree2);
    var extra := PathSet(tree2.entries) - PathSet(tree1.entries);
    if extra == {} {
      forall p | p in PathSet(tree2.entries) ensures p in PathSet(tree1.entries) {
        assert p !in extra;
      }
    }
    if ExportOutcome(tree1, tree2).None? {
      assert FirstFailure(tree1.entries, tree1, tree2).None?;
      forall p | p in PathSet(tree1.entries) ensures p in PathSet(tree2.entries) {
        var i :| 0 <= i < |tree1.entries| && tree1.entries[i] == p;
        assert EntryOutcome(tree1.entries[i], tree1, tree2).None?;
      }
    }
  }

  /** Once every entry of the first export has passed, the comparison fails
      exactly when the second export has extra entries, and it reports all
      of them. */
  lemma ExtraEntriesReported(tree1: ExportTree, tree2: ExportTree)
    requires forall i | 0 <= i < |tree1.entries| :: EntryOutcome(tree1.entries[i], tree1, tree2).None?
    ensures ExportOutcome(tree1, tree2).Some? <==> PathSet(tree2.entries) - PathSet(tree1.entries) != {}
    ensures ExportOutcome(tree1, tree2).Some? ==>
              ExportOutcome(tree1, tree2) == Some(ExtraEntries(PathSet(tree2.entries) - PathSet(tree1.entries)))
  {
    FirstFailureNone(tree1.entries, tree1, tree2);
  }

  /** A file that passes was recognised, read on both sides, and its two
      munged documents have no difference. */
  lemma PassingFile(path: string, tree1: ExportTree, tree2: ExportTree)
    requires EntryOutcome(path, tree1, tree2).None?
    requires path !in tree1.directories
    ensures path in PathSet(tree2.entries)
    ensures GetExportEntryType(path) != Unknown
    ensures path in tree1.documents && path in tree2.documents
    ensures GetExportEntryType(path) == Metadata ==>
              HashDiff(MungedMetadata(tree1.documents[path]), MungedMetadata(tree2.documents[path])).None?
    ensures GetExportEntryType(path) == Catalog ==>
              && MungedCatalog(tree1.documents[path]).Ok?
              && MungedCatalog(tree2.documents[path]).Ok?
              && HashDiff(MungedCatalog(tree1.documents[path]).value, MungedCatalog(tree2.documents[path]).value).None?
  {
  }

  /** Two exports with the same paths, whose files are all recognised and
      munge to the same documents, compare equal: in particular exports that
      differ only in metadata timestamps and in the order of resources and
      tags. */
  lemma EquivalentExportsPass(tree1: ExportTree, tree2: ExportTree)
    requires PathSet(tree1.entries) == PathSet(tree2.entries)
    requires forall p | p in PathSet(tree1.entries) && p !in tree1.directories ::
               && GetExportEntryType(p) != Unknown
               && p in tree1.documents && p in tree2.documents
               && (GetExportEntryType(p) == Metadata ==>
                     MungedMetadata(tree1.documents[p]) == MungedMetadata(tree2.documents[p]))
               && (GetExportEntryType(p) == Catalog ==>
                     MungedCatalog(tree1.documents[p]).Ok? &&
                     MungedCatalog(tree1.documents[p]) == MungedCatalog(tree2.documents[p]))
    ensures ExportOutcome(tree1, tree2) == None
  {
    forall i | 0 <= i < |tree1.entries| ensures EntryOutcome(tree1.entries[i], tree1, tree2).None? {
      var p := tree1.entries[i];
      assert p in PathSet(tree1.entries);
      if p !in tree1.directories {
        if GetExportEntryType(p) == Metadata {
          HashDiffReflexive(MungedMetadata(tree1.documents[p]));
        } else {
          HashDiffReflexive(MungedCatalog(tree1.documents[p]).value);
        }
      }
    }
    PassingComparison(tree1, tree2);
  }

  /** An entry of the first export that the second lacks fails the
      comparison, directories included, unless an earlier entry failed
      first. */
  lemma MissingEntryFails(tree1: ExportTree, tree2: ExportTree, i: nat)
    requires i < |tree1.entries|
    requires tree1.entries[i] !in PathSet(tree2.entries)
    ensures ExportOutcome(tree1, tree2).Some?
    ensures (forall j | 0 <= j < i :: EntryOutcome(tree1.entries[j], tree1, tree2).None?) ==>
              ExportOutcome(tree1, tree2) == Some(MissingEntry(tree1.entries[i]))
  {
    FirstFailureNone(tree1.entries, tree1, tree2);
    assert EntryOutcome(tree1.entries[i], tree1, tree2) == Some(MissingEntry(tree1.entries[i]));
    assert FirstFailure(tree1.entries, tree1, tree2).Some?;
    if forall j | 0 <= j < i :: EntryOutcome(tree1.entries[j], tree1, tree2).None? {
      FirstFailureIsFirst(tree1.entries, tree1, tree2);
      var k :| 0 <= k < |tree1.entries| &&
                EntryOutcome(tree1.entries[k], tree1, tree2) == FirstFailure(tree1.entries, tree1, tree2) &&
                forall j | 0 <= j < k :: EntryOutcome(tree1.entries[j], tree1, tree2).None?;
      assert k == i;
    }
  }
}

/** `get_export_entry_type`: which paths of an extracted export archive are
    the export metadata, which are catalogs, and which are unknown. */
module EntryClassifier {

  datatype EntryType = Metadata | Catalog | Unknown

  const MetadataPath: string := "puppetdb-bak/export-metadata.json"
  const CatalogPrefix: string := "puppetdb-bak/catalogs/"
  const JsonSuffix: string := ".json"

  predicate StartsWith(s: string, prefix: string) {
    |prefix| <= |s| && s[..|prefix|] == prefix
  }

  predicate EndsWith(s: string, suffix: string) {
    |suffix| <= |s| && s[|s| - |suffix|..] == suffix
  }

  /** Ruby's `^` matches at position `i`: the start of the string or just
      after a newline. */
  predicate LineStart(s: string, i: nat)
    requires i <= |s|
  {
    i == 0 || s[i - 1] == '\n'
  }

  /** Ruby's `$` matches at position `j`: the end of the string or just
      before a newline. */
  predicate LineEnd(s: string, j: nat)
    requires j <= |s|
  {
    j == |s| || s[j] == '\n'
  }

  /** A whole line matched by `puppetdb-bak\/catalogs\/.*\.json`: the
      prefix, then any characters but a newline, then `.json`. */
  predicate CatalogLine(line: string) {
    && '\n' !in line
    && |line| >= |CatalogPrefix| + |JsonSuffix|
    && StartsWith(line, CatalogPrefix)
    && EndsWith(line, JsonSuffix)
  }

  /** `path =~ /^puppetdb-bak\/catalogs\/.*\.json$/`: since `^` and `$` are
      line anchors, the pattern matches when some line of the path matches. */
  predicate MatchesCatalogPattern(path: string) {
    exists i: nat, j: nat | i <= j <= |path| ::
      LineStart(path, i) && LineEnd(path, j) && CatalogLine(path[i..j])
  }

  /** `get_export_entry_type`: the `case` tries the metadata path first, then
      the catalog pattern; everything else is unknown. */
  function GetExportEntryType(path: string): (r: EntryType)
    ensures r == Metadata <==> path == MetadataPath
    ensures r == Catalog <==> path != MetadataPath && MatchesCatalogPattern(path)
    ensures r == Unknown <==> path != MetadataPath && !MatchesCatalogPattern(path)
  {
    if path == MetadataPath then Metadata
    else if MatchesCatalogPattern(path) then Catalog
    else Unknown
  }

  /** For a path without newlines the pattern is a plain prefix and suffix
      test: catalogs are exactly the paths under `puppetdb-bak/catalogs/`
      that end in `.json`. */
  lemma CatalogPathWithoutNewline(path: string)
    requires '\n' !in path
    ensures GetExportEntryType(path) == Catalog <==>
              |path| >= |CatalogPrefix| + |JsonSuffix| && StartsWith(path, CatalogPrefix) && EndsWith(path, JsonSuffix)
  {
    if MatchesCatalogPattern(path) {
      var i: nat, j: nat :| i <= j <= |path| && LineStart(path, i) && LineEnd(path, j) && CatalogLine(path[i..j]);
      assert forall k | 0 <= k < |path| :: path[k] != '\n';
      assert path[i..j] == path;
    }
    if |path| >= |CatalogPrefix| + |JsonSuffix| && StartsWith(path, CatalogPrefix) && EndsWith(path, JsonSuffix) {
      assert path[0..|path|] == path;
      assert LineStart(path, 0) && LineEnd(path, |path|) && CatalogLine(path[0..|path|]);
      assert path != MetadataPath by {
        assert path[13] == CatalogPrefix[13] == 'c';
        assert MetadataPath[13] == 'e';
      }
    }
  }

  /** The line anchors let a path with a newline through: a catalog-shaped
      second line makes the whole path a catalog. */
  lemma MultiLinePathIsCatalog(first: string, line: string)
    requires CatalogLine(line)
    ensures GetExportEntryType(first + "\n" + line) == Catalog
  {
    var path := first + "\n" + line;
    var i := |first| + 1;
    assert path[i..|path|] == line;
    assert path[i - 1] == '\n';
    assert LineStart(path, i) && LineEnd(path, |path|);
    assert path != MetadataPath by {
      assert '\n' in path;
      assert '\n' !in MetadataPath;
    }
  }
}

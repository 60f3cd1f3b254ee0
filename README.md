# PuppetDB export comparison — a Dafny model

PuppetDB's acceptance suite checks that an export archive survives an
export / import / export round trip by comparing the two archives entry by
entry (`compare_export_data` in `acceptance/helper.rb`). This project models
that comparison and the pieces it is built from:

- the recursive object diff `object_diff` / `hash_diff` / `array_diff` /
  `set_diff` over parsed JSON values (`diff.dfy`, with its properties in
  `diff_properties.dfy`);
- the classification of archive entries into the export metadata, catalogs
  and unknown files, `get_export_entry_type` (`classifier.dfy`);
- the normalisation ("munging") that drops the metadata timestamp and turns
  the resource list and each resource's tag list into sets
  (`normalizer.dfy`);
- the comparison procedure itself: every entry of the first export must
  exist in the second, directories are skipped, files are compared by type,
  and the second export may have no extra entries (`comparison.dfy`);
- the two configuration validators `get_option_value` and
  `get_package_version` (`config.dfy`).

A parsed JSON value is `Values.Value`: a Hash, Array, Set (made by the
munging), string, integer, boolean or `nil`, each tagged with its Ruby class
(`true` and `false` are of different classes). A diff result is
`StructuralDiff.Diff`, with `None` standing for Ruby's `nil`. The diff
functions are written as pure functions; `hash_diff` and `array_diff`, which
the source writes as `inject` accumulators, are also methods with loops proved
to compute those functions. The munging mutates the parsed hash in place and
is modelled by the class `Normalizer.ExportDocument`, whose methods are proved
against the functions `MungedMetadata` and `MungedCatalog`.
`compare_export_data` is a loop over the entries of the first export, proved
against the function `ExportOutcome`.

The model follows the code where a plain reading of the comparison would
expect something else:

- An absent hash key and a key holding `nil` read the same (`obj1[k]` is
  `nil` for both), so `{"k" => nil}` and `{}` have no difference.
- `array_diff` never returns `nil`, even for equal arrays, and visits one
  index past the longer array. An Array compared with itself therefore
  reports a "difference" (an array, which Ruby treats as true, holding one
  array diff per nested array, empty only when that nested array holds no
  arrays): `object_diff(v, v)` is `nil` exactly when
  `v` is not an Array. Inside a Hash equal values are skipped before
  `object_diff` is called, so `hash_diff(h, h)` is still `nil`.
- The comparison stops at the first failed assertion; it does not collect
  every mismatch.
- The catalog pattern `^puppetdb-bak/catalogs/.*\.json$` uses Ruby's line
  anchors, so a path with an embedded newline matches when any one of its
  lines does.
- An entry of the first export that is missing from the second fails the
  comparison even when it is a directory: the presence check comes before
  the directory is skipped.

## Model

| member | source | states |
|---|---|---|
| StructuralDiff.SetDiff | acceptance/helper.rb:513-519 | `nil` exactly when the sets are equal; otherwise a pair whose first part together with the second set makes the union and is disjoint from the second set, and the other way round |
| StructuralDiff.HashDiffInject | acceptance/helper.rb:489-501 | the `inject` over the union of the key sets, visiting keys in any order, computes `HashDiff` |
| StructuralDiff.ArrayDiffInject | acceptance/helper.rb:503-511 | the `inject` over indices 0 .. max(len1, len2) inclusive computes `ArrayDiff` |
| DiffProperties.ObjectDiffDispatch | acceptance/helper.rb:521-536 | different Ruby classes give the literal pair; scalars of one class give `nil` iff equal, the pair otherwise; two Sets give `set_diff` |
| DiffProperties.ObjectDiffSelf | acceptance/helper.rb:521-536 | `object_diff(v, v)` is `nil` iff `v` is not an Array |
| DiffProperties.HashDiffKeys | acceptance/helper.rb:489-501 | `nil` iff every key of the union reads equal or has a `nil` element diff; otherwise the result's keys are exactly the keys whose looked-up values differ with a non-`nil` element diff, each mapped to that diff |
| DiffProperties.HashDiffSameLookups | acceptance/helper.rb:489-501 | hashes whose every key reads the same (`nil` when absent) have no difference |
| DiffProperties.HashDiffReflexive | acceptance/helper.rb:489-501 | `hash_diff(h, h)` is `nil` |
| DiffProperties.AbsentKeyReadsAsNil | acceptance/helper.rb:491-493 | a key holding `nil` and an absent key are not told apart |
| DiffProperties.CollectLength | acceptance/helper.rb:504-510 | after n indices at most n element diffs have been collected |
| DiffProperties.ArrayDiffLength | acceptance/helper.rb:503-511 | `array_diff` is never `nil` and holds at most max(len1, len2) element diffs, although it visits max+1 indices |
| DiffProperties.CollectSelf | acceptance/helper.rb:504-510 | comparing an array with itself collects one (array) diff per nested array and nothing else |
| DiffProperties.ArrayLength | acceptance/helper.rb:521-531 | two Arrays dispatch to `array_diff`, whose result is always an array |
| DiffProperties.ArrayDiffSelf | acceptance/helper.rb:503-511 | `array_diff(a, a)` is an array holding one array diff per nested array of `a` |
| DiffProperties.OrderSensitivity | acceptance/helper.rb:503-519 | swapping two different scalars is a difference inside an Array and none inside a Set |
| DiffProperties.CollectPrefix | acceptance/helper.rb:504-510 | element diffs found at lower indices keep their place at the front as more indices are visited |
| DiffProperties.MirrorInvolutive | acceptance/helper.rb:521-536 | reading a diff from the other side twice gives it back |
| DiffProperties.MirrorAllAppend | acceptance/helper.rb:507-509 | reading an array diff from the other side commutes with appending element diffs |
| DiffProperties.ObjectDiffMirror | acceptance/helper.rb:521-536 | `object_diff(b, a)` is `object_diff(a, b)` with every pair and set difference swapped |
| DiffProperties.HashDiffMirror | acceptance/helper.rb:489-501 | `hash_diff(h2, h1)` is `hash_diff(h1, h2)` read from the other side |
| DiffProperties.CollectMirror | acceptance/helper.rb:503-511 | the element diffs of the swapped arrays are the mirrored element diffs, in the same order |
| DiffProperties.VerdictSymmetric | acceptance/helper.rb:521-536 | whether a difference is reported does not depend on the order of the operands |
| DiffProperties.NilErasedNil | acceptance/helper.rb:491-493 | erasing `nil` entries gives `nil` only for `nil` itself |
| DiffProperties.NoDiffMeansNilErasedEqual | acceptance/helper.rb:521-536 | when no difference is reported the two values are equal once hash entries holding `nil` are dropped at every depth |
| DiffProperties.HashNoDiffMeansNilErasedEqual | acceptance/helper.rb:489-501 | the same for two hashes |
| DiffProperties.ObjectDiffPinpoints | acceptance/helper.rb:521-536 | every reported pair holds two different values, every hash diff is non-empty and every set difference has a non-empty side |
| DiffProperties.HashDiffPinpoints | acceptance/helper.rb:489-501 | the same for a reported hash diff |
| DiffProperties.CollectPinpoints | acceptance/helper.rb:503-511 | the same for every element diff `array_diff` collects |
| DiffProperties.CollectContains | acceptance/helper.rb:504-510 | every truthy element diff among the visited indices is collected |
| DiffProperties.CollectEmpty | acceptance/helper.rb:504-510 | nothing is collected exactly when no visited index has a truthy element diff |
| DiffProperties.ArrayDiffEmpty | acceptance/helper.rb:503-511 | `array_diff` is `[]` exactly when no position below max(len1, len2) has a truthy element diff, and otherwise contains every such element diff |
| EntryClassifier.GetExportEntryType | acceptance/helper.rb:410-419 | metadata iff the path is `puppetdb-bak/export-metadata.json`; catalog iff it is not and some line of the path matches the catalog pattern; unknown otherwise |
| EntryClassifier.CatalogPathWithoutNewline | acceptance/helper.rb:414-415 | for a path without newlines, catalog iff it starts with `puppetdb-bak/catalogs/`, ends in `.json` and is long enough for both |
| EntryClassifier.MultiLinePathIsCatalog | acceptance/helper.rb:414-415 | a path whose last line is catalog-shaped is a catalog whatever precedes it |
| Normalizer.MungedMetadata | acceptance/helper.rb:443-447 | the metadata hash without `timestamp`, every other key and value unchanged |
| Normalizer.TimestampIgnored | acceptance/helper.rb:434-447 | metadata that differ only in the timestamp munge to the same hash and have no difference |
| Normalizer.TagSet | acceptance/helper.rb:449-452 | `Set.new(tags)`: an Array gives the set of its elements; defined exactly for `nil`, Arrays, Hashes and Sets |
| Normalizer.MungedResource | acceptance/helper.rb:449-452 | succeeds iff the resource is a hash with enumerable tags; the result has the same keys plus `tags`, `tags` is the tag set and every other entry is unchanged |
| Normalizer.MungedResources | acceptance/helper.rb:456-457 | an Array or Set of resources munges exactly when every resource does, to the set of their munged resources; an empty Hash gives the empty set and a non-empty one fails; anything else is not enumerable; every element of the result is a hash whose tags are a set |
| Normalizer.MungeAllImage | acceptance/helper.rb:456-457 | munging an Array of resources succeeds iff every element can be munged, and as a set it is the munged image of the elements |
| Normalizer.MungedCatalog | acceptance/helper.rb:454-459 | fails with "data is not a hash" exactly when `data` is not a Hash; otherwise succeeds exactly when the resources munge, with their error otherwise; keeps every key, leaves every field but `data.resources` unchanged and makes `data.resources` the set of munged resources (for an Array, the munged image of its elements) |
| Normalizer.ResourceOrderIgnored | acceptance/helper.rb:454-459 | catalogs whose resource lists munge to the same set of results (any order, any repetition) munge to the same catalog |
| Normalizer.SameResultsSameImage | acceptance/helper.rb:456-457 | resource lists with the same set of munge results munge to the same resource set |
| Normalizer.TagOrderIgnored | acceptance/helper.rb:449-452 | resources whose tag lists differ only in order or repetition munge to the same resource |
| Normalizer.ExportDocument.constructor | acceptance/helper.rb:444 | the document holds the parsed hash |
| Normalizer.ExportDocument.MungeMetadata | acceptance/helper.rb:443-447 | the document becomes `MungedMetadata` of what it was |
| Normalizer.ExportDocument.MungeCatalog | acceptance/helper.rb:454-459 | on success the document becomes `MungedCatalog` of what it was; on failure the failure is returned |
| ExportComparison.CompareCatalog | acceptance/helper.rb:422-432 | munges the first catalog, then the second, and fails exactly as `CatalogOutcome` says: unreadable, munge failure, or the `hash_diff` of the two |
| ExportComparison.CompareMetadata | acceptance/helper.rb:434-441 | fails exactly as `MetadataOutcome` says: unreadable, or the `hash_diff` of the two munged metadata hashes |
| ExportComparison.CompareExportData | acceptance/helper.rb:369-408 | the loop over the first export's entries, with its `export1_files` set, returns `ExportOutcome`: the first failing entry, else the extra entries of the second export |
| ExportComparison.FirstFailureNone | acceptance/helper.rb:383-399 | the loop finishes without failure iff every entry passes |
| ExportComparison.FirstFailureIsFirst | acceptance/helper.rb:383-399 | a reported failure is that of some entry, and every entry before it passed |
| ExportComparison.PassingComparison | acceptance/helper.rb:369-408 | the comparison passes iff every entry of the first export passes and the second has no entry the first lacks; then both list the same paths |
| ExportComparison.ExtraEntriesReported | acceptance/helper.rb:401-405 | once every entry passed, the comparison fails iff the second export has extra entries, and reports exactly those |
| ExportComparison.PassingFile | acceptance/helper.rb:387-398 | a passing file exists in both exports, is recognised, is readable on both sides and its munged documents have no difference |
| ExportComparison.EquivalentExportsPass | acceptance/helper.rb:369-459 | two exports with the same paths whose files munge to the same documents (different timestamps, resource and tag order) pass |
| ExportComparison.MissingEntryFails | acceptance/helper.rb:387-389 | an entry missing from the second export, directory or not, fails the comparison, with that entry as the failure when no earlier entry failed |
| TestConfig.ChosenSetting | acceptance/helper.rb:97 | the explicit value wins, then the environment variable when one is named and set, then the default |
| TestConfig.GetOptionValue | acceptance/helper.rb:91-107 | the chosen setting as a symbol; an error naming the description and value iff a legal list is given and does not contain it |
| TestConfig.OptionValueStable | acceptance/helper.rb:91-107 | an accepted value given back as the explicit option is returned unchanged, whatever the environment and default |
| TestConfig.UnrestrictedOptionAccepted | acceptance/helper.rb:102-104 | without a legal list every setting, a missing one included, is accepted |
| TestConfig.GetPackageVersion | acceptance/helper.rb:140-156 | an explicit version is returned unchanged; otherwise `el-5`, then `el-6` select the RPM version with `.el5` / `.el6`, then `ubuntu` or `debian` the DEB version; an error naming the platform iff none matches |
| TestConfig.El5Platforms | acceptance/helper.rb:146-147 | a platform beginning with `el-5` always gets the RPM version with `.el5` |
| TestConfig.NonRedHatPlatforms | acceptance/helper.rb:146-153 | a platform name without the letter `l` never takes a Red Hat branch: Debian or Ubuntu names get the DEB version, others fail |

## Left out

- Archive and filesystem work in `compare_export_data` (the temporary
  directory, `tar`, `Dir.glob`, `File.exists?`, `File.directory?`,
  `File.read`, `rm_rf`) and the progress `puts`: each export is given as the
  list of paths the glob yields, the set of directories and the parsed
  documents. An entry present in the second export is one of its listed
  paths.
- `JSON.parse`, `JSON.pretty_generate` of the diff and the `Set#to_json`
  patch: documents start already parsed, and a diff is reported as a value.
  A file that does not parse, or parses to something other than a JSON
  object, counts as unreadable; top-level JSON arrays and scalars are not
  modelled.
- The text of the assertion and exception messages; failures are values of
  `ExportComparison.Failure` and `TestConfig.ConfigError`.
- The kinds of Ruby exception raised while munging (`NoMethodError`,
  `TypeError`, `ArgumentError`): they are grouped into three
  `Normalizer.MungeError` cases, and every bad resource gives the same
  error, so a set of resources fails deterministically.
- Normalizer.ExportDocument.MungeCatalog: on failure the document is left as
  it was, whereas Ruby may already have replaced the `tags` of earlier
  resources; the exception ends the comparison, so the difference is never
  observed.
- Float versus Integer numbers: numbers are integers.
- Hidden files, symbolic links and the glob's ordering rules: the entry order
  is a parameter.
- How relative paths are derived: the first export's directory prefix is
  stripped with an unescaped regular expression and the second's with an
  escaped one; the model takes both exports' relative paths as given.
- TestConfig.GetOptionValue: options are strings or symbols (given by
  name); other option value types, and `false`, are not modelled.
- The rest of `initialize_test_config` (the `@config` hash, `PP.pp`, the
  log notice), `get_os_family`, `puppetdb_confdir`, the install, start, stop,
  restart, database-clearing and manifest helpers, `curl_with_retries` and
  the `sleep_until_*` polling: remote shell commands, Puppet manifests and
  wall-clock waiting outside the comparison logic.
- The `host` object of `get_package_version` and the configuration singleton
  are parameters (the platform name and the two expected versions).

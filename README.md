# project-meta: reading and comparing project manifests

This is a Dafny model of the `project-meta` crate's core, `packages/project-meta/src/lib.rs`.
The crate reads a project's name, version, description, authors, licence, keywords,
dependencies and scripts from up to four manifests: `package.json`, `Cargo.toml`, `deno.json`
and `pyproject.toml`. It then reports where the manifests disagree.

The model has seven modules:

- `Values` models the parsed documents. A JSON value is read the way `serde_json` indexes it: a missing key gives `null`. A TOML value is read the way `toml` indexes it: a missing key panics.
- `Metadata` models the record types, the manifest references (`ConfigFile`), the errors, and `Outcome`. An `Outcome` is a result that may also be a panic.
- `Mappers` models the four mapping arms of `from_config`. It also models the loop that builds Cargo and pyproject dependency details, as a method with a loop invariant.
- `Loader` models `from_config`, `load_from_config_files` and `from_detected_config_files`.
  - `Load` is the specification: skip absent files, stop at the first other failure, and otherwise return the loaded records in input order, or `NoFilesFound` when there are none.
  - The loop is proved against `Load`.
- `Checker` models `check_config_files_equality`. It returns one `Report` per printed header instead of printing. A report names the two paths and carries the two records. `Lines` gives the fields printed under the header.
- `Common` holds shared helpers: `Option`; `FirstIndex` with `FirstIndexIs`, and the insertion lemmas `InsertedAt`, `InsertAt`, `FirstIndexShift` and `FirstIndexInsert`; `Filter` with `FilterSnoc`, `FilterKeepsBound` and `FilterKeepsOrder`; `Range`; and `Ranked`, strict increase in a rank.
- `Scenarios` holds concrete cases.

The file system and the two parsers are inputs. An `Env` maps each path that can be opened to its state (readable with its text, or unreadable), and gives a JSON parser and a TOML parser that return no tree for text that does not parse. A path outside the map cannot be opened.

A panic in the source is a `Panic` outcome in the model. It passes unchanged through the loader and the checker, because nothing in the crate catches it. A panic happens in two cases:

- `as_str().unwrap()` meets a dependency value that is not a string;
- TOML indexing meets a missing key.

One might expect the TOML mappers to fill defaults for missing keys. The code indexes TOML values with `[]`, which panics on a missing key, so a minimal `[package]` table with only `name` and `version` panics. The model follows the code (`Scenarios.MinimalCargoTomlPanics`).

## Model

| member | source | states |
|---|---|---|
| Metadata.FilePath | packages/project-meta/src/lib.rs:57-66 | the path returned is the one the reference carries, for every format |
| Mappers.MapStrings | packages/project-meta/src/lib.rs:87-91 | a string list keeps the array's length and order; each element is its string, or "" when it is not a string |
| Mappers.MapPackageJson | packages/project-meta/src/lib.rs:78-106 | the package.json arm; its contract is carried by PackageJsonFields (what each field reads), PackageJsonPanics (exactly when it panics) and PackageJsonRoundTrip (every expressible record reads back) |
| Mappers.PackageJsonFields | packages/project-meta/src/lib.rs:81-103 | a mapped package.json reads each field from its key: name and version default to "", the optional texts are present exactly when the key holds a string, `author` becomes a one-element list, keywords keep array order, dependencies keep the object's keys and strings, and scripts map non-strings to "" |
| Mappers.PackageJsonPanics | packages/project-meta/src/lib.rs:92-96 | the package.json mapping panics exactly when `dependencies` is an object with a value that is not a string |
| Mappers.MapDenoJson | packages/project-meta/src/lib.rs:148-177 | the deno.json arm; see DenoJsonFields, DenoJsonPanics and DenoJsonRoundTrip |
| Mappers.DenoJsonFields | packages/project-meta/src/lib.rs:151-175 | a mapped deno.json reads the same fields as package.json, except that there are never authors and the dependencies are the `imports` object |
| Mappers.DenoJsonPanics | packages/project-meta/src/lib.rs:156-160 | the deno.json mapping panics exactly when `imports` is an object with a value that is not a string |
| Mappers.BuildDetailedDependencies | packages/project-meta/src/lib.rs:130-143 | the loop builds one entry per dependency key, with the entry's `version` string if it has one and no URL |
| Mappers.DetailedDependenciesReads | packages/project-meta/src/lib.rs:130-143 | a dependency table becomes detailed dependencies with the same keys, each with its declared version and no URL; a value that is not a table gives none |
| Mappers.TStringListReads | packages/project-meta/src/lib.rs:119-123 | a TOML array of authors or keywords becomes a list of the same length, each element its string or ""; a value that is not an array gives none |
| Mappers.MapTomlManifest | packages/project-meta/src/lib.rs:107-147 | the TOML arms, parameterised by section and dependency path; see ManifestPanics, ManifestFields, ManifestRoundTrip and ManifestReadsOnlyIndexedPaths |
| Mappers.MapCargoToml | packages/project-meta/src/lib.rs:107-147 | the Cargo.toml arm (`[package]`, top-level dependencies); see CargoTomlPanics, CargoTomlFields and CargoTomlRoundTrip |
| Mappers.MapPyprojectToml | packages/project-meta/src/lib.rs:178-218 | the pyproject.toml arm (`[project]`, `project.dependencies`); see PyprojectTomlPanics, PyprojectTomlFields and PyprojectTomlRoundTrip |
| Mappers.ManifestPanics | packages/project-meta/src/lib.rs:110-145 | a TOML mapping succeeds exactly when every indexed path is present; otherwise it panics naming the first missing path in evaluation order |
| Mappers.SectionPresent | packages/project-meta/src/lib.rs:111-129 | the six section keys are all present exactly when the section is a table holding all six |
| Mappers.CargoTomlPanics | packages/project-meta/src/lib.rs:110-145 | Cargo.toml maps exactly when `[package]` has all six keys and a top-level `dependencies` exists; otherwise it panics on a missing key of those paths |
| Mappers.PyprojectTomlPanics | packages/project-meta/src/lib.rs:181-216 | pyproject.toml maps exactly when `[project]` has all six keys and `project.dependencies`; otherwise it panics on a missing key of those paths |
| Mappers.ManifestFields | packages/project-meta/src/lib.rs:110-145 | a mapped TOML manifest reads every field from its indexed path, has detailed dependencies from the dependency table, and has no scripts |
| Mappers.ManifestReadsOnlyIndexedPaths | packages/project-meta/src/lib.rs:110-145 | two TOML documents that agree on the seven indexed paths map to the same result, record or panic |
| Mappers.CargoTomlFields | packages/project-meta/src/lib.rs:110-145 | each Cargo.toml field comes from `[package]`, the dependencies from the top-level table, and there are no scripts |
| Mappers.PyprojectTomlFields | packages/project-meta/src/lib.rs:181-216 | each pyproject.toml field comes from `[project]`, the dependencies from `project.dependencies`, and there are no scripts |
| Mappers.PackageJsonRoundTrip | packages/project-meta/src/lib.rs:81-103 | every record a package.json can state (at most one author, flat dependencies) is read back unchanged from the document that states it |
| Mappers.DenoJsonRoundTrip | packages/project-meta/src/lib.rs:151-175 | every record a deno.json can state (no authors, flat dependencies) is read back unchanged |
| Mappers.ManifestRoundTrip | packages/project-meta/src/lib.rs:110-145 | a TOML document holding a record's values at the indexed paths maps back to that record |
| Mappers.CargoTomlRoundTrip | packages/project-meta/src/lib.rs:110-145 | every record a Cargo.toml can state (no scripts, detailed dependencies without URLs) is read back unchanged |
| Mappers.PyprojectTomlRoundTrip | packages/project-meta/src/lib.rs:181-216 | every record a pyproject.toml can state is read back unchanged |
| Loader.FromConfig | packages/project-meta/src/lib.rs:69-222 | `FileNotFound` exactly when the path cannot be opened; `ReadError` exactly when the file is there but unreadable; every error names the reference's own path; JSON parse errors only for JSON formats and TOML parse errors only for TOML formats; what a readable file gives is stated by FromConfigReadable |
| Loader.FromConfigReadable | packages/project-meta/src/lib.rs:77-221 | for a file that can be read: the JSON or TOML parse error exactly when the reference is of that family and its parser rejects the text; otherwise the outcome is the format's mapper applied to the parsed tree, `Ok` with the record it maps to or `Panic` with its panic |
| Loader.LoadParseError | packages/project-meta/src/lib.rs:229-234 | a file whose parser rejects its text fails the whole batch with its format's parse error, unless an earlier reference already failed |
| Loader.Outcomes | packages/project-meta/src/lib.rs:229-234 | one `from_config` outcome per reference, in input order |
| Loader.Decide | packages/project-meta/src/lib.rs:229-241 | a successful batch is non-empty and no longer than its input |
| Loader.Load | packages/project-meta/src/lib.rs:224-242 | a successful load has between one record and one per reference |
| Loader.LoadFromConfigFiles | packages/project-meta/src/lib.rs:224-242 | the loop returns exactly `Load`: the first failure that is not an absent file, else `NoFilesFound` if nothing loaded, else the loaded records |
| Loader.DetectedConfigFiles | packages/project-meta/src/lib.rs:244-249 | four references, in the order package.json, Cargo.toml, deno.json, pyproject.toml, each at `cwd/` plus its canonical file name |
| Loader.FromDetectedConfigFiles | packages/project-meta/src/lib.rs:243-252 | loads the four detected references; a successful result has one to four records |
| Loader.LoadedIndicesExact | packages/project-meta/src/lib.rs:229-235 | the positions of the loaded references are strictly increasing, each holds the record at the same place in the result, and none is missed |
| Loader.LoadKeepsInputOrder | packages/project-meta/src/lib.rs:227-241 | a successful batch is exactly the records of the references that loaded, in input order, and every reference that contributes nothing was absent |
| Loader.RecordsEmpty | packages/project-meta/src/lib.rs:237-239 | no records were collected exactly when no outcome succeeded |
| Loader.LoadNoFilesFound | packages/project-meta/src/lib.rs:229-239 | the load fails with `NoFilesFound` exactly when every reference is absent |
| Loader.AllAbsentGivesNoFilesFound | packages/project-meta/src/lib.rs:224-242 | references whose paths do not exist give `NoFilesFound`, whatever their formats |
| Loader.LoadStopsAtFirstFailure | packages/project-meta/src/lib.rs:229-234 | the first failure other than absence is the result, and references after it make no difference |
| Loader.RecordsAppend | packages/project-meta/src/lib.rs:229-234 | the records of two consecutive runs of references are the records of each, concatenated |
| Loader.DecideSkipsAbsent | packages/project-meta/src/lib.rs:232 | inserting an absent outcome anywhere leaves the batch result unchanged |
| Loader.LoadSkipsAbsent | packages/project-meta/src/lib.rs:232 | inserting a reference to a missing file anywhere leaves the load unchanged |
| Checker.Differs | packages/project-meta/src/lib.rs:277-321 | one comparison per field; see EqualIffNoFieldDiffers and DiffFieldsExact |
| Checker.DiffFields | packages/project-meta/src/lib.rs:277-321 | the field lines printed under one header; see DiffFieldsExact and Scenarios.VersionOnlyDiscrepancy |
| Checker.EveryFieldCompared | packages/project-meta/src/lib.rs:277-321 | every field of the record is among those compared |
| Checker.FieldOrderRanked | packages/project-meta/src/lib.rs:277-321 | the fields are compared in declaration order, each once |
| Checker.EqualIffNoFieldDiffers | packages/project-meta/src/lib.rs:272-321 | two records are unequal exactly when some field differs, so no header is printed without a field line |
| Checker.DiffFieldsExact | packages/project-meta/src/lib.rs:277-321 | the printed field lines are exactly the differing fields, in comparison order, and there are none exactly when the records are equal |
| Checker.ReportsBelowExact | packages/project-meta/src/lib.rs:270-323 | the reports for the first n records are those for the positions below n whose record differs from the first |
| Checker.DiffReportsExact | packages/project-meta/src/lib.rs:267-323 | a report is produced for position i exactly when record i differs from the first; it names path 0 and path i; there are none exactly when all records equal the first |
| Checker.DifferingPositions | packages/project-meta/src/lib.rs:270-272 | each listed position is after the first and holds a record that differs from the first |
| Checker.DifferingPositionsExact | packages/project-meta/src/lib.rs:270-272 | the listed positions are exactly the later positions whose record differs from the first, in increasing order |
| Checker.ReportsBelowFollowPositions | packages/project-meta/src/lib.rs:270-276 | the reports for the first n records are one per differing position below n, in order, report k naming path 0 and the k-th such position |
| Checker.DiffReportsFollowPositions | packages/project-meta/src/lib.rs:270-276 | the check prints exactly one header per later record that differs from the first, in record order: as many reports as differing positions, report k naming path 0 and the path of the k-th differing position |
| Checker.DiffReportsHaveLines | packages/project-meta/src/lib.rs:272-322 | every report lists at least one differing field |
| Checker.ReportDifferences | packages/project-meta/src/lib.rs:267-323 | the loop over the loaded records produces exactly the reports `DiffReports` specifies |
| Checker.Paths | packages/project-meta/src/lib.rs:268-271 | the path of each reference, in order |
| Checker.Check | packages/project-meta/src/lib.rs:253-326 | the check as written; see CheckOutcome, CheckConfigFilesEquality, DiffReportsFollowPositions and MisattributedPath |
| Checker.CheckConfigFilesEquality | packages/project-meta/src/lib.rs:253-326 | the method computes the check: load the four detected files, pass any failure on, and otherwise report each record that differs from the first |
| Checker.CheckOutcome | packages/project-meta/src/lib.rs:253-326 | the check succeeds exactly when loading does, and otherwise passes on the load's failure; it reports nothing exactly when all loaded records agree; every report's first path is `cwd/package.json` and lists a differing field |
| Checker.ExamplePaths | packages/project-meta/src/lib.rs:254-259 | the four detected paths under `p` |
| Checker.ExampleBatch | packages/project-meta/src/lib.rs:261 | with package.json and deno.json present and the others missing, the load gives the two records, from those two references |
| Checker.TwoRecordReports | packages/project-meta/src/lib.rs:267-276 | two differing records give a single report naming the first two paths |
| Checker.MisattributedPath | packages/project-meta/src/lib.rs:266-271 | as written, a difference found in deno.json is reported against Cargo.toml, a file that does not exist |
| Checker.MisattributedForAnyDocuments | packages/project-meta/src/lib.rs:266-271 | the misattribution happens for every pair of differing records a package.json and a deno.json can state |
| Checker.CheckAttributed | packages/project-meta/src/lib.rs:266-271 | the corrected check, naming each report by the file the record came from; see AttributedReportsNameLoadedFiles and AttributedDiffersOnlyInPaths |
| Checker.AttributedReportsNameLoadedFiles | packages/project-meta/src/lib.rs:266-271 | in the corrected check, every report names the first loaded file and another loaded file, and carries their differing records |
| Checker.AttributedDiffersOnlyInPaths | packages/project-meta/src/lib.rs:266-271 | the corrected check fails exactly when the original does, and reports the same records in the same order; only the paths change |
| Scenarios.PackageJsonWithAuthor | packages/project-meta/src/lib.rs:82-85 | a package.json `author` string becomes a one-element author list, and a missing description stays absent |
| Scenarios.DenoJsonImports | packages/project-meta/src/lib.rs:151-160 | deno.json ignores `author`, defaults a missing version to "", and takes dependencies from `imports` |
| Scenarios.MinimalCargoTomlPanics | packages/project-meta/src/lib.rs:116-118 | a `[package]` table with only name and version panics at the missing `description` |
| Scenarios.DependencyTableVersions | packages/project-meta/src/lib.rs:132-140 | a table entry keeps its `version`; a bare version string has no `version` entry and gets none |
| Scenarios.VersionOnlyDiscrepancy | packages/project-meta/src/lib.rs:280-285 | records that differ only in version print exactly one field line, the version line |
| Scenarios.PackageJsonIgnoresOtherKeys | packages/project-meta/src/lib.rs:81-103 | a package.json key outside the eight read ones does not affect the result |
| Scenarios.DenoJsonIgnoresOtherKeys | packages/project-meta/src/lib.rs:151-175 | a deno.json key outside the seven read ones does not affect the result |
| Scenarios.CargoTomlIgnoresOtherKeys | packages/project-meta/src/lib.rs:110-145 | a top-level key other than `package` and `dependencies`, or a `[package]` key other than the six read ones, does not change the Cargo.toml result |
| Scenarios.PyprojectTomlIgnoresOtherKeys | packages/project-meta/src/lib.rs:181-216 | a top-level key other than `project`, or a `[project]` key other than the six read ones and `dependencies`, does not change the pyproject.toml result |

## Left out

- File I/O and the two parsers (`serde_json::from_str`, `toml::from_str`) are inputs of `Env`. The model does not decide what text parses.
- `println!` output of the checker. Reports carry the two paths and two records, and `Lines` gives the fields printed. The exact text and the `{:?}` formatting are not modelled.
- Checker.CheckConfigFilesEquality: the source returns `Ok(())` after printing. The model returns the reports instead.
- The derives (`Serialize`, `Deserialize`, `Config`) and the untagged shape inference of `Dependencies`. Nothing in the core uses them.
- The `Display` messages of `MetadataError` are not modelled; only the variants and their paths are.
- `HashMap` iteration order is not modelled: maps are Dafny `map`s. It only affects printed order, and the source's tests sort it away.
- JSON numbers and TOML floats, integers and datetimes are kept but never inspected. The mappers only ask whether a value is a string, an array, an object or a table.
- The checker's `metadata_list.is_empty()` guard (lib.rs:263-265) cannot fire, because a successful load is never empty (`Loader.Load`). It is not written.
- The snapshot tests (lib.rs:329-439) are not modelled; their missing-file cases are covered by `Loader.AllAbsentGivesNoFilesFound`.
- The `macros` and `jschema-configs` packages are not part of this model.
- Idempotence of loading and checking is not stated, because every operation is a pure function of `Env` and is trivially repeatable.

## Findings

| source | as written | input that shows it | evidently intended | confidence | as-written member | corrected member |
|---|---|---|---|---|---|---|
| packages/project-meta/src/lib.rs:266-271 | the report header takes paths from the four detected references at the index of the record among the *loaded* records, and always names package.json first | `p/package.json` and `p/deno.json` present with different names, `p/Cargo.toml` and `p/pyproject.toml` absent: the deno.json difference is reported against `p/Cargo.toml` | each header names the files whose records are compared | not executed | Checker.MisattributedPath | Checker.AttributedReportsNameLoadedFiles |

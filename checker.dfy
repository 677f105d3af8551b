/** `ProjectMetadata::check_config_files_equality`: load the four files of a
    project directory and report, for every loaded record that differs from
    the first one, which fields differ. The printed lines become a list of
    reports, one per "Difference found" header, each naming the fields whose
    lines follow it. */
module Checker {
  import opened Common
  import opened Values
  import opened Metadata
  import opened Mappers
  import opened Loader

  /** A field of `ProjectMetadata`, in declaration order. */
  datatype Field =
    | NameField
    | VersionField
    | DescriptionField
    | AuthorsField
    | LicenseField
    | KeywordsField
    | DependenciesField
    | ScriptsField

  /** One "Difference found between first config file .. and config file .."
      header, with the two records whose field lines are printed under it. */
  datatype Report = Report(firstPath: string, otherPath: string, first: ProjectMetadata, other: ProjectMetadata)

  /** Whether two records disagree on a field (Rust's derived `!=`). */
  predicate Differs(a: ProjectMetadata, b: ProjectMetadata, f: Field) {
    match f
    case NameField => a.name != b.name
    case VersionField => a.version != b.version
    case DescriptionField => a.description != b.description
    case AuthorsField => a.authors != b.authors
    case LicenseField => a.license != b.license
    case KeywordsField => a.keywords != b.keywords
    case DependenciesField => a.dependencies != b.dependencies
    case ScriptsField => a.scripts != b.scripts
  }

  /** The position of a field in the order the checker compares them. */
  function Rank(f: Field): int {
    match f
    case NameField => 0
    case VersionField => 1
    case DescriptionField => 2
    case AuthorsField => 3
    case LicenseField => 4
    case KeywordsField => 5
    case DependenciesField => 6
    case ScriptsField => 7
  }

  /** The fields in the order the source compares them, which is their
      declaration order. */
  const FieldOrder: seq<Field> :=
    [NameField, VersionField, DescriptionField, AuthorsField,
     LicenseField, KeywordsField, DependenciesField, ScriptsField]

  /** The field lines printed under one header: the fields on which the two
      records differ, in the order they are compared. */
  function DiffFields(a: ProjectMetadata, b: ProjectMetadata): seq<Field> {
    Filter(FieldOrder, f => Differs(a, b, f))
  }

  /** The field lines printed under a report's header, each showing the
      first record's value and then the other's. */
  function Lines(r: Report): seq<Field> {
    DiffFields(r.first, r.other)
  }

  lemma EveryFieldCompared(f: Field)
    ensures f in FieldOrder
  {
    assert FieldOrder[Rank(f)] == f;
  }

  lemma FieldOrderRanked()
    ensures Ranked(FieldOrder, Rank)
  {
    forall i, j | 0 <= i < j < |FieldOrder| ensures Rank(FieldOrder[i]) < Rank(FieldOrder[j]) {
      assert forall k :: 0 <= k < |FieldOrder| ==> Rank(FieldOrder[k]) == k;
    }
  }

  lemma EqualIffNoFieldDiffers(a: ProjectMetadata, b: ProjectMetadata)
    ensures a == b <==> forall f :: !Differs(a, b, f)
  {
    if forall f :: !Differs(a, b, f) {
      assert !Differs(a, b, NameField) && !Differs(a, b, VersionField);
      assert !Differs(a, b, DescriptionField) && !Differs(a, b, AuthorsField);
      assert !Differs(a, b, LicenseField) && !Differs(a, b, KeywordsField);
      assert !Differs(a, b, DependenciesField) && !Differs(a, b, ScriptsField);
    }
  }

  /** The field lines name exactly the fields on which the records differ,
      each once, in declaration order; there are none exactly when the
      records are equal. */
  lemma DiffFieldsExact(a: ProjectMetadata, b: ProjectMetadata)
    ensures forall f :: f in DiffFields(a, b) <==> Differs(a, b, f)
    ensures Ranked(DiffFields(a, b), Rank)
    ensures DiffFields(a, b) == [] <==> a == b
  {
    var fields := DiffFields(a, b);
    forall f ensures f in fields <==> Differs(a, b, f) {
      EveryFieldCompared(f);
    }
    FieldOrderRanked();
    FilterKeepsOrder(FieldOrder, f => Differs(a, b, f), Rank);
    EqualIffNoFieldDiffers(a, b);
    if fields != [] {
      assert fields[0] in fields;
    }
  }

  // ---------------------------------------------------------------------------
  // Reports over a loaded batch
  // ---------------------------------------------------------------------------

  /** What the loop prints for the record at position `i` of the batch: a
      header naming `paths[0]` and `paths[i]`, when it differs from the first. */
  function ReportAt(list: seq<ProjectMetadata>, paths: seq<string>, i: nat): Option<Report>
    requires 0 < i < |list| <= |paths|
  {
    if list[0] != list[i] then Some(Report(paths[0], paths[i], list[0], list[i])) else None
  }

  /** The reports for positions `1 .. n - 1`, in order. */
  function ReportsBelow(list: seq<ProjectMetadata>, paths: seq<string>, n: nat): seq<Report>
    requires 1 <= n <= |list| <= |paths|
  {
    if n == 1 then []
    else
      ReportsBelow(list, paths, n - 1)
      + (match ReportAt(list, paths, n - 1) case Some(r) => [r] case None => [])
  }

  /** Everything the comparison loop prints for a batch whose record at
      position `i` is attributed to `paths[i]`. */
  function DiffReports(list: seq<ProjectMetadata>, paths: seq<string>): seq<Report>
    requires 0 < |list| <= |paths|
  {
    ReportsBelow(list, paths, |list|)
  }

  lemma {:induction false} ReportsBelowExact(list: seq<ProjectMetadata>, paths: seq<string>, n: nat)
    requires 1 <= n <= |list| <= |paths|
    ensures forall r :: r in ReportsBelow(list, paths, n) <==>
      exists i :: 1 <= i < n && ReportAt(list, paths, i) == Some(r)
    ensures |ReportsBelow(list, paths, n)| < n
    decreases n
  {
    if n > 1 {
      ReportsBelowExact(list, paths, n - 1);
    }
  }

  /** One report per record that differs from the first, naming the first
      path and the record's own path; none exactly when every record equals
      the first. */
  lemma DiffReportsExact(list: seq<ProjectMetadata>, paths: seq<string>)
    requires 0 < |list| <= |paths|
    ensures forall r :: r in DiffReports(list, paths) <==>
      exists i :: 1 <= i < |list| && list[i] != list[0] && r == Report(paths[0], paths[i], list[0], list[i])
    ensures DiffReports(list, paths) == [] <==> forall i :: 0 <= i < |list| ==> list[i] == list[0]
    ensures |DiffReports(list, paths)| < |list|
  {
    ReportsBelowExact(list, paths, |list|);
    var reports := DiffReports(list, paths);
    forall r ensures r in reports <==>
      exists i :: 1 <= i < |list| && list[i] != list[0] && r == Report(paths[0], paths[i], list[0], list[i])
    {
      if r in reports {
        var i :| 1 <= i < |list| && ReportAt(list, paths, i) == Some(r);
      }
      if exists i :: 1 <= i < |list| && list[i] != list[0] && r == Report(paths[0], paths[i], list[0], list[i]) {
        var i :| 1 <= i < |list| && list[i] != list[0] && r == Report(paths[0], paths[i], list[0], list[i]);
        assert ReportAt(list, paths, i) == Some(r);
      }
    }
    if reports != [] {
      assert reports[0] in reports;
    } else {
      forall i | 1 <= i < |list| ensures list[i] == list[0] {
        assert ReportAt(list, paths, i).None?;
      }
    }
  }

  /** The positions after the first whose record differs from the first, in
      increasing order. */
  function DifferingPositions(list: seq<ProjectMetadata>): (d: seq<int>)
    requires 0 < |list|
    ensures forall k :: 0 <= k < |d| ==> 1 <= d[k] < |list| && list[d[k]] != list[0]
  {
    var d := Filter(Range(1, |list|), i => 0 <= i < |list| && list[i] != list[0]);
    assert forall k :: 0 <= k < |d| ==> d[k] in d;
    d
  }

  /** Every later position whose record differs from the first is listed, once,
      and the list is increasing. */
  lemma DifferingPositionsExact(list: seq<ProjectMetadata>)
    requires 0 < |list|
    ensures forall i :: i in DifferingPositions(list) <==> 1 <= i < |list| && list[i] != list[0]
    ensures forall k1, k2 :: 0 <= k1 < k2 < |DifferingPositions(list)| ==>
      DifferingPositions(list)[k1] < DifferingPositions(list)[k2]
  {
    var range := Range(1, |list|);
    forall i | 1 <= i < |list| ensures i in range {
      assert range[i - 1] == i;
    }
    assert Ranked(range, (i: int) => i);
    FilterKeepsOrder(range, i => 0 <= i < |list| && list[i] != list[0], (i: int) => i);
  }

  /** The reports for the first `n` records follow the differing positions below
      `n`, one report per position, in the same order. */
  lemma {:induction false} ReportsBelowFollowPositions(list: seq<ProjectMetadata>, paths: seq<string>, n: nat)
    requires 1 <= n <= |list| <= |paths|
    ensures var d := Filter(Range(1, n), i => 0 <= i < |list| && list[i] != list[0]);
      && |ReportsBelow(list, paths, n)| == |d|
      && forall k :: 0 <= k < |d| ==>
           0 <= d[k] < |list| && ReportsBelow(list, paths, n)[k] == Report(paths[0], paths[d[k]], list[0], list[d[k]])
    decreases n
  {
    var p := i => 0 <= i < |list| && list[i] != list[0];
    if n == 1 {
      assert Range(1, 1) == [];
    } else {
      ReportsBelowFollowPositions(list, paths, n - 1);
      assert Range(1, n) == Range(1, n - 1) + [n - 1];
      FilterSnoc(Range(1, n - 1), n - 1, p);
    }
  }

  /** The comparison prints one header per later record that differs from the
      first, in record order: report `k` names the `k`-th differing position. */
  lemma DiffReportsFollowPositions(list: seq<ProjectMetadata>, paths: seq<string>)
    requires 0 < |list| <= |paths|
    ensures |DiffReports(list, paths)| == |DifferingPositions(list)|
    ensures forall k :: 0 <= k < |DifferingPositions(list)| ==>
      DiffReports(list, paths)[k]
        == Report(paths[0], paths[DifferingPositions(list)[k]], list[0], list[DifferingPositions(list)[k]])
  {
    ReportsBelowFollowPositions(list, paths, |list|);
  }

  /** Every header is followed by at least one field line. */
  lemma DiffReportsHaveLines(list: seq<ProjectMetadata>, paths: seq<string>)
    requires 0 < |list| <= |paths|
    ensures forall r :: r in DiffReports(list, paths) ==> Lines(r) != []
  {
    DiffReportsExact(list, paths);
    forall r | r in DiffReports(list, paths) ensures Lines(r) != [] {
      DiffFieldsExact(r.first, r.other);
    }
  }

  /** The reports depend on the paths only through the paths they name. */
  lemma {:induction false} ReportsBelowSameRecords(list: seq<ProjectMetadata>, p1: seq<string>, p2: seq<string>, n: nat)
    requires 1 <= n <= |list| <= |p1| && |list| <= |p2|
    ensures |ReportsBelow(list, p1, n)| == |ReportsBelow(list, p2, n)|
    ensures forall k :: 0 <= k < |ReportsBelow(list, p1, n)| ==>
      ReportsBelow(list, p1, n)[k].first == ReportsBelow(list, p2, n)[k].first
      && ReportsBelow(list, p1, n)[k].other == ReportsBelow(list, p2, n)[k].other
    decreases n
  {
    if n > 1 {
      ReportsBelowSameRecords(list, p1, p2, n - 1);
    }
  }

  /** The comparison loop of `check_config_files_equality`: every record after
      the first is compared with the first, and a report is recorded for each
      one that differs. */
  method ReportDifferences(metadataList: seq<ProjectMetadata>, paths: seq<string>) returns (reports: seq<Report>)
    requires 0 < |metadataList| <= |paths|
    ensures reports == DiffReports(metadataList, paths)
  {
    var first := metadataList[0];
    var firstPath := paths[0];
    reports := [];
    var index := 1;
    while index < |metadataList|
      invariant 1 <= index <= |metadataList|
      invariant reports == ReportsBelow(metadataList, paths, index)
    {
      var metadata := metadataList[index];
      var currentPath := paths[index];
      if first != metadata {
        reports := reports + [Report(firstPath, currentPath, first, metadata)];
      }
      index := index + 1;
    }
  }

  // ---------------------------------------------------------------------------
  // The checker as written
  // ---------------------------------------------------------------------------

  /** The path of every reference, in order. */
  function Paths(configFiles: seq<ConfigFile>): (paths: seq<string>)
    ensures |paths| == |configFiles|
    ensures forall i :: 0 <= i < |configFiles| ==> paths[i] == FilePath(configFiles[i])
  {
    seq(|configFiles|, i requires 0 <= i < |configFiles| => FilePath(configFiles[i]))
  }

  /** What `check_config_files_equality` does: a loading failure is passed on;
      otherwise the differences are reported and the check succeeds. The
      record at position `i` of the batch is attributed to the `i`-th of the
      four candidate paths, whether or not that file was the one it came from. */
  function Check(env: Env, cwd: string): Outcome<seq<Report>> {
    var configFiles := DetectedConfigFiles(cwd);
    var loaded := Load(env, configFiles);
    if loaded.Ok? then Ok(DiffReports(loaded.value, Paths(configFiles))) else Relay(loaded)
  }

  /** `ProjectMetadata::check_config_files_equality`; the printed lines are
      returned as reports. */
  method CheckConfigFilesEquality(env: Env, cwd: string) returns (r: Outcome<seq<Report>>)
    ensures r == Check(env, cwd)
  {
    var configFiles := DetectedConfigFiles(cwd);
    var loaded := LoadFromConfigFiles(env, configFiles);
    if !loaded.Ok? {
      return Relay(loaded);
    }
    var reports := ReportDifferences(loaded.value, Paths(configFiles));
    return Ok(reports);
  }

  /** The check fails only when loading fails, whatever the differences; when
      it succeeds it reports each loaded record that differs from the first,
      always under the package.json path. */
  lemma CheckOutcome(env: Env, cwd: string)
    ensures Check(env, cwd).Ok? <==> Load(env, DetectedConfigFiles(cwd)).Ok?
    ensures !Check(env, cwd).Ok? ==> Check(env, cwd) == Relay(Load(env, DetectedConfigFiles(cwd)))
    ensures Check(env, cwd).Ok? ==>
      var list := Load(env, DetectedConfigFiles(cwd)).value;
      && (Check(env, cwd).value == [] <==> forall i :: 0 <= i < |list| ==> list[i] == list[0])
      && (forall r :: r in Check(env, cwd).value ==> r.firstPath == cwd + "/package.json" && Lines(r) != [])
  {
    var configFiles := DetectedConfigFiles(cwd);
    var loaded := Load(env, configFiles);
    if loaded.Ok? {
      DiffReportsExact(loaded.value, Paths(configFiles));
      DiffReportsHaveLines(loaded.value, Paths(configFiles));
    }
  }

  // ---------------------------------------------------------------------------
  // The checker with each record attributed to the file it came from
  // ---------------------------------------------------------------------------

  /** The check as evidently intended: each header names the files the two
      compared records were read from. */
  function CheckAttributed(env: Env, cwd: string): Outcome<seq<Report>> {
    var configFiles := DetectedConfigFiles(cwd);
    var loaded := Load(env, configFiles);
    if loaded.Ok? then
      LoadKeepsInputOrder(env, configFiles);
      Ok(DiffReports(loaded.value, Paths(LoadedRefs(env, configFiles))))
    else Relay(loaded)
  }

  /** Every report of the corrected check names two files that loaded, the
      first of them the first file that loaded, and lists exactly the fields
      on which those two files' records differ. */
  lemma AttributedReportsNameLoadedFiles(env: Env, cwd: string)
    requires CheckAttributed(env, cwd).Ok?
    ensures var refs := LoadedRefs(env, DetectedConfigFiles(cwd));
      forall r :: r in CheckAttributed(env, cwd).value ==>
        exists j :: 1 <= j < |refs|
          && FromConfig(env, refs[0]).Ok? && FromConfig(env, refs[j]).Ok?
          && FromConfig(env, refs[0]) != FromConfig(env, refs[j])
          && r == Report(FilePath(refs[0]), FilePath(refs[j]), FromConfig(env, refs[0]).value, FromConfig(env, refs[j]).value)
  {
    var configFiles := DetectedConfigFiles(cwd);
    var list := Load(env, configFiles).value;
    var refs := LoadedRefs(env, configFiles);
    LoadKeepsInputOrder(env, configFiles);
    DiffReportsExact(list, Paths(refs));
  }

  /** The corrected check agrees with the check as written on everything but
      the paths in the headers. */
  lemma AttributedDiffersOnlyInPaths(env: Env, cwd: string)
    ensures CheckAttributed(env, cwd).Ok? <==> Check(env, cwd).Ok?
    ensures !Check(env, cwd).Ok? ==> CheckAttributed(env, cwd) == Check(env, cwd)
    ensures Check(env, cwd).Ok? ==>
      |CheckAttributed(env, cwd).value| == |Check(env, cwd).value|
      && forall k :: 0 <= k < |Check(env, cwd).value| ==>
           CheckAttributed(env, cwd).value[k].first == Check(env, cwd).value[k].first
           && CheckAttributed(env, cwd).value[k].other == Check(env, cwd).value[k].other
  {
    var configFiles := DetectedConfigFiles(cwd);
    var loaded := Load(env, configFiles);
    if loaded.Ok? {
      LoadKeepsInputOrder(env, configFiles);
      ReportsBelowSameRecords(loaded.value, Paths(LoadedRefs(env, configFiles)), Paths(configFiles), |loaded.value|);
    }
  }

  // ---------------------------------------------------------------------------
  // A batch the check as written misattributes
  // ---------------------------------------------------------------------------

  /** A project directory `p` holding a package.json whose document is `j1`
      and a deno.json whose document is `j2`, and no Cargo.toml or
      pyproject.toml. */
  function ExampleEnv(j1: Json, j2: Json): Env {
    Env(map["p/package.json" := Readable("first"), "p/deno.json" := Readable("second")],
        text => if text == "first" then Some(j1) else Some(j2),
        text => None)
  }

  lemma ExamplePaths()
    ensures DetectedConfigFiles("p") == [PackageJson("p/package.json"), CargoToml("p/Cargo.toml"),
                                         DenoJson("p/deno.json"), PyprojectToml("p/pyproject.toml")]
  {
    assert "p" + "/package.json" == "p/package.json";
    assert "p" + "/Cargo.toml" == "p/Cargo.toml";
    assert "p" + "/deno.json" == "p/deno.json";
    assert "p" + "/pyproject.toml" == "p/pyproject.toml";
  }

  lemma ExamplePackageJson(x: ProjectMetadata, j1: Json, j2: Json)
    requires MapPackageJson(j1) == Mapped(x)
    ensures FromConfig(ExampleEnv(j1, j2), PackageJson("p/package.json")) == Ok(x)
  {
  }

  lemma ExampleDenoJson(y: ProjectMetadata, j1: Json, j2: Json)
    requires MapDenoJson(j2) == Mapped(y)
    ensures FromConfig(ExampleEnv(j1, j2), DenoJson("p/deno.json")) == Ok(y)
  {
  }

  lemma ExampleOutcomes(x: ProjectMetadata, y: ProjectMetadata, j1: Json, j2: Json)
    requires MapPackageJson(j1) == Mapped(x) && MapDenoJson(j2) == Mapped(y)
    ensures Outcomes(ExampleEnv(j1, j2), DetectedConfigFiles("p"))
      == [Ok(x), Err(FileNotFound("p/Cargo.toml")), Ok(y), Err(FileNotFound("p/pyproject.toml"))]
  {
    ExamplePaths();
    ExamplePackageJson(x, j1, j2);
    ExampleDenoJson(y, j1, j2);
    assert "p/Cargo.toml" !in ExampleEnv(j1, j2).files;
    assert "p/pyproject.toml" !in ExampleEnv(j1, j2).files;
  }

  lemma RecordsOfExample(x: ProjectMetadata, y: ProjectMetadata, e1: MetadataError, e2: MetadataError)
    ensures Records([Ok(x), Err(e1), Ok(y), Err(e2)]) == [x, y]
  {
    var os := [Ok(x), Err(e1), Ok(y), Err(e2)];
    RecordsStep(os, 0);
    RecordsStep(os, 1);
    RecordsStep(os, 2);
    RecordsStep(os, 3);
    assert os[..0] == [] && os[..4] == os;
  }

  lemma LoadedIndicesOfExample(x: ProjectMetadata, y: ProjectMetadata, e1: MetadataError, e2: MetadataError)
    ensures LoadedIndices([Ok(x), Err(e1), Ok(y), Err(e2)]) == [0, 2]
  {
    var os := [Ok(x), Err(e1), Ok(y), Err(e2)];
    assert os[..1] == [Ok(x)] && os[..1][..0] == [];
    assert LoadedIndices(os[..1]) == [0];
    assert os[..2] == [Ok(x), Err(e1)] && os[..2][..1] == os[..1];
    assert LoadedIndices(os[..2]) == [0];
    assert os[..3] == [Ok(x), Err(e1), Ok(y)] && os[..3][..2] == os[..2];
    assert LoadedIndices(os[..3]) == [0, 2];
    assert os[..3] == os[..|os| - 1];
  }

  lemma ExampleBatch(x: ProjectMetadata, y: ProjectMetadata, j1: Json, j2: Json)
    requires MapPackageJson(j1) == Mapped(x) && MapDenoJson(j2) == Mapped(y)
    ensures Load(ExampleEnv(j1, j2), DetectedConfigFiles("p")) == Ok([x, y])
    ensures LoadedRefs(ExampleEnv(j1, j2), DetectedConfigFiles("p")) == [PackageJson("p/package.json"), DenoJson("p/deno.json")]
  {
    ExamplePaths();
    ExampleOutcomes(x, y, j1, j2);
    var os := Outcomes(ExampleEnv(j1, j2), DetectedConfigFiles("p"));
    FirstIndexIs(os, Fatal, 4);
    RecordsOfExample(x, y, FileNotFound("p/Cargo.toml"), FileNotFound("p/pyproject.toml"));
    LoadedIndicesOfExample(x, y, FileNotFound("p/Cargo.toml"), FileNotFound("p/pyproject.toml"));
  }

  lemma TwoRecordReports(x: ProjectMetadata, y: ProjectMetadata, paths: seq<string>)
    requires x != y && 2 <= |paths|
    ensures DiffReports([x, y], paths) == [Report(paths[0], paths[1], x, y)]
  {
    assert ReportsBelow([x, y], paths, 1) == [];
  }

  /** A package.json document mapping to `x` and a deno.json document mapping
      to a different `y`, with no Cargo.toml beside them: the check as written
      blames p/Cargo.toml, which does not exist, for the difference; the
      corrected check names p/deno.json. */
  lemma MisattributedPath(x: ProjectMetadata, y: ProjectMetadata, j1: Json, j2: Json)
    requires MapPackageJson(j1) == Mapped(x) && MapDenoJson(j2) == Mapped(y)
    requires x != y
    ensures FromConfig(ExampleEnv(j1, j2), CargoToml("p/Cargo.toml")) == Err(FileNotFound("p/Cargo.toml"))
    ensures Check(ExampleEnv(j1, j2), "p") == Ok([Report("p/package.json", "p/Cargo.toml", x, y)])
    ensures CheckAttributed(ExampleEnv(j1, j2), "p") == Ok([Report("p/package.json", "p/deno.json", x, y)])
  {
    ExamplePaths();
    assert "p/Cargo.toml" !in ExampleEnv(j1, j2).files;
    ExampleBatch(x, y, j1, j2);
    TwoRecordReports(x, y, Paths(DetectedConfigFiles("p")));
    TwoRecordReports(x, y, Paths(LoadedRefs(ExampleEnv(j1, j2), DetectedConfigFiles("p"))));
  }

  /** Every pair of differing records a package.json and a deno.json can state
      is misattributed this way. */
  lemma MisattributedForAnyDocuments(x: ProjectMetadata, y: ProjectMetadata)
    requires PackageJsonExpressible(x) && DenoJsonExpressible(y) && x != y
    ensures Check(ExampleEnv(PackageJsonDoc(x), DenoJsonDoc(y)), "p")
      == Ok([Report("p/package.json", "p/Cargo.toml", x, y)])
    ensures CheckAttributed(ExampleEnv(PackageJsonDoc(x), DenoJsonDoc(y)), "p")
      == Ok([Report("p/package.json", "p/deno.json", x, y)])
  {
    PackageJsonRoundTrip(x);
    DenoJsonRoundTrip(y);
    MisattributedPath(x, y, PackageJsonDoc(x), DenoJsonDoc(y));
  }
}

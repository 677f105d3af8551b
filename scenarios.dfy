/** Concrete documents and what the mappers and the checker give for them,
    and the guarantee that keys a mapper does not read are ignored. */
module Scenarios {
  import opened Common
  import opened Values
  import opened Metadata
  import opened Mappers
  import opened Checker

  /** A package.json with a name, a version and one author. */
  lemma PackageJsonWithAuthor()
    ensures MapPackageJson(JObject(map["name" := JString("x"), "version" := JString("1.0.0"), "author" := JString("Jane")]))
      == Mapped(ProjectMetadata("x", "1.0.0", None, Some(["Jane"]), None, None, None, None))
  {
  }

  /** A deno.json whose `imports` give flat dependencies; it has no authors even
      when the document names one. */
  lemma DenoJsonImports()
    ensures MapDenoJson(JObject(map["name" := JString("x"), "author" := JString("Jane"),
                                    "imports" := JObject(map["std" := JString("jsr:@std/x")])]))
      == Mapped(ProjectMetadata("x", "", None, None, None, None, Some(Simple(map["std" := "jsr:@std/x"])), None))
  {
    var imports := map["std" := JString("jsr:@std/x")];
    assert (map k | k in imports :: imports[k].s) == map["std" := "jsr:@std/x"];
  }

  /** A Cargo.toml with only a name and a version does not map to defaults:
      indexing the missing `package.description` panics. */
  lemma MinimalCargoTomlPanics()
    ensures MapCargoToml(TTable(map["package" := TTable(map["name" := TString("x"), "version" := TString("1.0.0")])]))
      == Panicked(MissingKey(["package", "description"]))
  {
    var doc := TTable(map["package" := TTable(map["name" := TString("x"), "version" := TString("1.0.0")])]);
    var paths := IndexedPaths("package", ["dependencies"]);
    TGetPathPair(doc, "package", "name");
    TGetPathPair(doc, "package", "version");
    TGetPathPair(doc, "package", "description");
    FirstIndexIs(paths, (p: seq<string>) => TGetPath(doc, p).None?, 2);
  }

  /** A dependency table naming `foo` with a `version` entry and `serde` as a
      bare string: both become detailed entries without a url, and only `foo`
      has a version. */
  lemma DependencyTableVersions()
    ensures DetailedDependenciesOf(TTable(map["foo" := TTable(map["version" := TString("2.0")]), "serde" := TString("1.0")]))
      == Some(Detailed(map["foo" := DependencyDetails(Some("2.0"), None), "serde" := DependencyDetails(None, None)]))
  {
    var deps := map["foo" := TTable(map["version" := TString("2.0")]), "serde" := TString("1.0")];
    assert DeclaredVersion(deps["foo"]) == Some("2.0");
    assert DeclaredVersion(deps["serde"]) == None;
    var expected := map["foo" := DependencyDetails(Some("2.0"), None), "serde" := DependencyDetails(None, None)];
    var detailed := DetailedDependencies(deps);
    assert detailed.Keys == expected.Keys;
    assert detailed["foo"] == expected["foo"] && detailed["serde"] == expected["serde"];
    assert detailed == expected;
  }

  /** Two records that differ only in `version` give a single `version` line. */
  lemma VersionOnlyDiscrepancy(a: ProjectMetadata, b: ProjectMetadata)
    requires a.version != b.version && a == b.(version := a.version)
    ensures DiffFields(a, b) == [VersionField]
  {
    DiffFieldsExact(a, b);
    var fields := DiffFields(a, b);
    assert VersionField in fields;
    assert forall f :: f in fields ==> f == VersionField;
    assert fields[0] == VersionField;
  }

  /** Keys package.json's mapper does not read leave its record unchanged. */
  lemma PackageJsonIgnoresOtherKeys(fields: map<string, Json>, key: string, value: Json)
    requires key !in {"name", "version", "description", "author", "license", "keywords", "dependencies", "scripts"}
    ensures MapPackageJson(JObject(fields[key := value])) == MapPackageJson(JObject(fields))
  {
    var a, b := JObject(fields[key := value]), JObject(fields);
    assert forall k :: k != key ==> JIndex(a, k) == JIndex(b, k);
  }

  /** Keys deno.json's mapper does not read leave its record unchanged. */
  lemma DenoJsonIgnoresOtherKeys(fields: map<string, Json>, key: string, value: Json)
    requires key !in {"name", "version", "description", "license", "keywords", "imports", "scripts"}
    ensures MapDenoJson(JObject(fields[key := value])) == MapDenoJson(JObject(fields))
  {
    var a, b := JObject(fields[key := value]), JObject(fields);
    assert forall k :: k != key ==> JIndex(a, k) == JIndex(b, k);
  }

  /** Keys Cargo.toml's mapper does not read leave its result unchanged: a
      top-level key other than `package` and `dependencies`, and a `[package]`
      key other than the six it reads. */
  lemma CargoTomlIgnoresOtherKeys(entries: map<string, Toml>, package: map<string, Toml>, key: string, value: Toml)
    ensures key !in {"package", "dependencies"} ==>
      MapCargoToml(TTable(entries[key := value])) == MapCargoToml(TTable(entries))
    ensures key !in {"name", "version", "description", "authors", "license", "keywords"} ==>
      MapCargoToml(TTable(entries["package" := TTable(package[key := value])]))
        == MapCargoToml(TTable(entries["package" := TTable(package)]))
  {
    var paths := IndexedPaths("package", ["dependencies"]);
    if key !in {"package", "dependencies"} {
      var t1, t2 := TTable(entries[key := value]), TTable(entries);
      forall i | 0 <= i < |paths| ensures TGetPath(t1, paths[i]) == TGetPath(t2, paths[i]) {
        if i < 6 {
          TGetPathPair(t1, "package", paths[i][1]);
          TGetPathPair(t2, "package", paths[i][1]);
        } else {
          TGetPathSingle(t1, "dependencies");
          TGetPathSingle(t2, "dependencies");
        }
      }
      ManifestReadsOnlyIndexedPaths(t1, t2, "package", ["dependencies"]);
    }
    if key !in {"name", "version", "description", "authors", "license", "keywords"} {
      var t1 := TTable(entries["package" := TTable(package[key := value])]);
      var t2 := TTable(entries["package" := TTable(package)]);
      forall i | 0 <= i < |paths| ensures TGetPath(t1, paths[i]) == TGetPath(t2, paths[i]) {
        if i < 6 {
          TGetPathPair(t1, "package", paths[i][1]);
          TGetPathPair(t2, "package", paths[i][1]);
        } else {
          TGetPathSingle(t1, "dependencies");
          TGetPathSingle(t2, "dependencies");
        }
      }
      ManifestReadsOnlyIndexedPaths(t1, t2, "package", ["dependencies"]);
    }
  }

  /** Keys pyproject.toml's mapper does not read leave its result unchanged: a
      top-level key other than `project`, and a `[project]` key other than the
      six it reads and `dependencies`. */
  lemma PyprojectTomlIgnoresOtherKeys(entries: map<string, Toml>, project: map<string, Toml>, key: string, value: Toml)
    ensures key != "project" ==>
      MapPyprojectToml(TTable(entries[key := value])) == MapPyprojectToml(TTable(entries))
    ensures key !in {"name", "version", "description", "authors", "license", "keywords", "dependencies"} ==>
      MapPyprojectToml(TTable(entries["project" := TTable(project[key := value])]))
        == MapPyprojectToml(TTable(entries["project" := TTable(project)]))
  {
    var paths := IndexedPaths("project", ["project", "dependencies"]);
    if key != "project" {
      var t1, t2 := TTable(entries[key := value]), TTable(entries);
      forall i | 0 <= i < |paths| ensures TGetPath(t1, paths[i]) == TGetPath(t2, paths[i]) {
        TGetPathPair(t1, "project", paths[i][1]);
        TGetPathPair(t2, "project", paths[i][1]);
      }
      ManifestReadsOnlyIndexedPaths(t1, t2, "project", ["project", "dependencies"]);
    }
    if key !in {"name", "version", "description", "authors", "license", "keywords", "dependencies"} {
      var t1 := TTable(entries["project" := TTable(project[key := value])]);
      var t2 := TTable(entries["project" := TTable(project)]);
      forall i | 0 <= i < |paths| ensures TGetPath(t1, paths[i]) == TGetPath(t2, paths[i]) {
        TGetPathPair(t1, "project", paths[i][1]);
        TGetPathPair(t2, "project", paths[i][1]);
      }
      ManifestReadsOnlyIndexedPaths(t1, t2, "project", ["project", "dependencies"]);
    }
  }
}

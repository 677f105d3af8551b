/** The four field mappers of `ProjectMetadata::from_config`: each projects a
    parsed document onto the unified record, with the defaults the source
    applies to missing or wrongly-typed fields, and with the panics of its
    `unwrap()` and of TOML indexing made explicit. */
module Mappers {
  import opened Common
  import opened Values
  import opened Metadata

  /** What a mapper produces: the record, or the panic that aborts it. */
  datatype Mapping = Mapped(meta: ProjectMetadata) | Panicked(cause: PanicCause)

  /** `iter().map(|v| v.as_str().unwrap_or("").to_string()).collect()`. */
  function MapStrings<V>(items: seq<V>, asStr: V -> Option<string>): (r: seq<string>)
    ensures |r| == |items|
    ensures forall i :: 0 <= i < |items| ==> r[i] == asStr(items[i]).GetOr("")
  {
    if items == [] then []
    else [asStr(items[0]).GetOr("")] + MapStrings(items[1..], asStr)
  }

  // ---------------------------------------------------------------------------
  // The JSON formats: package.json and deno.json
  // ---------------------------------------------------------------------------

  /** `json[key].as_str()` */
  function JStringAt(json: Json, key: string): Option<string> {
    JAsStr(JIndex(json, key))
  }

  /** `as_array().map(..)` of an array of strings (`keywords`). */
  function JStringList(v: Json): Option<seq<string>> {
    if v.JArray? then Some(MapStrings(v.items, JAsStr)) else None
  }

  /** Every value of the object is a string: only then does the source's
      `as_str().unwrap()` over a dependency object not panic. */
  predicate AllStrings(fields: map<string, Json>) {
    forall k :: k in fields ==> fields[k].JString?
  }

  /** `as_object().map(|deps| Dependencies::Simple(..))` over an object whose
      values are all strings. */
  function SimpleDependencies(v: Json): Option<Dependencies>
    requires v.JObject? ==> AllStrings(v.fields)
  {
    if v.JObject? then Some(Simple(map k | k in v.fields :: v.fields[k].s)) else None
  }

  /** `as_object().map(..)` of `scripts`: a command that is not a string
      becomes "". */
  function JScripts(v: Json): Option<map<string, string>> {
    if v.JObject? then Some(map k | k in v.fields :: JAsStr(v.fields[k]).GetOr("")) else None
  }

  /** The package.json arm of `from_config`. */
  function MapPackageJson(json: Json): Mapping {
    var deps := JIndex(json, "dependencies");
    if deps.JObject? && !AllStrings(deps.fields) then Panicked(NonStringDependency("dependencies"))
    else
      Mapped(ProjectMetadata(
        name := JStringAt(json, "name").GetOr(""),
        version := JStringAt(json, "version").GetOr(""),
        description := JStringAt(json, "description"),
        authors := (match JStringAt(json, "author") case Some(a) => Some([a]) case None => None),
        license := JStringAt(json, "license"),
        keywords := JStringList(JIndex(json, "keywords")),
        dependencies := SimpleDependencies(deps),
        scripts := JScripts(JIndex(json, "scripts"))))
  }

  /** The deno.json arm of `from_config`: no authors, and the dependencies are
      the `imports` map. */
  function MapDenoJson(json: Json): Mapping {
    var imports := JIndex(json, "imports");
    if imports.JObject? && !AllStrings(imports.fields) then Panicked(NonStringDependency("imports"))
    else
      Mapped(ProjectMetadata(
        name := JStringAt(json, "name").GetOr(""),
        version := JStringAt(json, "version").GetOr(""),
        description := JStringAt(json, "description"),
        authors := None,
        license := JStringAt(json, "license"),
        keywords := JStringList(JIndex(json, "keywords")),
        dependencies := SimpleDependencies(imports),
        scripts := JScripts(JIndex(json, "scripts"))))
  }

  // ---------------------------------------------------------------------------
  // The TOML formats: Cargo.toml and pyproject.toml
  // ---------------------------------------------------------------------------

  /** `as_array().map(..)` of an array of strings (`authors`, `keywords`). */
  function TStringList(v: Toml): Option<seq<string>> {
    if v.TArray? then Some(MapStrings(v.items, TAsStr)) else None
  }

  /** `value.get("version").and_then(|v| v.as_str())` of one dependency entry:
      a bare version string such as `serde = "1.0"` has no `version` entry. */
  function DeclaredVersion(entry: Toml): Option<string> {
    match TGet(entry, "version")
    case None => None
    case Some(v) => TAsStr(v)
  }

  /** The map the source's dependency loop builds: one entry per key of the
      table, with its declared version and no URL. */
  function DetailedDependencies(deps: map<string, Toml>): map<string, DependencyDetails> {
    map k | k in deps :: DependencyDetails(DeclaredVersion(deps[k]), None)
  }

  /** The `for (key, value) in deps { detailed_deps.insert(..) }` loop. */
  method BuildDetailedDependencies(deps: map<string, Toml>) returns (detailed: map<string, DependencyDetails>)
    ensures detailed.Keys == deps.Keys
    ensures forall k :: k in deps ==> detailed[k].url.None? && detailed[k].version == DeclaredVersion(deps[k])
    ensures detailed == DetailedDependencies(deps)
  {
    detailed := map[];
    var remaining := deps.Keys;
    while remaining != {}
      invariant remaining <= deps.Keys
      invariant detailed.Keys == deps.Keys - remaining
      invariant forall k :: k in detailed ==> detailed[k] == DependencyDetails(DeclaredVersion(deps[k]), None)
      decreases |remaining|
    {
      var key :| key in remaining;
      detailed := detailed[key := DependencyDetails(DeclaredVersion(deps[key]), None)];
      remaining := remaining - {key};
    }
  }

  /** `as_table().map(..)` of the dependency table. */
  function DetailedDependenciesOf(v: Toml): Option<Dependencies> {
    if v.TTable? then Some(Detailed(DetailedDependencies(v.entries))) else None
  }

  /** The paths a TOML mapper indexes, in the order it evaluates them: six
      keys of its section, then its dependency table. */
  function IndexedPaths(section: string, depsPath: seq<string>): seq<seq<string>> {
    [[section, "name"], [section, "version"], [section, "description"], [section, "authors"],
     [section, "license"], [section, "keywords"], depsPath]
  }

  /** The TOML arms of `from_config`, which differ only in the section they read
      (`package`, `project`) and where the dependency table sits. Indexing a
      TOML value panics when the key is missing, so the first indexed path
      that is absent aborts the mapping. */
  function MapTomlManifest(toml: Toml, section: string, depsPath: seq<string>): Mapping {
    var paths := IndexedPaths(section, depsPath);
    var k := FirstIndex(paths, (p: seq<string>) => TGetPath(toml, p).None?);
    if k < |paths| then Panicked(MissingKey(paths[k]))
    else Mapped(ReadManifest(toml, paths))
  }

  /** The record a TOML mapper builds once every indexed path is present. */
  function ReadManifest(toml: Toml, paths: seq<seq<string>>): ProjectMetadata
    requires |paths| == 7
    requires forall j :: 0 <= j < |paths| ==> !TGetPath(toml, paths[j]).None?
  {
    ProjectMetadata(
      name := TAsStr(TGetPath(toml, paths[0]).value).GetOr(""),
      version := TAsStr(TGetPath(toml, paths[1]).value).GetOr(""),
      description := TAsStr(TGetPath(toml, paths[2]).value),
      authors := TStringList(TGetPath(toml, paths[3]).value),
      license := TAsStr(TGetPath(toml, paths[4]).value),
      keywords := TStringList(TGetPath(toml, paths[5]).value),
      dependencies := DetailedDependenciesOf(TGetPath(toml, paths[6]).value),
      scripts := None)
  }

  /** The Cargo.toml arm: `[package]` and the top-level `[dependencies]`. */
  function MapCargoToml(toml: Toml): Mapping {
    MapTomlManifest(toml, "package", ["dependencies"])
  }

  /** The pyproject.toml arm: `[project]` and `project.dependencies`. */
  function MapPyprojectToml(toml: Toml): Mapping {
    MapTomlManifest(toml, "project", ["project", "dependencies"])
  }

  // ---------------------------------------------------------------------------
  // What each mapper reads: the mapping table, field by field
  // ---------------------------------------------------------------------------

  /** A required text field read from `v`: its string, or "" when `v` is
      missing or not a string. */
  ghost predicate ReadsText(out: string, v: Json) {
    if v.JString? then out == v.s else out == ""
  }

  /** An optional text field read from `v`: present exactly when `v` is a
      string, and then that string. */
  ghost predicate ReadsOptionalText(out: Option<string>, v: Json) {
    (out.Some? <==> v.JString?) && (out.Some? ==> out.value == v.s)
  }

  /** A list field read from `v`: present exactly when `v` is an array, of the
      same length and order, each element its string or "". */
  ghost predicate ReadsList(out: Option<seq<string>>, v: Json) {
    && (out.Some? <==> v.JArray?)
    && (out.Some? ==>
          && |out.value| == |v.items|
          && forall i :: 0 <= i < |v.items| ==>
               out.value[i] == (if v.items[i].JString? then v.items[i].s else ""))
  }

  /** Simple dependencies read from `v`: present exactly when `v` is an object,
      with the same keys and each version the member's string. */
  ghost predicate ReadsSimple(out: Option<Dependencies>, v: Json) {
    && (out.Some? <==> v.JObject?)
    && (out.Some? ==>
          && out.value.Simple?
          && out.value.versions.Keys == v.fields.Keys
          && forall k :: k in v.fields ==> v.fields[k] == JString(out.value.versions[k]))
  }

  /** Scripts read from `v`: present exactly when `v` is an object, with the
      same names, each command its string or "". */
  ghost predicate ReadsScripts(out: Option<map<string, string>>, v: Json) {
    && (out.Some? <==> v.JObject?)
    && (out.Some? ==>
          && out.value.Keys == v.fields.Keys
          && forall k :: k in v.fields ==>
               out.value[k] == (if v.fields[k].JString? then v.fields[k].s else ""))
  }

  /** The package.json row of the mapping table. */
  lemma PackageJsonFields(json: Json)
    requires MapPackageJson(json).Mapped?
    ensures var m := MapPackageJson(json).meta;
      && ReadsText(m.name, JIndex(json, "name"))
      && ReadsText(m.version, JIndex(json, "version"))
      && ReadsOptionalText(m.description, JIndex(json, "description"))
      && (m.authors.Some? <==> JIndex(json, "author").JString?)
      && (m.authors.Some? ==> m.authors.value == [JIndex(json, "author").s])
      && ReadsOptionalText(m.license, JIndex(json, "license"))
      && ReadsList(m.keywords, JIndex(json, "keywords"))
      && ReadsSimple(m.dependencies, JIndex(json, "dependencies"))
      && ReadsScripts(m.scripts, JIndex(json, "scripts"))
  {
  }

  /** The deno.json row: never any authors; dependencies come from `imports`. */
  lemma DenoJsonFields(json: Json)
    requires MapDenoJson(json).Mapped?
    ensures var m := MapDenoJson(json).meta;
      && ReadsText(m.name, JIndex(json, "name"))
      && ReadsText(m.version, JIndex(json, "version"))
      && ReadsOptionalText(m.description, JIndex(json, "description"))
      && m.authors == None
      && ReadsOptionalText(m.license, JIndex(json, "license"))
      && ReadsList(m.keywords, JIndex(json, "keywords"))
      && ReadsSimple(m.dependencies, JIndex(json, "imports"))
      && ReadsScripts(m.scripts, JIndex(json, "scripts"))
  {
  }

  /** package.json panics exactly when `dependencies` is an object holding a
      value that is not a string; every other document maps. */
  lemma PackageJsonPanics(json: Json)
    ensures MapPackageJson(json).Panicked? <==>
      (JIndex(json, "dependencies").JObject? &&
       exists k :: k in JIndex(json, "dependencies").fields && !JIndex(json, "dependencies").fields[k].JString?)
    ensures MapPackageJson(json).Panicked? ==> MapPackageJson(json).cause == NonStringDependency("dependencies")
  {
  }

  /** deno.json panics exactly when `imports` is an object holding a value that
      is not a string. */
  lemma DenoJsonPanics(json: Json)
    ensures MapDenoJson(json).Panicked? <==>
      (JIndex(json, "imports").JObject? &&
       exists k :: k in JIndex(json, "imports").fields && !JIndex(json, "imports").fields[k].JString?)
    ensures MapDenoJson(json).Panicked? ==> MapDenoJson(json).cause == NonStringDependency("imports")
  {
  }

  /** A required text field read from the TOML value `v`. */
  ghost predicate TReadsText(out: string, v: Toml) {
    if v.TString? then out == v.s else out == ""
  }

  /** An optional text field read from the TOML value `v`. */
  ghost predicate TReadsOptionalText(out: Option<string>, v: Toml) {
    (out.Some? <==> v.TString?) && (out.Some? ==> out.value == v.s)
  }

  /** A list field read from the TOML value `v`. */
  ghost predicate TReadsList(out: Option<seq<string>>, v: Toml) {
    && (out.Some? <==> v.TArray?)
    && (out.Some? ==>
          && |out.value| == |v.items|
          && forall i :: 0 <= i < |v.items| ==>
               out.value[i] == (if v.items[i].TString? then v.items[i].s else ""))
  }

  /** Detailed dependencies read from the TOML value `v`: present exactly when
      `v` is a table, keyed by exactly its keys, no URL anywhere, and a version
      exactly when the entry is a table whose `version` is a string. */
  ghost predicate ReadsDetailed(out: Option<Dependencies>, v: Toml) {
    && (out.Some? <==> v.TTable?)
    && (out.Some? ==>
          && out.value.Detailed?
          && out.value.details.Keys == v.entries.Keys
          && forall k :: k in v.entries ==>
               var entry, details := v.entries[k], out.value.details[k];
               && details.url.None?
               && (details.version.Some? <==>
                     entry.TTable? && "version" in entry.entries && entry.entries["version"].TString?)
               && (details.version.Some? ==> details.version.value == entry.entries["version"].s))
  }

  /** The keys a TOML mapper reads from its section, in reading order. */
  const ManifestKeys: seq<string> := ["name", "version", "description", "authors", "license", "keywords"]

  /** Two steps of TOML indexing. */
  lemma {:induction false} TGetPathPair(v: Toml, a: string, b: string)
    ensures TGetPath(v, [a, b]).Some? <==>
      v.TTable? && a in v.entries && v.entries[a].TTable? && b in v.entries[a].entries
    ensures TGetPath(v, [a, b]).Some? ==> TGetPath(v, [a, b]).value == v.entries[a].entries[b]
  {
    assert [a, b][1..] == [b];
    match TGet(v, a)
    case None =>
    case Some(child) =>
      TGetPathSingle(child, b);
  }

  /** One step of TOML indexing. */
  lemma {:induction false} TGetPathSingle(v: Toml, a: string)
    ensures TGetPath(v, [a]) == TGet(v, a)
  {
    assert [a][1..] == [];
  }

  /** A TOML mapper maps exactly when every path it indexes is present, and
      otherwise panics on the first absent one in reading order. */
  lemma ManifestPanics(toml: Toml, section: string, depsPath: seq<string>)
    ensures var paths := IndexedPaths(section, depsPath);
      MapTomlManifest(toml, section, depsPath).Mapped? <==>
        forall i :: 0 <= i < |paths| ==> TGetPath(toml, paths[i]).Some?
    ensures var paths := IndexedPaths(section, depsPath);
      var r := MapTomlManifest(toml, section, depsPath);
      r.Panicked? ==>
        && r.cause.MissingKey?
        && exists i :: 0 <= i < |paths| && paths[i] == r.cause.path && TGetPath(toml, paths[i]).None? &&
             forall j :: 0 <= j < i ==> TGetPath(toml, paths[j]).Some?
  {
  }

  /** The section `toml[section]` is a table holding every key the mapper
      reads from it. */
  ghost predicate HasSection(toml: Toml, section: string) {
    && toml.TTable? && section in toml.entries && toml.entries[section].TTable?
    && forall i :: 0 <= i < |ManifestKeys| ==> ManifestKeys[i] in toml.entries[section].entries
  }

  /** Cargo.toml maps exactly when `[package]` holds all six keys the mapper
      reads and a top-level `dependencies` exists: a missing `description`,
      `authors`, `license`, `keywords` or `[dependencies]` panics rather than
      defaulting. */
  lemma CargoTomlPanics(toml: Toml)
    ensures MapCargoToml(toml).Mapped? <==> HasSection(toml, "package") && "dependencies" in toml.entries
    ensures MapCargoToml(toml).Panicked? ==>
      MapCargoToml(toml).cause.MissingKey? && MapCargoToml(toml).cause.path in IndexedPaths("package", ["dependencies"])
  {
    ManifestPanics(toml, "package", ["dependencies"]);
    SectionPresent(toml, "package", ["dependencies"]);
    TGetPathSingle(toml, "dependencies");
  }

  /** pyproject.toml maps exactly when `[project]` holds all six keys the
      mapper reads and a `dependencies` entry. */
  lemma PyprojectTomlPanics(toml: Toml)
    ensures MapPyprojectToml(toml).Mapped? <==>
      HasSection(toml, "project") && "dependencies" in toml.entries["project"].entries
    ensures MapPyprojectToml(toml).Panicked? ==>
      MapPyprojectToml(toml).cause.MissingKey? &&
      MapPyprojectToml(toml).cause.path in IndexedPaths("project", ["project", "dependencies"])
  {
    ManifestPanics(toml, "project", ["project", "dependencies"]);
    SectionPresent(toml, "project", ["project", "dependencies"]);
    TGetPathPair(toml, "project", "dependencies");
  }

  /** A TOML mapper sees a document only through its seven indexed paths: two
      documents that agree on them map alike. */
  lemma ManifestReadsOnlyIndexedPaths(t1: Toml, t2: Toml, section: string, depsPath: seq<string>)
    requires var paths := IndexedPaths(section, depsPath);
      forall i :: 0 <= i < |paths| ==> TGetPath(t1, paths[i]) == TGetPath(t2, paths[i])
    ensures MapTomlManifest(t1, section, depsPath) == MapTomlManifest(t2, section, depsPath)
  {
    var paths := IndexedPaths(section, depsPath);
    var k := FirstIndex(paths, (p: seq<string>) => TGetPath(t1, p).None?);
    FirstIndexIs(paths, (p: seq<string>) => TGetPath(t2, p).None?, k);
  }

  /** The six section paths of a TOML mapper are present exactly when the
      section is a table holding all six keys. */
  lemma SectionPresent(toml: Toml, section: string, depsPath: seq<string>)
    ensures var paths := IndexedPaths(section, depsPath);
      (forall i :: 0 <= i < 6 ==> TGetPath(toml, paths[i]).Some?) <==> HasSection(toml, section)
  {
    var paths := IndexedPaths(section, depsPath);
    assert |ManifestKeys| == 6;
    forall i | 0 <= i < 6
      ensures TGetPath(toml, paths[i]).Some? <==>
        toml.TTable? && section in toml.entries && toml.entries[section].TTable? &&
        ManifestKeys[i] in toml.entries[section].entries
    {
      assert paths[i] == [section, ManifestKeys[i]];
      TGetPathPair(toml, section, ManifestKeys[i]);
    }
    if forall i :: 0 <= i < 6 ==> TGetPath(toml, paths[i]).Some? {
      assert TGetPath(toml, paths[0]).Some?;
    }
  }

  /** The Cargo.toml and pyproject.toml rows of the mapping table, for a
      document that maps: each field reads `toml[section][key]`, the
      dependencies are always the Detailed variant, and there are never any
      scripts. */
  lemma ManifestFields(toml: Toml, section: string, depsPath: seq<string>)
    requires MapTomlManifest(toml, section, depsPath).Mapped?
    ensures var paths := IndexedPaths(section, depsPath);
      forall i :: 0 <= i < |paths| ==> TGetPath(toml, paths[i]).Some?
    ensures var paths := IndexedPaths(section, depsPath);
      var m := MapTomlManifest(toml, section, depsPath).meta;
      && TReadsText(m.name, TGetPath(toml, paths[0]).value)
      && TReadsText(m.version, TGetPath(toml, paths[1]).value)
      && TReadsOptionalText(m.description, TGetPath(toml, paths[2]).value)
      && TReadsList(m.authors, TGetPath(toml, paths[3]).value)
      && TReadsOptionalText(m.license, TGetPath(toml, paths[4]).value)
      && TReadsList(m.keywords, TGetPath(toml, paths[5]).value)
      && ReadsDetailed(m.dependencies, TGetPath(toml, paths[6]).value)
      && m.scripts == None
  {
    ManifestPanics(toml, section, depsPath);
    var paths := IndexedPaths(section, depsPath);
    TStringListReads(TGetPath(toml, paths[3]).value);
    TStringListReads(TGetPath(toml, paths[5]).value);
    DetailedDependenciesReads(TGetPath(toml, paths[6]).value);
  }

  lemma TStringListReads(v: Toml)
    ensures TReadsList(TStringList(v), v)
  {
  }

  lemma DetailedDependenciesReads(v: Toml)
    ensures ReadsDetailed(DetailedDependenciesOf(v), v)
  {
  }

  /** The Cargo.toml row of the mapping table. */
  lemma CargoTomlFields(toml: Toml)
    requires MapCargoToml(toml).Mapped?
    ensures var m := MapCargoToml(toml).meta;
      var package := toml.entries["package"].entries;
      && TReadsText(m.name, package["name"])
      && TReadsText(m.version, package["version"])
      && TReadsOptionalText(m.description, package["description"])
      && TReadsList(m.authors, package["authors"])
      && TReadsOptionalText(m.license, package["license"])
      && TReadsList(m.keywords, package["keywords"])
      && ReadsDetailed(m.dependencies, toml.entries["dependencies"])
      && m.scripts == None
  {
    CargoTomlPanics(toml);
    ManifestFields(toml, "package", ["dependencies"]);
    forall key | key in ManifestKeys { TGetPathPair(toml, "package", key); }
    TGetPathSingle(toml, "dependencies");
  }

  /** The pyproject.toml row of the mapping table. */
  lemma PyprojectTomlFields(toml: Toml)
    requires MapPyprojectToml(toml).Mapped?
    ensures var m := MapPyprojectToml(toml).meta;
      var project := toml.entries["project"].entries;
      && TReadsText(m.name, project["name"])
      && TReadsText(m.version, project["version"])
      && TReadsOptionalText(m.description, project["description"])
      && TReadsList(m.authors, project["authors"])
      && TReadsOptionalText(m.license, project["license"])
      && TReadsList(m.keywords, project["keywords"])
      && ReadsDetailed(m.dependencies, project["dependencies"])
      && m.scripts == None
  {
    PyprojectTomlPanics(toml);
    ManifestFields(toml, "project", ["project", "dependencies"]);
    forall key | key in ManifestKeys { TGetPathPair(toml, "project", key); }
    TGetPathPair(toml, "project", "dependencies");
  }

  // ---------------------------------------------------------------------------
  // Nothing is lost: each mapper inverts a writer of its own format
  // ---------------------------------------------------------------------------

  function JStrings(ss: seq<string>): seq<Json> {
    seq(|ss|, i requires 0 <= i < |ss| => JString(ss[i]))
  }

  function JStringMap(m: map<string, string>): Json {
    JObject(map k | k in m :: JString(m[k]))
  }

  /** An absent optional text is written as `null`, which reads back as absent. */
  function JOptionalText(o: Option<string>): Json {
    if o.Some? then JString(o.value) else JNull
  }

  /** The records a package.json can state: at most one author, and flat
      dependencies. */
  predicate PackageJsonExpressible(m: ProjectMetadata) {
    && (m.authors.Some? ==> |m.authors.value| == 1)
    && (m.dependencies.Some? ==> m.dependencies.value.Simple?)
  }

  /** A package.json document stating `m`. */
  function PackageJsonDoc(m: ProjectMetadata): Json
    requires PackageJsonExpressible(m)
  {
    JObject(map[
      "name" := JString(m.name),
      "version" := JString(m.version),
      "description" := JOptionalText(m.description),
      "author" := if m.authors.Some? then JString(m.authors.value[0]) else JNull,
      "license" := JOptionalText(m.license),
      "keywords" := if m.keywords.Some? then JArray(JStrings(m.keywords.value)) else JNull,
      "dependencies" := if m.dependencies.Some? then JStringMap(m.dependencies.value.versions) else JNull,
      "scripts" := if m.scripts.Some? then JStringMap(m.scripts.value) else JNull])
  }

  /** The records a deno.json can state: no authors, and flat dependencies. */
  predicate DenoJsonExpressible(m: ProjectMetadata) {
    m.authors.None? && (m.dependencies.Some? ==> m.dependencies.value.Simple?)
  }

  /** A deno.json document stating `m`. */
  function DenoJsonDoc(m: ProjectMetadata): Json
    requires DenoJsonExpressible(m)
  {
    JObject(map[
      "name" := JString(m.name),
      "version" := JString(m.version),
      "description" := JOptionalText(m.description),
      "license" := JOptionalText(m.license),
      "keywords" := if m.keywords.Some? then JArray(JStrings(m.keywords.value)) else JNull,
      "imports" := if m.dependencies.Some? then JStringMap(m.dependencies.value.versions) else JNull,
      "scripts" := if m.scripts.Some? then JStringMap(m.scripts.value) else JNull])
  }

  lemma {:induction false} JStringsRead(ss: seq<string>)
    ensures JStringList(JArray(JStrings(ss))) == Some(ss)
  {
    var r := MapStrings(JStrings(ss), JAsStr);
    assert |r| == |ss|;
    assert forall i :: 0 <= i < |ss| ==> r[i] == ss[i];
    assert r == ss;
  }

  lemma JStringMapRead(m: map<string, string>)
    ensures SimpleDependencies(JStringMap(m)) == Some(Simple(m))
    ensures JScripts(JStringMap(m)) == Some(m)
  {
    var fields := JStringMap(m).fields;
    var versions := map k | k in fields :: fields[k].s;
    assert versions.Keys == m.Keys;
    assert versions == m;
    var scripts := map k | k in fields :: JAsStr(fields[k]).GetOr("");
    assert scripts.Keys == m.Keys;
    assert scripts == m;
  }

  /** Reading back a written package.json gives the record that was written. */
  lemma PackageJsonRoundTrip(m: ProjectMetadata)
    requires PackageJsonExpressible(m)
    ensures MapPackageJson(PackageJsonDoc(m)) == Mapped(m)
  {
    var doc := PackageJsonDoc(m);
    if m.keywords.Some? { JStringsRead(m.keywords.value); }
    if m.dependencies.Some? { JStringMapRead(m.dependencies.value.versions); }
    if m.scripts.Some? { JStringMapRead(m.scripts.value); }
    if m.authors.Some? { assert m.authors.value == [m.authors.value[0]]; }
  }

  /** Reading back a written deno.json gives the record that was written. */
  lemma DenoJsonRoundTrip(m: ProjectMetadata)
    requires DenoJsonExpressible(m)
    ensures MapDenoJson(DenoJsonDoc(m)) == Mapped(m)
  {
    if m.keywords.Some? { JStringsRead(m.keywords.value); }
    if m.dependencies.Some? { JStringMapRead(m.dependencies.value.versions); }
    if m.scripts.Some? { JStringMapRead(m.scripts.value); }
  }

  function TStrings(ss: seq<string>): seq<Toml> {
    seq(|ss|, i requires 0 <= i < |ss| => TString(ss[i]))
  }

  /** TOML has no null and indexing a missing key panics, so an absent
      optional field is written as a present value that is not a string. */
  function TOptionalText(o: Option<string>): Toml {
    if o.Some? then TString(o.value) else TBoolean(false)
  }

  function TOptionalList(o: Option<seq<string>>): Toml {
    if o.Some? then TArray(TStrings(o.value)) else TBoolean(false)
  }

  /** One dependency entry: a table with its `version`, if any. */
  function TDependency(d: DependencyDetails): Toml {
    if d.version.Some? then TTable(map["version" := TString(d.version.value)]) else TTable(map[])
  }

  /** The records a Cargo.toml or pyproject.toml can state: no scripts, and
      detailed dependencies without URLs. */
  predicate ManifestExpressible(m: ProjectMetadata) {
    && m.scripts.None?
    && (m.dependencies.Some? ==>
          && m.dependencies.value.Detailed?
          && forall k :: k in m.dependencies.value.details ==> m.dependencies.value.details[k].url.None?)
  }

  function TDependencies(o: Option<Dependencies>): Toml
    requires o.Some? ==> o.value.Detailed?
  {
    if o.Some? then TTable(map k | k in o.value.details :: TDependency(o.value.details[k])) else TBoolean(false)
  }

  /** The six keys of `[package]` / `[project]` stating `m`. */
  function SectionEntries(m: ProjectMetadata): map<string, Toml> {
    map[
      "name" := TString(m.name),
      "version" := TString(m.version),
      "description" := TOptionalText(m.description),
      "authors" := TOptionalList(m.authors),
      "license" := TOptionalText(m.license),
      "keywords" := TOptionalList(m.keywords)]
  }

  /** A Cargo.toml document stating `m`. */
  function CargoTomlDoc(m: ProjectMetadata): Toml
    requires ManifestExpressible(m)
  {
    TTable(map["package" := TTable(SectionEntries(m)), "dependencies" := TDependencies(m.dependencies)])
  }

  /** A pyproject.toml document stating `m`. */
  function PyprojectTomlDoc(m: ProjectMetadata): Toml
    requires ManifestExpressible(m)
  {
    TTable(map["project" := TTable(SectionEntries(m)["dependencies" := TDependencies(m.dependencies)])])
  }

  lemma TextReadsBack(out: string, name: string)
    requires TReadsText(out, TString(name))
    ensures out == name
  {
  }

  lemma OptionalTextReadsBack(out: Option<string>, o: Option<string>)
    requires TReadsOptionalText(out, TOptionalText(o))
    ensures out == o
  {
  }

  lemma {:induction false} ListReadsBack(out: Option<seq<string>>, o: Option<seq<string>>)
    requires TReadsList(out, TOptionalList(o))
    ensures out == o
  {
    if o.Some? {
      assert |out.value| == |o.value|;
      assert forall i :: 0 <= i < |o.value| ==> out.value[i] == o.value[i];
      assert out.value == o.value;
    }
  }

  lemma {:induction false} DetailedReadsBack(out: Option<Dependencies>, o: Option<Dependencies>)
    requires ManifestExpressible(ProjectMetadata("", "", None, None, None, None, o, None))
    requires ReadsDetailed(out, TDependencies(o))
    ensures out == o
  {
    if o.Some? {
      var written, read := o.value.details, out.value.details;
      assert read.Keys == written.Keys;
      forall k | k in written ensures read[k] == written[k] {
        var entry := TDependency(written[k]);
        assert TDependencies(o).entries[k] == entry;
        if written[k].version.Some? {
          assert entry.entries["version"] == TString(written[k].version.value);
        } else {
          assert "version" !in entry.entries;
        }
      }
      assert read == written;
    }
  }

  /** A TOML mapper whose seven indexed paths hold the values written for `m`
      reads back `m`. */
  lemma ManifestRoundTrip(m: ProjectMetadata, toml: Toml, section: string, depsPath: seq<string>)
    requires ManifestExpressible(m)
    requires var paths := IndexedPaths(section, depsPath);
      && TGetPath(toml, paths[0]) == Some(TString(m.name))
      && TGetPath(toml, paths[1]) == Some(TString(m.version))
      && TGetPath(toml, paths[2]) == Some(TOptionalText(m.description))
      && TGetPath(toml, paths[3]) == Some(TOptionalList(m.authors))
      && TGetPath(toml, paths[4]) == Some(TOptionalText(m.license))
      && TGetPath(toml, paths[5]) == Some(TOptionalList(m.keywords))
      && TGetPath(toml, paths[6]) == Some(TDependencies(m.dependencies))
    ensures MapTomlManifest(toml, section, depsPath) == Mapped(m)
  {
    var paths := IndexedPaths(section, depsPath);
    assert MapTomlManifest(toml, section, depsPath).Mapped? by {
      ManifestPanics(toml, section, depsPath);
    }
    var r := MapTomlManifest(toml, section, depsPath).meta;
    ManifestFields(toml, section, depsPath);
    TextReadsBack(r.name, m.name);
    TextReadsBack(r.version, m.version);
    OptionalTextReadsBack(r.description, m.description);
    ListReadsBack(r.authors, m.authors);
    OptionalTextReadsBack(r.license, m.license);
    ListReadsBack(r.keywords, m.keywords);
    DetailedReadsBack(r.dependencies, m.dependencies);
  }

  /** Reading back a written Cargo.toml gives the record that was written. */
  lemma CargoTomlRoundTrip(m: ProjectMetadata)
    requires ManifestExpressible(m)
    ensures MapCargoToml(CargoTomlDoc(m)) == Mapped(m)
  {
    var doc := CargoTomlDoc(m);
    var entries := SectionEntries(m);
    assert doc.entries["package"] == TTable(entries);
    TGetPathPair(doc, "package", "name");
    TGetPathPair(doc, "package", "version");
    TGetPathPair(doc, "package", "description");
    TGetPathPair(doc, "package", "authors");
    TGetPathPair(doc, "package", "license");
    TGetPathPair(doc, "package", "keywords");
    TGetPathSingle(doc, "dependencies");
    ManifestRoundTrip(m, doc, "package", ["dependencies"]);
  }

  /** Reading back a written pyproject.toml gives the record that was written. */
  lemma PyprojectTomlRoundTrip(m: ProjectMetadata)
    requires ManifestExpressible(m)
    ensures MapPyprojectToml(PyprojectTomlDoc(m)) == Mapped(m)
  {
    var doc := PyprojectTomlDoc(m);
    var entries := SectionEntries(m)["dependencies" := TDependencies(m.dependencies)];
    assert doc.entries["project"] == TTable(entries);
    TGetPathPair(doc, "project", "name");
    TGetPathPair(doc, "project", "version");
    TGetPathPair(doc, "project", "description");
    TGetPathPair(doc, "project", "authors");
    TGetPathPair(doc, "project", "license");
    TGetPathPair(doc, "project", "keywords");
    TGetPathPair(doc, "project", "dependencies");
    ManifestRoundTrip(m, doc, "project", ["project", "dependencies"]);
  }
}

/** Reading one config file into a record (`from_config`), the batch loader
    (`load_from_config_files`) and the canonical four-file probe
    (`from_detected_config_files`). File system and parsers are inputs: the
    model never performs I/O. */
module Loader {
  import opened Common
  import opened Values
  import opened Metadata
  import opened Mappers

  /** What reading an openable path gives: a read failure, or its text. A path
      that is not in the file map cannot be opened. */
  datatype FileState = Unreadable | Readable(contents: string)

  /** The world `from_config` runs in: the files, and the two parsers
      (`serde_json::from_str`, `toml::from_str`), which give None for text that
      does not parse. */
  datatype Env = Env(
    files: map<string, FileState>,
    parseJson: string -> Option<Json>,
    parseToml: string -> Option<Toml>)

  function FromMapping(m: Mapping): Outcome<ProjectMetadata> {
    match m
    case Mapped(meta) => Ok(meta)
    case Panicked(cause) => Panic(cause)
  }

  /** `ProjectMetadata::from_config`: open, read, parse by the reference's
      format, and map. Every error names the reference's own path. */
  function FromConfig(env: Env, configFile: ConfigFile): (r: Outcome<ProjectMetadata>)
    ensures r == Err(FileNotFound(FilePath(configFile))) <==> FilePath(configFile) !in env.files
    ensures r == Err(ReadError(FilePath(configFile))) <==>
      FilePath(configFile) in env.files && env.files[FilePath(configFile)].Unreadable?
    ensures r.Err? ==> !r.error.NoFilesFound? && r.error.path == FilePath(configFile)
    ensures r.Err? && r.error.JsonParseError? ==> configFile.PackageJson? || configFile.DenoJson?
    ensures r.Err? && r.error.TomlParseError? ==> configFile.CargoToml? || configFile.PyprojectToml?
  {
    var path := FilePath(configFile);
    if path !in env.files then Err(FileNotFound(path))
    else match env.files[path]
      case Unreadable => Err(ReadError(path))
      case Readable(contents) =>
        match configFile
        case PackageJson(_) =>
          (match env.parseJson(contents)
           case None => Err(JsonParseError(path))
           case Some(json) => FromMapping(MapPackageJson(json)))
        case CargoToml(_) =>
          (match env.parseToml(contents)
           case None => Err(TomlParseError(path))
           case Some(toml) => FromMapping(MapCargoToml(toml)))
        case DenoJson(_) =>
          (match env.parseJson(contents)
           case None => Err(JsonParseError(path))
           case Some(json) => FromMapping(MapDenoJson(json)))
        case PyprojectToml(_) =>
          (match env.parseToml(contents)
           case None => Err(TomlParseError(path))
           case Some(toml) => FromMapping(MapPyprojectToml(toml)))
  }

  /** The mapping a readable file gets from its format's arm: None when the
      format's parser rejects the text, otherwise the format's mapper applied
      to the parsed tree. */
  function MapperFor(env: Env, configFile: ConfigFile, contents: string): Option<Mapping> {
    if configFile.PackageJson? || configFile.DenoJson? then
      match env.parseJson(contents)
      case None => None
      case Some(json) => Some(if configFile.PackageJson? then MapPackageJson(json) else MapDenoJson(json))
    else
      match env.parseToml(contents)
      case None => None
      case Some(toml) => Some(if configFile.CargoToml? then MapCargoToml(toml) else MapPyprojectToml(toml))
  }

  /** A file that can be read gives its format's parse error exactly when its
      format's parser rejects the text; otherwise its outcome is its format's
      mapper applied to the parsed tree: the record it maps to, or its panic. */
  lemma FromConfigReadable(env: Env, configFile: ConfigFile)
    requires FilePath(configFile) in env.files && env.files[FilePath(configFile)].Readable?
    ensures var path := FilePath(configFile);
      var contents := env.files[path].contents;
      var r := FromConfig(env, configFile);
      var mapping := MapperFor(env, configFile, contents);
      && (r == Err(JsonParseError(path)) <==>
            (configFile.PackageJson? || configFile.DenoJson?) && env.parseJson(contents).None?)
      && (r == Err(TomlParseError(path)) <==>
            (configFile.CargoToml? || configFile.PyprojectToml?) && env.parseToml(contents).None?)
      && (r.Err? <==> mapping.None?)
      && (r.Ok? <==> mapping.Some? && mapping.value.Mapped?)
      && (r.Ok? ==> mapping.value == Mapped(r.value))
      && (r.Panic? <==> mapping.Some? && mapping.value.Panicked?)
      && (r.Panic? ==> mapping.value == Panicked(r.cause))
  {
  }

  /** A reference whose file could not be opened: the loader skips it. */
  predicate Absent(o: Outcome<ProjectMetadata>) {
    o.Err? && o.error.FileNotFound?
  }

  /** Any other failure, including a panic, ends the batch. */
  predicate Fatal(o: Outcome<ProjectMetadata>) {
    !o.Ok? && !Absent(o)
  }

  /** What `from_config` gives for each reference, in order. */
  function Outcomes(env: Env, configFiles: seq<ConfigFile>): (os: seq<Outcome<ProjectMetadata>>)
    ensures |os| == |configFiles|
    ensures forall i :: 0 <= i < |configFiles| ==> os[i] == FromConfig(env, configFiles[i])
  {
    seq(|configFiles|, i requires 0 <= i < |configFiles| => FromConfig(env, configFiles[i]))
  }

  /** The records of the successful outcomes, in order. */
  function Records(os: seq<Outcome<ProjectMetadata>>): (records: seq<ProjectMetadata>)
    ensures |records| <= |os|
  {
    if os == [] then []
    else Records(os[..|os| - 1]) + (if os[|os| - 1].Ok? then [os[|os| - 1].value] else [])
  }

  /** Extending the prefix by one outcome adds its record, if it has one. */
  lemma RecordsStep(os: seq<Outcome<ProjectMetadata>>, i: nat)
    requires i < |os|
    ensures Records(os[..i + 1]) == Records(os[..i]) + (if os[i].Ok? then [os[i].value] else [])
  {
    assert os[..i + 1][..i] == os[..i];
  }

  /** Passes a failure of one reference on as the failure of a larger operation. */
  function Relay<S, T>(o: Outcome<S>): Outcome<T>
    requires !o.Ok?
  {
    if o.Err? then Err(o.error) else Panic(o.cause)
  }

  /** What `load_from_config_files` returns: the failure of the first
      reference that fails other than by being absent; otherwise the loaded
      records in input order, or `NoFilesFound` when there are none. */
  function Load(env: Env, configFiles: seq<ConfigFile>): (r: Outcome<seq<ProjectMetadata>>)
    ensures r.Ok? ==> 0 < |r.value| <= |configFiles|
  {
    Decide(Outcomes(env, configFiles))
  }

  /** The batch result as a function of the per-reference outcomes alone. */
  function Decide(os: seq<Outcome<ProjectMetadata>>): (r: Outcome<seq<ProjectMetadata>>)
    ensures r.Ok? ==> 0 < |r.value| <= |os|
  {
    var k := FirstIndex(os, Fatal);
    if k < |os| then Relay(os[k])
    else if Records(os) == [] then Err(NoFilesFound)
    else Ok(Records(os))
  }

  lemma DecideAtFirstFatal(os: seq<Outcome<ProjectMetadata>>, i: nat)
    requires i < |os| && Fatal(os[i])
    requires forall j :: 0 <= j < i ==> !Fatal(os[j])
    ensures Decide(os) == Relay(os[i])
  {
    FirstIndexIs(os, Fatal, i);
  }

  lemma DecideWithoutFatal(os: seq<Outcome<ProjectMetadata>>)
    requires forall j :: 0 <= j < |os| ==> !Fatal(os[j])
    ensures Decide(os) == if Records(os) == [] then Err(NoFilesFound) else Ok(Records(os))
  {
    FirstIndexIs(os, Fatal, |os|);
  }

  /** `ProjectMetadata::load_from_config_files`. */
  method LoadFromConfigFiles(env: Env, configFiles: seq<ConfigFile>) returns (r: Outcome<seq<ProjectMetadata>>)
    ensures r == Load(env, configFiles)
  {
    ghost var os := Outcomes(env, configFiles);
    var metadataList: seq<ProjectMetadata> := [];
    var i := 0;
    while i < |configFiles|
      invariant 0 <= i <= |configFiles|
      invariant forall j :: 0 <= j < i ==> !Fatal(os[j])
      invariant metadataList == Records(os[..i])
    {
      var outcome := FromConfig(env, configFiles[i]);
      assert os[i] == outcome;
      RecordsStep(os, i);
      if outcome.Ok? {
        metadataList := metadataList + [outcome.value];
      } else if outcome.Err? && outcome.error.FileNotFound? {
        // an absent file is skipped
      } else {
        DecideAtFirstFatal(os, i);
        return Relay(outcome);
      }
      i := i + 1;
    }
    assert os[..i] == os;
    DecideWithoutFatal(os);
    if metadataList == [] {
      return Err(NoFilesFound);
    }
    return Ok(metadataList);
  }

  /** The conventional file name of each format. */
  function CanonicalName(configFile: ConfigFile): string {
    match configFile
    case PackageJson(_) => "package.json"
    case CargoToml(_) => "Cargo.toml"
    case DenoJson(_) => "deno.json"
    case PyprojectToml(_) => "pyproject.toml"
  }

  /** The four references probed for a project root, in fixed order. */
  function DetectedConfigFiles(cwd: string): (configFiles: seq<ConfigFile>)
    ensures |configFiles| == 4
    ensures configFiles[0].PackageJson? && configFiles[1].CargoToml?
    ensures configFiles[2].DenoJson? && configFiles[3].PyprojectToml?
    ensures forall i :: 0 <= i < 4 ==> FilePath(configFiles[i]) == cwd + "/" + CanonicalName(configFiles[i])
  {
    assert "/" + "package.json" == "/package.json" && "/" + "Cargo.toml" == "/Cargo.toml";
    assert "/" + "deno.json" == "/deno.json" && "/" + "pyproject.toml" == "/pyproject.toml";
    [PackageJson(cwd + "/package.json"), CargoToml(cwd + "/Cargo.toml"),
     DenoJson(cwd + "/deno.json"), PyprojectToml(cwd + "/pyproject.toml")]
  }

  /** `ProjectMetadata::from_detected_config_files`. */
  method FromDetectedConfigFiles(env: Env, cwd: string) returns (r: Outcome<seq<ProjectMetadata>>)
    ensures r == Load(env, DetectedConfigFiles(cwd))
    ensures r.Ok? ==> 1 <= |r.value| <= 4
  {
    var configFiles := DetectedConfigFiles(cwd);
    r := LoadFromConfigFiles(env, configFiles);
  }

  // ---------------------------------------------------------------------------
  // The loader's policy: skip the absent, stop at the first failure, keep order
  // ---------------------------------------------------------------------------

  /** The positions of the successful outcomes, in order. */
  function LoadedIndices(os: seq<Outcome<ProjectMetadata>>): (idx: seq<nat>)
    ensures forall j :: 0 <= j < |idx| ==> idx[j] < |os|
  {
    if os == [] then []
    else LoadedIndices(os[..|os| - 1]) + (if os[|os| - 1].Ok? then [|os| - 1] else [])
  }

  /** The positions of the successful outcomes are increasing, each holds the
      record at the same place in `Records`, and none is missed. */
  lemma {:induction false} LoadedIndicesExact(os: seq<Outcome<ProjectMetadata>>)
    ensures |LoadedIndices(os)| == |Records(os)|
    ensures forall j :: 0 <= j < |LoadedIndices(os)| ==> os[LoadedIndices(os)[j]] == Ok(Records(os)[j])
    ensures forall j1, j2 :: 0 <= j1 < j2 < |LoadedIndices(os)| ==> LoadedIndices(os)[j1] < LoadedIndices(os)[j2]
    ensures forall i :: 0 <= i < |os| && os[i].Ok? ==> i in LoadedIndices(os)
  {
    if os != [] {
      var n := |os| - 1;
      var front := os[..n];
      LoadedIndicesExact(front);
      assert forall i :: 0 <= i < n ==> front[i] == os[i];
      var idx0, rec0 := LoadedIndices(front), Records(front);
      if os[n].Ok? {
        assert LoadedIndices(os) == idx0 + [n];
        assert Records(os) == rec0 + [os[n].value];
      } else {
        assert LoadedIndices(os) == idx0;
        assert Records(os) == rec0;
      }
    }
  }

  /** The references whose records the loader returned, in order. */
  function LoadedRefs(env: Env, configFiles: seq<ConfigFile>): seq<ConfigFile> {
    var idx := LoadedIndices(Outcomes(env, configFiles));
    seq(|idx|, j requires 0 <= j < |idx| => configFiles[idx[j]])
  }

  /** A successful batch is exactly the records of the references that loaded,
      in input order; every other reference was absent. */
  lemma LoadKeepsInputOrder(env: Env, configFiles: seq<ConfigFile>)
    requires Load(env, configFiles).Ok?
    ensures var list, refs := Load(env, configFiles).value, LoadedRefs(env, configFiles);
      && |refs| == |list|
      && (forall j :: 0 <= j < |list| ==> refs[j] in configFiles && FromConfig(env, refs[j]) == Ok(list[j]))
      && (forall j1, j2 :: 0 <= j1 < j2 < |list| ==>
            exists i1, i2 :: 0 <= i1 < i2 < |configFiles| && configFiles[i1] == refs[j1] && configFiles[i2] == refs[j2])
      && (forall i :: 0 <= i < |configFiles| && configFiles[i] !in refs ==> Absent(FromConfig(env, configFiles[i])))
  {
    var os := Outcomes(env, configFiles);
    var idx := LoadedIndices(os);
    var refs := LoadedRefs(env, configFiles);
    LoadedIndicesExact(os);
    forall j1, j2 | 0 <= j1 < j2 < |idx|
      ensures exists i1, i2 :: 0 <= i1 < i2 < |configFiles| && configFiles[i1] == refs[j1] && configFiles[i2] == refs[j2]
    {
      assert configFiles[idx[j1]] == refs[j1] && configFiles[idx[j2]] == refs[j2];
    }
    forall i | 0 <= i < |configFiles| && os[i].Ok?
      ensures configFiles[i] in refs
    {
      var j :| 0 <= j < |idx| && idx[j] == i;
      assert refs[j] == configFiles[i];
    }
  }

  lemma {:induction false} RecordsEmpty(os: seq<Outcome<ProjectMetadata>>)
    ensures Records(os) == [] <==> forall i :: 0 <= i < |os| ==> !os[i].Ok?
  {
    if os != [] {
      var front := os[..|os| - 1];
      RecordsEmpty(front);
      assert forall i :: 0 <= i < |front| ==> front[i] == os[i];
    }
  }

  /** `NoFilesFound` is returned exactly when every reference was absent, and
      never otherwise. */
  lemma LoadNoFilesFound(env: Env, configFiles: seq<ConfigFile>)
    ensures Load(env, configFiles) == Err(NoFilesFound) <==>
      forall i :: 0 <= i < |configFiles| ==> Absent(FromConfig(env, configFiles[i]))
  {
    RecordsEmpty(Outcomes(env, configFiles));
  }

  /** A project directory with none of the files gives `NoFilesFound`. */
  lemma AllAbsentGivesNoFilesFound(env: Env, configFiles: seq<ConfigFile>)
    requires forall i :: 0 <= i < |configFiles| ==> FilePath(configFiles[i]) !in env.files
    ensures Load(env, configFiles) == Err(NoFilesFound)
  {
    LoadNoFilesFound(env, configFiles);
  }

  /** A file whose format's parser rejects its text fails the batch with that
      format's parse error, as it fails `from_config` itself, unless an
      earlier reference already failed. */
  lemma LoadParseError(env: Env, configFiles: seq<ConfigFile>, i: nat)
    requires i < |configFiles|
    requires forall j :: 0 <= j < i ==> !Fatal(FromConfig(env, configFiles[j]))
    requires FilePath(configFiles[i]) in env.files && env.files[FilePath(configFiles[i])].Readable?
    ensures var cf := configFiles[i];
      var contents := env.files[FilePath(cf)].contents;
      && ((cf.PackageJson? || cf.DenoJson?) && env.parseJson(contents).None? ==>
            Load(env, configFiles) == Err(JsonParseError(FilePath(cf))))
      && ((cf.CargoToml? || cf.PyprojectToml?) && env.parseToml(contents).None? ==>
            Load(env, configFiles) == Err(TomlParseError(FilePath(cf))))
  {
    FromConfigReadable(env, configFiles[i]);
    if FromConfig(env, configFiles[i]).Err? {
      LoadStopsAtFirstFailure(env, configFiles, i, []);
    }
  }

  /** The first reference that fails other than by being absent decides the
      batch, unchanged, and nothing after it is looked at. */
  lemma LoadStopsAtFirstFailure(env: Env, configFiles: seq<ConfigFile>, i: nat, rest: seq<ConfigFile>)
    requires i < |configFiles| && Fatal(FromConfig(env, configFiles[i]))
    requires forall j :: 0 <= j < i ==> !Fatal(FromConfig(env, configFiles[j]))
    ensures Load(env, configFiles) == Relay(FromConfig(env, configFiles[i]))
    ensures Load(env, configFiles[..i + 1] + rest) == Load(env, configFiles)
  {
    var os := Outcomes(env, configFiles);
    var k := FirstIndex(os, Fatal);
    assert os[i] == FromConfig(env, configFiles[i]);
    assert k == i;
    var other := configFiles[..i + 1] + rest;
    var os' := Outcomes(env, other);
    assert forall j :: 0 <= j <= i ==> other[j] == configFiles[j];
    var k' := FirstIndex(os', Fatal);
    assert os'[i] == os[i];
    assert k' == i;
  }

  lemma {:induction false} RecordsAppend(a: seq<Outcome<ProjectMetadata>>, b: seq<Outcome<ProjectMetadata>>)
    ensures Records(a + b) == Records(a) + Records(b)
    decreases |b|
  {
    if b == [] {
      assert a + b == a;
    } else {
      var front := b[..|b| - 1];
      assert (a + b)[..|a + b| - 1] == a + front;
      RecordsAppend(a, front);
    }
  }

  /** Inserting an absent outcome anywhere leaves the batch result as it was. */
  lemma DecideSkipsAbsent(os: seq<Outcome<ProjectMetadata>>, i: nat, o: Outcome<ProjectMetadata>)
    requires i <= |os| && Absent(o)
    ensures Decide(os[..i] + [o] + os[i..]) == Decide(os)
  {
    var os' := os[..i] + [o] + os[i..];
    assert os == os[..i] + os[i..];
    RecordsAppend(os[..i] + [o], os[i..]);
    RecordsAppend(os[..i], [o]);
    RecordsAppend(os[..i], os[i..]);
    assert Records([o]) == [] by { assert [o][..0] == []; }
    assert Records(os') == Records(os);
    FirstIndexInsert(os, i, o, Fatal);
    var k := FirstIndex(os, Fatal);
    if k < |os| {
      if k < i { assert os'[k] == os[k]; } else { assert os'[k + 1] == os[k]; }
    }
  }

  /** Adding a reference that is absent, anywhere, changes nothing. */
  lemma LoadSkipsAbsent(env: Env, configFiles: seq<ConfigFile>, i: nat, absent: ConfigFile)
    requires i <= |configFiles| && Absent(FromConfig(env, absent))
    ensures Load(env, configFiles[..i] + [absent] + configFiles[i..]) == Load(env, configFiles)
  {
    var os := Outcomes(env, configFiles);
    assert Outcomes(env, configFiles[..i] + [absent] + configFiles[i..]) == os[..i] + [FromConfig(env, absent)] + os[i..];
    DecideSkipsAbsent(os, i, FromConfig(env, absent));
  }
}

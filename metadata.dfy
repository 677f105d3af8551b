/** The unified project record, its dependency variants, the error kinds and
    the config-file references. */
module Metadata {
  import opened Common

  /** The normalised description of a project, whichever file it came from. */
  datatype ProjectMetadata = ProjectMetadata(
    name: string,
    version: string,
    description: Option<string>,
    authors: Option<seq<string>>,
    license: Option<string>,
    keywords: Option<seq<string>>,
    dependencies: Option<Dependencies>,
    scripts: Option<map<string, string>>)

  /** Flat name-to-version pairs (the JSON formats) or name-to-details tables
      (the TOML formats). The format that produced a record fixes the variant. */
  datatype Dependencies =
    | Simple(versions: map<string, string>)
    | Detailed(details: map<string, DependencyDetails>)

  datatype DependencyDetails = DependencyDetails(version: Option<string>, url: Option<string>)

  datatype MetadataError =
    | FileNotFound(path: string)
    | ReadError(path: string)
    | JsonParseError(path: string)
    | TomlParseError(path: string)
    | NoFilesFound

  /** A candidate source file: its format, and the path it is read from. */
  datatype ConfigFile =
    | PackageJson(path: string)
    | CargoToml(path: string)
    | DenoJson(path: string)
    | PyprojectToml(path: string)

  /** `ConfigFile::file_path`: the path the reference carries, whatever its
      format. */
  function FilePath(configFile: ConfigFile): (p: string)
    ensures configFile in {PackageJson(p), CargoToml(p), DenoJson(p), PyprojectToml(p)}
  {
    match configFile
    case PackageJson(path) => path
    case CargoToml(path) => path
    case DenoJson(path) => path
    case PyprojectToml(path) => path
  }

  /** Why a mapper panics: `as_str().unwrap()` met a dependency value of a
      JSON object (named by `table`) that is not a string, or TOML indexing
      did not find `path`. */
  datatype PanicCause =
    | NonStringDependency(table: string)
    | MissingKey(path: seq<string>)

  /** What an operation of the engine ends in: a value, a returned error, or a
      panic that unwinds through every caller. */
  datatype Outcome<T> =
    | Ok(value: T)
    | Err(error: MetadataError)
    | Panic(cause: PanicCause)
}

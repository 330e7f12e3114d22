/** What project discovery computes, as functions of one moment of the file system
    (src/compiler/project.rs, src/compiler/resolver.rs). Parsing, `oxc` resolution and
    file contents are the functions of a `Toolchain`. */
module ProjectModel {
  import opened Wrappers
  import opened Stamps

  type Error = string

  /** A resolved request: its module, and the `package.json` consulted for it. */
  datatype Resolved = Resolved(path: Path, packageJson: Option<Path>)

  /** A resolver for one entry: its project root and the tsconfig chain it reads. */
  datatype Resolver = Resolver(root: Path, tsconfigFiles: seq<Path>)

  /** `read` takes the stamp, so equal stamps mean equal contents. `importsOf` lists the
      requests of a source in order; `footprint` is what resolving a request looks at;
      `sorted` enumerates a set of paths in path order. */
  datatype Toolchain = Toolchain(
    read: (Path, FileStamp) -> Result<string, Error>,
    importsOf: (string, string) -> Result<seq<string>, Error>,
    resolve: (World, Resolver, Path, string) -> Result<Resolved, Error>,
    footprint: (World, Resolver, Path, string) -> set<Path>,
    tsconfigChain: (World, Path) -> seq<Path>,
    sorted: set<Path> -> seq<Path>)

  datatype KnownModule = KnownModule(
    stamp: Option<FileStamp>, displayPath: string, source: string,
    resolvedRequests: map<string, string>, dependencies: seq<Path>, packageJsons: seq<Path>)

  // ------------------------------------------------------------------------ paths

  function Join(parts: seq<string>): string {
    if parts == [] then "" else if |parts| == 1 then parts[0] else parts[0] + "/" + Join(parts[1..])
  }

  function ModuleId(path: Path): string { "/" + Join(path) }

  /** What is left of a path below the root, or all of it outside. */
  function DisplayPath(root: Path, path: Path): string {
    if root <= path then Join(path[|root|..]) else ModuleId(path)
  }

  /** Every proper prefix of `path` within the root. */
  function DirectoriesOf(root: Path, path: Path): set<Path> {
    if root <= path then set i | |root| <= i < |path| :: path[..i] else {}
  }

  const TSCONFIG := "tsconfig.json"

  /** The nearest `tsconfig.json` at or above `directory`. */
  function FindTsconfig(w: World, directory: Path): Option<Path> {
    if directory + [TSCONFIG] in w then Some(directory + [TSCONFIG])
    else if directory == [] then None
    else FindTsconfig(w, directory[..|directory| - 1])
  }

  function ForEntry(tc: Toolchain, w: World, entry: Path): Result<Resolver, Error> {
    if entry == [] then Err("entry has no parent directory")
    else
      var directory := entry[..|entry| - 1];
      var tsconfig := FindTsconfig(w, directory);
      if tsconfig.None? then Ok(Resolver(directory, []))
      else
        TsconfigIsFile(w, directory);
        Ok(Resolver(tsconfig.value[..|tsconfig.value| - 1], tc.tsconfigChain(w, tsconfig.value)))
  }

  lemma TsconfigIsFile(w: World, directory: Path)
    ensures var found := FindTsconfig(w, directory);
      found.Some? ==> |found.value| > 0 && found.value[..|found.value| - 1] <= directory
  {
    if directory + [TSCONFIG] in w {
      assert (directory + [TSCONFIG])[..|directory|] == directory;
    } else if directory != [] {
      TsconfigIsFile(w, directory[..|directory| - 1]);
    }
  }

  // ---------------------------------------------------------------- one module

  datatype Resolutions = Resolutions(requests: map<string, string>, targets: set<Path>, packageJsons: seq<Path>)

  const NONE_RESOLVED := Resolutions(map[], {}, [])

  /** Resolves `requests` in order, stopping at the first that fails; requests naming an
      external module stay as they are. */
  function ResolveAll(
      tc: Toolchain, w: World, resolver: Resolver, external: set<string>, path: Path,
      requests: seq<string>, done: Resolutions): Result<Resolutions, Error>
  {
    if requests == [] then Ok(done)
    else
      var next := ResolveOne(tc, w, resolver, external, path, requests[0], done);
      if next.Err? then next else ResolveAll(tc, w, resolver, external, path, requests[1..], next.value)
  }

  function ResolveOne(
      tc: Toolchain, w: World, resolver: Resolver, external: set<string>, path: Path,
      request: string, done: Resolutions): Result<Resolutions, Error>
  {
    if request in external then Ok(done.(requests := done.requests[request := request]))
    else
      match tc.resolve(w, resolver, path, request)
      case Err(error) => Err(error)
      case Ok(resolved) =>
        Ok(Resolutions(
          done.requests[request := ModuleId(resolved.path)],
          done.targets + {resolved.path},
          done.packageJsons + if resolved.packageJson.Some? then [resolved.packageJson.value] else []))
  }

  function ResolveModule(
      tc: Toolchain, w: World, resolver: Resolver, external: set<string>, path: Path,
      stamp: Option<FileStamp>, source: string): Result<KnownModule, Error>
  {
    var displayPath := DisplayPath(resolver.root, path);
    match tc.importsOf(source, displayPath)
    case Err(error) => Err(error)
    case Ok(requests) =>
      match ResolveAll(tc, w, resolver, external, path, requests, NONE_RESOLVED)
      case Err(error) => Err(error)
      case Ok(all) =>
        Ok(KnownModule(stamp, displayPath, source, all.requests, tc.sorted(all.targets), all.packageJsons))
  }

  function Read(tc: Toolchain, w: World, path: Path): Result<string, Error> {
    if path in w then tc.read(path, w[path]) else Err("file not found")
  }

  /** A module read and resolved afresh. */
  function Load(tc: Toolchain, w: World, resolver: Resolver, external: set<string>, path: Path): Result<KnownModule, Error> {
    match Read(tc, w, path)
    case Err(error) => Err(error)
    case Ok(source) => ResolveModule(tc, w, resolver, external, path, StampOf(w, path), source)
  }

  // --------------------------------------------------------------------- the walk

  datatype Walk = Walk(modules: map<Path, KnownModule>, failed: Option<(Path, Error)>)

  /** Depth first from `path`, every module loaded afresh. */
  function Visit(
      tc: Toolchain, w: World, resolver: Resolver, external: set<string>,
      modules: map<Path, KnownModule>, path: Path): (walk: Walk)
    ensures modules.Keys <= walk.modules.Keys
    decreases |w.Keys - modules.Keys|, 0
  {
    if path in modules then Walk(modules, None)
    else
      match Load(tc, w, resolver, external, path)
      case Err(error) => Walk(modules, Some((path, error)))
      case Ok(found) =>
        FewerLeft(w, modules, path, found);
        VisitAll(tc, w, resolver, external, modules[path := found], found.dependencies)
  }

  function VisitAll(
      tc: Toolchain, w: World, resolver: Resolver, external: set<string>,
      modules: map<Path, KnownModule>, paths: seq<Path>): (walk: Walk)
    ensures modules.Keys <= walk.modules.Keys
    decreases |w.Keys - modules.Keys|, 1 + |paths|
  {
    if paths == [] then Walk(modules, None)
    else
      var first := Visit(tc, w, resolver, external, modules, paths[0]);
      if first.failed.Some? then first
      else
        NoMoreLeft(w, modules, first.modules);
        VisitAll(tc, w, resolver, external, first.modules, paths[1..])
  }

  lemma FewerLeft<T>(w: World, modules: map<Path, T>, path: Path, found: T)
    requires path in w && path !in modules
    ensures |w.Keys - modules[path := found].Keys| < |w.Keys - modules.Keys|
  {
    assert w.Keys - modules[path := found].Keys == w.Keys - modules.Keys - {path};
  }

  lemma NoMoreLeft<T>(w: World, modules: map<Path, T>, more: map<Path, T>)
    requires modules.Keys <= more.Keys
    ensures |w.Keys - more.Keys| <= |w.Keys - modules.Keys|
  {
    var a, b := w.Keys - more.Keys, w.Keys - modules.Keys;
    assert b == a + (b - a);
  }

  /** Discovery from nothing: every module, or the first error. */
  function Scratch(tc: Toolchain, w: World, entry: Path, external: set<string>): Result<map<Path, KnownModule>, Error> {
    if entry !in w then Err("entry path does not exist")
    else
      match ForEntry(tc, w, entry)
      case Err(error) => Err(error)
      case Ok(resolver) =>
        var walk := Visit(tc, w, resolver, external, map[], entry);
        if walk.failed.Some? then Err(walk.failed.value.1) else Ok(walk.modules)
  }
}

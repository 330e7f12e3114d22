/** One discovery after another (src/compiler/project.rs): reuse never changes the answer,
    and what a discovery watches is what its answer depends on. */
module IncrementalDiscovery {
  import opened Wrappers
  import opened Stamps
  import opened ProjectModel
  import opened ProjectLaws
  import opened Discovery

  datatype DiscoveredModule = DiscoveredModule(
    moduleId: string, displayPath: string, source: string, resolvedRequests: map<string, string>)

  datatype DiscoveredProject = DiscoveredProject(
    entryModuleId: string, modules: seq<DiscoveredModule>, watched: Watched)

  datatype ProjectFailure = ProjectFailure(error: Error, watched: Watched)

  function Describe(path: Path, known: KnownModule): DiscoveredModule {
    DiscoveredModule(ModuleId(path), known.displayPath, known.source, known.resolvedRequests)
  }

  /** The resolver a discovery walks with: the previous one while its structure holds. */
  function ResolverFor(
      tc: Toolchain, w: World, entry: Path, external: set<string>, previous: Option<ProjectState>): Result<Resolver, Error>
  {
    if previous.Some? && Reusable(previous.value, w, external) then Ok(previous.value.resolver)
    else ForEntry(tc, w, entry)
  }

  /** Discovery from nothing with a given resolver. */
  function ScratchWith(
      tc: Toolchain, w: World, entry: Path, external: set<string>, resolver: Result<Resolver, Error>)
    : Result<map<Path, KnownModule>, Error>
  {
    if entry !in w then Err("entry path does not exist")
    else
      match resolver
      case Err(error) => Err(error)
      case Ok(resolver) =>
        var walk := Visit(tc, w, resolver, external, map[], entry);
        if walk.failed.Some? then Err(walk.failed.value.1) else Ok(walk.modules)
  }

  function StampsOf(modules: map<Path, KnownModule>): Watched {
    map path | path in modules :: modules[path].stamp
  }

  /** What a failed discovery watches: everything it looked at, down to the module that
      failed. */
  ghost predicate WatchesFailure(
      tc: Toolchain, w: World, entry: Path, external: set<string>, resolver: Resolver, watched: Watched)
  {
    var walk := Visit(tc, w, resolver, external, map[], entry);
    walk.failed.Some? ==>
      && Current(watched, w) && walk.modules.Keys <= watched.Keys
      && Covers(watched, resolver, walk.modules) && Elements(resolver.tsconfigFiles) <= watched.Keys
      && DirectoriesOf(resolver.root, walk.failed.value.0) <= watched.Keys && walk.failed.value.0 in watched
  }

  ghost predicate WatchesNothingElse(
      tc: Toolchain, w: World, entry: Path, external: set<string>, resolver: Resolver, watched: Watched)
  {
    var walk := Visit(tc, w, resolver, external, map[], entry);
    forall path | path in watched ::
      path in resolver.tsconfigFiles || path in walk.modules || WatchedFor(resolver, walk.modules, Failing(walk), path)
  }

  ghost predicate WatchesProject(resolver: Resolver, modules: map<Path, KnownModule>, w: World, watched: Watched) {
    && Current(watched, w) && modules.Keys <= watched.Keys
    && Covers(watched, resolver, modules) && Elements(resolver.tsconfigFiles) <= watched.Keys
  }

  /** Discovers the project of `entry` in moment `w`, reusing `previous`, the state an
      earlier discovery left in moment `before`. The outcome is that of a walk from
      nothing with the resolver in use. */
  method DiscoverProject(
      tc: Toolchain, w: World, entry: Path, external: set<string>, previous: Option<ProjectState>, ghost before: World)
    returns (outcome: Result<(DiscoveredProject, ProjectState), ProjectFailure>)
    requires Lawful(tc)
    requires previous.Some? ==> StateFrom(tc, before, entry, previous.value)
    ensures var resolver := ResolverFor(tc, w, entry, external, previous);
      var scratch := ScratchWith(tc, w, entry, external, resolver);
      match outcome
      case Ok((project, state)) =>
        && scratch == Ok(state.modules) && resolver == Ok(state.resolver) && state.external == external
        && StateFrom(tc, w, entry, state)
        && project.entryModuleId == ModuleId(entry)
        && project.modules == DescribeAll(tc.sorted(state.modules.Keys), state.modules)
        && WatchesProject(state.resolver, state.modules, w, project.watched)
      case Err(failure) =>
        && scratch == Err(failure.error)
        && (entry in w && resolver.Ok? ==> WatchesFailure(tc, w, entry, external, resolver.value, failure.watched))
        && (entry in w && resolver.Ok? && previous.None? ==>
              WatchesNothingElse(tc, w, entry, external, resolver.value, failure.watched))
  {
    if entry !in w {
      return Err(ProjectFailure("entry path does not exist", map[]));
    }
    var known: map<Path, KnownModule>, structure: Watched, resolver: Resolver := map[], map[], Resolver([], []);
    var reused := false;
    if previous.Some? {
      var state := previous.value;
      known := state.modules;
      if Reusable(state, w, external) {
        resolver, structure, reused := state.resolver, state.structure, true;
      }
    }
    if !reused {
      var created := ForEntry(tc, w, entry);
      if created.Err? {
        return Err(ProjectFailure(created.error, map[]));
      }
      resolver := created.value;
    }
    PreviousIsTrusted(tc, before, w, entry, external, previous, resolver, known, reused);
    var discovery := new Discovery(tc, w, resolver, external, known, reused, structure);
    assert Current(structure, w) by { if reused { UnchangedAgrees(structure, before, w); } }
    discovery.WatchPackageJsons(resolver.tsconfigFiles);
    ghost var walk := Visit(tc, w, resolver, external, map[], entry);
    VisitExplores(tc, w, resolver, external, map[], entry);
    var visited := discovery.VisitPath(entry);
    var watched := discovery.structure + StampsOf(discovery.modules);
    WalkIsWatched(tc, w, resolver, external, entry, discovery.structure);
    if visited.Err? {
      return Err(ProjectFailure(visited.error, watched));
    }
    var modules := ListModules(tc.sorted(discovery.modules.Keys), discovery.modules);
    outcome := Ok((DiscoveredProject(ModuleId(entry), modules, watched),
                   ProjectState(resolver, discovery.structure, external, discovery.modules)));
  }

  lemma PreviousIsTrusted(
      tc: Toolchain, before: World, w: World, entry: Path, external: set<string>, previous: Option<ProjectState>,
      resolver: Resolver, known: map<Path, KnownModule>, reused: bool)
    requires Lawful(tc) && (previous.Some? ==> StateFrom(tc, before, entry, previous.value))
    requires known == if previous.Some? then previous.value.modules else map[]
    requires reused <==> previous.Some? && Reusable(previous.value, w, external)
    requires reused ==> resolver == previous.value.resolver
    ensures Trusted(tc, w, resolver, external, known, reused)
  {
    forall path | path in known && path in w && known[path].stamp == StampOf(w, path)
      ensures Read(tc, w, path) == Ok(known[path].source)
      ensures reused ==> Load(tc, w, resolver, external, path) == Ok(known[path])
    {
      KnownSourceHolds(tc, before, w, entry, previous.value, path);
      if reused { KnownStillHolds(tc, before, w, entry, previous.value, path); }
    }
  }

  /** Watching the structure and the module files watches the whole walk. */
  lemma WalkIsWatched(
      tc: Toolchain, w: World, resolver: Resolver, external: set<string>, entry: Path, structure: Watched)
    requires Current(structure, w)
    requires Covers(structure, resolver, Visit(tc, w, resolver, external, map[], entry).modules)
    ensures var walk := Visit(tc, w, resolver, external, map[], entry);
      var watched := structure + StampsOf(walk.modules);
      Current(watched, w) && walk.modules.Keys <= watched.Keys && structure.Keys <= watched.Keys
      && Covers(watched, resolver, walk.modules)
  {
    var modules := Visit(tc, w, resolver, external, map[], entry).modules;
    var watched := structure + StampsOf(modules);
    forall path | path in modules ensures modules[path].stamp == StampOf(w, path) {
      VisitExplores(tc, w, resolver, external, map[], entry);
      assert Load(tc, w, resolver, external, path) == Ok(modules[path]);
    }
    assert watched.Keys == structure.Keys + modules.Keys;
  }

  function DescribeAll(paths: seq<Path>, modules: map<Path, KnownModule>): seq<DiscoveredModule>
    requires forall path | path in paths :: path in modules
  {
    seq(|paths|, i requires 0 <= i < |paths| => Describe(paths[i], modules[paths[i]]))
  }

  method ListModules(paths: seq<Path>, modules: map<Path, KnownModule>) returns (listed: seq<DiscoveredModule>)
    requires forall path | path in paths :: path in modules
    ensures listed == DescribeAll(paths, modules)
  {
    listed := [];
    for i := 0 to |paths|
      invariant |listed| == i
      invariant forall j | 0 <= j < i :: listed[j] == Describe(paths[j], modules[paths[j]])
    {
      listed := listed + [Describe(paths[i], modules[paths[i]])];
    }
  }

  // --------------------------------------------------------- against nothing at all

  lemma EntryDirectoriesAgree(tc: Toolchain, before: World, w: World, entry: Path, state: ProjectState)
    requires StateFrom(tc, before, entry, state) && !Changed(state.structure, w)
    ensures AgreeOn(before, w, DirectoriesOf(state.resolver.root, entry))
  {
    VisitExplores(tc, before, state.resolver, state.external, map[], entry);
    assert entry in [entry] && entry in state.modules;
    UnchangedAgrees(state.structure, before, w);
  }

  /** With nothing watched changed, the previous resolver is the one a discovery from
      nothing would create, exactly unless it knew no `tsconfig.json` and one has since
      appeared above the entry's directory, where nothing is watched. */
  lemma ReusedResolverIsFresh(tc: Toolchain, before: World, w: World, entry: Path, state: ProjectState)
    requires Lawful(tc) && StateFrom(tc, before, entry, state) && DirectoriesTell(before, w)
    requires ForEntry(tc, before, entry) == Ok(state.resolver) && !Changed(state.structure, w)
    ensures ForEntry(tc, w, entry) == Ok(state.resolver)
            <==> (FindTsconfig(w, entry[..|entry| - 1]).Some? ==> FindTsconfig(before, entry[..|entry| - 1]).Some?)
  {
    SameTsconfigFound(tc, before, w, entry, state);
    var found := FindTsconfig(before, entry[..|entry| - 1]);
    if found.Some? {
      TsconfigIsFile(before, entry[..|entry| - 1]);
      SameChain(tc, before, w, found.value, state.structure);
    }
    FreshWhereFoundAlike(tc, before, w, entry, state.resolver);
  }

  lemma FreshWhereFoundAlike(tc: Toolchain, before: World, w: World, entry: Path, resolver: Resolver)
    requires entry != [] && ForEntry(tc, before, entry) == Ok(resolver)
    requires var directory := entry[..|entry| - 1];
      var found, again := FindTsconfig(before, directory), FindTsconfig(w, directory);
      && (found.Some? ==> again == found && tc.tsconfigChain(w, found.value) == tc.tsconfigChain(before, found.value))
      && (found.None? && again.Some? ==> |again.value| > 0 && |again.value| - 1 < |resolver.root|)
    ensures ForEntry(tc, w, entry) == Ok(resolver)
            <==> (FindTsconfig(w, entry[..|entry| - 1]).Some? ==> FindTsconfig(before, entry[..|entry| - 1]).Some?)
  {
    TsconfigIsFile(before, entry[..|entry| - 1]);
    TsconfigIsFile(w, entry[..|entry| - 1]);
  }

  lemma SameTsconfigFound(tc: Toolchain, before: World, w: World, entry: Path, state: ProjectState)
    requires StateFrom(tc, before, entry, state) && DirectoriesTell(before, w)
    requires ForEntry(tc, before, entry) == Ok(state.resolver) && !Changed(state.structure, w)
    ensures entry != []
    ensures var directory := entry[..|entry| - 1];
      var found, again := FindTsconfig(before, directory), FindTsconfig(w, directory);
      && (found.Some? ==> again == found)
      && (found.None? && again.Some? ==> |again.value| > 0 && |again.value| - 1 < |state.resolver.root|)
  {
    var directory := entry[..|entry| - 1];
    EntryDirectoriesAgree(tc, before, w, entry, state);
    TsconfigIsFile(before, directory);
    SameTsconfigWithin(before, w, entry, state.resolver.root, directory);
  }

  /** Watching the files of a `tsconfig.json` chain watches the chain. */
  lemma SameChain(tc: Toolchain, before: World, w: World, tsconfig: Path, structure: Watched)
    requires Lawful(tc) && Current(structure, before) && !Changed(structure, w)
    requires Elements(tc.tsconfigChain(before, tsconfig)) <= structure.Keys
    ensures tc.tsconfigChain(w, tsconfig) == tc.tsconfigChain(before, tsconfig)
  {
    UnchangedAgrees(structure, before, w);
    assert AgreeOn(before, w, Elements(tc.tsconfigChain(before, tsconfig)));
  }

  /** Directories that look the same from `directory` up to `root` hold the same nearest
      `tsconfig.json`, as far as the root. */
  lemma {:induction false} SameTsconfigWithin(before: World, w: World, entry: Path, root: Path, directory: Path)
    requires root <= directory && directory < entry
    requires AgreeOn(before, w, DirectoriesOf(root, entry)) && DirectoriesTell(before, w)
    ensures var found := FindTsconfig(before, directory);
      && (found.Some? && |found.value| > 0 && root <= found.value[..|found.value| - 1] ==> FindTsconfig(w, directory) == found)
      && (found.None? && FindTsconfig(w, directory).Some? ==>
            var there := FindTsconfig(w, directory).value;
            |there| > 0 && |there| - 1 < |root|)
    decreases |directory|
  {
    assert directory == entry[..|directory|] && directory in DirectoriesOf(root, entry);
    assert StampOf(before, directory) == StampOf(w, directory);
    assert SameEntries(before, w, directory);
    assert directory + [TSCONFIG] in before <==> directory + [TSCONFIG] in w;
    if directory + [TSCONFIG] !in before && directory != [] {
      var parent := directory[..|directory| - 1];
      TsconfigIsFile(before, parent);
      TsconfigIsFile(w, parent);
      if root <= parent {
        SameTsconfigWithin(before, w, entry, root, parent);
      }
    }
  }

  /** A resolver kept past such a `tsconfig.json` gives a wrong answer: it names the entry
      by a path relative to the wrong root. */
  lemma StaleResolverMisnamesEntry(
      tc: Toolchain, before: World, w: World, entry: Path, external: set<string>, state: ProjectState)
    requires Lawful(tc) && StateFrom(tc, before, entry, state) && DirectoriesTell(before, w)
    requires ForEntry(tc, before, entry) == Ok(state.resolver) && Reusable(state, w, external)
    requires FindTsconfig(w, entry[..|entry| - 1]).Some? && FindTsconfig(before, entry[..|entry| - 1]).None?
    requires Scratch(tc, w, entry, external).Ok?
    ensures ScratchWith(tc, w, entry, external, Ok(state.resolver)) != Scratch(tc, w, entry, external)
  {
    StaleRootIsDeeper(tc, before, w, entry, state);
    DeeperRootNamesDifferently(entry, ForEntry(tc, w, entry).value.root, state.resolver.root);
    EntryIsNamed(tc, w, entry, external, ForEntry(tc, w, entry).value);
    if ScratchWith(tc, w, entry, external, Ok(state.resolver)).Ok? {
      EntryIsNamed(tc, w, entry, external, state.resolver);
    }
  }

  lemma DeeperRootNamesDifferently(path: Path, root: Path, deeper: Path)
    requires root < deeper < path
    ensures DisplayPath(root, path) != DisplayPath(deeper, path)
  {
    JoinGrows(path[|root|..], |deeper| - |root|);
    assert path[|root|..][|deeper| - |root|..] == path[|deeper|..];
  }

  lemma StaleRootIsDeeper(tc: Toolchain, before: World, w: World, entry: Path, state: ProjectState)
    requires Lawful(tc) && StateFrom(tc, before, entry, state) && DirectoriesTell(before, w)
    requires ForEntry(tc, before, entry) == Ok(state.resolver) && !Changed(state.structure, w)
    requires FindTsconfig(w, entry[..|entry| - 1]).Some? && FindTsconfig(before, entry[..|entry| - 1]).None?
    ensures state.resolver.root == entry[..|entry| - 1]
    ensures ForEntry(tc, w, entry).Ok? && ForEntry(tc, w, entry).value.root < state.resolver.root
  {
    var root := state.resolver.root;
    EntryDirectoriesAgree(tc, before, w, entry, state);
    SameTsconfigWithin(before, w, entry, root, root);
    TsconfigIsFile(w, root);
    assert ForEntry(tc, w, entry).value.root == FindTsconfig(w, root).value[..|FindTsconfig(w, root).value| - 1];
  }

  lemma EntryIsNamed(tc: Toolchain, w: World, entry: Path, external: set<string>, resolver: Resolver)
    requires ScratchWith(tc, w, entry, external, Ok(resolver)).Ok?
    ensures var modules := ScratchWith(tc, w, entry, external, Ok(resolver)).value;
      entry in modules && modules[entry].displayPath == DisplayPath(resolver.root, entry)
  {
    VisitExplores(tc, w, resolver, external, map[], entry);
    assert entry in [entry];
  }

  /** A path joined from fewer of its parts is shorter. */
  lemma {:induction false} JoinGrows(parts: seq<string>, skipped: nat)
    requires 0 < skipped < |parts|
    ensures |Join(parts[skipped..])| < |Join(parts)|
    decreases skipped
  {
    if skipped > 1 {
      JoinGrows(parts[1..], skipped - 1);
      assert parts[1..][skipped - 1..] == parts[skipped..];
    }
  }

  lemma ReusedResolverHolds(
      tc: Toolchain, before: World, w: World, entry: Path, external: set<string>, state: ProjectState)
    requires Lawful(tc) && StateFrom(tc, before, entry, state) && DirectoriesTell(before, w)
    requires ForEntry(tc, before, entry) == Ok(state.resolver)
    requires FindTsconfig(w, entry[..|entry| - 1]).Some? ==> FindTsconfig(before, entry[..|entry| - 1]).Some?
    ensures ResolverFor(tc, w, entry, external, Some(state)) == ForEntry(tc, w, entry)
  {
    if Reusable(state, w, external) { ReusedResolverIsFresh(tc, before, w, entry, state); }
  }

  /** Discoveries of one project through a history of edits, each reusing what the last
      successful one in a row left: every answer is the one discovery from nothing gives
      at that moment. */
  method Session(tc: Toolchain, entry: Path, worlds: seq<World>, external: seq<set<string>>)
    returns (outcomes: seq<Result<map<Path, KnownModule>, Error>>)
    requires Lawful(tc) && |external| == |worlds|
    requires forall i, j | 0 <= i < j < |worlds| :: DirectoriesTell(worlds[i], worlds[j])
    requires forall i, j | 0 <= i < j < |worlds| && entry != [] ::
      FindTsconfig(worlds[j], entry[..|entry| - 1]).Some? ==> FindTsconfig(worlds[i], entry[..|entry| - 1]).Some?
    ensures |outcomes| == |worlds|
    ensures forall i | 0 <= i < |worlds| :: outcomes[i] == Scratch(tc, worlds[i], entry, external[i])
  {
    outcomes := [];
    var previous: Option<ProjectState> := None;
    ghost var at := 0;
    for i := 0 to |worlds|
      invariant |outcomes| == i
      invariant forall k | 0 <= k < i :: outcomes[k] == Scratch(tc, worlds[k], entry, external[k])
      invariant previous.Some? ==>
        && at < i && StateFrom(tc, worlds[at], entry, previous.value)
        && ForEntry(tc, worlds[at], entry) == Ok(previous.value.resolver)
    {
      ghost var before := if previous.Some? then worlds[at] else worlds[i];
      assert previous.Some? ==> DirectoriesTell(worlds[at], worlds[i]);
      var outcome;
      outcome, previous := DiscoverAgain(tc, worlds[i], entry, external[i], previous, before);
      outcomes, at := outcomes + [outcome], i;
    }
  }

  /** One discovery of a session, and the state it leaves to the next. */
  method DiscoverAgain(
      tc: Toolchain, w: World, entry: Path, external: set<string>, previous: Option<ProjectState>, ghost before: World)
    returns (outcome: Result<map<Path, KnownModule>, Error>, state: Option<ProjectState>)
    requires Lawful(tc)
    requires previous.Some? ==>
      && StateFrom(tc, before, entry, previous.value) && ForEntry(tc, before, entry) == Ok(previous.value.resolver)
      && DirectoriesTell(before, w)
      && (FindTsconfig(w, entry[..|entry| - 1]).Some? ==> FindTsconfig(before, entry[..|entry| - 1]).Some?)
    ensures outcome == Scratch(tc, w, entry, external)
    ensures state.Some? ==> StateFrom(tc, w, entry, state.value) && ForEntry(tc, w, entry) == Ok(state.value.resolver)
  {
    if previous.Some? {
      ReusedResolverHolds(tc, before, w, entry, external, previous.value);
    }
    var discovered := DiscoverProject(tc, w, entry, external, previous, before);
    match discovered {
      case Ok((_, found)) => outcome, state := Ok(found.modules), Some(found);
      case Err(failure) => outcome, state := Err(failure.error), None;
    }
  }

  // -------------------------------------------------------------- what is watched

  /** While nothing a discovered project watches has changed, discovering it again gives
      the same modules. */
  lemma UnchangedProjectStays(
      tc: Toolchain, w: World, later: World, entry: Path, external: set<string>, resolver: Resolver,
      modules: map<Path, KnownModule>, watched: Watched)
    requires Lawful(tc) && Visit(tc, w, resolver, external, map[], entry) == Walk(modules, None)
    requires WatchesProject(resolver, modules, w, watched) && !Changed(watched, later)
    ensures Visit(tc, later, resolver, external, map[], entry) == Walk(modules, None)
  {
    EveryModuleLoads(tc, w, entry, external, resolver, modules);
    forall path | path in modules
      ensures Load(tc, later, resolver, external, path) == Ok(modules[path])
    {
      WatchedModuleStays(tc, w, later, resolver, external, path, modules, watched);
    }
    SameVisit(tc, w, later, resolver, external, map[], entry);
  }

  lemma EveryModuleLoads(
      tc: Toolchain, w: World, entry: Path, external: set<string>, resolver: Resolver, modules: map<Path, KnownModule>)
    requires Visit(tc, w, resolver, external, map[], entry) == Walk(modules, None)
    ensures forall path | path in modules :: Load(tc, w, resolver, external, path) == Ok(modules[path])
    ensures forall path, next | path in modules && next in modules[path].dependencies :: next in modules
  {
    VisitExplores(tc, w, resolver, external, map[], entry);
  }

  lemma WatchedModuleStays(
      tc: Toolchain, w: World, later: World, resolver: Resolver, external: set<string>, path: Path,
      modules: map<Path, KnownModule>, watched: Watched)
    requires Lawful(tc) && Load(tc, w, resolver, external, path).Ok?
    requires path in modules && modules[path] == Load(tc, w, resolver, external, path).value
    requires forall next | next in modules[path].dependencies :: next in modules
    requires WatchesProject(resolver, modules, w, watched) && !Changed(watched, later)
    ensures Load(tc, later, resolver, external, path) == Load(tc, w, resolver, external, path)
  {
    UnchangedAgrees(watched, w, later);
    FootprintIsCovered(watched, resolver, modules, path);
    LoadsSame(tc, w, later, resolver, external, path);
  }

  /** A walk whose modules all load alike is the same walk. */
  lemma {:induction false} SameVisit(
      tc: Toolchain, w: World, later: World, resolver: Resolver, external: set<string>,
      modules: map<Path, KnownModule>, path: Path)
    requires var walk := Visit(tc, w, resolver, external, modules, path);
      walk.failed.None? && forall p | p in walk.modules && p !in modules ::
        Load(tc, later, resolver, external, p) == Load(tc, w, resolver, external, p)
    ensures Visit(tc, later, resolver, external, modules, path) == Visit(tc, w, resolver, external, modules, path)
    decreases |w.Keys - modules.Keys|, 0
  {
    if path !in modules {
      var found := Load(tc, w, resolver, external, path).value;
      FewerLeft(w, modules, path, found);
      assert path in Visit(tc, w, resolver, external, modules, path).modules;
      SameVisitAll(tc, w, later, resolver, external, modules[path := found], found.dependencies);
    }
  }

  lemma {:induction false} SameVisitAll(
      tc: Toolchain, w: World, later: World, resolver: Resolver, external: set<string>,
      modules: map<Path, KnownModule>, paths: seq<Path>)
    requires var walk := VisitAll(tc, w, resolver, external, modules, paths);
      walk.failed.None? && forall p | p in walk.modules && p !in modules ::
        Load(tc, later, resolver, external, p) == Load(tc, w, resolver, external, p)
    ensures VisitAll(tc, later, resolver, external, modules, paths) == VisitAll(tc, w, resolver, external, modules, paths)
    decreases |w.Keys - modules.Keys|, 1 + |paths|
  {
    if paths != [] {
      var first := Visit(tc, w, resolver, external, modules, paths[0]);
      assert first.modules.Keys <= VisitAll(tc, w, resolver, external, modules, paths).modules.Keys;
      NoMoreLeft(w, modules, first.modules);
      SameVisit(tc, w, later, resolver, external, modules, paths[0]);
      SameVisitAll(tc, w, later, resolver, external, first.modules, paths[1..]);
    }
  }
}

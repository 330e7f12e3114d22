/** Incremental project discovery (src/compiler/project.rs): a walk that reuses what the
    previous discovery of the project learned, proved to find what a walk from nothing
    finds. */
module Discovery {
  import opened Wrappers
  import opened Stamps
  import opened ProjectModel
  import opened ProjectLaws

  // ------------------------------------------------------------------------ state

  /** What one discovery learned, for the next. */
  datatype ProjectState = ProjectState(
    resolver: Resolver, structure: Watched, external: set<string>, modules: map<Path, KnownModule>)

  /** Watching `structure` covers what `modules` were resolved through. */
  ghost predicate Covers(structure: Watched, resolver: Resolver, modules: map<Path, KnownModule>) {
    forall path | path in modules ::
      && DirectoriesOf(resolver.root, path) <= structure.Keys
      && Elements(modules[path].packageJsons) <= structure.Keys
  }

  /** `state` is what a successful discovery of `entry` in moment `w` left. */
  ghost predicate StateFrom(tc: Toolchain, w: World, entry: Path, state: ProjectState) {
    && Visit(tc, w, state.resolver, state.external, map[], entry) == Walk(state.modules, None)
    && Current(state.structure, w)
    && Elements(state.resolver.tsconfigFiles) <= state.structure.Keys
    && Covers(state.structure, state.resolver, state.modules)
  }

  /** Whether a previous state's resolver and resolutions still hold. */
  predicate Reusable(state: ProjectState, w: World, external: set<string>) {
    state.external == external && !Changed(state.structure, w)
  }

  /** What a module with visited imports was loaded through is watched, but for its own file. */
  lemma FootprintIsCovered(structure: Watched, resolver: Resolver, modules: map<Path, KnownModule>, path: Path)
    requires Covers(structure, resolver, modules) && Elements(resolver.tsconfigFiles) <= structure.Keys
    requires path in modules && forall target | target in modules[path].dependencies :: target in modules
    ensures LoadFootprint(resolver, path, modules[path]) <= structure.Keys + {path}
  {
    var targets := Elements(modules[path].dependencies);
    forall directory | directory in TargetDirectories(resolver, targets)
      ensures directory in structure.Keys
    {
      var target :| target in targets && directory in DirectoriesOf(resolver.root, target);
      assert target in modules;
    }
  }

  /** A module of a reusable state whose own stamp is unchanged loads to what is known. */
  lemma KnownStillHolds(
      tc: Toolchain, before: World, w: World, entry: Path, state: ProjectState, path: Path)
    requires Lawful(tc) && StateFrom(tc, before, entry, state)
    requires !Changed(state.structure, w)
    requires path in state.modules && state.modules[path].stamp == StampOf(w, path)
    ensures Load(tc, w, state.resolver, state.external, path) == Ok(state.modules[path])
  {
    KnownWasLoaded(tc, before, entry, state, path);
    UnchangedAgrees(state.structure, before, w);
    FootprintIsCovered(state.structure, state.resolver, state.modules, path);
    LoadsSame(tc, before, w, state.resolver, state.external, path);
  }

  lemma KnownWasLoaded(tc: Toolchain, before: World, entry: Path, state: ProjectState, path: Path)
    requires StateFrom(tc, before, entry, state) && path in state.modules
    ensures Load(tc, before, state.resolver, state.external, path) == Ok(state.modules[path])
    ensures forall target | target in state.modules[path].dependencies :: target in state.modules
  {
    VisitExplores(tc, before, state.resolver, state.external, map[], entry);
  }

  lemma KnownSourceHolds(
      tc: Toolchain, before: World, w: World, entry: Path, state: ProjectState, path: Path)
    requires StateFrom(tc, before, entry, state)
    requires path in state.modules && path in w && state.modules[path].stamp == StampOf(w, path)
    ensures Read(tc, w, path) == Ok(state.modules[path].source)
  {
    VisitExplores(tc, before, state.resolver, state.external, map[], entry);
    assert Load(tc, before, state.resolver, state.external, path) == Ok(state.modules[path]);
  }

  /** What may be assumed of the modules a walk was given. */
  ghost predicate Trusted(
      tc: Toolchain, w: World, resolver: Resolver, external: set<string>,
      known: map<Path, KnownModule>, reuse: bool)
  {
    forall path | path in known && path in w && known[path].stamp == StampOf(w, path) ::
      && Read(tc, w, path) == Ok(known[path].source)
      && (reuse ==> Load(tc, w, resolver, external, path) == Ok(known[path]))
  }

  // --------------------------------------------------------------------- the walk

  function Outcome(walk: Walk): Result<(), Error> {
    if walk.failed.None? then Ok(()) else Err(walk.failed.value.1)
  }

  function Failing(walk: Walk): Option<Path> {
    if walk.failed.None? then None else Some(walk.failed.value.0)
  }

  /** Why a discovery watches `path`: for a module it visited, or for the one that failed. */
  ghost predicate WatchedFor(resolver: Resolver, modules: map<Path, KnownModule>, failed: Option<Path>, path: Path) {
    || (exists visited | visited in modules ::
          path in DirectoriesOf(resolver.root, visited) || path in modules[visited].packageJsons)
    || (failed.Some? && (path in DirectoriesOf(resolver.root, failed.value) || path == failed.value))
  }

  class Discovery {
    const tc: Toolchain
    const world: World
    const resolver: Resolver
    const external: set<string>
    const structureUnchanged: bool
    var known: map<Path, KnownModule>
    var structure: Watched
    var modules: map<Path, KnownModule>

    constructor (
        tc: Toolchain, world: World, resolver: Resolver, external: set<string>,
        known: map<Path, KnownModule>, structureUnchanged: bool, structure: Watched)
      ensures this.tc == tc && this.world == world && this.resolver == resolver && this.external == external
      ensures this.structureUnchanged == structureUnchanged
      ensures this.known == known && this.structure == structure && modules == map[]
    {
      this.tc, this.world, this.resolver, this.external := tc, world, resolver, external;
      this.structureUnchanged, this.known, this.structure, modules := structureUnchanged, known, structure, map[];
    }

    ghost predicate Valid()
      reads this`known, this`structure
    {
      Current(structure, world) && Trusted(tc, world, resolver, external, known, structureUnchanged)
    }

    /** The rest of the walk from `path`, as a function of the modules visited so far. */
    ghost function Spec(path: Path): Walk
      reads this`modules
    {
      Visit(tc, world, resolver, external, modules, path)
    }

    /** What watching gained: nothing is forgotten, new modules are covered, down to the
        one that failed, and nothing else is watched. */
    ghost predicate Watches(before: Watched, seen: map<Path, KnownModule>, failed: Option<Path>)
      reads this`structure, this`modules
    {
      && before.Keys <= structure.Keys
      && (forall path | path in modules && path !in seen ::
            DirectoriesOf(resolver.root, path) <= structure.Keys &&
            Elements(modules[path].packageJsons) <= structure.Keys)
      && (failed.Some? ==>
            DirectoriesOf(resolver.root, failed.value) <= structure.Keys && failed.value in structure)
      && (forall path | path in structure && path !in before :: WatchedFor(resolver, modules, failed, path))
    }

    method VisitPath(path: Path) returns (outcome: Result<(), Error>)
      requires Valid()
      modifies this`known, this`structure, this`modules
      ensures Valid()
      ensures modules == old(Spec(path)).modules
      ensures outcome == Outcome(old(Spec(path)))
      ensures Watches(old(structure), old(modules), Failing(old(Spec(path))))
      decreases |world.Keys - modules.Keys|, 1
    {
      if path in modules {
        return Ok(());
      }
      ghost var watched := structure;
      WatchDirectories(path);
      var stamp := StampOf(world, path);
      var loaded := LoadModule(path, stamp);
      if loaded.Err? {
        Fail(path, stamp, watched);
        return Err(loaded.error);
      }
      outcome := Enter(path, loaded.value, watched);
    }

    /** A module that does not load is watched, with the stamp its loading used. */
    method Fail(path: Path, stamp: Option<FileStamp>, ghost watched: Watched)
      requires Valid() && stamp == StampOf(world, path)
      requires structure.Keys == watched.Keys + DirectoriesOf(resolver.root, path)
      modifies this`structure
      ensures Valid() && Watches(watched, modules, Some(path))
    {
      structure := structure[path := stamp];
    }

    /** A module that loaded joins the visited ones, then its imports are visited. */
    method Enter(path: Path, found: KnownModule, ghost watched: Watched) returns (outcome: Result<(), Error>)
      requires Valid() && path !in modules && path in world
      requires Load(tc, world, resolver, external, path) == Ok(found)
      requires structure.Keys == watched.Keys + DirectoriesOf(resolver.root, path)
      modifies this`known, this`structure, this`modules
      ensures Valid()
      ensures modules == old(Spec(path)).modules
      ensures outcome == Outcome(old(Spec(path)))
      ensures Watches(watched, old(modules), Failing(old(Spec(path))))
      decreases |world.Keys - modules.Keys|, 0
    {
      ghost var seen, walk := modules, Spec(path);
      FewerLeft(world, modules, path, found);
      Join(path, found, watched);
      assert walk == VisitAll(tc, world, resolver, external, modules, found.dependencies);
      outcome := VisitDependencies(found.dependencies, watched, seen);
    }

    /** Everything a joining module was resolved through is watched. */
    method Join(path: Path, found: KnownModule, ghost watched: Watched)
      requires Valid() && path !in modules
      requires structure.Keys == watched.Keys + DirectoriesOf(resolver.root, path)
      modifies this`structure, this`modules
      ensures Valid() && modules == old(modules)[path := found] && Watches(watched, old(modules), None)
    {
      ghost var seen := modules;
      WatchPackageJsons(found.packageJsons);
      modules := modules[path := found];
      EnteredIsWatched(watched, seen, path);
    }

    lemma EnteredIsWatched(watched: Watched, seen: map<Path, KnownModule>, path: Path)
      requires path in modules && modules.Keys == seen.Keys + {path}
      requires structure.Keys == watched.Keys + DirectoriesOf(resolver.root, path) + Elements(modules[path].packageJsons)
      ensures Watches(watched, seen, None)
    {
      forall p | p in structure && p !in watched ensures WatchedFor(resolver, modules, None, p) {
        assert p in DirectoriesOf(resolver.root, path) || p in modules[path].packageJsons;
      }
    }

    /** The module from the previous discovery where it still holds, else read afresh. */
    method LoadModule(path: Path, stamp: Option<FileStamp>) returns (loaded: Result<KnownModule, Error>)
      requires Valid() && stamp == StampOf(world, path)
      modifies this`known
      ensures Valid() && known == old(known) - {path}
      ensures loaded == Load(tc, world, resolver, external, path)
    {
      if path in known && stamp.Some? && known[path].stamp == stamp && structureUnchanged {
        loaded := Ok(known[path]);
      } else if path in known && stamp.Some? && known[path].stamp == stamp {
        loaded := Resolve(path, stamp, known[path].source);
      } else {
        var source := Read(tc, world, path);
        if source.Ok? {
          loaded := Resolve(path, stamp, source.value);
        } else {
          loaded := Err(source.error);
        }
      }
      known := known - {path};
    }

    method VisitDependencies(paths: seq<Path>, ghost watched: Watched, ghost seen: map<Path, KnownModule>)
      returns (outcome: Result<(), Error>)
      requires Valid() && Watches(watched, seen, None)
      modifies this`known, this`structure, this`modules
      ensures Valid()
      ensures modules == old(VisitAll(tc, world, resolver, external, modules, paths)).modules
      ensures outcome == Outcome(old(VisitAll(tc, world, resolver, external, modules, paths)))
      ensures Watches(watched, seen, Failing(old(VisitAll(tc, world, resolver, external, modules, paths))))
      decreases |world.Keys - modules.Keys|, 3
    {
      ghost var started := modules.Keys;
      ghost var walk := VisitAll(tc, world, resolver, external, modules, paths);
      assert paths[0..] == paths;
      for i := 0 to |paths|
        invariant Valid()
        invariant started <= modules.Keys && |world.Keys - modules.Keys| <= |world.Keys - started|
        invariant walk == VisitAll(tc, world, resolver, external, modules, paths[i..])
        invariant Watches(watched, seen, None)
      {
        assert paths[i..][1..] == paths[i + 1..];
        ghost var next := Spec(paths[i]);
        assert walk == if next.failed.Some? then next else VisitAll(tc, world, resolver, external, next.modules, paths[i + 1..]);
        outcome := VisitNext(paths[i], watched, seen);
        if outcome.Err? {
          return;
        }
      }
      outcome := Ok(());
    }

    /** One more import of a module, after those already visited. */
    method VisitNext(path: Path, ghost watched: Watched, ghost seen: map<Path, KnownModule>)
      returns (outcome: Result<(), Error>)
      requires Valid() && Watches(watched, seen, None)
      modifies this`known, this`structure, this`modules
      ensures Valid()
      ensures modules == old(Spec(path)).modules
      ensures outcome == Outcome(old(Spec(path)))
      ensures Watches(watched, seen, Failing(old(Spec(path))))
      ensures old(modules.Keys) <= modules.Keys && |world.Keys - modules.Keys| <= old(|world.Keys - modules.Keys|)
      decreases |world.Keys - modules.Keys|, 2
    {
      ghost var already, before := modules, structure;
      VisitExplores(tc, world, resolver, external, modules, path);
      outcome := VisitPath(path);
      NoMoreLeft(world, already, modules);
      WatchesMore(watched, before, seen, already, Failing(Visit(tc, world, resolver, external, already, path)));
    }

    /** Watching for two walks in a row watches for both. */
    lemma WatchesMore(
        watched: Watched, before: Watched, seen: map<Path, KnownModule>, already: map<Path, KnownModule>,
        failed: Option<Path>)
      requires watched.Keys <= before.Keys && before.Keys <= structure.Keys
      requires forall path | path in already && path !in seen ::
        DirectoriesOf(resolver.root, path) <= before.Keys && Elements(already[path].packageJsons) <= before.Keys
      requires forall path | path in already :: path in modules && modules[path] == already[path]
      requires forall path | path in before && path !in watched :: WatchedFor(resolver, already, None, path)
      requires Watches(before, already, failed)
      ensures Watches(watched, seen, failed)
    {
      forall path | path in structure && path !in watched ensures WatchedFor(resolver, modules, failed, path) {
        if path in before {
          var visited :| visited in already &&
            (path in DirectoriesOf(resolver.root, visited) || path in already[visited].packageJsons);
          assert visited in modules && modules[visited] == already[visited];
        }
      }
      forall path | path in modules && path !in seen
        ensures DirectoriesOf(resolver.root, path) <= structure.Keys
        ensures Elements(modules[path].packageJsons) <= structure.Keys
      {
        if path in already { assert modules[path] == already[path]; }
      }
    }

    /** Watches every directory from the module up to the project root. */
    method WatchDirectories(path: Path)
      requires Valid()
      modifies this`structure
      ensures Valid()
      ensures structure.Keys == old(structure.Keys) + DirectoriesOf(resolver.root, path)
    {
      var n := |path|;
      while n > 0 && resolver.root <= path[..n - 1]
        invariant 0 <= n <= |path| && Current(structure, world)
        invariant n < |path| ==> resolver.root <= path[..n]
        invariant structure.Keys == old(structure.Keys) +
          (set i | n <= i < |path| && |resolver.root| <= i && resolver.root <= path :: path[..i])
      {
        n := n - 1;
        structure := Watch(structure, world, path[..n]);
      }
      assert (set i | n <= i < |path| && |resolver.root| <= i && resolver.root <= path :: path[..i])
          == DirectoriesOf(resolver.root, path);
    }

    method WatchPackageJsons(paths: seq<Path>)
      requires Valid()
      modifies this`structure
      ensures Valid()
      ensures structure.Keys == old(structure.Keys) + Elements(paths)
    {
      for i := 0 to |paths|
        invariant Current(structure, world)
        invariant structure.Keys == old(structure.Keys) + Elements(paths[..i])
      {
        structure := Watch(structure, world, paths[i]);
        assert paths[..i + 1] == paths[..i] + [paths[i]];
      }
      assert paths[..|paths|] == paths;
    }

    /** Resolves the imports of one module source, request by request. */
    method Resolve(path: Path, stamp: Option<FileStamp>, source: string) returns (loaded: Result<KnownModule, Error>)
      ensures loaded == ResolveModule(tc, world, resolver, external, path, stamp, source)
    {
      var displayPath := DisplayPath(resolver.root, path);
      var requests := tc.importsOf(source, displayPath);
      if requests.Err? {
        return Err(requests.error);
      }
      var done := NONE_RESOLVED;
      for i := 0 to |requests.value|
        invariant ResolveAll(tc, world, resolver, external, path, requests.value, NONE_RESOLVED)
               == ResolveAll(tc, world, resolver, external, path, requests.value[i..], done)
      {
        var next := ResolveOne(tc, world, resolver, external, path, requests.value[i], done);
        if next.Err? {
          return Err(next.error);
        }
        done := next.value;
        assert requests.value[i..][1..] == requests.value[i + 1..];
      }
      loaded := Ok(KnownModule(stamp, displayPath, source, done.requests, tc.sorted(done.targets), done.packageJsons));
    }
  }
}

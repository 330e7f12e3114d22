/** Whether watching the files a failed discovery looked at is enough to notice that it
    would now succeed (src/compiler/project.rs). */
module WatchedFailures {
  import opened Wrappers
  import opened Stamps
  import opened ProjectModel
  import opened ProjectLaws
  import opened Discovery
  import opened IncrementalDiscovery

  /** If the module `path` fails on a request, what resolving that request looked at is
      watched. */
  ghost predicate FailingRequestIsWatched(
      tc: Toolchain, w: World, resolver: Resolver, external: set<string>, path: Path, watched: Watched)
  {
    Read(tc, w, path).Ok? ==>
      var requests := tc.importsOf(Read(tc, w, path).value, DisplayPath(resolver.root, path));
      requests.Ok? ==>
        exists request | request in requests.value ::
          && request !in external && tc.resolve(w, resolver, path, request).Err?
          && tc.footprint(w, resolver, path, request) <= watched.Keys
  }

  lemma {:induction false} EveryRequestResolves(
      tc: Toolchain, w: World, resolver: Resolver, external: set<string>, path: Path,
      requests: seq<string>, done: Resolutions)
    requires ResolveAll(tc, w, resolver, external, path, requests, done).Ok?
    ensures forall request | request in requests ::
      request in external || tc.resolve(w, resolver, path, request).Ok?
    decreases |requests|
  {
    if requests != [] {
      var next := ResolveOne(tc, w, resolver, external, path, requests[0], done).value;
      EveryRequestResolves(tc, w, resolver, external, path, requests[1..], next);
      assert requests == [requests[0]] + requests[1..];
    }
  }

  /** The module a failed discovery stopped at still fails to load while nothing watched
      has changed. */
  lemma FailedModuleStillFails(
      tc: Toolchain, w: World, later: World, resolver: Resolver, external: set<string>, path: Path, watched: Watched)
    requires Lawful(tc) && Load(tc, w, resolver, external, path).Err?
    requires path in watched && AgreeOn(w, later, watched.Keys)
    requires FailingRequestIsWatched(tc, w, resolver, external, path, watched)
    ensures Load(tc, later, resolver, external, path).Err?
  {
    assert StampOf(w, path) == StampOf(later, path);
    assert Read(tc, later, path) == Read(tc, w, path);
    if Read(tc, w, path).Ok? {
      var requests := tc.importsOf(Read(tc, w, path).value, DisplayPath(resolver.root, path));
      if requests.Ok? {
        var request :| request in requests.value && request !in external
          && tc.resolve(w, resolver, path, request).Err? && tc.footprint(w, resolver, path, request) <= watched.Keys;
        assert AgreeOn(w, later, tc.footprint(w, resolver, path, request));
        assert tc.resolve(later, resolver, path, request).Err?;
        if ResolveAll(tc, later, resolver, external, path, requests.value, NONE_RESOLVED).Ok? {
          EveryRequestResolves(tc, later, resolver, external, path, requests.value, NONE_RESOLVED);
        }
      }
    }
  }

  /** Every target of a module came from one of its requests. */
  lemma {:induction false} TargetHasRequest(
      tc: Toolchain, w: World, resolver: Resolver, external: set<string>, path: Path,
      requests: seq<string>, done: Resolutions, target: Path) returns (request: string)
    requires ResolveAll(tc, w, resolver, external, path, requests, done).Ok?
    requires target in ResolveAll(tc, w, resolver, external, path, requests, done).value.targets - done.targets
    ensures request in requests && request !in external && tc.resolve(w, resolver, path, request).Ok?
    ensures var resolved := tc.resolve(w, resolver, path, request).value;
      var all := ResolveAll(tc, w, resolver, external, path, requests, done).value;
      resolved.path == target && (resolved.packageJson.Some? ==> resolved.packageJson.value in all.packageJsons)
    decreases |requests|
  {
    var next := ResolveOne(tc, w, resolver, external, path, requests[0], done).value;
    ResolveAllGrows(tc, w, resolver, external, path, requests[1..], next);
    if target in next.targets {
      request := requests[0];
      var resolved := tc.resolve(w, resolver, path, request).value;
      assert resolved.packageJson.Some? ==> resolved.packageJson.value in Elements(next.packageJsons);
    } else {
      request := TargetHasRequest(tc, w, resolver, external, path, requests[1..], next, target);
    }
  }

  /** A resolved request is a target. */
  lemma {:induction false} RequestHasTarget(
      tc: Toolchain, w: World, resolver: Resolver, external: set<string>, path: Path,
      requests: seq<string>, done: Resolutions, request: string)
    requires ResolveAll(tc, w, resolver, external, path, requests, done).Ok?
    requires request in requests && request !in external && tc.resolve(w, resolver, path, request).Ok?
    ensures tc.resolve(w, resolver, path, request).value.path in
            ResolveAll(tc, w, resolver, external, path, requests, done).value.targets
    decreases |requests|
  {
    var next := ResolveOne(tc, w, resolver, external, path, requests[0], done).value;
    ResolveAllGrows(tc, w, resolver, external, path, requests[1..], next);
    if request != requests[0] {
      assert requests == [requests[0]] + requests[1..];
      RequestHasTarget(tc, w, resolver, external, path, requests[1..], next, request);
    }
  }

  /** A module whose import `target` is watched still imports it, or does not load. */
  lemma ImportStays(
      tc: Toolchain, w: World, later: World, resolver: Resolver, external: set<string>,
      path: Path, target: Path, watched: Watched)
    requires Lawful(tc) && AgreeOn(w, later, watched.Keys)
    requires LoadsImporting(tc, w, resolver, external, path, target)
    requires path in watched && Elements(resolver.tsconfigFiles) <= watched.Keys
    requires DirectoriesOf(resolver.root, path) + DirectoriesOf(resolver.root, target) <= watched.Keys
    requires Elements(Load(tc, w, resolver, external, path).value.packageJsons) <= watched.Keys
    ensures Load(tc, later, resolver, external, path).Ok? ==> LoadsImporting(tc, later, resolver, external, path, target)
  {
    assert StampOf(w, path) == StampOf(later, path);
    var found := Load(tc, w, resolver, external, path).value;
    var requests := tc.importsOf(found.source, DisplayPath(resolver.root, path)).value;
    var request := TargetHasRequest(tc, w, resolver, external, path, requests, NONE_RESOLVED, target);
    assert WatchedBy(resolver, path, tc.resolve(w, resolver, path, request).value) <= watched.Keys;
    assert AgreeOn(w, later, tc.footprint(w, resolver, path, request));
    assert tc.resolve(later, resolver, path, request) == tc.resolve(w, resolver, path, request);
    if Load(tc, later, resolver, external, path).Ok? {
      RequestHasTarget(tc, later, resolver, external, path, requests, NONE_RESOLVED, request);
    }
  }

  /** A failed discovery whose failing request is watched still fails while nothing it
      watches has changed, even where modules it had not come to have. */
  lemma FailureIsStillThere(
      tc: Toolchain, w: World, later: World, entry: Path, external: set<string>, resolver: Resolver, watched: Watched)
    requires Lawful(tc)
    requires var walk := Visit(tc, w, resolver, external, map[], entry);
      walk.failed.Some? && FailingRequestIsWatched(tc, w, resolver, external, walk.failed.value.0, watched)
    requires WatchesFailure(tc, w, entry, external, resolver, watched) && !Changed(watched, later)
    ensures Visit(tc, later, resolver, external, map[], entry).failed.Some?
  {
    var walk, again := Visit(tc, w, resolver, external, map[], entry), Visit(tc, later, resolver, external, map[], entry);
    VisitExplores(tc, w, resolver, external, map[], entry);
    VisitExplores(tc, later, resolver, external, map[], entry);
    UnchangedAgrees(watched, w, later);
    var failed := walk.failed.value.0;
    FailedModuleStillFails(tc, w, later, resolver, external, failed, watched);
    if again.failed.None? {
      var root :| root in [entry] && Reaches(walk.modules, root, failed);
      var chain :| Chain(walk.modules, chain) && chain[0] == root && chain[|chain| - 1] == failed;
      assert entry in [entry];
      for i := 0 to |chain| - 1
        invariant chain[i] in again.modules
      {
        assert Imports(walk.modules, chain[i], chain[i + 1]);
        assert i + 1 < |chain| - 1 ==> Imports(walk.modules, chain[i + 1], chain[i + 2]);
        ImportStays(tc, w, later, resolver, external, chain[i], chain[i + 1], watched);
      }
    }
  }

  // ------------------------------------------------------------ what is not noticed

  ghost function AnyOrder(paths: set<Path>): seq<Path>
    ensures forall path :: path in AnyOrder(paths) <==> path in paths
    decreases |paths|
  {
    if paths == {} then [] else
      var path :| path in paths;
      [path] + AnyOrder(paths - {path})
  }

  const MAIN: Path := ["app", "main.ts"]
  const PACKAGE: Path := ["app", "node_modules", "lib", "package.json"]
  const LIBRARY: Path := ["app", "node_modules", "lib", "index.js"]
  const STAMP := FileStamp(1, None)

  /** `main.ts` imports a package that resolves once its `package.json` exists. */
  ghost function PackageToolchain(): Toolchain {
    Toolchain(
      (path, stamp) => if path == MAIN then Ok("main") else Ok("library"),
      (source, display) => Ok(if source == "main" then ["lib"] else []),
      (w: World, resolver, from, request) =>
        if PACKAGE in w then Ok(Resolved(LIBRARY, Some(PACKAGE))) else Err("lib not found"),
      (w, resolver, from, request) => {PACKAGE},
      (w, tsconfig) => [tsconfig],
      (paths: set<Path>) => AnyOrder(paths))
  }

  const BEFORE: World := map[["app"] := STAMP, MAIN := STAMP, ["app", "node_modules"] := STAMP]
  const INSTALLED: World :=
    BEFORE[["app", "node_modules"] := FileStamp(2, None)][PACKAGE := STAMP][LIBRARY := STAMP]

  lemma PackageToolchainIsLawful()
    ensures Lawful(PackageToolchain())
  {
    SortsPackages();
    PackageIsFootprint();
    PackageIsWatched();
    assert ChainsByFiles(PackageToolchain());
  }

  lemma SortsPackages()
    ensures SortsAll(PackageToolchain())
  {
    forall paths, path ensures path in PackageToolchain().sorted(paths) <==> path in paths {
      assert PackageToolchain().sorted(paths) == AnyOrder(paths);
    }
  }

  lemma PackageIsFootprint()
    ensures ResolvesByFootprint(PackageToolchain())
  {
    forall w1, w2, resolver, from, request |
      AgreeOn(w1, w2, PackageToolchain().footprint(w1, resolver, from, request))
      ensures PackageToolchain().resolve(w1, resolver, from, request) == PackageToolchain().resolve(w2, resolver, from, request)
    {
      SamePackage(w1, w2);
    }
  }

  lemma PackageIsWatched()
    ensures FootprintIsWatched(PackageToolchain())
  {}

  lemma SamePackage(w1: World, w2: World)
    requires AgreeOn(w1, w2, {PACKAGE})
    ensures PACKAGE in w1 <==> PACKAGE in w2
  {
    assert StampOf(w1, PACKAGE) == StampOf(w2, PACKAGE);
  }

  lemma NoTsconfig(w: World)
    requires w == BEFORE || w == INSTALLED
    ensures ForEntry(PackageToolchain(), w, MAIN) == Ok(Resolver(["app"], []))
  {
    assert MAIN[..1] == ["app"];
    assert |TSCONFIG| != |"main.ts"| && |TSCONFIG| != |"node_modules"|;
    assert (["app"] + [TSCONFIG])[1] == TSCONFIG && |["app"] + [TSCONFIG]| == 2;
    assert ["app"] + [TSCONFIG] !in w;
    assert ["app"][..0] == [] && [] + [TSCONFIG] !in w;
    assert FindTsconfig(w, ["app"]).None?;
  }

  lemma MissingPackageFails()
    ensures var walk := Visit(PackageToolchain(), BEFORE, Resolver(["app"], []), {}, map[], MAIN);
      walk == Walk(map[], Some((MAIN, "lib not found")))
  {
    var tc, resolver := PackageToolchain(), Resolver(["app"], []);
    assert ResolveAll(tc, BEFORE, resolver, {}, MAIN, ["lib"], NONE_RESOLVED) == Err("lib not found");
    assert Load(tc, BEFORE, resolver, {}, MAIN) == Err("lib not found");
  }

  lemma InstalledPackageLoads()
    ensures Visit(PackageToolchain(), INSTALLED, Resolver(["app"], []), {}, map[], MAIN).failed.None?
  {
    var tc, resolver := PackageToolchain(), Resolver(["app"], []);
    VisitExplores(tc, INSTALLED, resolver, {}, map[], MAIN);
    var walk := Visit(tc, INSTALLED, resolver, {}, map[], MAIN);
    ModuleLoads(MAIN);
    ModuleLoads(LIBRARY);
    if walk.failed.Some? {
      var failed := walk.failed.value.0;
      assert Reaches(walk.modules, MAIN, failed);
      var chain :| Chain(walk.modules, chain) && chain[0] == MAIN && chain[|chain| - 1] == failed;
      for i := 0 to |chain| - 1
        invariant chain[i] == MAIN || chain[i] == LIBRARY
      {
        assert Imports(walk.modules, chain[i], chain[i + 1]);
      }
    }
  }

  lemma ModuleLoads(path: Path)
    requires path == MAIN || path == LIBRARY
    ensures var loaded := Load(PackageToolchain(), INSTALLED, Resolver(["app"], []), {}, path);
      loaded.Ok? && forall next | next in loaded.value.dependencies :: next == LIBRARY
  {
    var tc, resolver := PackageToolchain(), Resolver(["app"], []);
    var requests := if path == MAIN then ["lib"] else [];
    var next := ResolveOne(tc, INSTALLED, resolver, {}, path, "lib", NONE_RESOLVED).value;
    assert ["lib"][1..] == [];
    assert ResolveAll(tc, INSTALLED, resolver, {}, path, requests, NONE_RESOLVED)
        == Ok(if path == MAIN then next else NONE_RESOLVED);
  }

  lemma NothingWatchedChanged(watched: Watched)
    requires Current(watched, BEFORE)
    requires WatchesNothingElse(PackageToolchain(), BEFORE, MAIN, {}, Resolver(["app"], []), watched)
    ensures !Changed(watched, INSTALLED)
  {
    MissingPackageFails();
    var resolver := Resolver(["app"], []);
    forall path | path in watched ensures StampOf(INSTALLED, path) == watched[path] {
      assert WatchedFor(resolver, map[], Some(MAIN), path);
      assert |path| <= 1 || path == MAIN;
      assert path in DirectoriesOf(["app"], MAIN) ==> path == MAIN[..1] == ["app"];
      assert |["app", "node_modules"]| == 2 && MAIN[1] != "node_modules";
    }
  }

  lemma InstallingMatters()
    ensures Scratch(PackageToolchain(), BEFORE, MAIN, {}).Err? && Scratch(PackageToolchain(), INSTALLED, MAIN, {}).Ok?
  {
    NoTsconfig(BEFORE);
    NoTsconfig(INSTALLED);
    MissingPackageFails();
    InstalledPackageLoads();
  }

  /** The condition is needed: installing a missing package into an existing
      `node_modules` changes nothing a failed discovery watches, though the discovery
      would now succeed. */
  lemma InstalledPackageIsNotNoticed(watched: Watched)
    requires Current(watched, BEFORE)
    requires WatchesNothingElse(PackageToolchain(), BEFORE, MAIN, {}, Resolver(["app"], []), watched)
    ensures Lawful(PackageToolchain()) && ForEntry(PackageToolchain(), BEFORE, MAIN) == Ok(Resolver(["app"], []))
    ensures Scratch(PackageToolchain(), BEFORE, MAIN, {}).Err? && Scratch(PackageToolchain(), INSTALLED, MAIN, {}).Ok?
    ensures !Changed(watched, INSTALLED)
  {
    PackageToolchainIsLawful();
    NoTsconfig(BEFORE);
    InstallingMatters();
    NothingWatchedChanged(watched);
  }
}

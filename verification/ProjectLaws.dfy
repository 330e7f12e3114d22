/** What a walk visits, and what its outcome depends on. */
module ProjectLaws {
  import opened Wrappers
  import opened Stamps
  import opened ProjectModel

  // ------------------------------------------------------------------ assumptions

  function Elements(paths: seq<Path>): set<Path> { set path | path in paths }

  /** What a successful resolution may look at: the directories from both modules up to
      the root, the tsconfig files and the `package.json` it found. */
  function WatchedBy(resolver: Resolver, from: Path, resolved: Resolved): set<Path> {
    DirectoriesOf(resolver.root, from) + DirectoriesOf(resolver.root, resolved.path)
    + Elements(resolver.tsconfigFiles)
    + (if resolved.packageJson.Some? then {resolved.packageJson.value} else {})
  }

  /** The toolchain answers by what it looks at, and what a successful resolution looks
      at is watched: see src/compiler/project.rs:62-65. */
  ghost predicate Lawful(tc: Toolchain) {
    SortsAll(tc) && ResolvesByFootprint(tc) && FootprintIsWatched(tc) && ChainsByFiles(tc)
  }

  ghost predicate SortsAll(tc: Toolchain) {
    forall paths, path :: path in tc.sorted(paths) <==> path in paths
  }

  ghost predicate ResolvesByFootprint(tc: Toolchain) {
    forall w1, w2, resolver, from, request {:trigger tc.resolve(w1, resolver, from, request), tc.resolve(w2, resolver, from, request)} ::
      AgreeOn(w1, w2, tc.footprint(w1, resolver, from, request)) ==>
        tc.resolve(w1, resolver, from, request) == tc.resolve(w2, resolver, from, request)
  }

  ghost predicate FootprintIsWatched(tc: Toolchain) {
    forall w, resolver, from, request :: tc.resolve(w, resolver, from, request).Ok? ==>
      tc.footprint(w, resolver, from, request) <= WatchedBy(resolver, from, tc.resolve(w, resolver, from, request).value)
  }

  ghost predicate ChainsByFiles(tc: Toolchain) {
    forall w1, w2, tsconfig {:trigger tc.tsconfigChain(w1, tsconfig), tc.tsconfigChain(w2, tsconfig)} ::
      AgreeOn(w1, w2, Elements(tc.tsconfigChain(w1, tsconfig))) ==>
        tc.tsconfigChain(w1, tsconfig) == tc.tsconfigChain(w2, tsconfig)
  }

  // ------------------------------------------------------- what a load depends on

  function TargetDirectories(resolver: Resolver, targets: set<Path>): set<Path> {
    set target, directory | target in targets && directory in DirectoriesOf(resolver.root, target) :: directory
  }

  /** Everything whose stamp decides how `path` loads as `found`. */
  function LoadFootprint(resolver: Resolver, path: Path, found: KnownModule): set<Path> {
    {path} + DirectoriesOf(resolver.root, path) + Elements(resolver.tsconfigFiles)
    + TargetDirectories(resolver, Elements(found.dependencies)) + Elements(found.packageJsons)
  }

  lemma {:induction false} ResolveAllGrows(
      tc: Toolchain, w: World, resolver: Resolver, external: set<string>, path: Path,
      requests: seq<string>, done: Resolutions)
    requires ResolveAll(tc, w, resolver, external, path, requests, done).Ok?
    ensures var all := ResolveAll(tc, w, resolver, external, path, requests, done).value;
      done.targets <= all.targets && Elements(done.packageJsons) <= Elements(all.packageJsons)
    decreases |requests|
  {
    if requests != [] {
      var next := ResolveOne(tc, w, resolver, external, path, requests[0], done).value;
      ResolveAllGrows(tc, w, resolver, external, path, requests[1..], next);
      assert done.targets <= next.targets;
      assert forall p | p in done.packageJsons :: p in next.packageJsons;
    }
  }

  lemma {:induction false} ResolveAllSame(
      tc: Toolchain, w1: World, w2: World, resolver: Resolver, external: set<string>, path: Path,
      requests: seq<string>, done: Resolutions)
    requires Lawful(tc) && ResolveAll(tc, w1, resolver, external, path, requests, done).Ok?
    requires var all := ResolveAll(tc, w1, resolver, external, path, requests, done).value;
      AgreeOn(w1, w2, DirectoriesOf(resolver.root, path) + Elements(resolver.tsconfigFiles)
                      + TargetDirectories(resolver, all.targets) + Elements(all.packageJsons))
    ensures ResolveAll(tc, w2, resolver, external, path, requests, done)
            == ResolveAll(tc, w1, resolver, external, path, requests, done)
    decreases |requests|
  {
    if requests != [] {
      var next := ResolveOne(tc, w1, resolver, external, path, requests[0], done).value;
      ResolveAllGrows(tc, w1, resolver, external, path, requests[1..], next);
      if requests[0] !in external {
        var resolved := tc.resolve(w1, resolver, path, requests[0]).value;
        assert resolved.path in next.targets;
        assert resolved.packageJson.Some? ==> resolved.packageJson.value in Elements(next.packageJsons);
        assert AgreeOn(w1, w2, WatchedBy(resolver, path, resolved)) by {
          var all := ResolveAll(tc, w1, resolver, external, path, requests, done).value;
          assert DirectoriesOf(resolver.root, resolved.path) <= TargetDirectories(resolver, all.targets);
        }
        assert AgreeOn(w1, w2, tc.footprint(w1, resolver, path, requests[0]));
        assert tc.resolve(w2, resolver, path, requests[0]) == tc.resolve(w1, resolver, path, requests[0]);
      }
      ResolveAllSame(tc, w1, w2, resolver, external, path, requests[1..], next);
    }
  }

  /** A module loads the same wherever its footprint looks the same. */
  lemma LoadsSame(tc: Toolchain, w1: World, w2: World, resolver: Resolver, external: set<string>, path: Path)
    requires Lawful(tc) && Load(tc, w1, resolver, external, path).Ok?
    requires AgreeOn(w1, w2, LoadFootprint(resolver, path, Load(tc, w1, resolver, external, path).value))
    ensures Load(tc, w2, resolver, external, path) == Load(tc, w1, resolver, external, path)
  {
    var found := Load(tc, w1, resolver, external, path).value;
    assert StampOf(w1, path) == StampOf(w2, path) by { assert path in LoadFootprint(resolver, path, found); }
    var requests := tc.importsOf(found.source, DisplayPath(resolver.root, path)).value;
    var all := ResolveAll(tc, w1, resolver, external, path, requests, NONE_RESOLVED).value;
    assert Elements(tc.sorted(all.targets)) == all.targets;
    ResolveAllSame(tc, w1, w2, resolver, external, path, requests, NONE_RESOLVED);
  }

  // ------------------------------------------------------------------ reachability

  /** Each module of `chain` imports the next. */
  ghost predicate Chain(modules: map<Path, KnownModule>, chain: seq<Path>) {
    |chain| > 0 && forall i | 0 <= i < |chain| - 1 :: Imports(modules, chain[i], chain[i + 1])
  }

  predicate Imports(modules: map<Path, KnownModule>, from: Path, to: Path) {
    from in modules && to in modules[from].dependencies
  }

  /** `to` is `from`, or imported from it through modules of `modules`. */
  ghost predicate Reaches(modules: map<Path, KnownModule>, from: Path, to: Path) {
    exists chain :: Chain(modules, chain) && chain[0] == from && chain[|chain| - 1] == to
  }

  lemma ReachesItself(modules: map<Path, KnownModule>, path: Path)
    ensures Reaches(modules, path, path)
  {
    assert Chain(modules, [path]);
  }

  lemma ReachesThrough(modules: map<Path, KnownModule>, from: Path, next: Path, to: Path)
    requires Imports(modules, from, next) && Reaches(modules, next, to)
    ensures Reaches(modules, from, to)
  {
    var chain :| Chain(modules, chain) && chain[0] == next && chain[|chain| - 1] == to;
    var longer := [from] + chain;
    forall i | 0 <= i < |longer| - 1 ensures Imports(modules, longer[i], longer[i + 1]) {
      if i > 0 { assert longer[i] == chain[i - 1] && longer[i + 1] == chain[i]; }
    }
    assert Chain(modules, longer);
  }

  lemma ReachesMore(modules: map<Path, KnownModule>, more: map<Path, KnownModule>, from: Path, to: Path)
    requires forall path | path in modules :: path in more && more[path] == modules[path]
    requires Reaches(modules, from, to)
    ensures Reaches(more, from, to)
  {
    var chain :| Chain(modules, chain) && chain[0] == from && chain[|chain| - 1] == to;
    forall i | 0 <= i < |chain| - 1 ensures Imports(more, chain[i], chain[i + 1]) {
      assert Imports(modules, chain[i], chain[i + 1]);
    }
    assert Chain(more, chain);
  }

  /** What a walk from `roots` adds to `before`: modules reached and loaded afresh, all
      their imports among them once it succeeds; a failure is a reached module that does
      not load. */
  ghost predicate Explores(
      tc: Toolchain, w: World, resolver: Resolver, external: set<string>,
      before: map<Path, KnownModule>, roots: seq<Path>, walk: Walk)
  {
    && Extends(before, walk.modules)
    && (forall path | path in walk.modules && path !in before ::
          && Load(tc, w, resolver, external, path) == Ok(walk.modules[path])
          && ReachedFrom(walk.modules, roots, path))
    && (walk.failed.None? ==>
          && (forall path | path in roots :: path in walk.modules)
          && (forall path, next | path in walk.modules && path !in before && next in walk.modules[path].dependencies ::
                next in walk.modules))
    && (walk.failed.Some? ==>
          && Load(tc, w, resolver, external, walk.failed.value.0) == Err(walk.failed.value.1)
          && ReachedFrom(walk.modules, roots, walk.failed.value.0))
  }

  predicate Extends(modules: map<Path, KnownModule>, more: map<Path, KnownModule>) {
    forall path | path in modules :: path in more && more[path] == modules[path]
  }

  ghost predicate ReachedFrom(modules: map<Path, KnownModule>, roots: seq<Path>, path: Path) {
    exists root | root in roots :: Reaches(modules, root, path)
  }

  /** A module and a walk of its imports explore from the module. */
  lemma OneExplores(
      tc: Toolchain, w: World, resolver: Resolver, external: set<string>,
      before: map<Path, KnownModule>, path: Path, found: KnownModule, walk: Walk)
    requires path !in before && Load(tc, w, resolver, external, path) == Ok(found)
    requires Explores(tc, w, resolver, external, before[path := found], found.dependencies, walk)
    ensures Explores(tc, w, resolver, external, before, [path], walk)
  {
    var after := before[path := found];
    ReachesItself(walk.modules, path);
    assert path in [path] && path in after && walk.modules[path] == found;
    forall p | ReachedFrom(walk.modules, found.dependencies, p)
      ensures ReachedFrom(walk.modules, [path], p)
    {
      var next :| next in found.dependencies && Reaches(walk.modules, next, p);
      ReachesThrough(walk.modules, path, next, p);
    }
    forall p | p in before ensures p in walk.modules && walk.modules[p] == before[p] {
      assert p in after && after[p] == before[p];
    }
    forall p | p in walk.modules && p !in before
      ensures Load(tc, w, resolver, external, p) == Ok(walk.modules[p])
      ensures ReachedFrom(walk.modules, [path], p)
    {
      assert p == path || p !in after;
    }
    if walk.failed.None? {
      forall p, next | p in walk.modules && p !in before && next in walk.modules[p].dependencies
        ensures next in walk.modules
      {
        assert p == path || p !in after;
      }
    }
  }

  /** A walk from a first root, then one from the others, explore from all of them. */
  lemma BothExplore(
      tc: Toolchain, w: World, resolver: Resolver, external: set<string>,
      before: map<Path, KnownModule>, roots: seq<Path>, first: Walk, walk: Walk)
    requires roots != [] && first.failed.None?
    requires Explores(tc, w, resolver, external, before, [roots[0]], first)
    requires Explores(tc, w, resolver, external, first.modules, roots[1..], walk)
    ensures Explores(tc, w, resolver, external, before, roots, walk)
  {
    WiderRoots(walk.modules, roots[1..], roots);
    assert roots[0] in [roots[0]];
    forall p | p in before ensures p in walk.modules && walk.modules[p] == before[p] {
      assert p in first.modules;
    }
    forall p | p in walk.modules && p !in before
      ensures Load(tc, w, resolver, external, p) == Ok(walk.modules[p])
      ensures ReachedFrom(walk.modules, roots, p)
    {
      if p in first.modules {
        assert walk.modules[p] == first.modules[p];
        var root :| root in [roots[0]] && Reaches(first.modules, root, p);
        ReachesMore(first.modules, walk.modules, root, p);
        assert root in roots;
      }
    }
    if walk.failed.None? {
      forall p | p in roots ensures p in walk.modules {
        assert p == roots[0] || p in roots[1..];
      }
      forall p, next | p in walk.modules && p !in before && next in walk.modules[p].dependencies
        ensures next in walk.modules
      {
        if p in first.modules { assert walk.modules[p] == first.modules[p] && next in first.modules; }
      }
    }
  }

  lemma {:induction false} VisitExplores(
      tc: Toolchain, w: World, resolver: Resolver, external: set<string>,
      modules: map<Path, KnownModule>, path: Path)
    ensures Explores(tc, w, resolver, external, modules, [path], Visit(tc, w, resolver, external, modules, path))
    decreases |w.Keys - modules.Keys|, 0
  {
    if path !in modules {
      match Load(tc, w, resolver, external, path)
      case Err(_) =>
        ReachesItself(modules, path);
        assert path in [path];
      case Ok(found) =>
        FewerLeft(w, modules, path, found);
        VisitAllExplores(tc, w, resolver, external, modules[path := found], found.dependencies);
        OneExplores(tc, w, resolver, external, modules, path, found, Visit(tc, w, resolver, external, modules, path));
    }
  }

  lemma {:induction false} VisitAllExplores(
      tc: Toolchain, w: World, resolver: Resolver, external: set<string>,
      modules: map<Path, KnownModule>, paths: seq<Path>)
    ensures Explores(tc, w, resolver, external, modules, paths, VisitAll(tc, w, resolver, external, modules, paths))
    decreases |w.Keys - modules.Keys|, 1 + |paths|
  {
    if paths != [] {
      var first := Visit(tc, w, resolver, external, modules, paths[0]);
      VisitExplores(tc, w, resolver, external, modules, paths[0]);
      if first.failed.None? {
        NoMoreLeft(w, modules, first.modules);
        VisitAllExplores(tc, w, resolver, external, first.modules, paths[1..]);
        BothExplore(tc, w, resolver, external, modules, paths, first, VisitAll(tc, w, resolver, external, modules, paths));
      } else {
        WiderRoots(first.modules, [paths[0]], paths);
      }
    }
  }

  lemma WiderRoots(modules: map<Path, KnownModule>, roots: seq<Path>, wider: seq<Path>)
    requires forall root | root in roots :: root in wider
    ensures forall path :: ReachedFrom(modules, roots, path) ==> ReachedFrom(modules, wider, path)
  {}

  // ------------------------------------------------- discovery is reachability

  /** Modules that load, each importing the next. */
  ghost predicate LoadingChain(tc: Toolchain, w: World, resolver: Resolver, external: set<string>, chain: seq<Path>) {
    |chain| > 0 && forall i | 0 <= i < |chain| - 1 ::
      LoadsImporting(tc, w, resolver, external, chain[i], chain[i + 1])
  }

  ghost predicate LoadsImporting(
      tc: Toolchain, w: World, resolver: Resolver, external: set<string>, from: Path, to: Path)
  {
    Load(tc, w, resolver, external, from).Ok? && to in Load(tc, w, resolver, external, from).value.dependencies
  }

  /** `path` is in the static import graph of `entry`. */
  ghost predicate InGraph(tc: Toolchain, w: World, resolver: Resolver, external: set<string>, entry: Path, path: Path) {
    exists chain :: LoadingChain(tc, w, resolver, external, chain) && chain[0] == entry && chain[|chain| - 1] == path
  }

  /** Modules closed under imports hold everything a chain from one of them reaches. */
  lemma {:induction false} ChainStays(
      tc: Toolchain, w: World, resolver: Resolver, external: set<string>,
      modules: map<Path, KnownModule>, chain: seq<Path>)
    requires LoadingChain(tc, w, resolver, external, chain) && chain[0] in modules
    requires forall path | path in modules :: Load(tc, w, resolver, external, path) == Ok(modules[path])
    requires forall path, next | path in modules && next in modules[path].dependencies :: next in modules
    ensures chain[|chain| - 1] in modules
    decreases |chain|
  {
    if |chain| > 1 {
      assert LoadsImporting(tc, w, resolver, external, chain[0], chain[1]);
      var rest := chain[1..];
      forall i | 0 <= i < |rest| - 1 ensures LoadsImporting(tc, w, resolver, external, rest[i], rest[i + 1]) {
        assert LoadsImporting(tc, w, resolver, external, chain[i + 1], chain[i + 2]);
      }
      ChainStays(tc, w, resolver, external, modules, rest);
    }
  }

  lemma ReachedIsInGraph(
      tc: Toolchain, w: World, resolver: Resolver, external: set<string>,
      modules: map<Path, KnownModule>, entry: Path, path: Path)
    requires forall p | p in modules :: Load(tc, w, resolver, external, p) == Ok(modules[p])
    requires Reaches(modules, entry, path)
    ensures InGraph(tc, w, resolver, external, entry, path)
  {
    var chain :| Chain(modules, chain) && chain[0] == entry && chain[|chain| - 1] == path;
    forall i | 0 <= i < |chain| - 1 ensures LoadsImporting(tc, w, resolver, external, chain[i], chain[i + 1]) {
      assert Imports(modules, chain[i], chain[i + 1]);
    }
    assert LoadingChain(tc, w, resolver, external, chain);
  }

  /** Discovery succeeds exactly when everything reachable from the entry loads, and then
      returns exactly that. */
  lemma DiscoveryIsReachability(tc: Toolchain, w: World, entry: Path, external: set<string>, resolver: Resolver)
    requires entry in w && ForEntry(tc, w, entry) == Ok(resolver)
    ensures Scratch(tc, w, entry, external).Ok? <==>
      forall path :: InGraph(tc, w, resolver, external, entry, path) ==> Load(tc, w, resolver, external, path).Ok?
    ensures Scratch(tc, w, entry, external).Ok? ==>
      var modules := Scratch(tc, w, entry, external).value;
      && (forall path :: path in modules <==> InGraph(tc, w, resolver, external, entry, path))
      && (forall path | path in modules :: Load(tc, w, resolver, external, path) == Ok(modules[path]))
  {
    var walk := Visit(tc, w, resolver, external, map[], entry);
    VisitExplores(tc, w, resolver, external, map[], entry);
    forall path | ReachedFrom(walk.modules, [entry], path)
      ensures InGraph(tc, w, resolver, external, entry, path)
    {
      ReachedIsInGraph(tc, w, resolver, external, walk.modules, entry, path);
    }
    if walk.failed.None? {
      forall path | InGraph(tc, w, resolver, external, entry, path) ensures path in walk.modules {
        var chain :| LoadingChain(tc, w, resolver, external, chain) && chain[0] == entry && chain[|chain| - 1] == path;
        assert entry in [entry];
        ChainStays(tc, w, resolver, external, walk.modules, chain);
      }
    }
  }
}

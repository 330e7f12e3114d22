/** A smallest project whose kept resolver goes stale unnoticed (src/compiler/project.rs). */
module StaleResolver {
  import opened Wrappers
  import opened Stamps
  import opened ProjectModel
  import opened ProjectLaws
  import opened Discovery
  import opened IncrementalDiscovery
  import opened WatchedFailures

  const ROOT: Path := ["work"]
  const APP: Path := ["work", "app"]
  const ENTRY: Path := ["work", "app", "main.ts"]
  const TSCONFIG_ABOVE: Path := ["work", TSCONFIG]

  /** Modules that import nothing. */
  ghost function QuietToolchain(): Toolchain {
    Toolchain(
      (path, stamp) => Ok("main"),
      (source, display) => Ok([]),
      (w, resolver, from, request) => Err("not found"),
      (w, resolver, from, request) => {},
      (w, tsconfig) => [tsconfig],
      (paths: set<Path>) => AnyOrder(paths))
  }

  /** A `tsconfig.json` is created in the directory above the entry's. */
  const EARLIER: World := map[ROOT := STAMP, APP := STAMP, ENTRY := STAMP]
  const LATER: World := map[ROOT := FileStamp(2, None), APP := STAMP, ENTRY := STAMP, TSCONFIG_ABOVE := STAMP]

  ghost function Found(root: Path): KnownModule {
    KnownModule(Some(STAMP), DisplayPath(root, ENTRY), "main", map[], AnyOrder({}), [])
  }

  ghost function Kept(): ProjectState {
    ProjectState(Resolver(APP, []), map[APP := Some(STAMP)], {}, map[ENTRY := Found(APP)])
  }

  lemma QuietToolchainIsLawful()
    ensures Lawful(QuietToolchain())
  {
    var tc := QuietToolchain();
    assert SortsAll(tc) by {
      forall paths, path ensures path in tc.sorted(paths) <==> path in paths {
        assert tc.sorted(paths) == AnyOrder(paths);
      }
    }
    assert ResolvesByFootprint(tc) && FootprintIsWatched(tc) && ChainsByFiles(tc);
  }

  /** The entry is all there is to visit, under either root. */
  lemma EntryLoads(w: World, resolver: Resolver)
    requires w == EARLIER || w == LATER
    ensures Visit(QuietToolchain(), w, resolver, {}, map[], ENTRY) == Walk(map[ENTRY := Found(resolver.root)], None)
  {
    var tc := QuietToolchain();
    assert Load(tc, w, resolver, {}, ENTRY) == Ok(Found(resolver.root));
    assert AnyOrder({}) == [];
    assert map[][ENTRY := Found(resolver.root)] == map[ENTRY := Found(resolver.root)];
  }

  lemma NothingInApp(w: World)
    requires w == EARLIER || w == LATER
    ensures ENTRY[..2] == APP && APP[..1] == ROOT && ROOT[..0] == []
    ensures APP + [TSCONFIG] !in w && [] + [TSCONFIG] !in w
    ensures ROOT + [TSCONFIG] == TSCONFIG_ABOVE && TSCONFIG_ABOVE[..1] == ROOT
    ensures TSCONFIG_ABOVE in w <==> w == LATER
  {
    assert |TSCONFIG| != |"main.ts"| && |TSCONFIG| != |"app"| && |TSCONFIG| != |"work"|;
    assert (APP + [TSCONFIG])[2] == TSCONFIG && |APP + [TSCONFIG]| == 3;
    assert ([] + [TSCONFIG])[0] == TSCONFIG;
    assert TSCONFIG_ABOVE[1] == TSCONFIG && APP[1] == "app";
  }

  lemma TsconfigAppears()
    ensures FindTsconfig(EARLIER, APP).None? && FindTsconfig(LATER, APP) == Some(TSCONFIG_ABOVE)
  {
    NothingInApp(EARLIER);
    NothingInApp(LATER);
    assert FindTsconfig(EARLIER, ROOT) == FindTsconfig(EARLIER, []) == None;
    assert FindTsconfig(LATER, ROOT) == Some(TSCONFIG_ABOVE);
  }

  /** Only the directory that got a new entry has another stamp. */
  lemma OnlyRootChanged()
    ensures DirectoriesTell(EARLIER, LATER)
  {
    forall directory: Path | StampOf(EARLIER, directory) == StampOf(LATER, directory)
      ensures SameEntries(EARLIER, LATER, directory)
    {
      forall name: string ensures directory + [name] in EARLIER <==> directory + [name] in LATER {
        if directory + [name] == TSCONFIG_ABOVE {
          assert directory == TSCONFIG_ABOVE[..1] == ROOT;
        }
      }
    }
  }

  lemma KeptIsFromEarlier()
    ensures StateFrom(QuietToolchain(), EARLIER, ENTRY, Kept()) && Reusable(Kept(), LATER, {})
  {
    EntryLoads(EARLIER, Resolver(APP, []));
    NothingInApp(EARLIER);
    assert DirectoriesOf(APP, ENTRY) == {APP};
    assert APP != ROOT && APP != ENTRY && APP != TSCONFIG_ABOVE;
  }

  lemma FreshResolvers()
    ensures ForEntry(QuietToolchain(), EARLIER, ENTRY) == Ok(Kept().resolver)
    ensures ForEntry(QuietToolchain(), LATER, ENTRY) == Ok(Resolver(ROOT, [TSCONFIG_ABOVE]))
    ensures FindTsconfig(LATER, ENTRY[..|ENTRY| - 1]).Some? && FindTsconfig(EARLIER, ENTRY[..|ENTRY| - 1]).None?
  {
    TsconfigAppears();
    NothingInApp(EARLIER);
  }

  lemma ScratchLoads()
    ensures Scratch(QuietToolchain(), LATER, ENTRY, {}).Ok?
  {
    FreshResolvers();
    EntryLoads(LATER, Resolver(ROOT, [TSCONFIG_ABOVE]));
  }

  /** The case of a stale resolver arises: nothing the kept state watches changed when a
      `tsconfig.json` appeared above, and discovering again gives another answer than
      discovering from nothing. */
  lemma TsconfigAboveIsNotNoticed()
    ensures var tc := QuietToolchain();
      && Lawful(tc) && StateFrom(tc, EARLIER, ENTRY, Kept()) && DirectoriesTell(EARLIER, LATER)
      && ForEntry(tc, EARLIER, ENTRY) == Ok(Kept().resolver) && Reusable(Kept(), LATER, {})
      && Scratch(tc, LATER, ENTRY, {}).Ok?
      && ScratchWith(tc, LATER, ENTRY, {}, Ok(Kept().resolver)) != Scratch(tc, LATER, ENTRY, {})
  {
    QuietToolchainIsLawful();
    KeptIsFromEarlier();
    OnlyRootChanged();
    FreshResolvers();
    ScratchLoads();
    StaleResolverMisnamesEntry(QuietToolchain(), EARLIER, LATER, ENTRY, {}, Kept());
  }
}

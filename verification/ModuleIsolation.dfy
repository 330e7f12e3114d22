/** Whatever is loaded and unloaded, imports never lead from one script's modules to
    another's. */
module ModuleIsolation {
  import opened Wrappers
  import opened ModuleIds
  import opened ModuleStore

  /** `to` may be reached from `from`: it is shared, or of the same graph. */
  predicate Reachable(from: string, to: string) {
    GraphOf(to).None? || GraphOf(to) == GraphOf(from)
  }

  /** Resolutions are of script modules, and stay in their graph or lead to the host. */
  predicate Isolated(store: Store) {
    forall key | key in store.resolutions :: GraphOf(key.0).Some? && Reachable(key.0, store.resolutions[key])
  }

  /** Requests that do not lead to a module of the project name a host module, outside the
      prefixes of script modules. */
  predicate ExternalsAreHost(modules: seq<Compiled>) {
    forall compiled, request | compiled in modules && request in compiled.requests ::
      request.1 in Names(modules) || GraphOf(request.1).None?
  }

  /** Anything a script module's import resolves to, but for the engine's own entry
      import, is a host module or belongs to the script's graph; what a host module imports
      is a host module. */
  lemma ResolvesWithinGraph(store: Store, base: string, name: string)
    requires Isolated(store) && store.hostImport != Some(name)
    ensures Resolve(store, base, name).0.Ok? ==> Reachable(base, Resolve(store, base, name).0.value)
  {
    var graph := GraphOf(base);
    if graph.Some? && graph.value in store.groupedGraphs && name == ENV_SPECIFIER {
      EnvModuleGraph(graph.value);
    } else if graph.Some? && graph.value in store.groupedGraphs && name in store.groupHostSources {
      HostInstanceGraph(graph.value, name);
    }
  }

  /** The engine's own import is let through once. */
  lemma EntryImportIsOnce(store: Store, base: string, name: string, otherBase: string)
    requires Isolated(store) && store.hostImport == Some(name)
    ensures var (resolved, after) := Resolve(store, base, name);
      resolved == Ok(name) && after.hostImport == None && Isolated(after)
      && (Resolve(after, otherBase, name).0.Ok? ==> Reachable(otherBase, Resolve(after, otherBase, name).0.value))
  {
    var after := Resolve(store, base, name).1;
    ResolvesWithinGraph(after, otherBase, name);
  }

  // ------------------------------------------------------------------ over whole runs

  datatype Change =
    | HostModules(sources: map<string, string>, groupSources: map<string, string>)
    | Grouped(graph: nat)
    | Project(entry: string, modules: seq<Compiled>, graph: nat)
    | Removed(moduleIds: seq<string>)
    | EntryImport(hostImport: Option<string>)
    | Import(base: string, name: string)

  function Apply(store: Store, change: Change): Store {
    match change
    case HostModules(sources, groupSources) =>
      store.(sources := store.sources + sources, groupHostSources := store.groupHostSources + groupSources)
    case Grouped(graph) => store.(groupedGraphs := store.groupedGraphs + {graph})
    case Project(entry, modules, graph) =>
      var inserted := InsertProject(store, entry, modules, graph);
      if inserted.Ok? then inserted.value.0 else store
    case Removed(moduleIds) => RemoveModules(store, moduleIds)
    case EntryImport(hostImport) => store.(hostImport := hostImport)
    case Import(base, name) => Resolve(store, base, name).1
  }

  predicate Proper(change: Change) {
    change.Project? ==> change.graph < U64_LIMIT && ExternalsAreHost(change.modules)
  }

  lemma {:induction false} RequestsStayIsolated(
      store: Store, base: string, requests: seq<(string, string)>, graph: nat, names: set<string>)
    requires Isolated(store) && GraphOf(base) == Some(graph) && graph < U64_LIMIT
    requires forall request | request in requests :: request.1 in names || GraphOf(request.1).None?
    ensures Isolated(store.(resolutions := AddRequests(store.resolutions, base, requests, graph, names)))
    decreases |requests|
  {
    if requests != [] {
      var target := Target(graph, names, requests[0].1);
      if requests[0].1 in names { ScriptModuleGraph(graph, requests[0].1); }
      assert requests[0] in requests;
      var next := store.(resolutions := store.resolutions[(base, requests[0].0) := target]);
      RequestsStayIsolated(next, base, requests[1..], graph, names);
    }
  }

  lemma {:induction false} ModulesStayIsolated(store: Store, graph: nat, modules: seq<Compiled>, names: set<string>)
    requires Isolated(store) && graph < U64_LIMIT
    requires forall compiled, request | compiled in modules && request in compiled.requests ::
      request.1 in names || GraphOf(request.1).None?
    ensures Isolated(AddModules(store, graph, modules, names))
    decreases |modules|
  {
    if modules != [] {
      assert modules[0] in modules;
      ScriptModuleGraph(graph, modules[0].moduleId);
      RequestsStayIsolated(store, RuntimeModuleId(graph, modules[0].moduleId), modules[0].requests, graph, names);
      ModulesStayIsolated(AddModule(store, graph, modules[0], names), graph, modules[1..], names);
    }
  }

  lemma {:induction false} RemovalStaysIsolated(store: Store, moduleIds: seq<string>)
    requires Isolated(store)
    ensures Isolated(RemoveModules(store, moduleIds))
    decreases |moduleIds|
  {
    if moduleIds != [] { RemovalStaysIsolated(RemoveModule(store, moduleIds[0]), moduleIds[1..]); }
  }

  lemma ChangeStaysIsolated(store: Store, change: Change)
    requires Isolated(store) && Proper(change)
    ensures Isolated(Apply(store, change))
  {
    match change
    case Project(entry, modules, graph) => ModulesStayIsolated(store, graph, modules, Names(modules));
    case Removed(moduleIds) => RemovalStaysIsolated(store, moduleIds);
    case _ =>
  }

  function After(changes: seq<Change>): Store {
    if changes == [] then EMPTY else Apply(After(changes[..|changes| - 1]), changes[|changes| - 1])
  }

  lemma {:induction false} RunsStayIsolated(changes: seq<Change>)
    requires forall change | change in changes :: Proper(change)
    ensures Isolated(After(changes))
    decreases |changes|
  {
    if changes != [] {
      assert changes[|changes| - 1] in changes;
      RunsStayIsolated(changes[..|changes| - 1]);
      ChangeStaysIsolated(After(changes[..|changes| - 1]), changes[|changes| - 1]);
    }
  }

  /** One import of a run: made when `changes` had happened, and not the engine's own. */
  datatype Step = Step(changes: seq<Change>, name: string)

  ghost predicate Chain(ids: seq<string>, steps: seq<Step>) {
    && |ids| == |steps| + 1
    && forall i | 0 <= i < |steps| ::
         && (forall change | change in steps[i].changes :: Proper(change))
         && After(steps[i].changes).hostImport != Some(steps[i].name)
         && Resolve(After(steps[i].changes), ids[i], steps[i].name).0 == Ok(ids[i + 1])
  }

  /** Everything reached from a script's entry, however many imports away and whatever was
      loaded or unloaded between them, is a host module or one of the script's own. */
  lemma {:induction false} ReachesOnlyItsOwn(ids: seq<string>, steps: seq<Step>)
    requires Chain(ids, steps)
    ensures Reachable(ids[0], ids[|steps|])
    decreases |steps|
  {
    if steps != [] {
      var last := |steps| - 1;
      ReachesOnlyItsOwn(ids[..|steps|], steps[..last]);
      RunsStayIsolated(steps[last].changes);
      ResolvesWithinGraph(After(steps[last].changes), ids[last], steps[last].name);
    }
  }

  // ------------------------------------------------------------- removal touches no other

  /** Removing one graph's modules leaves every other graph as it was. */
  lemma {:induction false} RemovalKeepsOthers(store: Store, moduleIds: seq<string>, graph: nat, other: string)
    requires Isolated(store) && (forall id | id in moduleIds :: GraphOf(id) == Some(graph)) && GraphOf(other) != Some(graph)
    ensures var after := RemoveModules(store, moduleIds);
      && Lookup(after.sources, other) == Lookup(store.sources, other) && SourceForLoad(after, other) == SourceForLoad(store, other)
      && (forall name :: (other, name) in after.resolutions <==> (other, name) in store.resolutions)
      && (forall name | (other, name) in store.resolutions :: after.resolutions[(other, name)] == store.resolutions[(other, name)])
      && after.groupedGraphs == if moduleIds == [] then store.groupedGraphs else store.groupedGraphs - {graph}
    decreases |moduleIds|
  {
    if moduleIds != [] {
      var next := RemoveModule(store, moduleIds[0]);
      assert moduleIds[0] in moduleIds;
      forall name | (other, name) in store.resolutions
        ensures (other, name) in next.resolutions && next.resolutions[(other, name)] == store.resolutions[(other, name)]
      {
        assert Reachable(other, store.resolutions[(other, name)]);
      }
      RemovalKeepsOthers(next, moduleIds[1..], graph, other);
    }
  }

  /** What a grouped script imports by the name of a group host module is its graph's own
      instance, which loads with that module's source. */
  lemma HostInstanceLoads(store: Store, base: string, graph: nat, name: string)
    requires GraphOf(base) == Some(graph) && graph in store.groupedGraphs && graph < U64_LIMIT
    requires name in store.groupHostSources && name != ENV_SPECIFIER
    ensures ResolveScript(store, base, name) == Ok(HostInstanceId(graph, name))
    ensures SourceForLoad(store, HostInstanceId(graph, name)) == Some(store.groupHostSources[name])
  {
    HostInstanceGraph(graph, name);
  }
}

/** The module sources and resolutions of every loaded script
    (src/runner/module_loader/store): a script reaches its own modules and the host's, and
    no other script's. */
module ModuleStore {
  import opened Wrappers
  import opened ModuleIds

  datatype Store = Store(
    sources: map<string, string>, groupHostSources: map<string, string>, groupedGraphs: set<nat>,
    resolutions: map<(string, string), string>, hostImport: Option<string>)

  const EMPTY := Store(map[], map[], {}, map[], None)

  /** One transpiled module: its own id, its code, and where each of its requests leads, in
      request order. */
  datatype Compiled = Compiled(moduleId: string, source: string, requests: seq<(string, string)>)

  datatype Graph = Graph(graphId: nat, entry: string, moduleIds: seq<string>)

  // -------------------------------------------------------------------- resolution

  /** What `name` imported from `base` is, and whether that was the engine's own import. */
  function Resolve(store: Store, base: string, name: string): (Result<string, string>, Store) {
    if store.hostImport == Some(name) then (Ok(name), store.(hostImport := None))
    else (ResolveScript(store, base, name), store)
  }

  function ResolveScript(store: Store, base: string, name: string): Result<string, string> {
    var graph := GraphOf(base);
    if graph.Some? && graph.value in store.groupedGraphs && name == ENV_SPECIFIER then Ok(EnvModuleId(graph.value))
    else if graph.Some? && graph.value in store.groupedGraphs && name in store.groupHostSources then
      Ok(HostInstanceId(graph.value, name))
    else if name in store.sources && (GraphOf(name).None? || GraphOf(base) == GraphOf(name)) then Ok(name)
    else if (base, name) in store.resolutions then Ok(store.resolutions[(base, name)])
    else Err("cannot resolve")
  }

  /** The source a resolved module loads with; an environment module has one of its own. */
  function SourceForLoad(store: Store, name: string): Option<string> {
    var host := HostInstanceModule(name);
    if host.Some? then Lookup(store.groupHostSources, host.value) else Lookup(store.sources, name)
  }

  function Lookup(sources: map<string, string>, name: string): Option<string> {
    if name in sources then Some(sources[name]) else None
  }

  // -------------------------------------------------------------------- insertions

  function Names(modules: seq<Compiled>): set<string> { set compiled | compiled in modules :: compiled.moduleId }

  /** A request leads to a module of the graph, or stays as it is. */
  function Target(graph: nat, names: set<string>, resolved: string): string {
    if resolved in names then RuntimeModuleId(graph, resolved) else resolved
  }

  function AddRequests(
      resolutions: map<(string, string), string>, base: string, requests: seq<(string, string)>, graph: nat, names: set<string>)
    : map<(string, string), string>
    decreases |requests|
  {
    if requests == [] then resolutions
    else
      AddRequests(resolutions[(base, requests[0].0) := Target(graph, names, requests[0].1)], base, requests[1..], graph, names)
  }

  function AddModule(store: Store, graph: nat, compiled: Compiled, names: set<string>): Store {
    var id := RuntimeModuleId(graph, compiled.moduleId);
    store.(resolutions := AddRequests(store.resolutions, id, compiled.requests, graph, names),
           sources := store.sources[id := compiled.source])
  }

  function AddModules(store: Store, graph: nat, modules: seq<Compiled>, names: set<string>): Store
    decreases |modules|
  {
    if modules == [] then store else AddModules(AddModule(store, graph, modules[0], names), graph, modules[1..], names)
  }

  function RuntimeIds(graph: nat, modules: seq<Compiled>): seq<string> {
    seq(|modules|, i requires 0 <= i < |modules| => RuntimeModuleId(graph, modules[i].moduleId))
  }

  /** A project's graph; an inline script's is one module with no requests of its own. */
  function InsertProject(store: Store, entry: string, modules: seq<Compiled>, graph: nat): Result<(Store, Graph), string> {
    if entry !in Names(modules) then Err("entry module is missing")
    else Ok((AddModules(store, graph, modules, Names(modules)),
             Graph(graph, RuntimeModuleId(graph, entry), RuntimeIds(graph, modules))))
  }

  // ---------------------------------------------------------------------- removal

  function RemoveModule(store: Store, moduleId: string): Store {
    store.(groupedGraphs := store.groupedGraphs - (if GraphOf(moduleId).Some? then {GraphOf(moduleId).value} else {}),
           sources := store.sources - {moduleId},
           resolutions := map key | key in store.resolutions && key.0 != moduleId && store.resolutions[key] != moduleId
                            :: store.resolutions[key])
  }

  function RemoveModules(store: Store, moduleIds: seq<string>): Store
    decreases |moduleIds|
  {
    if moduleIds == [] then store else RemoveModules(RemoveModule(store, moduleIds[0]), moduleIds[1..])
  }

  // -------------------------------------------------------------------- the class

  class WorkerModuleStore {
    var sources: map<string, string>
    var groupHostSources: map<string, string>
    var groupedGraphs: set<nat>
    var resolutions: map<(string, string), string>
    var hostImport: Option<string>

    constructor ()
      ensures View() == EMPTY
    {
      sources, groupHostSources, groupedGraphs, resolutions, hostImport := map[], map[], {}, map[], None;
    }

    ghost function View(): Store
      reads this
    {
      Store(sources, groupHostSources, groupedGraphs, resolutions, hostImport)
    }

    method ResolveImport(base: string, name: string) returns (resolved: Result<string, string>)
      modifies this`hostImport
      ensures (resolved, View()) == Resolve(old(View()), base, name)
    {
      if hostImport == Some(name) {
        hostImport := None;
        return Ok(name);
      }
      var graph := GraphOf(base);
      if graph.Some? && graph.value in groupedGraphs {
        if name == ENV_SPECIFIER {
          return Ok(EnvModuleId(graph.value));
        }
        if name in groupHostSources {
          return Ok(HostInstanceId(graph.value, name));
        }
      }
      if name in sources && (GraphOf(name).None? || GraphOf(base) == GraphOf(name)) {
        return Ok(name);
      }
      if (base, name) in resolutions {
        return Ok(resolutions[(base, name)]);
      }
      resolved := Err("cannot resolve");
    }

    method Insert(entry: string, modules: seq<Compiled>, graph: nat) returns (inserted: Result<Graph, string>)
      modifies this
      ensures match InsertProject(old(View()), entry, modules, graph)
        case Ok((store, inserting)) => View() == store && inserted == Ok(inserting)
        case Err(error) => View() == old(View()) && inserted == Err(error)
    {
      var names := Names(modules);
      if entry !in names {
        return Err("entry module is missing");
      }
      ghost var all := AddModules(View(), graph, modules, names);
      assert modules[0..] == modules;
      for i := 0 to |modules|
        invariant AddModules(View(), graph, modules[i..], names) == all
      {
        assert modules[i..][1..] == modules[i + 1..];
        InsertModule(graph, modules[i], names);
      }
      inserted := Ok(Graph(graph, RuntimeModuleId(graph, entry), RuntimeIds(graph, modules)));
    }

    method InsertModule(graph: nat, compiled: Compiled, names: set<string>)
      modifies this`resolutions, this`sources
      ensures View() == AddModule(old(View()), graph, compiled, names)
    {
      var id := RuntimeModuleId(graph, compiled.moduleId);
      ghost var all := AddRequests(resolutions, id, compiled.requests, graph, names);
      assert compiled.requests[0..] == compiled.requests;
      for i := 0 to |compiled.requests|
        invariant sources == old(sources)
        invariant AddRequests(resolutions, id, compiled.requests[i..], graph, names) == all
      {
        assert compiled.requests[i..][1..] == compiled.requests[i + 1..];
        var (request, resolved) := compiled.requests[i];
        resolutions := resolutions[(id, request) := Target(graph, names, resolved)];
      }
      sources := sources[id := compiled.source];
    }

    method MarkGrouped(graph: nat)
      modifies this`groupedGraphs
      ensures View() == old(View()).(groupedGraphs := old(groupedGraphs) + {graph})
    {
      groupedGraphs := groupedGraphs + {graph};
    }

    method InsertHostModules(modules: map<string, string>, groupModules: map<string, string>)
      modifies this`sources, this`groupHostSources
      ensures View() == old(View()).(sources := old(sources) + modules, groupHostSources := old(groupHostSources) + groupModules)
    {
      sources := sources + modules;
      groupHostSources := groupHostSources + groupModules;
    }

    method Remove(moduleIds: seq<string>)
      modifies this
      ensures View() == RemoveModules(old(View()), moduleIds)
    {
      ghost var all := RemoveModules(View(), moduleIds);
      assert moduleIds[0..] == moduleIds;
      for i := 0 to |moduleIds|
        invariant RemoveModules(View(), moduleIds[i..]) == all
      {
        assert moduleIds[i..][1..] == moduleIds[i + 1..];
        RemoveOne(moduleIds[i]);
      }
    }

    method RemoveOne(moduleId: string)
      modifies this
      ensures View() == RemoveModule(old(View()), moduleId)
    {
      var graph := GraphOf(moduleId);
      if graph.Some? {
        groupedGraphs := groupedGraphs - {graph.value};
      }
      sources := sources - {moduleId};
      resolutions := map key | key in resolutions && key.0 != moduleId && resolutions[key] != moduleId :: resolutions[key];
    }
  }
}

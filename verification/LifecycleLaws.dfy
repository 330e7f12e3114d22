/** The engine's bookkeeping after every load, reload, failed load and unload. */
module LifecycleLaws {
  import opened Wrappers
  import opened ModuleIds
  import opened ModuleStore
  import opened ModuleIsolation
  import opened LifecycleModel

  // -------------------------------------------------------------------- the store

  lemma {:induction false} RequestsAdded(
      resolutions: map<(string, string), string>, base: string, requests: seq<(string, string)>, graph: nat, names: set<string>)
    ensures var after := AddRequests(resolutions, base, requests, graph, names);
      && (forall key | key in after :: key in resolutions || key.0 == base)
      && (forall key | key in resolutions :: key in after && (key.0 != base ==> after[key] == resolutions[key]))
    decreases |requests|
  {
    if requests != [] {
      RequestsAdded(resolutions[(base, requests[0].0) := Target(graph, names, requests[0].1)], base, requests[1..], graph, names);
    }
  }

  /** What inserting a graph adds. */
  lemma {:induction false} ModulesAdded(store: Store, graph: nat, modules: seq<Compiled>, names: set<string>)
    ensures var after, ids := AddModules(store, graph, modules, names), RuntimeIds(graph, modules);
      && (forall id :: id in after.sources <==> id in store.sources || id in ids)
      && (forall id | id in store.sources && id !in ids :: after.sources[id] == store.sources[id])
      && (forall key | key in after.resolutions :: key in store.resolutions || key.0 in ids)
      && (forall key | key in store.resolutions :: key in after.resolutions
            && (key.0 !in ids ==> after.resolutions[key] == store.resolutions[key]))
      && after.groupedGraphs == store.groupedGraphs && after.hostImport == store.hostImport
      && after.groupHostSources == store.groupHostSources
    decreases |modules|
  {
    var ids := RuntimeIds(graph, modules);
    if modules != [] {
      var id := RuntimeModuleId(graph, modules[0].moduleId);
      assert ids == [id] + RuntimeIds(graph, modules[1..]);
      RequestsAdded(store.resolutions, id, modules[0].requests, graph, names);
      ModulesAdded(AddModule(store, graph, modules[0], names), graph, modules[1..], names);
    }
  }

  function Graphs(moduleIds: seq<string>): set<nat> {
    set moduleId | moduleId in moduleIds && GraphOf(moduleId).Some? :: GraphOf(moduleId).value
  }

  /** What removing modules leaves. */
  lemma {:induction false} ModulesRemoved(store: Store, ids: seq<string>)
    ensures var after := RemoveModules(store, ids);
      && (forall id :: id in after.sources <==> id in store.sources && id !in ids)
      && (forall id | id in after.sources :: after.sources[id] == store.sources[id])
      && (forall key :: key in after.resolutions <==>
            key in store.resolutions && key.0 !in ids && store.resolutions[key] !in ids)
      && (forall key | key in after.resolutions :: after.resolutions[key] == store.resolutions[key])
      && after.groupedGraphs == store.groupedGraphs - Graphs(ids) && after.hostImport == store.hostImport
      && after.groupHostSources == store.groupHostSources
    decreases |ids|
  {
    if ids != [] {
      assert ids == [ids[0]] + ids[1..];
      ModulesRemoved(RemoveModule(store, ids[0]), ids[1..]);
      assert Graphs(ids) == Graphs(ids[1..]) + if GraphOf(ids[0]).Some? then {GraphOf(ids[0]).value} else {};
    }
  }

  /** Nothing in the store is of `graph`. */
  ghost predicate Unused(store: Store, graph: nat) {
    && (forall id | id in store.sources :: GraphOf(id) != Some(graph))
    && (forall key | key in store.resolutions ::
          GraphOf(key.0) != Some(graph) && GraphOf(store.resolutions[key]) != Some(graph))
    && graph !in store.groupedGraphs
  }

  lemma NextGraphIsUnused(e: Engine)
    requires Inv(e)
    ensures Unused(e.store, e.nextGraphId)
  {
    forall id | id in e.store.sources ensures GraphOf(id) != Some(e.nextGraphId) {
      if GraphOf(id).Some? {
        assert Owned(e.scripts, id);
        var script :| script in e.scripts && id in script.moduleIds;
      }
    }
    forall key | key in e.store.resolutions
      ensures GraphOf(key.0) != Some(e.nextGraphId) && GraphOf(e.store.resolutions[key]) != Some(e.nextGraphId)
    {
      assert Owned(e.scripts, key.0);
      var script :| script in e.scripts && key.0 in script.moduleIds;
      assert Reachable(key.0, e.store.resolutions[key]);
    }
    assert forall script | script in e.scripts :: script.graphId != e.nextGraphId;
  }

  lemma RuntimeIdsGraph(graph: nat, modules: seq<Compiled>)
    requires graph < U64_LIMIT
    ensures forall id | id in RuntimeIds(graph, modules) :: GraphOf(id) == Some(graph)
    ensures Graphs(RuntimeIds(graph, modules)) <= {graph}
    ensures modules != [] ==> Graphs(RuntimeIds(graph, modules)) == {graph}
  {
    var ids := RuntimeIds(graph, modules);
    forall id | id in ids ensures GraphOf(id) == Some(graph) {
      var i :| 0 <= i < |ids| && ids[i] == id;
      ScriptModuleGraph(graph, modules[i].moduleId);
    }
    if modules != [] { assert ids[0] in ids; }
  }

  /** A graph inserted, marked as grouped or not, and removed leaves the store as it was. */
  lemma FailedLoadRestoresStore(store: Store, graph: nat, modules: seq<Compiled>, names: set<string>, marked: bool)
    requires Unused(store, graph) && graph < U64_LIMIT && modules != []
    ensures var inserted := AddModules(store, graph, modules, names);
      RemoveModules(inserted.(groupedGraphs := inserted.groupedGraphs + if marked then {graph} else {}),
                    RuntimeIds(graph, modules)) == store
  {
    var inserted, ids := AddModules(store, graph, modules, names), RuntimeIds(graph, modules);
    ModulesAdded(store, graph, modules, names);
    RuntimeIdsGraph(graph, modules);
    RemovalRestores(store, inserted.(groupedGraphs := inserted.groupedGraphs + if marked then {graph} else {}), graph, ids);
  }

  lemma RemovalRestores(store: Store, full: Store, graph: nat, ids: seq<string>)
    requires Unused(store, graph) && Graphs(ids) == {graph} && forall id | id in ids :: GraphOf(id) == Some(graph)
    requires forall id :: id in full.sources <==> id in store.sources || id in ids
    requires forall id | id in store.sources :: full.sources[id] == store.sources[id]
    requires forall key | key in full.resolutions :: key in store.resolutions || key.0 in ids
    requires forall key | key in store.resolutions :: key in full.resolutions && full.resolutions[key] == store.resolutions[key]
    requires full == store.(sources := full.sources, resolutions := full.resolutions, groupedGraphs := full.groupedGraphs)
    requires store.groupedGraphs <= full.groupedGraphs <= store.groupedGraphs + {graph}
    ensures RemoveModules(full, ids) == store
  {
    var after := RemoveModules(full, ids);
    ModulesRemoved(full, ids);
    SameSources(store.sources, full.sources, after.sources, ids);
    forall key ensures key in after.resolutions <==> key in store.resolutions {
      if key in store.resolutions { assert key.0 !in ids && full.resolutions[key] !in ids; }
    }
    SameMap(after.resolutions, store.resolutions);
  }

  lemma SameSources(before: map<string, string>, full: map<string, string>, after: map<string, string>, ids: seq<string>)
    requires forall id :: id in full <==> id in before || id in ids
    requires forall id :: id in after <==> id in full && id !in ids
    requires forall id | id in before :: full[id] == before[id] && id !in ids
    requires forall id | id in after :: after[id] == full[id]
    ensures after == before
  {}

  lemma SameMap<K, V>(a: map<K, V>, b: map<K, V>)
    requires forall key :: key in a <==> key in b
    requires forall key | key in a :: a[key] == b[key]
    ensures a == b
  {}

  /** `others` are the scripts of `all` but for `gone`. */
  ghost predicate AllBut(all: seq<Script>, others: seq<Script>, gone: Script) {
    && gone in all
    && forall script :: script in others <==> script in all && script != gone
  }

  /** Every module, and every graph, is of one script. */
  ghost predicate OneOwner(all: seq<Script>) {
    && (forall script | script in all :: script.moduleIds != []
          && forall moduleId | moduleId in script.moduleIds :: GraphOf(moduleId) == Some(script.graphId))
    && (forall a, b | a in all && b in all && a.graphId == b.graphId :: a == b)
  }

  /** Removing one script's modules leaves the store exact for the others. */
  lemma StoreWithout(store: Store, all: seq<Script>, others: seq<Script>, gone: Script)
    requires StoreExact(store, all) && AllBut(all, others, gone) && OneOwner(all)
    ensures StoreExact(RemoveModules(store, gone.moduleIds), others)
  {
    var after := RemoveModules(store, gone.moduleIds);
    ModulesRemoved(store, gone.moduleIds);
    RemovalStaysIsolated(store, gone.moduleIds);
    forall moduleId ensures Owned(others, moduleId) <==> Owned(all, moduleId) && moduleId !in gone.moduleIds {
      OwnedByOthers(all, others, gone, moduleId);
    }
    assert gone.moduleIds[0] in gone.moduleIds;
    assert Graphs(gone.moduleIds) == {gone.graphId};
    GraphsOfOthers(all, others, gone);
  }

  lemma OwnedByOthers(all: seq<Script>, others: seq<Script>, gone: Script, moduleId: string)
    requires AllBut(all, others, gone) && OneOwner(all)
    ensures Owned(others, moduleId) <==> Owned(all, moduleId) && moduleId !in gone.moduleIds
  {
    if Owned(others, moduleId) {
      var script :| script in others && moduleId in script.moduleIds;
      assert script in all && script.graphId != gone.graphId;
    }
    if Owned(all, moduleId) && moduleId !in gone.moduleIds {
      var script :| script in all && moduleId in script.moduleIds;
      assert script in others;
    }
  }

  lemma GraphsOfOthers(all: seq<Script>, others: seq<Script>, gone: Script)
    requires AllBut(all, others, gone) && OneOwner(all)
    ensures GroupedGraphs(others) == GroupedGraphs(all) - {gone.graphId}
  {
    forall graph ensures graph in GroupedGraphs(others) <==> graph in GroupedGraphs(all) && graph != gone.graphId {
      if graph in GroupedGraphs(all) && graph != gone.graphId {
        var script :| script in all && script.group.Some? && script.graphId == graph;
        assert script in others;
      }
      if graph in GroupedGraphs(others) {
        var script :| script in others && script.group.Some? && script.graphId == graph;
        assert script in all;
      }
    }
  }

  /** Inserting a new graph makes the store exact with its script. */
  lemma StoreWith(store: Store, scripts: seq<Script>, added: Script, entry: string, modules: seq<Compiled>)
    requires StoreExact(store, scripts) && Unused(store, added.graphId) && added.graphId < U64_LIMIT
    requires entry in Names(modules) && ExternalsAreHost(modules)
    requires added.moduleIds == RuntimeIds(added.graphId, modules)
    ensures var inserted := InsertProject(store, entry, modules, added.graphId).value.0;
      StoreExact(inserted.(groupedGraphs := inserted.groupedGraphs + GraphSet(added)), scripts + [added])
  {
    var graph, names, all := added.graphId, Names(modules), scripts + [added];
    var inserted := AddModules(store, graph, modules, names);
    ModulesAdded(store, graph, modules, names);
    ModulesStayIsolated(store, graph, modules, names);
    RuntimeIdsGraph(graph, modules);
    forall moduleId ensures Owned(all, moduleId) <==> Owned(scripts, moduleId) || moduleId in added.moduleIds {
      if Owned(all, moduleId) {
        var script :| script in all && moduleId in script.moduleIds;
      }
      if moduleId in added.moduleIds { assert added in all; }
      if Owned(scripts, moduleId) {
        var script :| script in scripts && moduleId in script.moduleIds;
        assert script in all;
      }
    }
    assert GroupedGraphs(all) == GroupedGraphs(scripts) + GraphSet(added) by {
      assert forall script :: script in all <==> script in scripts || script == added;
    }
  }

  // ------------------------------------------------------------------- the engine

  /** Finishing tasks changes nothing but how many there are. */
  lemma HarvestKeepsInv(e: Engine, left: seq<nat>)
    requires Inv(e) && Harvests(e.scripts, left)
    ensures Inv(Harvest(e, left))
  {
    var scripts := WithTasks(e.scripts, left);
    SameBookkeeping(e.scripts, scripts);
    StoreSame(e.store, e.scripts, scripts);
    GroupsSame(e.groups, e.scripts, scripts);
    ApartSame(e.scripts, scripts, e.nextGraphId);
  }

  lemma GroupsSame(groups: map<string, nat>, a: seq<Script>, b: seq<Script>)
    requires GroupsCounted(groups, a) && SameButTasks(a, b)
    ensures GroupsCounted(groups, b)
  {
    forall name ensures Weigh(b, InGroup(name)) == Weigh(a, InGroup(name)) {
      WeighSame(a, b, InGroup(name));
    }
  }

  lemma ApartSame(a: seq<Script>, b: seq<Script>, nextGraphId: nat)
    requires Apart(a, nextGraphId) && SameButTasks(a, b)
    ensures Apart(b, nextGraphId)
  {
    forall script | script in b
      ensures script.graphId < nextGraphId && script.moduleIds != []
      ensures forall moduleId | moduleId in script.moduleIds :: GraphOf(moduleId) == Some(script.graphId)
    {
      var i :| 0 <= i < |b| && b[i] == script;
      assert a[i] in a && a[i].moduleIds == script.moduleIds && a[i].graphId == script.graphId;
    }
  }

  /** Scripts that differ in nothing but their tasks. */
  predicate SameButTasks(a: seq<Script>, b: seq<Script>) {
    |a| == |b| && forall i | 0 <= i < |a| :: a[i].(tasks := 0) == b[i].(tasks := 0)
  }

  lemma {:induction false} WeighSame(a: seq<Script>, b: seq<Script>, weight: Script -> nat)
    requires |a| == |b| && forall i | 0 <= i < |a| :: weight(a[i]) == weight(b[i])
    ensures Weigh(a, weight) == Weigh(b, weight)
    decreases |a|
  {
    if a != [] { WeighSame(a[..|a| - 1], b[..|b| - 1], weight); }
  }

  lemma SameBookkeeping(a: seq<Script>, b: seq<Script>)
    requires SameButTasks(a, b)
    ensures GroupedGraphs(a) == GroupedGraphs(b)
    ensures forall moduleId :: Owned(a, moduleId) <==> Owned(b, moduleId)
  {
    forall graph ensures graph in GroupedGraphs(a) <==> graph in GroupedGraphs(b) {
      SameGraph(a, b, graph);
      SameGraph(b, a, graph);
    }
    forall moduleId ensures Owned(a, moduleId) <==> Owned(b, moduleId) {
      SameOwner(a, b, moduleId);
      SameOwner(b, a, moduleId);
    }
  }

  lemma SameGraph(a: seq<Script>, b: seq<Script>, graph: nat)
    requires SameButTasks(a, b)
    ensures graph in GroupedGraphs(a) ==> graph in GroupedGraphs(b)
  {
    if graph in GroupedGraphs(a) {
      var script :| script in a && script.group.Some? && script.graphId == graph;
      var i :| 0 <= i < |a| && a[i] == script;
      assert b[i] in b && b[i].graphId == graph && b[i].group == script.group;
    }
  }

  lemma SameOwner(a: seq<Script>, b: seq<Script>, moduleId: string)
    requires SameButTasks(a, b)
    ensures Owned(a, moduleId) ==> Owned(b, moduleId)
  {
    if Owned(a, moduleId) {
      var script :| script in a && moduleId in script.moduleIds;
      var i :| 0 <= i < |a| && a[i] == script;
      assert b[i] in b && b[i].moduleIds == script.moduleIds;
    }
  }

  lemma StoreSame(store: Store, a: seq<Script>, b: seq<Script>)
    requires StoreExact(store, a) && GroupedGraphs(a) == GroupedGraphs(b)
    requires forall moduleId :: Owned(a, moduleId) <==> Owned(b, moduleId)
    ensures StoreExact(store, b)
  {}

  lemma ApartIsOneOwner(scripts: seq<Script>, nextGraphId: nat)
    requires Apart(scripts, nextGraphId)
    ensures OneOwner(scripts)
  {
    forall a, b | a in scripts && b in scripts && a.graphId == b.graphId ensures a == b {
      var i :| 0 <= i < |scripts| && scripts[i] == a;
      var j :| 0 <= j < |scripts| && scripts[j] == b;
    }
  }

  lemma GroupsLeft(groups: map<string, nat>, all: seq<Script>, others: seq<Script>, gone: Script)
    requires GroupsCounted(groups, all)
    requires forall name :: Weigh(others, InGroup(name)) == Weigh(all, InGroup(name)) - InGroup(name)(gone)
    ensures GroupsCounted(Left(groups, gone.group), others)
  {
    var after := Left(groups, gone.group);
    forall name
      ensures name in after <==> Weigh(others, InGroup(name)) > 0
      ensures name in after ==> after[name] == Weigh(others, InGroup(name))
    {
      assert Weigh(others, InGroup(name)) == Weigh(all, InGroup(name)) - InGroup(name)(gone);
    }
  }

  lemma GroupsJoined(groups: map<string, nat>, scripts: seq<Script>, more: seq<Script>, added: Script)
    requires GroupsCounted(groups, scripts)
    requires forall name :: Weigh(more, InGroup(name)) == Weigh(scripts, InGroup(name)) + InGroup(name)(added)
    ensures GroupsCounted(Joined(groups, added.group), more)
  {
    var after := Joined(groups, added.group);
    forall name
      ensures name in after <==> Weigh(more, InGroup(name)) > 0
      ensures name in after ==> after[name] == Weigh(more, InGroup(name))
    {
      assert Weigh(more, InGroup(name)) == Weigh(scripts, InGroup(name)) + InGroup(name)(added);
    }
  }

  /** An unloaded script takes everything of its own with it. */
  lemma UnloadKeepsInv(e: Engine, at: nat, left: seq<nat>)
    requires Inv(e) && at < |e.scripts| && Harvests(Without(e.scripts, at), left)
    ensures Inv(Retired(e.(scripts := Without(e.scripts, at)), e.scripts[at], left))
  {
    var gone, others := e.scripts[at], Without(e.scripts, at);
    ApartIsOneOwner(e.scripts, e.nextGraphId);
    WithoutIsAllBut(e.scripts, at, e.nextGraphId);
    StoreWithout(e.store, e.scripts, others, gone);
    GraphsOfOthers(e.scripts, others, gone);
    forall name ensures Weigh(others, InGroup(name)) == Weigh(e.scripts, InGroup(name)) - InGroup(name)(gone) {
      WeighWithout(e.scripts, at, InGroup(name));
    }
    GroupsLeft(e.groups, e.scripts, others, gone);
    var unloaded := e.(scripts := others, store := RemoveModules(e.store, gone.moduleIds), envs := e.envs - {gone.graphId},
                       groups := Left(e.groups, gone.group), activeTasks := Weigh(others, TasksOf()));
    HarvestKeepsInv(unloaded, left);
  }

  lemma WithoutIsAllBut(scripts: seq<Script>, at: nat, nextGraphId: nat)
    requires Apart(scripts, nextGraphId) && at < |scripts|
    ensures AllBut(scripts, Without(scripts, at), scripts[at]) && Apart(Without(scripts, at), nextGraphId)
  {
    var others := Without(scripts, at);
    forall script ensures script in others <==> script in scripts && script != scripts[at] {
      if script in scripts && script != scripts[at] {
        var i :| 0 <= i < |scripts| && scripts[i] == script;
        assert others[if i < at then i else i - 1] == script;
      }
      if script in others {
        var i :| 0 <= i < |others| && others[i] == script;
        assert script == scripts[if i < at then i else i + 1];
      }
    }
  }

  // ------------------------------------------------------------------------ loading

  /** A failed load leaves the engine as it was, but for a graph id used up and the tasks
      its jobs let finish. */
  function FailedLoad(e: Engine, left: seq<nat>): Engine
    requires Harvests(e.scripts, left)
  {
    Harvest(e, left).(nextGraphId := e.nextGraphId + 1)
  }

  function NewVersion(id: string, group: Option<string>, graph: nat, modules: seq<Compiled>): Script {
    Script(id, group, graph, RuntimeIds(graph, modules), 0)
  }

  /** A load: the new version takes the previous one's place, which then retires. */
  function Loaded(e: Engine, id: string, group: Option<string>, entry: string, modules: seq<Compiled>, left: seq<nat>): Engine
    requires entry in Names(modules) && Harvests(Placed(e.scripts, NewVersion(id, group, e.nextGraphId, modules)), left)
  {
    var mounted := Mounted(e, NewVersion(id, group, e.nextGraphId, modules), entry, modules);
    var at := IndexOf(e.scripts, id);
    if at.None? then mounted else Retired(mounted, e.scripts[at.value], left)
  }

  lemma FailedLoadKeepsInv(e: Engine, left: seq<nat>)
    requires Inv(e) && Harvests(e.scripts, left)
    ensures Inv(FailedLoad(e, left))
  {
    HarvestKeepsInv(e, left);
  }

  lemma LoadKeepsInv(e: Engine, id: string, group: Option<string>, entry: string, modules: seq<Compiled>, left: seq<nat>)
    requires Inv(e) && e.nextGraphId < U64_LIMIT && entry in Names(modules) && ExternalsAreHost(modules)
    requires Harvests(Placed(e.scripts, NewVersion(id, group, e.nextGraphId, modules)), left)
    ensures Inv(Loaded(e, id, group, entry, modules, left))
  {
    var added := NewVersion(id, group, e.nextGraphId, modules);
    var all, next := e.scripts + [added], e.nextGraphId + 1;
    NextGraphIsUnused(e);
    StoreWith(e.store, e.scripts, added, entry, modules);
    AddedIsApart(e, added, modules);
    forall name ensures Weigh(all, InGroup(name)) == Weigh(e.scripts, InGroup(name)) + InGroup(name)(added) {
      WeighTwo(e.scripts, [added], InGroup(name));
      WeighOne(added, InGroup(name));
    }
    GroupsJoined(e.groups, e.scripts, all, added);
    GraphsWith(e.scripts, added);
    var at := IndexOf(e.scripts, id);
    if at.Some? {
      ReloadKeepsInv(e, Mounted(e, added, entry, modules), at.value, added, left);
    }
  }

  lemma GraphsWith(scripts: seq<Script>, added: Script)
    ensures GroupedGraphs(scripts + [added]) == GroupedGraphs(scripts) + GraphSet(added)
  {
    assert forall script :: script in scripts + [added] <==> script in scripts || script == added;
  }

  lemma AddedIsApart(e: Engine, added: Script, modules: seq<Compiled>)
    requires Inv(e) && e.nextGraphId < U64_LIMIT && modules != []
    requires added == NewVersion(added.id, added.group, e.nextGraphId, modules)
    ensures OneOwner(e.scripts + [added])
    ensures Apart(Placed(e.scripts, added), e.nextGraphId + 1)
  {
    RuntimeIdsGraph(e.nextGraphId, modules);
    assert |added.moduleIds| == |modules|;
    AddedHasOneOwner(e.scripts, e.nextGraphId, added);
    PlacedIsApart(e.scripts, e.nextGraphId, added);
  }

  lemma AddedHasOneOwner(scripts: seq<Script>, nextGraphId: nat, added: Script)
    requires Apart(scripts, nextGraphId) && added.graphId == nextGraphId && added.moduleIds != []
    requires forall moduleId | moduleId in added.moduleIds :: GraphOf(moduleId) == Some(added.graphId)
    ensures OneOwner(scripts + [added])
  {
    ApartIsOneOwner(scripts, nextGraphId);
    forall script | script in scripts + [added] ensures script == added || script in scripts {}
  }

  lemma PlacedIsApart(scripts: seq<Script>, nextGraphId: nat, added: Script)
    requires Apart(scripts, nextGraphId) && added.graphId == nextGraphId && added.moduleIds != []
    requires forall moduleId | moduleId in added.moduleIds :: GraphOf(moduleId) == Some(added.graphId)
    ensures Apart(Placed(scripts, added), nextGraphId + 1)
  {
    var placed := Placed(scripts, added);
    forall script | script in placed ensures script == added || script in scripts {}
    forall i, j | 0 <= i < j < |placed|
      ensures placed[i].id != placed[j].id && placed[i].graphId != placed[j].graphId
    {
      assert i < |scripts| ==> scripts[i] in scripts;
      assert j < |scripts| ==> scripts[j] in scripts;
    }
  }

  /** What a version replaced by `added` leaves once it retired. */
  lemma ReloadKeepsInv(e: Engine, mounted: Engine, at: nat, added: Script, left: seq<nat>)
    requires Inv(e) && at < |e.scripts| && OneOwner(e.scripts + [added]) && e.scripts[at] != added
    requires mounted.scripts == e.scripts[at := added] && Harvests(mounted.scripts, left)
    requires Apart(mounted.scripts, mounted.nextGraphId)
    requires StoreExact(mounted.store, e.scripts + [added]) && GroupsCounted(mounted.groups, e.scripts + [added])
    requires mounted.envs == GroupedGraphs(e.scripts + [added])
    ensures Inv(Retired(mounted, e.scripts[at], left))
  {
    var all, others, gone := e.scripts + [added], mounted.scripts, e.scripts[at];
    ReplacedIsAllBut(e.scripts, e.nextGraphId, at, added);
    StoreWithout(mounted.store, all, others, gone);
    GraphsOfOthers(all, others, gone);
    forall name ensures Weigh(others, InGroup(name)) == Weigh(all, InGroup(name)) - InGroup(name)(gone) {
      WeighReplaced(e.scripts, at, added, InGroup(name));
      WeighTwo(e.scripts, [added], InGroup(name));
      WeighOne(added, InGroup(name));
    }
    GroupsLeft(mounted.groups, all, others, gone);
    var reloaded := mounted.(store := RemoveModules(mounted.store, gone.moduleIds), envs := mounted.envs - {gone.graphId},
                             groups := Left(mounted.groups, gone.group), activeTasks := Weigh(others, TasksOf()));
    HarvestKeepsInv(reloaded, left);
  }

  lemma ReplacedIsAllBut(scripts: seq<Script>, nextGraphId: nat, at: nat, added: Script)
    requires Apart(scripts, nextGraphId) && at < |scripts| && scripts[at] != added
    ensures AllBut(scripts + [added], scripts[at := added], scripts[at])
  {
    var all, others := scripts + [added], scripts[at := added];
    assert all[at] == scripts[at];
    forall script ensures script in others <==> script in all && script != scripts[at] {
      if script in all && script != scripts[at] {
        var i :| 0 <= i < |all| && all[i] == script;
        if i < |scripts| { assert others[i] == script; } else { assert others[at] == script; }
      }
      if script in others {
        var i :| 0 <= i < |others| && others[i] == script;
        assert i != at ==> scripts[i] == script && all[i] == script;
        assert all[|scripts|] == added;
      }
    }
  }

  // --------------------------------------------------------------- over whole histories

  datatype Operation =
    | Installs(sources: map<string, string>, groupSources: map<string, string>)
    | Loads(id: string, group: Option<string>, entry: string, modules: seq<Compiled>, left: seq<nat>)
    | FailsToLoad(left: seq<nat>)
    | Unloads(at: nat, left: seq<nat>)
    | Defers(at: nat)
    | Harvested(left: seq<nat>)

  predicate Possible(e: Engine, operation: Operation) {
    match operation
    case Installs(sources, _) => forall name | name in sources :: GraphOf(name).None?
    case Loads(id, group, entry, modules, left) =>
      && e.nextGraphId < U64_LIMIT && entry in Names(modules) && ExternalsAreHost(modules)
      && Harvests(Placed(e.scripts, NewVersion(id, group, e.nextGraphId, modules)), left)
    case FailsToLoad(left) => Harvests(e.scripts, left)
    case Unloads(at, left) => at < |e.scripts| && Harvests(Without(e.scripts, at), left)
    case Defers(at) => at < |e.scripts|
    case Harvested(left) => Harvests(e.scripts, left)
  }

  function Perform(e: Engine, operation: Operation): Engine
    requires Possible(e, operation)
  {
    match operation
    case Installs(sources, groupSources) =>
      e.(store := e.store.(sources := e.store.sources + sources, groupHostSources := e.store.groupHostSources + groupSources))
    case Loads(id, group, entry, modules, left) => Loaded(e, id, group, entry, modules, left)
    case FailsToLoad(left) => FailedLoad(e, left)
    case Unloads(at, left) => Retired(e.(scripts := Without(e.scripts, at)), e.scripts[at], left)
    case Defers(at) => Deferred(e, at)
    case Harvested(left) => Harvest(e, left)
  }

  /** A deferred call gives its script one more task. */
  function Deferred(e: Engine, at: nat): Engine
    requires at < |e.scripts|
  {
    e.(scripts := e.scripts[at := e.scripts[at].(tasks := e.scripts[at].tasks + 1)], activeTasks := e.activeTasks + 1)
  }

  lemma DeferredKeepsInv(e: Engine, at: nat)
    requires Inv(e) && at < |e.scripts|
    ensures Inv(Deferred(e, at))
  {
    var after := Deferred(e, at);
    SameBookkeeping(e.scripts, after.scripts);
    StoreSame(e.store, e.scripts, after.scripts);
    GroupsSame(e.groups, e.scripts, after.scripts);
    ApartSame(e.scripts, after.scripts, e.nextGraphId);
    WeighReplaced(e.scripts, at, after.scripts[at], TasksOf());
  }

  lemma PerformKeepsInv(e: Engine, operation: Operation)
    requires Inv(e) && Possible(e, operation)
    ensures Inv(Perform(e, operation))
  {
    match operation
    case Installs(_, _) =>
    case Loads(id, group, entry, modules, left) => LoadKeepsInv(e, id, group, entry, modules, left);
    case FailsToLoad(left) => FailedLoadKeepsInv(e, left);
    case Unloads(at, left) => UnloadKeepsInv(e, at, left);
    case Defers(at) => DeferredKeepsInv(e, at);
    case Harvested(left) => HarvestKeepsInv(e, left);
  }

  const NEW_ENGINE := Engine([], map[], {}, EMPTY, 0, 0)

  ghost predicate History(engines: seq<Engine>, operations: seq<Operation>) {
    && |engines| == |operations| + 1 && engines[0] == NEW_ENGINE
    && forall i | 0 <= i < |operations| ::
         Possible(engines[i], operations[i]) && engines[i + 1] == Perform(engines[i], operations[i])
  }

  /** After any history of loads, reloads, moves between groups, failed loads, unloads and
      deferred calls, the bookkeeping is exact. */
  lemma {:induction false} HistoryKeepsInv(engines: seq<Engine>, operations: seq<Operation>)
    requires History(engines, operations)
    ensures Inv(engines[|operations|])
    decreases |operations|
  {
    if operations == [] {
      assert GroupedGraphs([]) == {};
    } else {
      var last := |operations| - 1;
      HistoryKeepsInv(engines[..|operations|], operations[..last]);
      PerformKeepsInv(engines[last], operations[last]);
    }
  }
}

/** Loading, replacing and unloading scripts, step by step (src/runner/engine/lifecycle.rs,
    src/runner/engine/host_driven.rs). */
module Lifecycle {
  import opened Wrappers
  import opened ModuleIds
  import M = ModuleStore
  import opened ModuleIsolation
  import opened LifecycleModel
  import opened LifecycleLaws

  /** Where a load that was inserted fails, or that it mounts. */
  datatype Mounting = SaveFails | TargetFails | EnvFails | EvaluationFails | Mounts

  class ScriptEngine {
    const moduleStore: M.WorkerModuleStore
    var scripts: seq<Script>
    var groups: map<string, nat>
    var envs: set<nat>
    var activeTasks: nat
    var nextGraphId: nat

    constructor ()
      ensures View() == NEW_ENGINE && Valid() && fresh(moduleStore)
    {
      moduleStore := new M.WorkerModuleStore();
      scripts, groups, envs, activeTasks, nextGraphId := [], map[], {}, 0, 0;
      new;
      assert GroupedGraphs([]) == {};
    }

    ghost function View(): Engine
      reads this, moduleStore
    {
      Engine(scripts, groups, envs, moduleStore.View(), activeTasks, nextGraphId)
    }

    ghost predicate Valid()
      reads this, moduleStore
    {
      Inv(View())
    }

    /** Takes the finished tasks of every script: `left` of them stay with each. */
    method PollTasks(left: seq<nat>)
      requires Harvests(scripts, left) && activeTasks == Weigh(scripts, TasksOf())
      modifies this`scripts, this`activeTasks
      ensures View() == Harvest(old(View()), left)
    {
      ghost var before := scripts;
      for i := 0 to |scripts|
        invariant |scripts| == |before|
        invariant forall k | 0 <= k < i :: scripts[k] == before[k].(tasks := left[k])
        invariant forall k | i <= k < |before| :: scripts[k] == before[k]
        invariant activeTasks == Weigh(scripts, TasksOf())
      {
        var polled := scripts[i].(tasks := left[i]);
        WeighReplaced(scripts, i, polled, TasksOf());
        WeighWithout(scripts, i, TasksOf());
        activeTasks := activeTasks - (scripts[i].tasks - left[i]);
        scripts := scripts[i := polled];
      }
      assert scripts == WithTasks(before, left);
    }

    /** Loads or replaces a script. A load that fails leaves everything as it was. */
    method Load(
        id: string, group: Option<string>, entry: string, modules: seq<M.Compiled>, mounting: Mounting,
        mountLeft: seq<nat>, disposeLeft: seq<nat>) returns (loaded: bool)
      requires Valid() && nextGraphId < U64_LIMIT && ExternalsAreHost(modules)
      requires Harvests(scripts, mountLeft)
      requires var version := NewVersion(id, group, nextGraphId, modules);
        Harvests(Placed(WithTasks(scripts, mountLeft), version), disposeLeft)
      requires mounting.TargetFails? ==> group.None? || group.value !in groups
      modifies this, moduleStore
      ensures Valid() && loaded == (entry in M.Names(modules) && mounting.Mounts?)
      ensures entry !in M.Names(modules) ==> View() == old(View()).(nextGraphId := old(nextGraphId) + 1)
      ensures entry in M.Names(modules) && !loaded ==> View() == FailedLoad(old(View()), mountLeft)
      ensures loaded ==> View() == Loaded(Harvest(old(View()), mountLeft), id, group, entry, modules, disposeLeft)
    {
      ghost var before := View();
      var inserted := InsertGraph(entry, modules);
      if inserted.Err? {
        return false;
      }
      PollTasks(mountLeft);
      ghost var harvested := Harvest(before, mountLeft);
      HarvestKeepsInv(before, mountLeft);
      loaded := MountGraph(id, group, inserted.value, entry, modules, mounting, disposeLeft, harvested);
    }

    /** A new graph goes into the store. */
    method InsertGraph(entry: string, modules: seq<M.Compiled>) returns (inserted: Result<M.Graph, string>)
      modifies this`nextGraphId, moduleStore
      ensures entry !in M.Names(modules) ==> inserted.Err? && View() == old(View()).(nextGraphId := old(nextGraphId) + 1)
      ensures entry in M.Names(modules) ==>
        && View() == Inserted(old(View()), old(nextGraphId), modules)
        && inserted == Ok(M.Graph(old(nextGraphId), RuntimeModuleId(old(nextGraphId), entry), M.RuntimeIds(old(nextGraphId), modules)))
    {
      var graph := nextGraphId;
      nextGraphId := nextGraphId + 1;
      inserted := moduleStore.Insert(entry, modules, graph);
    }

    method MountGraph(
        id: string, group: Option<string>, graph: M.Graph, ghost entry: string, ghost modules: seq<M.Compiled>,
        mounting: Mounting, disposeLeft: seq<nat>, ghost e: Engine) returns (loaded: bool)
      requires Inv(e) && e.nextGraphId < U64_LIMIT && entry in M.Names(modules) && ExternalsAreHost(modules)
      requires View() == Inserted(e, e.nextGraphId, modules)
      requires graph.graphId == e.nextGraphId && graph.moduleIds == M.RuntimeIds(e.nextGraphId, modules)
      requires Harvests(Placed(scripts, NewVersion(id, group, e.nextGraphId, modules)), disposeLeft)
      requires mounting.TargetFails? ==> group.None? || group.value !in groups
      modifies this, moduleStore
      ensures Valid() && loaded == mounting.Mounts?
      ensures loaded ==> View() == Loaded(e, id, group, entry, modules, disposeLeft)
      ensures !loaded ==> View() == e.(nextGraphId := e.nextGraphId + 1)
    {
      NextGraphIsUnused(e);
      loaded := Mount(group, graph.graphId, mounting);
      if loaded {
        ghost var after := Loaded(e, id, group, entry, modules, disposeLeft);
        LoadKeepsInv(e, id, group, entry, modules, disposeLeft);
        Enter(Script(id, group, graph.graphId, graph.moduleIds, 0), disposeLeft, e, entry, modules);
        assert View() == after;
      } else {
        Undo(graph.moduleIds, e, graph.graphId, modules, group.Some? && !mounting.SaveFails? && !mounting.TargetFails?);
      }
    }

    /** The engine once a new graph is in the store. */
    ghost function Inserted(e: Engine, graph: nat, modules: seq<M.Compiled>): Engine {
      e.(store := M.AddModules(e.store, graph, modules, M.Names(modules)), nextGraphId := graph + 1)
    }

    /** The groups once a script's group is there to join. */
    static function WithGroup(groups: map<string, nat>, group: Option<string>): map<string, nat> {
      if group.Some? && group.value !in groups then groups[group.value := 0] else groups
    }

    /** Takes a graph that did not mount back out of the store. */
    method Undo(ids: seq<string>, ghost e: Engine, graph: nat, ghost modules: seq<M.Compiled>, ghost marked: bool)
      requires Inv(e) && graph == e.nextGraphId && graph < U64_LIMIT && modules != [] && ids == M.RuntimeIds(graph, modules)
      requires var inserted := Inserted(e, graph, modules);
        View() == inserted.(store := inserted.store.(groupedGraphs := inserted.store.groupedGraphs + if marked then {graph} else {}))
      modifies moduleStore
      ensures Valid() && View() == e.(nextGraphId := graph + 1)
    {
      NextGraphIsUnused(e);
      UsedUpIdKeepsInv(e);
      FailedLoadRestoresStore(e.store, graph, modules, M.Names(modules), marked);
      moduleStore.Remove(ids);
    }

    static lemma IsMounted(e: Engine, entered: Engine, version: Script, entry: string, modules: seq<M.Compiled>)
      requires entry in M.Names(modules) && version.graphId == e.nextGraphId
      requires entered.scripts == e.scripts && entered.activeTasks == e.activeTasks && entered.nextGraphId == e.nextGraphId + 1
      requires entered.groups == Joined(e.groups, version.group) && entered.envs == e.envs + GraphSet(version)
      requires var store := M.AddModules(e.store, version.graphId, modules, M.Names(modules));
        entered.store == store.(groupedGraphs := store.groupedGraphs + GraphSet(version))
      ensures entered == Mounted(e, version, entry, modules).(scripts := e.scripts, activeTasks := e.activeTasks)
    {}

    /** The engine with a new version's graph mounted, before the version is counted. */
    ghost function Entering(e: Engine, version: Script, modules: seq<M.Compiled>): Engine {
      var inserted := Inserted(e, e.nextGraphId, modules);
      inserted.(
        store := inserted.store.(groupedGraphs := inserted.store.groupedGraphs + GraphSet(version)),
        envs := e.envs + GraphSet(version), groups := WithGroup(e.groups, version.group))
    }

    /** Counts a mounted version in its group and swaps it in. */
    method Enter(version: Script, left: seq<nat>, ghost e: Engine, ghost entry: string, ghost modules: seq<M.Compiled>)
      requires Inv(e) && entry in M.Names(modules) && version == NewVersion(version.id, version.group, e.nextGraphId, modules)
      requires View() == Entering(e, version, modules)
      requires Harvests(Placed(scripts, version), left)
      modifies this, moduleStore
      ensures View() == Loaded(e, version.id, version.group, entry, modules, left)
    {
      if version.group.Some? {
        groups := groups[version.group.value := groups[version.group.value] + 1];
      }
      assert groups == Joined(e.groups, version.group);
      IsMounted(e, View(), version, entry, modules);
      ReplaceScript(version, left, e, entry, modules);
    }

    /** Builds the script's environment and imports its entry, in its group's context,
        which the group's first script creates. */
    method Mount(group: Option<string>, graph: nat, mounting: Mounting) returns (mounted: bool)
      requires graph !in envs
      requires mounting.TargetFails? ==> group.None? || group.value !in groups
      modifies this`groups, this`envs, moduleStore`groupedGraphs
      ensures mounted == mounting.Mounts?
      ensures moduleStore.View() == old(moduleStore.View()).(groupedGraphs :=
        old(moduleStore.groupedGraphs) + if group.Some? && !mounting.SaveFails? && !mounting.TargetFails? then {graph} else {})
      ensures !mounted ==> groups == old(groups) && envs == old(envs)
      ensures mounted ==> envs == old(envs) + if group.Some? then {graph} else {}
      ensures mounted ==> groups == WithGroup(old(groups), group)
    {
      if mounting.SaveFails? {
        return false;
      }
      var createdGroup := group.Some? && group.value !in groups;
      if mounting.TargetFails? {
        return false;
      }
      if createdGroup {
        groups := groups[group.value := 0];
      }
      if group.Some? {
        moduleStore.MarkGrouped(graph);
      }
      if group.Some? && !mounting.EnvFails? {
        envs := envs + {graph};
      }
      mounted := mounting.Mounts?;
      if !mounted {
        envs := envs - {graph};
        if createdGroup {
          groups := groups - {group.value};
        }
      }
    }

    static lemma UsedUpIdKeepsInv(e: Engine)
      requires Inv(e)
      ensures Inv(e.(nextGraphId := e.nextGraphId + 1))
    {}

    /** Swaps the new version in, then retires the one it replaces. */
    method ReplaceScript(
        version: Script, left: seq<nat>, ghost before: Engine, ghost entry: string, ghost modules: seq<M.Compiled>)
      requires Inv(before) && entry in M.Names(modules) && version.tasks == 0
      requires View() == Mounted(before, version, entry, modules).(scripts := before.scripts, activeTasks := before.activeTasks)
      requires Harvests(Placed(scripts, version), left)
      modifies this, moduleStore
      ensures var mounted, at := Mounted(before, version, entry, modules), IndexOf(before.scripts, version.id);
        View() == if at.None? then mounted else Retired(mounted, before.scripts[at.value], left)
    {
      var at := IndexOf(scripts, version.id);
      if at.None? {
        WeighTwo(scripts, [version], TasksOf());
        WeighOne(version, TasksOf());
        scripts := scripts + [version];
        return;
      }
      var previous := scripts[at.value];
      WeighReplaced(scripts, at.value, version, TasksOf());
      scripts := scripts[at.value := version];
      Retire(previous, left);
    }

    /** Releases a version no longer among the scripts. */
    method Retire(version: Script, left: seq<nat>)
      requires Harvests(scripts, left) && activeTasks == Weigh(scripts, TasksOf()) + version.tasks
      requires forall name | name in groups :: groups[name] > 0
      modifies this, moduleStore
      ensures View() == Retired(old(View()), version, left)
    {
      activeTasks := activeTasks - version.tasks;
      PollTasks(left);
      moduleStore.Remove(version.moduleIds);
      envs := envs - {version.graphId};
      if version.group.Some? && version.group.value in groups {
        var name := version.group.value;
        groups := groups[name := groups[name] - 1];
        if groups[name] == 0 {
          groups := groups - {name};
        }
      }
    }

    method Unload(id: string, left: seq<nat>) returns (found: bool)
      requires Valid()
      requires var at := IndexOf(scripts, id); at.Some? ==> Harvests(Without(scripts, at.value), left)
      modifies this, moduleStore
      ensures Valid() && found == IndexOf(old(scripts), id).Some?
      ensures !found ==> View() == old(View())
      ensures found ==> var at := IndexOf(old(scripts), id).value;
        View() == Retired(old(View()).(scripts := Without(old(scripts), at)), old(scripts)[at], left)
    {
      var at := IndexOf(scripts, id);
      if at.None? {
        return false;
      }
      UnloadKeepsInv(View(), at.value, left);
      WeighWithout(scripts, at.value, TasksOf());
      var version := scripts[at.value];
      scripts := Without(scripts, at.value);
      Retire(version, left);
      found := true;
    }
  }
}

/** What loading, reloading and unloading scripts make of the engine's bookkeeping
    (src/runner/engine/lifecycle.rs). */
module LifecycleModel {
  import opened Wrappers
  import opened ModuleIds
  import opened ModuleStore
  import opened ModuleIsolation

  /** A loaded version: its group, its graph, the ids of its modules and how many deferred
      tasks it holds. */
  datatype Script = Script(id: string, group: Option<string>, graphId: nat, moduleIds: seq<string>, tasks: nat)

  /** `scripts` in load order; `groups` counts the scripts of each group; `envs` are the
      graphs with an environment. */
  datatype Engine = Engine(
    scripts: seq<Script>, groups: map<string, nat>, envs: set<nat>, store: Store, activeTasks: nat, nextGraphId: nat)

  // ------------------------------------------------------------------------ sums

  function Weigh(scripts: seq<Script>, weight: Script -> nat): nat {
    if scripts == [] then 0 else Weigh(scripts[..|scripts| - 1], weight) + weight(scripts[|scripts| - 1])
  }

  function InGroup(name: string): Script -> nat { (script: Script) => if script.group == Some(name) then 1 else 0 }

  function TasksOf(): Script -> nat { (script: Script) => script.tasks }

  lemma {:induction false} WeighTwo(a: seq<Script>, b: seq<Script>, weight: Script -> nat)
    ensures Weigh(a + b, weight) == Weigh(a, weight) + Weigh(b, weight)
    decreases |b|
  {
    if b == [] {
      assert a + b == a;
    } else {
      WeighTwo(a, b[..|b| - 1], weight);
      assert (a + b)[..|a + b| - 1] == a + b[..|b| - 1];
    }
  }

  lemma WeighOne(script: Script, weight: Script -> nat)
    ensures Weigh([script], weight) == weight(script)
  {
    assert [script][..0] == [];
  }

  lemma WeighSplit(scripts: seq<Script>, at: nat, weight: Script -> nat)
    requires at < |scripts|
    ensures Weigh(scripts, weight) == Weigh(scripts[..at], weight) + weight(scripts[at]) + Weigh(scripts[at + 1..], weight)
  {
    var upTo := scripts[..at + 1];
    WeighTwo(upTo, scripts[at + 1..], weight);
    assert scripts == upTo + scripts[at + 1..];
    assert upTo[..at] == scripts[..at] && upTo[at] == scripts[at];
  }

  lemma WeighWithout(scripts: seq<Script>, at: nat, weight: Script -> nat)
    requires at < |scripts|
    ensures Weigh(Without(scripts, at), weight) == Weigh(scripts, weight) - weight(scripts[at])
    ensures weight(scripts[at]) <= Weigh(scripts, weight)
  {
    WeighSplit(scripts, at, weight);
    WeighTwo(scripts[..at], scripts[at + 1..], weight);
  }

  lemma WeighReplaced(scripts: seq<Script>, at: nat, script: Script, weight: Script -> nat)
    requires at < |scripts|
    ensures Weigh(scripts[at := script], weight) == Weigh(scripts, weight) - weight(scripts[at]) + weight(script)
  {
    var replaced := scripts[at := script];
    WeighSplit(scripts, at, weight);
    WeighSplit(replaced, at, weight);
    assert replaced[..at] == scripts[..at] && replaced[at + 1..] == scripts[at + 1..];
  }

  function Without(scripts: seq<Script>, at: nat): seq<Script>
    requires at < |scripts|
  {
    scripts[..at] + scripts[at + 1..]
  }

  // --------------------------------------------------------------------- invariant

  function GroupedGraphs(scripts: seq<Script>): set<nat> {
    set script | script in scripts && script.group.Some? :: script.graphId
  }

  ghost predicate Owned(scripts: seq<Script>, moduleId: string) {
    exists script | script in scripts :: moduleId in script.moduleIds
  }

  /** Scripts have ids and graphs of their own, and their modules are their graph's. */
  predicate Apart(scripts: seq<Script>, nextGraphId: nat) {
    && (forall i, j | 0 <= i < j < |scripts| :: scripts[i].id != scripts[j].id && scripts[i].graphId != scripts[j].graphId)
    && (forall script | script in scripts :: script.graphId < nextGraphId && script.moduleIds != []
          && forall moduleId | moduleId in script.moduleIds :: GraphOf(moduleId) == Some(script.graphId))
  }

  /** A group exists while a script is in it, and counts its scripts. */
  ghost predicate GroupsCounted(groups: map<string, nat>, scripts: seq<Script>) {
    forall name :: (name in groups <==> Weigh(scripts, InGroup(name)) > 0)
      && (name in groups ==> groups[name] == Weigh(scripts, InGroup(name)))
  }

  /** The script modules of the store are exactly those of the loaded scripts. */
  ghost predicate StoreExact(store: Store, scripts: seq<Script>) {
    && Isolated(store)
    && (forall moduleId | GraphOf(moduleId).Some? :: moduleId in store.sources <==> Owned(scripts, moduleId))
    && (forall key | key in store.resolutions :: Owned(scripts, key.0))
    && store.groupedGraphs == GroupedGraphs(scripts)
  }

  ghost predicate Inv(e: Engine) {
    && Apart(e.scripts, e.nextGraphId)
    && GroupsCounted(e.groups, e.scripts)
    && e.envs == GroupedGraphs(e.scripts)
    && StoreExact(e.store, e.scripts)
    && e.activeTasks == Weigh(e.scripts, TasksOf())
  }

  // -------------------------------------------------------------------- operations

  /** Scripts left with `left` tasks each, once the finished ones were taken. */
  function WithTasks(scripts: seq<Script>, left: seq<nat>): seq<Script>
    requires |left| == |scripts|
  {
    seq(|scripts|, i requires 0 <= i < |scripts| => scripts[i].(tasks := left[i]))
  }

  predicate Harvests(scripts: seq<Script>, left: seq<nat>) {
    |left| == |scripts| && forall i | 0 <= i < |scripts| :: left[i] <= scripts[i].tasks
  }

  function Harvest(e: Engine, left: seq<nat>): Engine
    requires Harvests(e.scripts, left)
  {
    e.(scripts := WithTasks(e.scripts, left), activeTasks := Weigh(WithTasks(e.scripts, left), TasksOf()))
  }

  function IndexOf(scripts: seq<Script>, id: string): (at: Option<nat>)
    ensures at.Some? ==> at.value < |scripts| && scripts[at.value].id == id
    ensures at.None? ==> forall script | script in scripts :: script.id != id
  {
    if scripts == [] then None
    else if scripts[|scripts| - 1].id == id then Some(|scripts| - 1)
    else IndexOf(scripts[..|scripts| - 1], id)
  }

  /** The new version takes the place of the previous one, or goes last. */
  function Placed(scripts: seq<Script>, script: Script): seq<Script> {
    var at := IndexOf(scripts, script.id);
    if at.Some? then scripts[at.value := script] else scripts + [script]
  }

  function Joined(groups: map<string, nat>, group: Option<string>): map<string, nat> {
    if group.None? then groups
    else groups[group.value := (if group.value in groups then groups[group.value] else 0) + 1]
  }

  function Left(groups: map<string, nat>, group: Option<string>): map<string, nat> {
    if group.None? || group.value !in groups then groups
    else if groups[group.value] <= 1 then groups - {group.value}
    else groups[group.value := groups[group.value] - 1]
  }

  function GraphSet(script: Script): set<nat> { if script.group.Some? then {script.graphId} else {} }

  /** A version no longer among the scripts gives up its tasks, modules, environment and
      place in its group; its callbacks may let deferred tasks of the others finish. */
  function Retired(e: Engine, version: Script, left: seq<nat>): Engine
    requires Harvests(e.scripts, left)
  {
    Harvest(e, left).(
      store := RemoveModules(e.store, version.moduleIds), envs := e.envs - {version.graphId},
      groups := Left(e.groups, version.group))
  }

  /** A version that mounted, before the one it replaces retires. */
  function Mounted(e: Engine, script: Script, entry: string, modules: seq<Compiled>): Engine
    requires entry in Names(modules)
  {
    var store := InsertProject(e.store, entry, modules, script.graphId).value.0;
    e.(scripts := Placed(e.scripts, script), groups := Joined(e.groups, script.group),
       envs := e.envs + GraphSet(script),
       store := store.(groupedGraphs := store.groupedGraphs + GraphSet(script)),
       activeTasks := Weigh(Placed(e.scripts, script), TasksOf()), nextGraphId := e.nextGraphId + 1)
  }
}

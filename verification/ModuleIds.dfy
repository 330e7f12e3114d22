/** Ids of script modules and of what is made for one script graph
    (src/runner/module_loader/graph.rs). */
module ModuleIds {
  import opened Wrappers
  import opened Decimal

  const RUNTIME_MODULE_PREFIX := "rustts://graph/"
  const ENV_SPECIFIER := "rustts:env"
  const ENV_MODULE_PREFIX := "rustts:env/"
  const HOST_INSTANCE_PREFIX := "rustts:host/"
  const U64_LIMIT := 0x1_0000_0000_0000_0000

  function RuntimeModuleId(graph: nat, moduleId: string): string {
    RUNTIME_MODULE_PREFIX + PrintNat(graph) + "/" + moduleId
  }

  function EnvModuleId(graph: nat): string { ENV_MODULE_PREFIX + PrintNat(graph) }

  function HostInstanceId(graph: nat, hostModule: string): string {
    HOST_INSTANCE_PREFIX + PrintNat(graph) + "/" + hostModule
  }

  // ---------------------------------------------------------------------- parsing

  function StripPrefix(text: string, prefix: string): Option<string> {
    if prefix <= text then Some(text[|prefix|..]) else None
  }

  /** What comes before the first slash. */
  function UpToSlash(text: string): string {
    if text == [] || text[0] == '/' then [] else [text[0]] + UpToSlash(text[1..])
  }

  /** What comes after the first slash, if there is one. */
  function AfterSlash(text: string): Option<string> {
    if text == [] then None else if text[0] == '/' then Some(text[1..]) else AfterSlash(text[1..])
  }

  function StripAny(moduleId: string): Option<string> {
    var script := StripPrefix(moduleId, RUNTIME_MODULE_PREFIX);
    var env := StripPrefix(moduleId, ENV_MODULE_PREFIX);
    if script.Some? then script else if env.Some? then env else StripPrefix(moduleId, HOST_INSTANCE_PREFIX)
  }

  /** The graph number an id carries, if it is of one graph. */
  function GraphOf(moduleId: string): Option<nat> {
    var rest := StripAny(moduleId);
    if rest.None? then None else ParseU64(UpToSlash(rest.value))
  }

  function HostInstanceModule(moduleId: string): Option<string> {
    var rest := StripPrefix(moduleId, HOST_INSTANCE_PREFIX);
    if rest.None? then None else AfterSlash(rest.value)
  }

  // ------------------------------------------------------------------- round trips

  lemma {:induction false} SplitAtSlash(before: string, after: string)
    requires '/' !in before
    ensures UpToSlash(before + "/" + after) == before && AfterSlash(before + "/" + after) == Some(after)
    ensures UpToSlash(before) == before
    decreases |before|
  {
    if before == [] {
      assert (before + "/" + after)[1..] == after;
    } else {
      SplitAtSlash(before[1..], after);
      assert (before + "/" + after)[1..] == before[1..] + "/" + after;
      assert before == [before[0]] + before[1..];
    }
  }

  lemma DigitsHaveNoSlash(graph: nat)
    ensures '/' !in PrintNat(graph)
  {}

  lemma Stripped(prefix: string, rest: string)
    ensures StripPrefix(prefix + rest, prefix) == Some(rest)
  {}

  /** Text that differs at a place of the prefix does not have it. */
  lemma NotStripped(text: string, prefix: string, at: nat)
    requires at < |prefix| && at < |text| && text[at] != prefix[at]
    ensures StripPrefix(text, prefix) == None
  {}

  /** A script module belongs to the graph it was named for, whatever its own id. */
  lemma ScriptModuleGraph(graph: nat, moduleId: string)
    requires graph < U64_LIMIT
    ensures GraphOf(RuntimeModuleId(graph, moduleId)) == Some(graph)
    ensures HostInstanceModule(RuntimeModuleId(graph, moduleId)) == None
  {
    var id := RuntimeModuleId(graph, moduleId);
    assert id == RUNTIME_MODULE_PREFIX + (PrintNat(graph) + "/" + moduleId);
    Stripped(RUNTIME_MODULE_PREFIX, PrintNat(graph) + "/" + moduleId);
    DigitsHaveNoSlash(graph);
    SplitAtSlash(PrintNat(graph), moduleId);
    PrintedU64ParsesBack(graph);
    assert RUNTIME_MODULE_PREFIX[7] == '/' && HOST_INSTANCE_PREFIX[7] == 'h';
    assert id[7] == RUNTIME_MODULE_PREFIX[7];
    NotStripped(id, HOST_INSTANCE_PREFIX, 7);
  }

  lemma EnvModuleGraph(graph: nat)
    requires graph < U64_LIMIT
    ensures GraphOf(EnvModuleId(graph)) == Some(graph)
  {
    var id := EnvModuleId(graph);
    Stripped(ENV_MODULE_PREFIX, PrintNat(graph));
    assert RUNTIME_MODULE_PREFIX[7] == '/' && ENV_MODULE_PREFIX[7] == 'e';
    assert id[7] == ENV_MODULE_PREFIX[7];
    NotStripped(id, RUNTIME_MODULE_PREFIX, 7);
    DigitsHaveNoSlash(graph);
    SplitAtSlash(PrintNat(graph), "");
    PrintedU64ParsesBack(graph);
  }

  /** An instance's id parses back to its graph and to the host module it was made of, even
      one whose name has slashes. */
  lemma HostInstanceGraph(graph: nat, hostModule: string)
    requires graph < U64_LIMIT
    ensures GraphOf(HostInstanceId(graph, hostModule)) == Some(graph)
    ensures HostInstanceModule(HostInstanceId(graph, hostModule)) == Some(hostModule)
  {
    var id := HostInstanceId(graph, hostModule);
    var rest := PrintNat(graph) + "/" + hostModule;
    assert id == HOST_INSTANCE_PREFIX + rest;
    Stripped(HOST_INSTANCE_PREFIX, rest);
    assert RUNTIME_MODULE_PREFIX[7] == '/' && ENV_MODULE_PREFIX[7] == 'e' && HOST_INSTANCE_PREFIX[7] == 'h';
    assert id[7] == HOST_INSTANCE_PREFIX[7];
    NotStripped(id, RUNTIME_MODULE_PREFIX, 7);
    NotStripped(id, ENV_MODULE_PREFIX, 7);
    DigitsHaveNoSlash(graph);
    SplitAtSlash(PrintNat(graph), hostModule);
    PrintedU64ParsesBack(graph);
  }

  /** Module ids of different graphs, or of different modules, differ. */
  lemma ScriptModuleIdsDiffer(graph1: nat, module1: string, graph2: nat, module2: string)
    requires graph1 < U64_LIMIT && graph2 < U64_LIMIT
    requires RuntimeModuleId(graph1, module1) == RuntimeModuleId(graph2, module2)
    ensures graph1 == graph2 && module1 == module2
  {
    ScriptModuleGraph(graph1, module1);
    ScriptModuleGraph(graph2, module2);
    var id := RuntimeModuleId(graph1, module1);
    var before := RUNTIME_MODULE_PREFIX + PrintNat(graph1) + "/";
    assert id[|before|..] == module1 && RuntimeModuleId(graph2, module2)[|before|..] == module2;
  }
}

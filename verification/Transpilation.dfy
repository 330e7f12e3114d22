/** The memo and the disk cache in front of the compiler (src/runner/transpile.rs,
    src/cache/store.rs): what a load gets never depends on them. */
module Transpilation {
  import opened Wrappers
  import opened SourceMaps

  type Error = string

  datatype Transpiled = Transpiled(js: string, sourceMap: seq<Mapping>)

  /** The compiler and the text forms of what it makes. Diagnostics name `path`. */
  datatype Compiler = Compiler(
    key: (string, string) -> string,
    imports: (string, string, string) -> Result<seq<string>, Error>,
    execute: (string, string, string) -> Result<Transpiled, Error>,
    hash: string -> string,
    encode: seq<Mapping> -> string,
    decode: string -> Option<seq<Mapping>>)

  /** Keys do not collide; a source that compiles compiles alike whatever its path; hashes
      and encoded source maps are single lines, and decoding undoes encoding. */
  ghost predicate Lawful(c: Compiler) {
    && (forall s1, e1, s2, e2 {:trigger c.key(s1, e1), c.key(s2, e2)} :: c.key(s1, e1) == c.key(s2, e2) ==> s1 == s2 && e1 == e2)
    && (forall s, e, p1, p2 {:trigger c.imports(s, e, p1), c.imports(s, e, p2)} ::
          c.imports(s, e, p1).Ok? ==> c.imports(s, e, p2) == c.imports(s, e, p1))
    && (forall s, e, p1, p2 {:trigger c.execute(s, e, p1), c.execute(s, e, p2)} ::
          c.execute(s, e, p1).Ok? ==> c.execute(s, e, p2) == c.execute(s, e, p1))
    && (forall text :: '\n' !in c.hash(text))
    && (forall table :: '\n' !in c.encode(table) && c.decode(c.encode(table)) == Some(table))
  }

  const INLINE_SOURCE_TYPE := "ts"

  /** What compiling afresh gives: inline scripts are checked for dynamic imports first,
      project modules were when they were discovered. */
  function CompileInline(c: Compiler, source: string, path: string): Result<Transpiled, Error> {
    match c.imports(source, INLINE_SOURCE_TYPE, path)
    case Err(error) => Err(error)
    case Ok(_) => c.execute(source, INLINE_SOURCE_TYPE, path)
  }

  // -------------------------------------------------------------------- artifacts

  const ARTIFACT_HEADER := "// rustts-cache-v3 "

  /** The text before the first newline and the text after it. */
  function SplitLine(text: string): Option<(string, string)> {
    if text == [] then None
    else if text[0] == '\n' then Some(([], text[1..]))
    else
      var rest := SplitLine(text[1..]);
      if rest.None? then None else Some(([text[0]] + rest.value.0, rest.value.1))
  }

  function Payload(c: Compiler, m: Transpiled): string { c.encode(m.sourceMap) + "\n" + m.js }

  function Artifact(c: Compiler, m: Transpiled): string {
    ARTIFACT_HEADER + c.hash(Payload(c, m)) + "\n" + Payload(c, m)
  }

  function VerifiedPayload(c: Compiler, artifact: string): Option<string> {
    match SplitLine(artifact)
    case None => None
    case Some((header, payload)) =>
      if ARTIFACT_HEADER <= header && header[|ARTIFACT_HEADER|..] == c.hash(payload) then Some(payload) else None
  }

  function FromPayload(c: Compiler, payload: string): Option<Transpiled> {
    match SplitLine(payload)
    case None => None
    case Some((mappings, js)) =>
      var table := c.decode(mappings);
      if table.None? then None else Some(Transpiled(js, table.value))
  }

  /** What a file of the cache holds: anything but a whole, verifying artifact is a miss. */
  function LoadArtifact(c: Compiler, artifact: string): Option<Transpiled> {
    var payload := VerifiedPayload(c, artifact);
    if payload.None? then None else FromPayload(c, payload.value)
  }

  lemma {:induction false} SplitAtNewline(line: string, rest: string)
    requires '\n' !in line
    ensures SplitLine(line + "\n" + rest) == Some((line, rest))
    decreases |line|
  {
    if line == [] {
      assert (line + "\n" + rest)[1..] == rest;
    } else {
      SplitAtNewline(line[1..], rest);
      assert line[0] in line && line == [line[0]] + line[1..];
      assert (line + "\n" + rest)[1..] == line[1..] + "\n" + rest;
    }
  }

  /** A stored artifact loads as the module it was stored for. */
  lemma StoredArtifactLoads(c: Compiler, m: Transpiled)
    requires Lawful(c)
    ensures LoadArtifact(c, Artifact(c, m)) == Some(m)
  {
    var payload := Payload(c, m);
    var header := ARTIFACT_HEADER + c.hash(payload);
    assert '\n' !in c.hash(payload) && '\n' !in c.encode(m.sourceMap);
    SplitAtNewline(header, payload);
    assert header[|ARTIFACT_HEADER|..] == c.hash(payload);
    SplitAtNewline(c.encode(m.sourceMap), m.js);
  }

  // ------------------------------------------------------------------- the caches

  /** What one source produced, filled lazily. */
  datatype Memo = Memo(imports: Option<seq<string>>, transpiled: Option<Transpiled>)

  const NO_MEMO := Memo(None, None)

  /** `m` is what the source of `key` compiles to, once its imports were checked. */
  ghost predicate RightFor(c: Compiler, key: string, m: Transpiled) {
    exists source, ext, path ::
      c.key(source, ext) == key && c.imports(source, ext, path).Ok? && c.execute(source, ext, path) == Ok(m)
  }

  ghost predicate RightImports(c: Compiler, key: string, imports: seq<string>) {
    exists source, ext, path :: c.key(source, ext) == key && c.imports(source, ext, path) == Ok(imports)
  }

  ghost predicate HonestMemo(c: Compiler, memo: map<string, Memo>) {
    forall key | key in memo ::
      && (memo[key].transpiled.Some? ==> RightFor(c, key, memo[key].transpiled.value))
      && (memo[key].imports.Some? ==> RightImports(c, key, memo[key].imports.value))
  }

  /** No file was forged: one that verifies under a key was written for it. Files may be
      missing, stale or corrupt. */
  ghost predicate HonestDisk(c: Compiler, disk: map<string, string>) {
    forall key | key in disk && LoadArtifact(c, disk[key]).Some? :: RightFor(c, key, LoadArtifact(c, disk[key]).value)
  }

  lemma RightIsWhatCompiles(c: Compiler, source: string, ext: string, path: string, m: Transpiled)
    requires Lawful(c) && RightFor(c, c.key(source, ext), m)
    ensures c.imports(source, ext, path).Ok? && c.execute(source, ext, path) == Ok(m)
  {
    var s, e, p :| c.key(s, e) == c.key(source, ext) && c.imports(s, e, p).Ok? && c.execute(s, e, p) == Ok(m);
    assert c.imports(s, e, path) == c.imports(s, e, p) && c.execute(s, e, path) == c.execute(s, e, p);
  }

  class Transpiler {
    const compiler: Compiler
    const cached: bool
    var memo: map<string, Memo>
    var disk: map<string, string>

    constructor (compiler: Compiler, cached: bool, disk: map<string, string>)
      requires Lawful(compiler) && HonestDisk(compiler, disk)
      ensures this.compiler == compiler && Valid()
    {
      this.compiler, this.cached, memo, this.disk := compiler, cached, map[], disk;
    }

    ghost predicate Valid()
      reads this
    {
      Lawful(compiler) && HonestMemo(compiler, memo) && HonestDisk(compiler, disk)
    }

    /** Transpiles one inline script, as compiling it afresh would. */
    method Inline(source: string, path: string, writable: bool) returns (transpiled: Result<Transpiled, Error>)
      requires Valid()
      modifies this
      ensures Valid() && transpiled == CompileInline(compiler, source, path)
    {
      var key := compiler.key(source, INLINE_SOURCE_TYPE);
      var remembered := Remembered(key);
      if remembered.Some? {
        RightIsWhatCompiles(compiler, source, INLINE_SOURCE_TYPE, path, remembered.value);
        return Ok(remembered.value);
      }
      var imports := compiler.imports(source, INLINE_SOURCE_TYPE, path);
      if imports.Err? {
        return Err(imports.error);
      }
      transpiled := compiler.execute(source, INLINE_SOURCE_TYPE, path);
      if transpiled.Ok? {
        Remember(key, transpiled.value, writable);
      }
    }

    /** Transpiles one project module, whose imports discovery extracted. */
    method Module(source: string, ext: string, path: string, writable: bool) returns (transpiled: Result<Transpiled, Error>)
      requires Valid() && compiler.imports(source, ext, path).Ok?
      modifies this
      ensures Valid() && transpiled == compiler.execute(source, ext, path)
    {
      var key := compiler.key(source, ext);
      var remembered := Remembered(key);
      if remembered.Some? {
        RightIsWhatCompiles(compiler, source, ext, path, remembered.value);
        return Ok(remembered.value);
      }
      transpiled := compiler.execute(source, ext, path);
      if transpiled.Ok? {
        Remember(key, transpiled.value, writable);
      }
    }

    /** The import requests of one module, remembered by content. */
    method Imports(source: string, ext: string, path: string) returns (imports: Result<seq<string>, Error>)
      requires Valid()
      modifies this`memo
      ensures Valid() && imports == compiler.imports(source, ext, path)
    {
      var key := compiler.key(source, ext);
      if key !in memo {
        memo := memo[key := NO_MEMO];
      }
      if memo[key].imports.Some? {
        SameImports(compiler, source, ext, path, memo[key].imports.value);
        return Ok(memo[key].imports.value);
      }
      imports := compiler.imports(source, ext, path);
      if imports.Ok? {
        memo := memo[key := memo[key].(imports := Some(imports.value))];
      }
    }

    /** What the memo or else a usable artifact has under `key`. */
    method Remembered(key: string) returns (found: Option<Transpiled>)
      requires Valid()
      modifies this`memo
      ensures Valid() && (found.Some? ==> RightFor(compiler, key, found.value))
    {
      if key in memo && memo[key].transpiled.Some? {
        return memo[key].transpiled;
      }
      if !cached || key !in disk {
        return None;
      }
      found := LoadArtifact(compiler, disk[key]);
      if found.Some? {
        memo := memo[key := (if key in memo then memo[key] else NO_MEMO).(transpiled := found)];
      }
    }

    /** Keeps `m` under `key`, on disk too where that is possible. */
    method Remember(key: string, m: Transpiled, writable: bool)
      requires Valid() && RightFor(compiler, key, m)
      modifies this
      ensures Valid()
      ensures key in memo && memo[key].transpiled == Some(m)
      ensures cached && writable ==> key in disk && LoadArtifact(compiler, disk[key]) == Some(m)
    {
      if cached && writable {
        StoredArtifactLoads(compiler, m);
        disk := disk[key := Artifact(compiler, m)];
      }
      memo := memo[key := (if key in memo then memo[key] else NO_MEMO).(transpiled := Some(m))];
    }

    /** Forgets the modules no loaded script uses. */
    method RetainUsed(keys: set<string>)
      requires Valid()
      modifies this`memo
      ensures Valid() && memo.Keys == old(memo.Keys) * keys
    {
      memo := map key | key in memo && key in keys :: memo[key];
    }

    /** Other processes share the disk cache: files appear, disappear and break. */
    method DiskChanges(files: map<string, string>)
      requires Valid() && HonestDisk(compiler, files)
      modifies this`disk
      ensures Valid() && disk == files
    {
      disk := files;
    }

    /** Every module of a discovered project, or the first error. */
    method Project(modules: seq<(string, string, string)>, writable: bool) returns (transpiled: Result<seq<Transpiled>, Error>)
      requires Valid()
      requires forall m | m in modules :: compiler.imports(m.0, m.1, m.2).Ok?
      modifies this
      ensures Valid() && transpiled == ExecuteAll(compiler, modules)
    {
      var done: seq<Transpiled> := [];
      for i := 0 to |modules|
        invariant Valid() && ExecuteAll(compiler, modules[..i]) == Ok(done)
      {
        assert modules[..i + 1][..i] == modules[..i];
        var (source, ext, path) := modules[i];
        assert modules[i] in modules;
        var next := Module(source, ext, path, writable);
        if next.Err? {
          FirstErrorStays(compiler, modules, i + 1);
          return Err(next.error);
        }
        done := done + [next.value];
      }
      assert modules[..|modules|] == modules;
      transpiled := Ok(done);
    }
  }

  function ExecuteAll(c: Compiler, modules: seq<(string, string, string)>): Result<seq<Transpiled>, Error> {
    if modules == [] then Ok([])
    else
      var (source, ext, path) := modules[|modules| - 1];
      match ExecuteAll(c, modules[..|modules| - 1])
      case Err(error) => Err(error)
      case Ok(done) =>
        match c.execute(source, ext, path)
        case Err(error) => Err(error)
        case Ok(m) => Ok(done + [m])
  }

  lemma {:induction false} FirstErrorStays(c: Compiler, modules: seq<(string, string, string)>, n: nat)
    requires n <= |modules| && ExecuteAll(c, modules[..n]).Err?
    ensures ExecuteAll(c, modules) == ExecuteAll(c, modules[..n])
    decreases |modules|
  {
    if n == |modules| {
      assert modules[..n] == modules;
    } else {
      assert modules[..|modules| - 1][..n] == modules[..n];
      FirstErrorStays(c, modules[..|modules| - 1], n);
    }
  }

  lemma SameImports(c: Compiler, source: string, ext: string, path: string, imports: seq<string>)
    requires Lawful(c) && RightImports(c, c.key(source, ext), imports)
    ensures c.imports(source, ext, path) == Ok(imports)
  {
    var s, e, p :| c.key(s, e) == c.key(source, ext) && c.imports(s, e, p) == Ok(imports);
    assert c.imports(s, e, path) == c.imports(s, e, p);
  }
}

/** The schemas a derived schema carries for the types it refers to
    (src/contract/schema.rs and rustts_macros/src/schema/mod.rs), and the end-to-end
    statement: what a type encodes to, its own schema accepts. */
module SchemaDependencies {
  import opened Wrappers
  import opened Metadata
  import opened Validation
  import opened Descriptors
  import opened Encoding
  import opened DerivedSchema
  import opened EncodedIsValid

  function SchemaNames(env: Env): set<string> {
    set id | 0 <= id < |env| :: env[id].name
  }

  /** The named schemas `ty` refers to; `entered` holds the names being expanded, which
      cuts recursive types. */
  function Push(env: Env, entered: set<string>, ty: Ty): seq<Schema>
    decreases SchemaNames(env) - entered, ty, 2
  {
    match ty
    case OptionTy(inner) => Push(env, entered, inner)
    case VecTy(item) => Push(env, entered, item)
    case MapTy(_, item) => Push(env, entered, item)
    case TupleTy(items) => PushAll(env, entered, items)
    case Named(id) =>
      if id >= |env| || env[id].name in entered then []
      else
        var name := env[id].name;
        assert name in SchemaNames(env);
        assert SchemaNames(env) - (entered + {name}) < SchemaNames(env) - entered;
        var nested := DependenciesOf(env, entered + {name}, id);
        var ty := TsOf(env, id);
        nested + [Schema(name, if ty.Some? then ty.value else Unknown, nested)]
    case _ => []
  }

  function PushAll(env: Env, entered: set<string>, tys: seq<Ty>): seq<Schema>
    decreases SchemaNames(env) - entered, tys, 1
  {
    if tys == [] then [] else Push(env, entered, tys[0]) + PushAll(env, entered, tys[1..])
  }

  /** `schema_dependencies()` of the deriving type `id`: those of every field its schema
      shows. */
  function DependenciesOf(env: Env, entered: set<string>, id: nat): seq<Schema>
    requires id < |env|
    decreases SchemaNames(env) - entered, env[id], 5
  {
    match env[id].body
    case StructBody(shape) => FieldDependencies(env, entered, env[id], shape.fields)
    case EnumBody(_, variants) => VariantDependencies(env, entered, env[id], variants)
  }

  function FieldDependencies(env: Env, entered: set<string>, decl: Decl, fields: seq<Field>): seq<Schema>
    decreases SchemaNames(env) - entered, fields, 3
  {
    if fields == [] then []
    else
      (if PresenceOf(decl, fields[0]).Omitted? then [] else Push(env, entered, fields[0].ty))
      + FieldDependencies(env, entered, decl, fields[1..])
  }

  function VariantDependencies(env: Env, entered: set<string>, decl: Decl, variants: seq<Variant>): seq<Schema>
    decreases SchemaNames(env) - entered, variants, 4
  {
    if variants == [] then []
    else
      (if SkippedVariant(decl, variants[0]) then []
       else FieldDependencies(env, entered, decl, variants[0].shape.fields))
      + VariantDependencies(env, entered, decl, variants[1..])
  }

  // ------------------------------------------------------------------ faithfulness

  ghost predicate IsSchemaOf(env: Env, schema: Schema, id: nat) {
    id < |env| && env[id].name == schema.name && TsOf(env, id) == Some(schema.ty)
  }

  /** Every schema of a forest is that of a deriving type. */
  ghost predicate AllSchemas(env: Env, deps: seq<Schema>) {
    forall i | 0 <= i < |deps| ::
      (exists id :: IsSchemaOf(env, deps[i], id)) && AllSchemas(env, deps[i].dependencies)
  }

  ghost predicate UniqueNames(env: Env) {
    forall i, j | 0 <= i < j < |env| :: env[i].name != env[j].name
  }

  lemma {:induction false} FoundIsSchema(env: Env, deps: seq<Schema>, name: string)
    requires AllSchemas(env, deps) && Find(deps, name).Some?
    ensures exists id :: IsSchemaOf(env, Find(deps, name).value, id)
    decreases deps
  {
    if deps[0].name != name {
      if Find(deps[0].dependencies, name).Some? {
        FoundIsSchema(env, deps[0].dependencies, name);
      } else {
        FoundIsSchema(env, deps[1..], name);
      }
    }
  }

  lemma AllSchemasIsFaithful(env: Env, deps: seq<Schema>)
    requires AllSchemas(env, deps) && UniqueNames(env)
    ensures Faithful(env, deps)
  {
    forall id | 0 <= id < |env| && Find(deps, env[id].name).Some?
      ensures Some(Find(deps, env[id].name).value.ty) == TsOf(env, id)
    {
      FoundIsSchema(env, deps, env[id].name);
      var other :| IsSchemaOf(env, Find(deps, env[id].name).value, other);
      assert other == id;
    }
  }

  lemma {:induction false} PushedAreSchemas(env: Env, entered: set<string>, ty: Ty)
    requires WellFormed(env)
    ensures AllSchemas(env, Push(env, entered, ty))
    decreases SchemaNames(env) - entered, ty, 2
  {
    match ty
    case OptionTy(inner) => PushedAreSchemas(env, entered, inner);
    case VecTy(item) => PushedAreSchemas(env, entered, item);
    case MapTy(_, item) => PushedAreSchemas(env, entered, item);
    case TupleTy(items) => AllPushedAreSchemas(env, entered, items);
    case Named(id) =>
      if id < |env| && env[id].name !in entered {
        var name := env[id].name;
        assert name in SchemaNames(env);
        assert SchemaNames(env) - (entered + {name}) < SchemaNames(env) - entered;
        DependenciesAreSchemas(env, entered + {name}, id);
        assert WellFormedDecl(env, id);
        var nested := DependenciesOf(env, entered + {name}, id);
        var own := Schema(name, TsOf(env, id).value, nested);
        assert IsSchemaOf(env, own, id);
        assert Push(env, entered, ty) == nested + [own];
      }
    case _ =>
  }

  lemma {:induction false} AllPushedAreSchemas(env: Env, entered: set<string>, tys: seq<Ty>)
    requires WellFormed(env)
    ensures AllSchemas(env, PushAll(env, entered, tys))
    decreases SchemaNames(env) - entered, tys, 1
  {
    if tys != [] {
      PushedAreSchemas(env, entered, tys[0]);
      AllPushedAreSchemas(env, entered, tys[1..]);
    }
  }

  lemma {:induction false} DependenciesAreSchemas(env: Env, entered: set<string>, id: nat)
    requires WellFormed(env) && id < |env|
    ensures AllSchemas(env, DependenciesOf(env, entered, id))
    decreases SchemaNames(env) - entered, env[id], 5
  {
    match env[id].body
    case StructBody(shape) => FieldDependenciesAreSchemas(env, entered, env[id], shape.fields);
    case EnumBody(_, variants) => VariantDependenciesAreSchemas(env, entered, env[id], variants);
  }

  lemma {:induction false} FieldDependenciesAreSchemas(
      env: Env, entered: set<string>, decl: Decl, fields: seq<Field>)
    requires WellFormed(env)
    ensures AllSchemas(env, FieldDependencies(env, entered, decl, fields))
    decreases SchemaNames(env) - entered, fields, 3
  {
    if fields != [] {
      PushedAreSchemas(env, entered, fields[0].ty);
      FieldDependenciesAreSchemas(env, entered, decl, fields[1..]);
    }
  }

  lemma {:induction false} VariantDependenciesAreSchemas(
      env: Env, entered: set<string>, decl: Decl, variants: seq<Variant>)
    requires WellFormed(env)
    ensures AllSchemas(env, VariantDependencies(env, entered, decl, variants))
    decreases SchemaNames(env) - entered, variants, 4
  {
    if variants != [] {
      FieldDependenciesAreSchemas(env, entered, decl, variants[0].shape.fields);
      VariantDependenciesAreSchemas(env, entered, decl, variants[1..]);
    }
  }

  /** End to end: what a deriving type encodes to passes its own schema, dependencies as
      built, with unknown fields refused or allowed. */
  lemma OwnSchemaAccepts(env: Env, id: nat, v: Val)
    requires WellFormed(env) && UniqueNames(env) && id < |env| && TsOf(env, id).Some?
    requires Separate(env, Named(id), v) && Encode(env, Named(id), v).Some?
    ensures forall strict ::
      Valid(DependenciesOf(env, {}, id), strict, {}, TsOf(env, id).value, Encode(env, Named(id), v).value)
  {
    var deps, js := DependenciesOf(env, {}, id), Encode(env, Named(id), v).value;
    DependenciesAreSchemas(env, {}, id);
    AllSchemasIsFaithful(env, deps);
    assert WellFormedDecl(env, id);
    EncodedDeclIsValid(env, deps, {}, id, v);
    StrictImpliesLenient(deps, {}, TsOf(env, id).value, js);
    forall strict ensures Valid(deps, strict, {}, TsOf(env, id).value, js) {
      assert strict == true || strict == false;
    }
  }
}

/** The validator as the source runs it: loops with early exits over a shared stack of
    the references being resolved (src/contract/validation.rs). */
module ValidationContexts {
  import opened Wrappers
  import opened Metadata
  import opened Validation

  class ValidationContext {
    const deps: seq<Schema>
    const strict: bool
    var resolving: seq<string>

    constructor (deps: seq<Schema>, strict: bool)
      ensures this.deps == deps && this.strict == strict && resolving == []
    {
      this.deps, this.strict, resolving := deps, strict, [];
    }

    function Resolving(): set<string>
      reads this
    {
      set name | name in resolving
    }

    method ValidateType(ty: TsType, v: Js) returns (ok: bool)
      modifies this
      ensures resolving == old(resolving)
      ensures ok <==> Valid(deps, strict, Resolving(), ty, v)
      decreases Names(deps) - Resolving(), ty, 2
    {
      match ty
      case TypeRef(name) => ok := ValidateTypeRef(ty, name, v);
      case Object(fields) => ok := ValidateObject(ty, fields, {}, None, v);
      case OpenObject(fields, rest) => ok := ValidateObject(ty, fields, {}, Some(rest), v);
      case Array(item) => ok := ValidateArray(ty, item, v);
      case Tuple(items) => ok := ValidateTuple(ty, items, v);
      case Enum(Some(tag), variants) => ok := ValidateTaggedEnum(ty, tag, variants, v);
      case Record(key, item) => ok := ValidateRecord(ty, key, item, v);
      case Union(types) => ok := ValidateUnion(ty, types, v);
      case Optional(inner) =>
        if v.Null? { ok := true; } else { ok := ValidateType(inner, v); }
      case Nullable(inner) =>
        if v.Null? { ok := true; } else { ok := ValidateType(inner, v); }
      case _ => ok := Valid(deps, strict, Resolving(), ty, v);
    }

    /** Pushes the name, follows the reference and pops it again, whatever the outcome. */
    method ValidateTypeRef(ty: TsType, name: string, v: Js) returns (ok: bool)
      modifies this
      ensures resolving == old(resolving)
      ensures ok <==> ValidRef(deps, strict, Resolving(), ty, name, v)
      decreases Names(deps) - Resolving(), ty, 0
    {
      if name in resolving {
        return true;
      }
      var found := Find(deps, name);
      if found.None? {
        return true;
      }
      FewerNames(Resolving(), name);
      ok := Follow(found.value.ty, name, v);
    }

    /** Validates against a dependency while its name is marked as being resolved. */
    method Follow(ty: TsType, name: string, v: Js) returns (ok: bool)
      modifies this
      ensures resolving == old(resolving)
      ensures ok <==> Valid(deps, strict, Resolving() + {name}, ty, v)
      decreases Names(deps) - (Resolving() + {name})
    {
      ghost var outer, before := Resolving(), resolving;
      resolving := resolving + [name];
      assert Resolving() == outer + {name};
      ok := ValidateType(ty, v);
      resolving := resolving[..|resolving| - 1];
      assert resolving == before;
    }

    /** A reference being followed leaves fewer names to follow. */
    lemma FewerNames(outer: set<string>, name: string)
      requires Find(deps, name).Some? && name !in outer
      ensures Names(deps) - (outer + {name}) < Names(deps) - outer
    {
      assert name in Names(deps);
    }

    method ValidateObject(
        owner: TsType, fields: seq<TsField>, extra: set<string>, rest: Option<TsType>, v: Js)
      returns (ok: bool)
      requires forall i | 0 <= i < |fields| :: fields[i].ty < owner
      requires rest.Some? ==> rest.value < owner
      modifies this
      ensures resolving == old(resolving)
      ensures ok <==> ValidObject(deps, strict, Resolving(), owner, fields, extra, rest, v)
      decreases Names(deps) - Resolving(), owner, 0, 1
    {
      if !v.Obj? {
        return false;
      }
      if rest.None? && strict && exists k | k in v.props :: !Declares(fields, k) && k !in extra {
        return false;
      }
      ok := ValidateDeclaredFields(owner, fields, v.props);
      if ok && rest.Some? {
        ok := ValidateRestFields(owner, fields, extra, rest.value, v.props);
      }
    }

    method ValidateDeclaredFields(owner: TsType, fields: seq<TsField>, props: map<string, Js>) returns (ok: bool)
      requires forall i | 0 <= i < |fields| :: fields[i].ty < owner
      modifies this
      ensures resolving == old(resolving)
      ensures ok <==> forall i | 0 <= i < |fields| ::
        if fields[i].name in props then Valid(deps, strict, Resolving(), fields[i].ty, props[fields[i].name])
        else fields[i].optional
      decreases Names(deps) - Resolving(), owner, 0, 0
    {
      for i := 0 to |fields|
        invariant resolving == old(resolving)
        invariant forall j | 0 <= j < i ::
          if fields[j].name in props then Valid(deps, strict, Resolving(), fields[j].ty, props[fields[j].name])
          else fields[j].optional
      {
        if fields[i].name in props {
          var valid := ValidateType(fields[i].ty, props[fields[i].name]);
          if !valid {
            return false;
          }
        } else if !fields[i].optional {
          return false;
        }
      }
      ok := true;
    }

    method ValidateRestFields(
        owner: TsType, fields: seq<TsField>, extra: set<string>, rest: TsType, props: map<string, Js>) returns (ok: bool)
      requires rest < owner
      modifies this
      ensures resolving == old(resolving)
      ensures ok <==> forall k | k in props && !Declares(fields, k) && k !in extra ::
        Valid(deps, strict, Resolving(), rest, props[k])
      decreases Names(deps) - Resolving(), owner, 0, 0
    {
      var pending := props.Keys;
      while pending != {}
        invariant resolving == old(resolving)
        invariant pending <= props.Keys
        invariant forall k | k in props && k !in pending && !Declares(fields, k) && k !in extra ::
          Valid(deps, strict, Resolving(), rest, props[k])
        decreases pending
      {
        var k :| k in pending;
        pending := pending - {k};
        if !Declares(fields, k) && k !in extra {
          var valid := ValidateType(rest, props[k]);
          if !valid {
            return false;
          }
        }
      }
      ok := true;
    }

    method ValidateArray(ty: TsType, item: TsType, v: Js) returns (ok: bool)
      requires ty == Array(item)
      modifies this
      ensures resolving == old(resolving)
      ensures ok <==> Valid(deps, strict, Resolving(), ty, v)
      decreases Names(deps) - Resolving(), ty, 0
    {
      if !v.Arr? {
        return false;
      }
      for i := 0 to |v.items|
        invariant resolving == old(resolving)
        invariant forall j | 0 <= j < i :: Valid(deps, strict, Resolving(), item, v.items[j])
      {
        var valid := ValidateType(item, v.items[i]);
        if !valid {
          return false;
        }
      }
      ok := true;
    }

    method ValidateTuple(ty: TsType, items: seq<TsType>, v: Js) returns (ok: bool)
      requires ty == Tuple(items)
      modifies this
      ensures resolving == old(resolving)
      ensures ok <==> Valid(deps, strict, Resolving(), ty, v)
      decreases Names(deps) - Resolving(), ty, 0
    {
      if !v.Arr? || |v.items| != |items| {
        return false;
      }
      for i := 0 to |items|
        invariant resolving == old(resolving)
        invariant forall j | 0 <= j < i :: Valid(deps, strict, Resolving(), items[j], v.items[j])
      {
        var valid := ValidateType(items[i], v.items[i]);
        if !valid {
          return false;
        }
      }
      ok := true;
    }

    method ValidateTaggedEnum(ty: TsType, tag: string, variants: seq<TsVariant>, v: Js)
      returns (ok: bool)
      requires ty == Enum(Some(tag), variants)
      modifies this
      ensures resolving == old(resolving)
      ensures ok <==> Valid(deps, strict, Resolving(), ty, v)
      decreases Names(deps) - Resolving(), ty, 1
    {
      if !v.Obj? || tag !in v.props || !v.props[tag].Str? {
        return false;
      }
      var at := FindVariant(variants, v.props[tag].s);
      if at == |variants| {
        return false;
      }
      ok := ValidateObject(ty, variants[at].fields, {tag}, variants[at].rest, v);
    }

    method ValidateRecord(ty: TsType, key: RecordKey, item: TsType, v: Js) returns (ok: bool)
      requires ty == Record(key, item)
      modifies this
      ensures resolving == old(resolving)
      ensures ok <==> Valid(deps, strict, Resolving(), ty, v)
      decreases Names(deps) - Resolving(), ty, 0
    {
      if !v.Obj? {
        return false;
      }
      var pending := v.props.Keys;
      while pending != {}
        invariant resolving == old(resolving)
        invariant pending <= v.props.Keys
        invariant forall k | k in v.props && k !in pending ::
          (key.NumberKey? ==> NumericKey(k)) && Valid(deps, strict, Resolving(), item, v.props[k])
        decreases pending
      {
        var k :| k in pending;
        pending := pending - {k};
        if key.NumberKey? && !NumericKey(k) {
          return false;
        }
        var valid := ValidateType(item, v.props[k]);
        if !valid {
          return false;
        }
      }
      ok := true;
    }

    method ValidateUnion(ty: TsType, types: seq<TsType>, v: Js) returns (ok: bool)
      requires ty == Union(types)
      modifies this
      ensures resolving == old(resolving)
      ensures ok <==> Valid(deps, strict, Resolving(), ty, v)
      decreases Names(deps) - Resolving(), ty, 0
    {
      for i := 0 to |types|
        invariant resolving == old(resolving)
        invariant forall j | 0 <= j < i :: !Valid(deps, strict, Resolving(), types[j], v)
      {
        var valid := ValidateType(types[i], v);
        if valid {
          return true;
        }
      }
      ok := false;
    }
  }
}

/** Runtime validation of a value against a schema (src/contract/validation.rs). */
module Validation {
  import opened Wrappers
  import opened Metadata
  import opened FloatText

  /** Every name declared anywhere in a dependency forest. */
  function Names(deps: seq<Schema>): set<string> {
    if deps == [] then {}
    else {deps[0].name} + Names(deps[0].dependencies) + Names(deps[1..])
  }

  /** The first schema called `name`, depth first. */
  function Find(deps: seq<Schema>, name: string): (found: Option<Schema>)
    ensures found.Some? <==> name in Names(deps)
    ensures found.Some? ==> found.value.name == name
  {
    if deps == [] then None
    else if deps[0].name == name then Some(deps[0])
    else
      var nested := Find(deps[0].dependencies, name);
      if nested.Some? then nested else Find(deps[1..], name)
  }

  predicate LiteralMatches(literal: Literal, v: Js) {
    match literal
    case LitString(text) => v == Str(text)
    case LitBoolean(b) => v == Bool(b)
    case LitNumber(n) => v.Num? && v.n == n && !n.NaN?
  }

  /** A key of a record with numeric keys. */
  predicate NumericKey(text: string) { ReadsAsFinite(text) }

  /** Whether `v` is accepted at `ty`. `strict` refuses undeclared keys of closed
      objects; `resolving` holds the type references being followed, and meeting one
      again accepts. */
  predicate Valid(deps: seq<Schema>, strict: bool, resolving: set<string>, ty: TsType, v: Js)
    decreases Names(deps) - resolving, ty, 1
  {
    match ty
    case Unknown | Json => true
    case TypeRef(name) => ValidRef(deps, strict, resolving, ty, name, v)
    case Void | NullType => v.Null?
    case Boolean => v.Bool?
    case Number => v.Num?
    case String => v.Str?
    case Uint8Array => v.Arr? && forall i | 0 <= i < |v.items| :: v.items[i].Num?
    case LiteralType(literal) => LiteralMatches(literal, v)
    case Object(fields) => ValidObject(deps, strict, resolving, ty, fields, {}, None, v)
    case OpenObject(fields, rest) => ValidObject(deps, strict, resolving, ty, fields, {}, Some(rest), v)
    case Array(item) =>
      v.Arr? && forall i | 0 <= i < |v.items| :: Valid(deps, strict, resolving, item, v.items[i])
    case Tuple(items) =>
      && v.Arr? && |v.items| == |items|
      && forall i | 0 <= i < |items| :: Valid(deps, strict, resolving, items[i], v.items[i])
    case Enum(None, variants) => v.Str? && exists i | 0 <= i < |variants| :: variants[i].name == v.s
    case Enum(Some(tag), variants) =>
      && v.Obj? && tag in v.props && v.props[tag].Str?
      && var found := FindVariant(variants, v.props[tag].s);
         found < |variants| &&
         ValidObject(deps, strict, resolving, ty, variants[found].fields, {tag}, variants[found].rest, v)
    case Record(key, item) =>
      v.Obj? && forall k | k in v.props ::
        (key.NumberKey? ==> NumericKey(k)) && Valid(deps, strict, resolving, item, v.props[k])
    case Union(types) => exists i | 0 <= i < |types| :: Valid(deps, strict, resolving, types[i], v)
    case Optional(inner) => v.Null? || Valid(deps, strict, resolving, inner, v)
    case Nullable(inner) => v.Null? || Valid(deps, strict, resolving, inner, v)
  }

  predicate ValidRef(
      deps: seq<Schema>, strict: bool, resolving: set<string>, ty: TsType, name: string, v: Js)
    decreases Names(deps) - resolving, ty, 0
  {
    if name in resolving then true
    else
      var found := Find(deps, name);
      if found.None? then true
      else
        assert Names(deps) - (resolving + {name}) < Names(deps) - resolving;
        Valid(deps, strict, resolving + {name}, found.value.ty, v)
  }

  /** The position of the first variant called `name`, or `|variants|`. */
  function FindVariant(variants: seq<TsVariant>, name: string): (at: nat)
    ensures at <= |variants|
    ensures at < |variants| ==> variants[at].name == name
    ensures forall i | 0 <= i < at :: variants[i].name != name
  {
    if variants == [] then 0
    else if variants[0].name == name then 0
    else 1 + FindVariant(variants[1..], name)
  }

  /** The object rules shared by closed objects, open objects and tagged variants;
      `owner` is the type that `fields` and `rest` are part of. */
  predicate ValidObject(
      deps: seq<Schema>, strict: bool, resolving: set<string>, owner: TsType,
      fields: seq<TsField>, extra: set<string>, rest: Option<TsType>, v: Js)
    requires forall i | 0 <= i < |fields| :: fields[i].ty < owner
    requires rest.Some? ==> rest.value < owner
    decreases Names(deps) - resolving, owner, 0
  {
    && v.Obj?
    && (rest.None? && strict ==>
          forall k | k in v.props :: Declares(fields, k) || k in extra)
    && (forall i | 0 <= i < |fields| ::
          if fields[i].name in v.props
          then Valid(deps, strict, resolving, fields[i].ty, v.props[fields[i].name])
          else fields[i].optional)
    && (rest.Some? ==>
          forall k | k in v.props && !Declares(fields, k) && k !in extra ::
            Valid(deps, strict, resolving, rest.value, v.props[k]))
  }

  /** Following fewer references again only makes validation stricter. */
  lemma {:induction false} MoreResolvingAcceptsMore(
      deps: seq<Schema>, strict: bool, small: set<string>, large: set<string>, ty: TsType, v: Js)
    requires small <= large
    requires Valid(deps, strict, small, ty, v)
    ensures Valid(deps, strict, large, ty, v)
    decreases Names(deps) - small, ty, 1
  {
    match ty
    case TypeRef(name) =>
      if name !in large && Find(deps, name).Some? {
        assert Names(deps) - (small + {name}) < Names(deps) - small;
        MoreResolvingAcceptsMore(deps, strict, small + {name}, large + {name}, Find(deps, name).value.ty, v);
      }
    case Object(fields) => MoreResolvingObject(deps, strict, small, large, ty, fields, {}, None, v);
    case OpenObject(fields, rest) =>
      MoreResolvingObject(deps, strict, small, large, ty, fields, {}, Some(rest), v);
    case Array(item) =>
      forall i | 0 <= i < |v.items| ensures Valid(deps, strict, large, item, v.items[i]) {
        MoreResolvingAcceptsMore(deps, strict, small, large, item, v.items[i]);
      }
    case Tuple(items) =>
      forall i | 0 <= i < |items| ensures Valid(deps, strict, large, items[i], v.items[i]) {
        MoreResolvingAcceptsMore(deps, strict, small, large, items[i], v.items[i]);
      }
    case Enum(Some(tag), variants) =>
      var at := FindVariant(variants, v.props[tag].s);
      MoreResolvingObject(
        deps, strict, small, large, ty, variants[at].fields, {tag}, variants[at].rest, v);
    case Record(key, item) =>
      forall k | k in v.props ensures Valid(deps, strict, large, item, v.props[k]) {
        MoreResolvingAcceptsMore(deps, strict, small, large, item, v.props[k]);
      }
    case Union(types) =>
      var i :| 0 <= i < |types| && Valid(deps, strict, small, types[i], v);
      MoreResolvingAcceptsMore(deps, strict, small, large, types[i], v);
    case Optional(inner) =>
      if !v.Null? { MoreResolvingAcceptsMore(deps, strict, small, large, inner, v); }
    case Nullable(inner) =>
      if !v.Null? { MoreResolvingAcceptsMore(deps, strict, small, large, inner, v); }
    case _ =>
  }

  lemma {:induction false} MoreResolvingObject(
      deps: seq<Schema>, strict: bool, small: set<string>, large: set<string>, owner: TsType,
      fields: seq<TsField>, extra: set<string>, rest: Option<TsType>, v: Js)
    requires forall i | 0 <= i < |fields| :: fields[i].ty < owner
    requires rest.Some? ==> rest.value < owner
    requires small <= large
    requires ValidObject(deps, strict, small, owner, fields, extra, rest, v)
    ensures ValidObject(deps, strict, large, owner, fields, extra, rest, v)
    decreases Names(deps) - small, owner, 0
  {
    forall i | 0 <= i < |fields| && fields[i].name in v.props
      ensures Valid(deps, strict, large, fields[i].ty, v.props[fields[i].name])
    {
      MoreResolvingAcceptsMore(deps, strict, small, large, fields[i].ty, v.props[fields[i].name]);
    }
    if rest.Some? {
      forall k | k in v.props && !Declares(fields, k) && k !in extra
        ensures Valid(deps, strict, large, rest.value, v.props[k])
      {
        MoreResolvingAcceptsMore(deps, strict, small, large, rest.value, v.props[k]);
      }
    }
  }

  /** A value accepted with unknown fields refused is accepted with them allowed. */
  lemma {:induction false} StrictImpliesLenient(
      deps: seq<Schema>, resolving: set<string>, ty: TsType, v: Js)
    requires Valid(deps, true, resolving, ty, v)
    ensures Valid(deps, false, resolving, ty, v)
    decreases Names(deps) - resolving, ty, 1
  {
    match ty
    case TypeRef(name) =>
      if name !in resolving && Find(deps, name).Some? {
        assert Names(deps) - (resolving + {name}) < Names(deps) - resolving;
        StrictImpliesLenient(deps, resolving + {name}, Find(deps, name).value.ty, v);
      }
    case Object(fields) => StrictObjectImpliesLenient(deps, resolving, ty, fields, {}, None, v);
    case OpenObject(fields, rest) =>
      StrictObjectImpliesLenient(deps, resolving, ty, fields, {}, Some(rest), v);
    case Array(item) =>
      forall i | 0 <= i < |v.items| ensures Valid(deps, false, resolving, item, v.items[i]) {
        StrictImpliesLenient(deps, resolving, item, v.items[i]);
      }
    case Tuple(items) =>
      forall i | 0 <= i < |items| ensures Valid(deps, false, resolving, items[i], v.items[i]) {
        StrictImpliesLenient(deps, resolving, items[i], v.items[i]);
      }
    case Enum(Some(tag), variants) =>
      var at := FindVariant(variants, v.props[tag].s);
      StrictObjectImpliesLenient(
        deps, resolving, ty, variants[at].fields, {tag}, variants[at].rest, v);
    case Record(key, item) =>
      forall k | k in v.props ensures Valid(deps, false, resolving, item, v.props[k]) {
        StrictImpliesLenient(deps, resolving, item, v.props[k]);
      }
    case Union(types) =>
      var i :| 0 <= i < |types| && Valid(deps, true, resolving, types[i], v);
      StrictImpliesLenient(deps, resolving, types[i], v);
    case Optional(inner) =>
      if !v.Null? { StrictImpliesLenient(deps, resolving, inner, v); }
    case Nullable(inner) =>
      if !v.Null? { StrictImpliesLenient(deps, resolving, inner, v); }
    case _ =>
  }

  lemma {:induction false} StrictObjectImpliesLenient(
      deps: seq<Schema>, resolving: set<string>, owner: TsType,
      fields: seq<TsField>, extra: set<string>, rest: Option<TsType>, v: Js)
    requires forall i | 0 <= i < |fields| :: fields[i].ty < owner
    requires rest.Some? ==> rest.value < owner
    requires ValidObject(deps, true, resolving, owner, fields, extra, rest, v)
    ensures ValidObject(deps, false, resolving, owner, fields, extra, rest, v)
    decreases Names(deps) - resolving, owner, 0
  {
    forall i | 0 <= i < |fields| && fields[i].name in v.props
      ensures Valid(deps, false, resolving, fields[i].ty, v.props[fields[i].name])
    {
      StrictImpliesLenient(deps, resolving, fields[i].ty, v.props[fields[i].name]);
    }
    if rest.Some? {
      forall k | k in v.props && !Declares(fields, k) && k !in extra
        ensures Valid(deps, false, resolving, rest.value, v.props[k])
      {
        StrictImpliesLenient(deps, resolving, rest.value, v.props[k]);
      }
    }
  }
}

/** Every value a derived encoder writes passes strict validation against the schema
    derived for the same type. */
module EncodedIsValid {
  import opened Wrappers
  import opened Metadata
  import opened Validation
  import opened Descriptors
  import opened Decimal
  import opened FloatText
  import opened Encoding
  import opened DerivedSchema

  // ---------------------------------------------------------------- preconditions

  function NamesOf(fields: seq<TsField>): set<string> {
    set i | 0 <= i < |fields| :: fields[i].name
  }

  ghost predicate Distinct(fields: seq<TsField>) {
    forall i, j | 0 <= i < j < |fields| :: fields[i].name != fields[j].name
  }

  /** What the derive macro accepts of a shape, tuple fields being skipped in every
      described direction or in none. */
  ghost predicate WellFormedShape(env: Env, id: nat, shape: Shape)
    requires id < |env|
  {
    match shape.style
    case UnitStyle => shape.fields == []
    case NewtypeStyle => |shape.fields| == 1
    case TupleStyle =>
      forall i | 0 <= i < |shape.fields| ::
        shape.fields[i].skipSer <==> PresenceOf(env[id], shape.fields[i]).Omitted?
    case StructStyle =>
      var acc := ObjectOf(env, id, shape.fields, EMPTY);
      acc.Some? ==> Distinct(acc.value.fields)
  }

  ghost predicate WellFormedVariant(env: Env, id: nat, tagging: Tagging, variant: Variant)
    requires id < |env|
  {
    && WellFormedShape(env, id, variant.shape)
    && (tagging.Internal? ==>
          && !variant.shape.style.TupleStyle?
          && var acc := InternalObject(env, id, variant.shape);
             acc.Some? ==> Distinct(acc.value.fields) && !Declares(acc.value.fields, tagging.tag))
  }

  ghost predicate WellFormedDecl(env: Env, id: nat)
    requires id < |env|
  {
    && env[id].DescribesEncode()
    && TsOf(env, id).Some?
    && match env[id].body
       case StructBody(shape) => WellFormedShape(env, id, shape)
       case EnumBody(tagging, variants) =>
         && (forall i | 0 <= i < |variants| :: WellFormedVariant(env, id, tagging, variants[i]))
         && DistinctVariants(env[id], variants)
         && (tagging.Adjacent? ==> tagging.tag != tagging.content)
  }

  ghost predicate DistinctVariants(decl: Decl, variants: seq<Variant>) {
    forall i, j | 0 <= i < j < |variants| &&
                  !SkippedVariant(decl, variants[i]) && !SkippedVariant(decl, variants[j]) ::
      VariantKey(decl, variants[i]) != VariantKey(decl, variants[j])
  }

  ghost predicate WellFormed(env: Env) {
    forall id | 0 <= id < |env| :: WellFormedDecl(env, id)
  }

  /** Whatever a type's name finds among the dependencies is that type's schema. */
  ghost predicate Faithful(env: Env, deps: seq<Schema>) {
    forall id | 0 <= id < |env| && Find(deps, env[id].name).Some? ::
      Some(Find(deps, env[id].name).value.ty) == TsOf(env, id)
  }

  /** The keys the flattened maps of a value write into the object around them. */
  function OpenKeys(env: Env, ty: Ty, v: Val): set<string>
    decreases v, 1
  {
    match (ty, v)
    case (OptionTy(inner), VSome(w)) => OpenKeys(env, inner, w)
    case (MapTy(_, _), VMap(entries)) => KeyTexts(entries)
    case (Named(id), VStruct(vals)) =>
      if id < |env| && env[id].body.StructBody? && |env[id].body.shape.fields| == |vals| then
        var shape := env[id].body.shape;
        if shape.style.StructStyle? then OpenKeysOf(env, shape.fields, vals)
        else if shape.style.NewtypeStyle? && |vals| == 1 then OpenKeys(env, shape.fields[0].ty, vals[0])
        else {}
      else {}
    case _ => {}
  }

  function OpenKeysOf(env: Env, fields: seq<Field>, vals: seq<Val>): set<string>
    requires |fields| == |vals|
    decreases vals, 0
  {
    if fields == [] then {}
    else
      (if fields[0].flatten && !fields[0].LeftOut(vals[0]) then OpenKeys(env, fields[0].ty, vals[0]) else {})
      + OpenKeysOf(env, fields[1..], vals[1..])
  }

  /** The keys an internally tagged payload's flattened maps write. */
  function OpenKeysOfInternal(env: Env, shape: Shape, vals: seq<Val>): set<string>
    requires |shape.fields| == |vals|
  {
    if shape.style.NewtypeStyle? && |vals| == 1 then OpenKeys(env, shape.fields[0].ty, vals[0])
    else OpenKeysOf(env, shape.fields, vals)
  }

  /** A flattened field that is left out, though the schema shows it, must have shown
      only optional fields: its own schema is merged as if it were always there. */
  ghost predicate LeavesOutNothingRequired(env: Env, id: nat, field: Field, v: Val)
    requires id < |env|
  {
    field.flatten && field.LeftOut(v) && !PresenceOf(env[id], field).Omitted? && !field.ty.OptionTy? ==>
      var ty := Expanded(env, id, field.ty);
      ty.Some? ==> forall i | 0 <= i < |FieldsOf(ty.value)| :: FieldsOf(ty.value)[i].optional
  }

  /** The value-level conditions, for every object inside `v`: its flattened maps keep
      clear of the declared keys and the tag, and left-out fields are optional. */
  ghost predicate Separate(env: Env, ty: Ty, v: Val)
    decreases v, 3
  {
    match (ty, v)
    case (OptionTy(inner), VSome(w)) => Separate(env, inner, w)
    case (VecTy(item), VList(items)) => forall i | 0 <= i < |items| :: Separate(env, item, items[i])
    case (TupleTy(tys), VList(items)) =>
      |tys| == |items| ==> forall i | 0 <= i < |items| :: Separate(env, tys[i], items[i])
    case (MapTy(_, item), VMap(entries)) => forall k | k in entries :: Separate(env, item, entries[k])
    case (Named(id), _) => id < |env| ==> SeparateDecl(env, id, v)
    case _ => true
  }

  ghost predicate SeparateDecl(env: Env, id: nat, v: Val)
    requires id < |env|
    decreases v, 2
  {
    match (env[id].body, v)
    case (StructBody(shape), VStruct(vals)) =>
      |shape.fields| == |vals| ==> SeparateShape(env, id, shape, vals)
    case (EnumBody(tagging, variants), VVariant(at, vals)) =>
      at < |variants| && |variants[at].shape.fields| == |vals| ==>
        && SeparateShape(env, id, variants[at].shape, vals)
        && (tagging.Internal? ==>
              var acc := InternalObject(env, id, variants[at].shape);
              var open := OpenKeysOfInternal(env, variants[at].shape, vals);
              acc.Some? ==> open !! NamesOf(acc.value.fields) && tagging.tag !in open)
    case _ => true
  }

  ghost predicate SeparateShape(env: Env, id: nat, shape: Shape, vals: seq<Val>)
    requires id < |env| && |shape.fields| == |vals|
    decreases vals, 1
  {
    && (forall i | 0 <= i < |vals| ::
          Separate(env, shape.fields[i].ty, vals[i]) &&
          LeavesOutNothingRequired(env, id, shape.fields[i], vals[i]))
    && (shape.style.StructStyle? ==>
          var acc := ObjectOf(env, id, shape.fields, EMPTY);
          acc.Some? ==> OpenKeysOf(env, shape.fields, vals) !! NamesOf(acc.value.fields))
  }

  // ------------------------------------------------------- assembling an object

  function FieldsOf(ty: TsType): seq<TsField> {
    match ty
    case Object(fields) => fields
    case OpenObject(fields, _) => fields
    case _ => []
  }

  /** An object under construction agrees with the schema under construction: declared
      keys are valid or optional, and every other key is one of `base`, kept as it was, or an open key
      holding a value of the rest type. */
  ghost predicate Fits(
      deps: seq<Schema>, resolving: set<string>, acc: ObjectSchema,
      open: set<string>, base: Props, props: Props)
  {
    && (forall i | 0 <= i < |acc.fields| ::
          if acc.fields[i].name in props
          then Valid(deps, true, resolving, acc.fields[i].ty, props[acc.fields[i].name])
          else acc.fields[i].optional)
    && (forall k | k in props ::
          || Declares(acc.fields, k)
          || k in base
          || (k in open && acc.rest.Some? && Valid(deps, true, resolving, acc.rest.value, props[k])))
    && (forall k | k in base :: k in props && props[k] == base[k])
  }

  /** The undeclared keys of an object of a type that can be merged are open ones. */
  ghost predicate KeysWithin(ty: TsType, open: set<string>, js: Js) {
    js.Obj? && (ty.Object? || ty.OpenObject? || ty.Record? || ty.Json?) ==>
      forall k | k in js.props :: Declares(FieldsOf(ty), k) || k in open
  }

  lemma {:induction false} MergeFieldsAppends(acc: ObjectSchema, more: seq<TsField>, allOptional: bool)
    requires acc.MergeFields(more, allOptional).Some?
    ensures var merged := acc.MergeFields(more, allOptional).value;
      && merged.rest == acc.rest
      && |merged.fields| == |acc.fields| + |more|
      && (forall i | 0 <= i < |acc.fields| :: merged.fields[i] == acc.fields[i])
      && (forall i | 0 <= i < |more| ::
            merged.fields[|acc.fields| + i] == more[i].(optional := more[i].optional || allOptional))
      && (forall i | 0 <= i < |more| :: !Declares(acc.fields, more[i].name))
    decreases |more|
  {
    if more != [] {
      var field := more[0].(optional := more[0].optional || allOptional);
      var next := acc.Push(field);
      MergeFieldsAppends(next, more[1..], allOptional);
      assert next.fields[..|acc.fields|] == acc.fields;
      forall i | 0 <= i < |more| ensures !Declares(acc.fields, more[i].name) {
        if i > 0 {
          assert !Declares(next.fields, more[1..][i - 1].name);
          forall j | 0 <= j < |acc.fields| ensures acc.fields[j].name != more[i].name {
            assert next.fields[j] == acc.fields[j];
          }
        }
      }
    }
  }

  /** What flattening `ty` into `acc` adds: `ty`'s fields, new ones, and its rest type. */
  lemma FlattenAppends(acc: ObjectSchema, ty: TsType, allOptional: bool)
    requires acc.Flatten(ty, allOptional).Some?
    ensures var merged := acc.Flatten(ty, allOptional).value; var more := FieldsOf(ty);
      && |merged.fields| == |acc.fields| + |more|
      && (forall i | 0 <= i < |acc.fields| :: merged.fields[i] == acc.fields[i])
      && (forall i | 0 <= i < |more| ::
            merged.fields[|acc.fields| + i] == more[i].(optional := more[i].optional || allOptional))
      && (forall i | 0 <= i < |more| :: !Declares(acc.fields, more[i].name))
      && (acc.rest.Some? ==> merged.rest == acc.rest)
      && (ty.OpenObject? ==> merged.rest == Some(ty.rest))
      && (ty.Record? ==> merged.rest == Some(ty.item))
      && (ty.Json? ==> merged.rest == Some(Json))
  {
    match ty
    case Object(more) => MergeFieldsAppends(acc, more, allOptional);
    case OpenObject(more, _) => MergeFieldsAppends(acc, more, allOptional);
    case _ =>
  }

  /** Later steps keep the fields and the rest type of earlier ones. */
  lemma {:induction false} ObjectGrows(env: Env, id: nat, fields: seq<Field>, acc: ObjectSchema)
    requires id < |env| && ObjectOf(env, id, fields, acc).Some?
    ensures var final := ObjectOf(env, id, fields, acc).value;
      |acc.fields| <= |final.fields| &&
      (forall i | 0 <= i < |acc.fields| :: final.fields[i] == acc.fields[i])
    decreases |fields|
  {
    if fields != [] {
      StepGrows(env, id, fields[0], acc);
      ObjectGrows(env, id, fields[1..], FieldStep(env, id, fields[0], acc).value);
    }
  }

  lemma StepGrows(env: Env, id: nat, field: Field, acc: ObjectSchema)
    requires id < |env| && FieldStep(env, id, field, acc).Some?
    ensures var next := FieldStep(env, id, field, acc).value;
      |acc.fields| <= |next.fields| && (forall i | 0 <= i < |acc.fields| :: next.fields[i] == acc.fields[i])
  {
    if !PresenceOf(env[id], field).Omitted? && field.flatten {
      var ty := Expanded(env, id, if field.ty.OptionTy? then field.ty.inner else field.ty);
      FlattenAppends(acc, ty.value, field.ty.OptionTy?);
    }
  }

  lemma StaysDeclared(fields: seq<TsField>, larger: seq<TsField>, k: string)
    requires |fields| <= |larger| && forall i | 0 <= i < |fields| :: larger[i] == fields[i]
    ensures Declares(fields, k) ==> Declares(larger, k)
  {
    if Declares(fields, k) {
      var i :| 0 <= i < |fields| && fields[i].name == k;
      assert larger[i].name == k;
    }
  }

  lemma MergedStaysDeclared(fields: seq<TsField>, more: seq<TsField>, larger: seq<TsField>, k: string)
    requires |larger| == |fields| + |more|
    requires forall i | 0 <= i < |more| :: larger[|fields| + i].name == more[i].name
    ensures Declares(more, k) ==> Declares(larger, k)
  {
    if Declares(more, k) {
      var i :| 0 <= i < |more| && more[i].name == k;
      assert larger[|fields| + i].name == k;
    }
  }

  /** A plain field, written or left out, keeps the fit. */
  lemma PlainFits(
      deps: seq<Schema>, resolving: set<string>, acc: ObjectSchema, open: set<string>,
      base: Props, props: Props, field: TsField, js: Option<Js>)
    requires Fits(deps, resolving, acc, open, base, props)
    requires !Declares(acc.fields, field.name) && field.name !in open && field.name !in base
    requires js.Some? ==> Valid(deps, true, resolving, field.ty, js.value)
    requires js.None? ==> field.optional
    ensures Fits(deps, resolving, acc.Push(field), open, base,
                 if js.Some? then props[field.name := js.value] else props)
  {
    var next, after := acc.Push(field), if js.Some? then props[field.name := js.value] else props;
    assert field.name !in props;
    forall i | 0 <= i < |next.fields|
      ensures if next.fields[i].name in after
              then Valid(deps, true, resolving, next.fields[i].ty, after[next.fields[i].name])
              else next.fields[i].optional
    {
      if i < |acc.fields| { assert acc.fields[i].name != field.name; }
    }
    forall k | k in after && k !in base && !Declares(next.fields, k)
      ensures k in open && next.rest.Some? && Valid(deps, true, resolving, next.rest.value, after[k])
    {
      assert next.fields[|acc.fields|].name == field.name;
      StaysDeclared(acc.fields, next.fields, k);
    }
  }

  /** What merging contributes: properties whose keys are fields of the flattened type or
      open keys of its rest type; its required fields are among them. */
  ghost predicate Contributes(
      deps: seq<Schema>, resolving: set<string>, ty: TsType, allOptional: bool,
      rest: Option<TsType>, inner: Props, more: set<string>)
  {
    && (forall i | 0 <= i < |FieldsOf(ty)| ::
          if FieldsOf(ty)[i].name in inner
          then Valid(deps, true, resolving, FieldsOf(ty)[i].ty, inner[FieldsOf(ty)[i].name])
          else FieldsOf(ty)[i].optional || allOptional)
    && (forall k | k in inner && !Declares(FieldsOf(ty), k) ::
          k in more && rest.Some? && Valid(deps, true, resolving, rest.value, inner[k]))
  }

  lemma MergedContributes(
      deps: seq<Schema>, resolving: set<string>, acc: ObjectSchema, ty: TsType,
      allOptional: bool, js: Js, more: set<string>)
    requires acc.Flatten(ty, allOptional).Some?
    requires (allOptional && js == Null) || (Valid(deps, true, resolving, ty, js) && KeysWithin(ty, more, js))
    requires Merge(map[], js).Some?
    ensures Contributes(deps, resolving, ty, allOptional, acc.Flatten(ty, allOptional).value.rest,
                        if js.Obj? then js.props else map[], more)
  {
    FlattenAppends(acc, ty, allOptional);
  }

  lemma MergedDeclared(
      deps: seq<Schema>, resolving: set<string>, acc: ObjectSchema, open: set<string>,
      base: Props, props: Props, ty: TsType, allOptional: bool, inner: Props, more: set<string>)
    requires Fits(deps, resolving, acc, open, base, props)
    requires acc.Flatten(ty, allOptional).Some?
    requires Contributes(deps, resolving, ty, allOptional, acc.Flatten(ty, allOptional).value.rest, inner, more)
    requires var names := NamesOf(acc.Flatten(ty, allOptional).value.fields);
      (open + more) !! names && base.Keys !! names && base.Keys !! more
    ensures var next := acc.Flatten(ty, allOptional).value.fields;
      forall i | 0 <= i < |next| ::
        if next[i].name in props + inner
        then Valid(deps, true, resolving, next[i].ty, (props + inner)[next[i].name])
        else next[i].optional
  {
    FlattenAppends(acc, ty, allOptional);
    var next := acc.Flatten(ty, allOptional).value.fields;
    forall i | 0 <= i < |next|
      ensures if next[i].name in props + inner
              then Valid(deps, true, resolving, next[i].ty, (props + inner)[next[i].name])
              else next[i].optional
    {
      var name := next[i].name;
      assert name in NamesOf(next) && name !in open && name !in more && name !in base;
      if i < |acc.fields| {
        assert acc.fields[i] == next[i];
        assert Declares(acc.fields, name);
        assert !Declares(FieldsOf(ty), name);
        assert name !in inner;
      } else {
        assert name == FieldsOf(ty)[i - |acc.fields|].name;
        assert name !in props;
      }
    }
  }

  lemma MergedUndeclared(
      deps: seq<Schema>, resolving: set<string>, acc: ObjectSchema, open: set<string>,
      base: Props, props: Props, ty: TsType, allOptional: bool, inner: Props, more: set<string>)
    requires Fits(deps, resolving, acc, open, base, props)
    requires acc.Flatten(ty, allOptional).Some?
    requires Contributes(deps, resolving, ty, allOptional, acc.Flatten(ty, allOptional).value.rest, inner, more)
    ensures var next := acc.Flatten(ty, allOptional).value; var after := props + inner;
      forall k | k in after && k !in base && !Declares(next.fields, k) ::
        k in open + more && next.rest.Some? && Valid(deps, true, resolving, next.rest.value, after[k])
  {
    var next, after := acc.Flatten(ty, allOptional).value, props + inner;
    forall k | k in after && k !in base && !Declares(next.fields, k)
      ensures k in open + more && next.rest.Some? && Valid(deps, true, resolving, next.rest.value, after[k])
    {
      if k in inner {
        MergedKeyUndeclared(deps, resolving, acc, ty, allOptional, inner, more, k);
      } else {
        KeptKeyUndeclared(deps, resolving, acc, open, base, props, ty, allOptional, k);
      }
    }
  }

  lemma MergedKeyUndeclared(
      deps: seq<Schema>, resolving: set<string>, acc: ObjectSchema, ty: TsType, allOptional: bool,
      inner: Props, more: set<string>, k: string)
    requires acc.Flatten(ty, allOptional).Some?
    requires Contributes(deps, resolving, ty, allOptional, acc.Flatten(ty, allOptional).value.rest, inner, more)
    requires k in inner && !Declares(acc.Flatten(ty, allOptional).value.fields, k)
    ensures var rest := acc.Flatten(ty, allOptional).value.rest;
      k in more && rest.Some? && Valid(deps, true, resolving, rest.value, inner[k])
  {
    FlattenAppends(acc, ty, allOptional);
    var next := acc.Flatten(ty, allOptional).value;
    MergedStaysDeclared(acc.fields, FieldsOf(ty), next.fields, k);
    assert !Declares(FieldsOf(ty), k);
  }

  lemma KeptKeyUndeclared(
      deps: seq<Schema>, resolving: set<string>, acc: ObjectSchema, open: set<string>,
      base: Props, props: Props, ty: TsType, allOptional: bool, k: string)
    requires Fits(deps, resolving, acc, open, base, props) && acc.Flatten(ty, allOptional).Some?
    requires k in props && k !in base && !Declares(acc.Flatten(ty, allOptional).value.fields, k)
    ensures var rest := acc.Flatten(ty, allOptional).value.rest;
      k in open && rest.Some? && Valid(deps, true, resolving, rest.value, props[k])
  {
    FlattenAppends(acc, ty, allOptional);
    StaysDeclared(acc.fields, acc.Flatten(ty, allOptional).value.fields, k);
  }

  lemma MergedKeepsBase(
      deps: seq<Schema>, resolving: set<string>, acc: ObjectSchema, open: set<string>,
      base: Props, props: Props, ty: TsType, allOptional: bool, inner: Props, more: set<string>)
    requires Fits(deps, resolving, acc, open, base, props)
    requires acc.Flatten(ty, allOptional).Some?
    requires Contributes(deps, resolving, ty, allOptional, acc.Flatten(ty, allOptional).value.rest, inner, more)
    requires base.Keys !! NamesOf(acc.Flatten(ty, allOptional).value.fields) && base.Keys !! more
    ensures forall k | k in base :: k in props + inner && (props + inner)[k] == base[k]
  {
    FlattenAppends(acc, ty, allOptional);
    var next := acc.Flatten(ty, allOptional).value.fields;
    forall k | k in base ensures k !in inner {
      assert k !in NamesOf(next) && k !in more;
      if Declares(FieldsOf(ty), k) {
        MergedStaysDeclared(acc.fields, FieldsOf(ty), next, k);
        assert false;
      }
    }
  }

  /** Merging a valid value of a flattened type keeps the fit. */
  lemma MergedFits(
      deps: seq<Schema>, resolving: set<string>, acc: ObjectSchema, open: set<string>,
      base: Props, props: Props, ty: TsType, allOptional: bool, js: Js, more: set<string>)
    requires Fits(deps, resolving, acc, open, base, props)
    requires acc.Flatten(ty, allOptional).Some?
    requires (allOptional && js == Null) || (Valid(deps, true, resolving, ty, js) && KeysWithin(ty, more, js))
    requires Merge(props, js).Some?
    requires var names := NamesOf(acc.Flatten(ty, allOptional).value.fields);
      (open + more) !! names && base.Keys !! names && base.Keys !! more
    ensures Fits(deps, resolving, acc.Flatten(ty, allOptional).value, open + more, base,
                 Merge(props, js).value)
  {
    var inner: Props := if js.Obj? then js.props else map[];
    assert Merge(props, js).value == props + inner;
    MergedContributes(deps, resolving, acc, ty, allOptional, js, more);
    MergedDeclared(deps, resolving, acc, open, base, props, ty, allOptional, inner, more);
    MergedUndeclared(deps, resolving, acc, open, base, props, ty, allOptional, inner, more);
    MergedKeepsBase(deps, resolving, acc, open, base, props, ty, allOptional, inner, more);
  }

  lemma BaseKept(
      deps: seq<Schema>, resolving: set<string>, acc: ObjectSchema,
      open: set<string>, base: Props, props: Props, k: string)
    requires Fits(deps, resolving, acc, open, base, props) && k in base
    ensures k in props && props[k] == base[k]
  {}

  lemma FitIsValid(
      deps: seq<Schema>, resolving: set<string>, owner: TsType, acc: ObjectSchema,
      open: set<string>, base: Props, props: Props)
    requires Fits(deps, resolving, acc, open, base, props)
    requires forall i | 0 <= i < |acc.fields| :: acc.fields[i].ty < owner
    requires acc.rest.Some? ==> acc.rest.value < owner
    ensures ValidObject(deps, true, resolving, owner, acc.fields, base.Keys, acc.rest, Obj(props))
  {}

  // ---------------------------------------------------------------- the induction

  /** What holds around every step: the environment is well formed, the dependencies are
      its schemas, and `v` is encoded and keeps its keys apart. */
  ghost predicate Encodable(env: Env, deps: seq<Schema>, ty: Ty, v: Val) {
    && WellFormed(env) && Faithful(env, deps)
    && Separate(env, ty, v)
    && Encode(env, ty, v).Some?
  }

  /** The main result: an encoded value passes strict validation wherever its type is
      referred to. */
  lemma {:induction false} EncodedValueIsValid(
      env: Env, deps: seq<Schema>, resolving: set<string>, ty: Ty, v: Val)
    requires Encodable(env, deps, ty, v)
    ensures Valid(deps, true, resolving, TypeRefOf(env, ty), Encode(env, ty, v).value)
    decreases v, 4
  {
    match ty
    case OptionTy(inner) => EncodedOptionIsValid(env, deps, resolving, inner, v);
    case VecTy(item) => EncodedListIsValid(env, deps, resolving, item, v);
    case TupleTy(tys) => EncodedTupleIsValid(env, deps, resolving, tys, v);
    case MapTy(keyTy, item) => EncodedMapIsValid(env, deps, resolving, keyTy, item, v);
    case Named(id) => EncodedNamedIsValid(env, deps, resolving, id, v);
    case _ =>
  }

  lemma {:induction false} EncodedOptionIsValid(
      env: Env, deps: seq<Schema>, resolving: set<string>, inner: Ty, v: Val)
    requires Encodable(env, deps, OptionTy(inner), v)
    ensures Valid(deps, true, resolving, TypeRefOf(env, OptionTy(inner)), Encode(env, OptionTy(inner), v).value)
    decreases v, 3
  {
    if v.VSome? { EncodedValueIsValid(env, deps, resolving, inner, v.v); }
  }

  lemma {:induction false} EncodedListIsValid(
      env: Env, deps: seq<Schema>, resolving: set<string>, item: Ty, v: Val)
    requires v.VList? && Encodable(env, deps, VecTy(item), v)
    ensures Valid(deps, true, resolving, TypeRefOf(env, VecTy(item)), Encode(env, VecTy(item), v).value)
    decreases v, 3
  {
    forall i | 0 <= i < |v.items|
      ensures Valid(deps, true, resolving, TypeRefOf(env, item), Encode(env, item, v.items[i]).value)
    {
      EncodedValueIsValid(env, deps, resolving, item, v.items[i]);
    }
  }

  lemma {:induction false} EncodedTupleIsValid(
      env: Env, deps: seq<Schema>, resolving: set<string>, tys: seq<Ty>, v: Val)
    requires v.VList? && Encodable(env, deps, TupleTy(tys), v)
    ensures Valid(deps, true, resolving, TypeRefOf(env, TupleTy(tys)), Encode(env, TupleTy(tys), v).value)
    decreases v, 3
  {
    forall i | 0 <= i < |v.items|
      ensures Valid(deps, true, resolving, TypeRefOf(env, tys[i]), Encode(env, tys[i], v.items[i]).value)
    {
      EncodedValueIsValid(env, deps, resolving, tys[i], v.items[i]);
    }
  }

  /** A reference accepts what the schema it leads to accepts. */
  lemma {:induction false} EncodedNamedIsValid(
      env: Env, deps: seq<Schema>, resolving: set<string>, id: nat, v: Val)
    requires Encodable(env, deps, Named(id), v)
    ensures Valid(deps, true, resolving, TypeRefOf(env, Named(id)), Encode(env, Named(id), v).value)
    decreases v, 3
  {
    var name := env[id].name;
    if name !in resolving && Find(deps, name).Some? {
      EncodedDeclIsValid(env, deps, resolving + {name}, id, v);
    }
  }

  lemma {:induction false} EncodedMapIsValid(
      env: Env, deps: seq<Schema>, resolving: set<string>, keyTy: KeyTy, item: Ty, v: Val)
    requires v.VMap? && Encodable(env, deps, MapTy(keyTy, item), v)
    ensures Valid(deps, true, resolving, TypeRefOf(env, MapTy(keyTy, item)),
                  Encode(env, MapTy(keyTy, item), v).value)
    decreases v, 3
  {
    var props := EncodeEntries(env, keyTy, item, v).value;
    EncodedEntriesAreValid(env, deps, resolving, keyTy, item, v);
    RecordIsValid(deps, resolving, if keyTy.TextKey? then StringKey else NumberKey, TypeRefOf(env, item), props);
  }

  lemma {:induction false} EncodedEntriesAreValid(
      env: Env, deps: seq<Schema>, resolving: set<string>, keyTy: KeyTy, item: Ty, v: Val)
    requires v.VMap? && WellFormed(env) && Faithful(env, deps)
    requires EncodeEntries(env, keyTy, item, v).Some?
    requires forall k | k in v.entries :: Separate(env, item, v.entries[k])
    ensures forall text | text in EncodeEntries(env, keyTy, item, v).value ::
      && Valid(deps, true, resolving, TypeRefOf(env, item), EncodeEntries(env, keyTy, item, v).value[text])
      && (keyTy.IntKey? ==> NumericKey(text))
    decreases v, 2
  {
    var props := EncodeEntries(env, keyTy, item, v).value;
    forall text | text in props
      ensures Valid(deps, true, resolving, TypeRefOf(env, item), props[text])
      ensures keyTy.IntKey? ==> NumericKey(text)
    {
      var k := EntryOf(env, keyTy, item, v, text);
      EncodedValueIsValid(env, deps, resolving, item, v.entries[k]);
    }
  }

  /** The entry a property was written for. */
  lemma EntryOf(env: Env, keyTy: KeyTy, item: Ty, v: Val, text: string) returns (k: Key)
    requires v.VMap? && EncodeEntries(env, keyTy, item, v).Some?
    requires text in EncodeEntries(env, keyTy, item, v).value
    ensures k in v.entries
    ensures Encode(env, item, v.entries[k]) == Some(EncodeEntries(env, keyTy, item, v).value[text])
    ensures keyTy.IntKey? ==> NumericKey(text)
  {
    EntriesEncoded(env, keyTy, item, v);
    k := KeyOfText(v.entries, text);
    IntKeyIsNumeric(keyTy, k);
  }

  lemma IntKeyIsNumeric(keyTy: KeyTy, k: Key)
    requires KeyOfType(keyTy, k)
    ensures keyTy.IntKey? ==> NumericKey(KeyText(k))
  {
    if keyTy.IntKey? { IntegersReadAsFinite(k.i); }
  }

  lemma RecordIsValid(deps: seq<Schema>, resolving: set<string>, key: RecordKey, item: TsType, props: Props)
    requires forall text | text in props ::
      Valid(deps, true, resolving, item, props[text]) && (key.NumberKey? ==> NumericKey(text))
    ensures Valid(deps, true, resolving, Record(key, item), Obj(props))
  {}

  /** A merged value is valid against its expanded schema, and its undeclared keys are
      those of its flattened maps. */
  lemma {:induction false} ExpandedValueIsValid(
      env: Env, deps: seq<Schema>, resolving: set<string>, id: nat, ty: Ty, v: Val)
    requires Encodable(env, deps, ty, v)
    requires id < |env| && Expanded(env, id, ty).Some?
    ensures Valid(deps, true, resolving, Expanded(env, id, ty).value, Encode(env, ty, v).value)
    ensures KeysWithin(Expanded(env, id, ty).value, OpenKeys(env, ty, v), Encode(env, ty, v).value)
    decreases v, 5
  {
    if ty.Named? {
      EncodedDeclIsValid(env, deps, resolving, ty.id, v);
    } else {
      EncodedValueIsValid(env, deps, resolving, ty, v);
    }
  }

  /** A deriving type's value against its own schema. */
  lemma {:induction false} EncodedDeclIsValid(
      env: Env, deps: seq<Schema>, resolving: set<string>, id: nat, v: Val)
    requires id < |env| && WellFormedDecl(env, id) && Encodable(env, deps, Named(id), v)
    ensures Valid(deps, true, resolving, TsOf(env, id).value, Encode(env, Named(id), v).value)
    ensures KeysWithin(TsOf(env, id).value, OpenKeys(env, Named(id), v), Encode(env, Named(id), v).value)
    decreases v, 2
  {
    if env[id].body.StructBody? {
      EncodedStructDeclIsValid(env, deps, resolving, id, v);
    } else {
      EncodedEnumIsValid(env, deps, resolving, id, v);
    }
  }

  lemma {:induction false} EncodedStructDeclIsValid(
      env: Env, deps: seq<Schema>, resolving: set<string>, id: nat, v: Val)
    requires id < |env| && WellFormedDecl(env, id) && Encodable(env, deps, Named(id), v) && env[id].body.StructBody?
    ensures Valid(deps, true, resolving, TsOf(env, id).value, Encode(env, Named(id), v).value)
    ensures KeysWithin(TsOf(env, id).value, OpenKeys(env, Named(id), v), Encode(env, Named(id), v).value)
    decreases v, 1
  {
    var shape := env[id].body.shape;
    assert EncodeDecl(env, env[id], v) == Encode(env, Named(id), v) && SeparateDecl(env, id, v);
    assert EncodePayload(env, shape, v.fields) == Encode(env, Named(id), v);
    assert TsOf(env, id) == ShapeType(env, id, shape);
    EncodedShapeIsValid(env, deps, resolving, id, shape, v.fields);
  }

  lemma {:induction false} EncodedEnumIsValid(
      env: Env, deps: seq<Schema>, resolving: set<string>, id: nat, v: Val)
    requires id < |env| && WellFormedDecl(env, id) && Encodable(env, deps, Named(id), v) && env[id].body.EnumBody?
    ensures Valid(deps, true, resolving, TsOf(env, id).value, Encode(env, Named(id), v).value)
    ensures KeysWithin(TsOf(env, id).value, OpenKeys(env, Named(id), v), Encode(env, Named(id), v).value)
    decreases v, 1
  {
    var tagging, variants := env[id].body.tagging, env[id].body.variants;
    assert EncodeDecl(env, env[id], v) == Encode(env, Named(id), v) && SeparateDecl(env, id, v);
    assert EncodeVariant(env, tagging, variants[v.variant], v.payload) == Encode(env, Named(id), v);
    assert TsOf(env, id) == EnumType(env, id, tagging, variants);
    EncodedVariantIsValid(env, deps, resolving, id, tagging, variants, v.variant, v.payload);
    EnumIsNoObject(env, id, tagging, variants);
  }

  /** Nothing is within an enum's type. */
  lemma EnumIsNoObject(env: Env, id: nat, tagging: Tagging, variants: seq<Variant>)
    requires id < |env| && EnumType(env, id, tagging, variants).Some?
    ensures var ty := EnumType(env, id, tagging, variants).value; ty.Enum? || ty.Union?
  {}

  lemma {:induction false} EncodedShapeIsValid(
      env: Env, deps: seq<Schema>, resolving: set<string>, id: nat, shape: Shape, vals: seq<Val>)
    requires id < |env| && WellFormed(env) && Faithful(env, deps)
    requires WellFormedShape(env, id, shape) && ShapeType(env, id, shape).Some?
    requires |shape.fields| == |vals| && SeparateShape(env, id, shape, vals)
    requires EncodePayload(env, shape, vals).Some?
    ensures Valid(deps, true, resolving, ShapeType(env, id, shape).value, EncodePayload(env, shape, vals).value)
    ensures shape.style.StructStyle? ==>
      KeysWithin(ShapeType(env, id, shape).value, OpenKeysOf(env, shape.fields, vals),
                 EncodePayload(env, shape, vals).value)
    ensures shape.style.NewtypeStyle? ==>
      KeysWithin(ShapeType(env, id, shape).value, OpenKeys(env, shape.fields[0].ty, vals[0]),
                 EncodePayload(env, shape, vals).value)
    decreases vals, 2, 0
  {
    match shape.style
    case UnitStyle =>
    case NewtypeStyle =>
      EncodedValueIsValid(env, deps, resolving, shape.fields[0].ty, vals[0]);
    case TupleStyle =>
      EncodedItemsAreValid(env, deps, resolving, id, shape.fields, vals);
    case StructStyle => EncodedStructIsValid(env, deps, resolving, id, shape.fields, vals);
  }

  lemma {:induction false} EncodedStructIsValid(
      env: Env, deps: seq<Schema>, resolving: set<string>, id: nat, fields: seq<Field>, vals: seq<Val>)
    requires id < |env| && WellFormed(env) && Faithful(env, deps) && |fields| == |vals|
    requires forall i | 0 <= i < |vals| ::
      Separate(env, fields[i].ty, vals[i]) && LeavesOutNothingRequired(env, id, fields[i], vals[i])
    requires ObjectOf(env, id, fields, EMPTY).Some? && EncodeFields(env, fields, vals, map[]).Some?
    requires var acc := ObjectOf(env, id, fields, EMPTY).value;
      Distinct(acc.fields) && OpenKeysOf(env, fields, vals) !! NamesOf(acc.fields)
    ensures var ty, js := ObjectOf(env, id, fields, EMPTY).value.AsType(), Obj(EncodeFields(env, fields, vals, map[]).value);
      Valid(deps, true, resolving, ty, js) && KeysWithin(ty, OpenKeysOf(env, fields, vals), js)
    decreases vals, 1, 1
  {
    var acc, open := ObjectOf(env, id, fields, EMPTY).value, OpenKeysOf(env, fields, vals);
    EncodedFieldsFit(env, deps, resolving, id, fields, vals, EMPTY, {}, map[], map[]);
    FitIsValid(deps, resolving, acc.AsType(), acc, open, map[], EncodeFields(env, fields, vals, map[]).value);
  }

  lemma {:induction false} EncodedItemsAreValid(
      env: Env, deps: seq<Schema>, resolving: set<string>, id: nat, fields: seq<Field>, vals: seq<Val>)
    requires id < |env| && WellFormed(env) && Faithful(env, deps) && |fields| == |vals|
    requires forall i | 0 <= i < |fields| :: fields[i].skipSer <==> PresenceOf(env[id], fields[i]).Omitted?
    requires forall i | 0 <= i < |vals| :: Separate(env, fields[i].ty, vals[i])
    requires EncodeItems(env, fields, vals).Some?
    ensures Valid(deps, true, resolving, Tuple(ItemTypes(env, env[id], fields)),
                  Arr(EncodeItems(env, fields, vals).value))
    decreases vals, 1
  {
    if fields != [] {
      EncodedItemsAreValid(env, deps, resolving, id, fields[1..], vals[1..]);
      if !fields[0].skipSer {
        EncodedValueIsValid(env, deps, resolving, fields[0].ty, vals[0]);
        TupleGrows(deps, resolving, TypeRefOf(env, fields[0].ty), Encode(env, fields[0].ty, vals[0]).value,
                   ItemTypes(env, env[id], fields[1..]), EncodeItems(env, fields[1..], vals[1..]).value);
      }
    }
  }

  predicate EachValid(deps: seq<Schema>, resolving: set<string>, types: seq<TsType>, items: seq<Js>) {
    |items| == |types| && forall i | 0 <= i < |items| :: Valid(deps, true, resolving, types[i], items[i])
  }

  lemma TupleIsEach(deps: seq<Schema>, resolving: set<string>, types: seq<TsType>, items: seq<Js>)
    ensures Valid(deps, true, resolving, Tuple(types), Arr(items)) <==> EachValid(deps, resolving, types, items)
  {}

  lemma EachGrows(deps: seq<Schema>, resolving: set<string>, ty: TsType, item: Js, types: seq<TsType>, items: seq<Js>)
    requires Valid(deps, true, resolving, ty, item) && EachValid(deps, resolving, types, items)
    ensures EachValid(deps, resolving, [ty] + types, [item] + items)
  {
    var allTypes, allItems := [ty] + types, [item] + items;
    forall i | 0 <= i < |allItems| ensures Valid(deps, true, resolving, allTypes[i], allItems[i]) {
      if i > 0 { assert allTypes[i] == types[i - 1] && allItems[i] == items[i - 1]; }
    }
  }

  lemma TupleGrows(deps: seq<Schema>, resolving: set<string>, ty: TsType, item: Js, types: seq<TsType>, items: seq<Js>)
    requires Valid(deps, true, resolving, ty, item) && Valid(deps, true, resolving, Tuple(types), Arr(items))
    ensures Valid(deps, true, resolving, Tuple([ty] + types), Arr([item] + items))
  {
    TupleIsEach(deps, resolving, types, items);
    EachGrows(deps, resolving, ty, item, types, items);
    TupleIsEach(deps, resolving, [ty] + types, [item] + items);
  }

  /** Encoding the remaining fields keeps the fit with the schema of the whole shape. */
  lemma {:induction false} EncodedFieldsFit(
      env: Env, deps: seq<Schema>, resolving: set<string>, id: nat, fields: seq<Field>, vals: seq<Val>,
      acc: ObjectSchema, open: set<string>, base: Props, props: Props)
    requires id < |env| && WellFormed(env) && Faithful(env, deps) && |fields| == |vals|
    requires forall i | 0 <= i < |vals| ::
      Separate(env, fields[i].ty, vals[i]) && LeavesOutNothingRequired(env, id, fields[i], vals[i])
    requires EncodeFields(env, fields, vals, props).Some? && ObjectOf(env, id, fields, acc).Some?
    requires Fits(deps, resolving, acc, open, base, props)
    requires var final := ObjectOf(env, id, fields, acc).value.fields;
      Distinct(final) && (open + OpenKeysOf(env, fields, vals)) !! NamesOf(final) && base.Keys !! NamesOf(final)
      && base.Keys !! OpenKeysOf(env, fields, vals)
    ensures Fits(deps, resolving, ObjectOf(env, id, fields, acc).value, open + OpenKeysOf(env, fields, vals),
                 base, EncodeFields(env, fields, vals, props).value)
    decreases vals, 0
  {
    if fields == [] {
      assert open + OpenKeysOf(env, fields, vals) == open;
    } else {
      var next := FieldStep(env, id, fields[0], acc).value;
      var written := EncodeField(env, fields[0], vals[0], props).value;
      var more := if fields[0].flatten && !fields[0].LeftOut(vals[0])
                  then OpenKeys(env, fields[0].ty, vals[0]) else {};
      var final := ObjectOf(env, id, fields, acc).value.fields;
      ObjectGrows(env, id, fields[1..], next);
      SubNames(next.fields, final);
      EncodedFieldFits(env, deps, resolving, id, fields[0], vals[0], acc, open, base, props);
      assert open + OpenKeysOf(env, fields, vals) == open + more + OpenKeysOf(env, fields[1..], vals[1..]);
      EncodedFieldsFit(env, deps, resolving, id, fields[1..], vals[1..], next, open + more, base, written);
    }
  }

  lemma SubNames(fields: seq<TsField>, larger: seq<TsField>)
    requires |fields| <= |larger| && forall i | 0 <= i < |fields| :: larger[i] == fields[i]
    ensures NamesOf(fields) <= NamesOf(larger)
    ensures Distinct(larger) ==> Distinct(fields)
  {
    forall k | k in NamesOf(fields) ensures k in NamesOf(larger) {
      var i :| 0 <= i < |fields| && fields[i].name == k;
      assert larger[i].name == k;
    }
    if Distinct(larger) {
      forall i, j | 0 <= i < j < |fields| ensures fields[i].name != fields[j].name {
        assert larger[i].name != larger[j].name;
      }
    }
  }

  lemma {:induction false} EncodedFieldFits(
      env: Env, deps: seq<Schema>, resolving: set<string>, id: nat, field: Field, v: Val,
      acc: ObjectSchema, open: set<string>, base: Props, props: Props)
    requires id < |env| && WellFormed(env) && Faithful(env, deps)
    requires Separate(env, field.ty, v) && LeavesOutNothingRequired(env, id, field, v)
    requires EncodeField(env, field, v, props).Some? && FieldStep(env, id, field, acc).Some?
    requires Fits(deps, resolving, acc, open, base, props)
    requires var more := if field.flatten && !field.LeftOut(v) then OpenKeys(env, field.ty, v) else {};
      var names := NamesOf(FieldStep(env, id, field, acc).value.fields);
      Distinct(FieldStep(env, id, field, acc).value.fields) && (open + more) !! names && base.Keys !! names && base.Keys !! more
    ensures var more := if field.flatten && !field.LeftOut(v) then OpenKeys(env, field.ty, v) else {};
      Fits(deps, resolving, FieldStep(env, id, field, acc).value, open + more, base,
           EncodeField(env, field, v, props).value)
    decreases v, 8
  {
    assert WellFormedDecl(env, id);
    var next := FieldStep(env, id, field, acc).value;
    if PresenceOf(env[id], field).Omitted? {
      assert field.LeftOut(v);
      assert open + {} == open;
    } else if field.flatten {
      FlattenedFieldFits(env, deps, resolving, id, field, v, acc, open, base, props);
    } else {
      var shown := next.fields[|acc.fields|];
      assert next == acc.Push(shown) && shown.name in NamesOf(next.fields);
      assert !Declares(acc.fields, shown.name) by {
        forall i | 0 <= i < |acc.fields| ensures acc.fields[i].name != shown.name {
          assert next.fields[i] == acc.fields[i];
        }
      }
      assert open + {} == open;
      if field.LeftOut(v) {
        PlainFits(deps, resolving, acc, open, base, props, shown, None);
      } else {
        EncodedValueIsValid(env, deps, resolving, field.ty, v);
        PlainFits(deps, resolving, acc, open, base, props, shown, Encode(env, field.ty, v));
      }
    }
  }

  lemma {:induction false} FlattenedFieldFits(
      env: Env, deps: seq<Schema>, resolving: set<string>, id: nat, field: Field, v: Val,
      acc: ObjectSchema, open: set<string>, base: Props, props: Props)
    requires id < |env| && WellFormed(env) && Faithful(env, deps)
    requires field.flatten && !PresenceOf(env[id], field).Omitted?
    requires Separate(env, field.ty, v) && LeavesOutNothingRequired(env, id, field, v)
    requires EncodeField(env, field, v, props).Some? && FieldStep(env, id, field, acc).Some?
    requires Fits(deps, resolving, acc, open, base, props)
    requires var more := if !field.LeftOut(v) then OpenKeys(env, field.ty, v) else {};
      var names := NamesOf(FieldStep(env, id, field, acc).value.fields);
      (open + more) !! names && base.Keys !! names && base.Keys !! more
    ensures var more := if !field.LeftOut(v) then OpenKeys(env, field.ty, v) else {};
      Fits(deps, resolving, FieldStep(env, id, field, acc).value, open + more, base,
           EncodeField(env, field, v, props).value)
    decreases v, 7
  {
    var optional := field.ty.OptionTy?;
    var target := if optional then field.ty.inner else field.ty;
    var ty := Expanded(env, id, target).value;
    if field.LeftOut(v) {
      MergedNothingFits(deps, resolving, acc, open, base, props, ty, optional);
      assert open + {} == open;
    } else if optional && v == VNone {
      MergedFits(deps, resolving, acc, open, base, props, ty, optional, Null, {});
    } else if optional {
      ExpandedValueIsValid(env, deps, resolving, id, target, v.v);
      MergedFits(deps, resolving, acc, open, base, props, ty, optional,
                 Encode(env, target, v.v).value, OpenKeys(env, target, v.v));
    } else {
      ExpandedValueIsValid(env, deps, resolving, id, target, v);
      MergedFits(deps, resolving, acc, open, base, props, ty, optional,
                 Encode(env, target, v).value, OpenKeys(env, target, v));
    }
  }

  /** A flattened field that writes nothing fits when its schema requires nothing. */
  lemma MergedNothingFits(
      deps: seq<Schema>, resolving: set<string>, acc: ObjectSchema, open: set<string>,
      base: Props, props: Props, ty: TsType, allOptional: bool)
    requires Fits(deps, resolving, acc, open, base, props)
    requires acc.Flatten(ty, allOptional).Some?
    requires allOptional || forall i | 0 <= i < |FieldsOf(ty)| :: FieldsOf(ty)[i].optional
    requires var names := NamesOf(acc.Flatten(ty, allOptional).value.fields); open !! names && base.Keys !! names
    ensures Fits(deps, resolving, acc.Flatten(ty, allOptional).value, open, base, props)
  {
    FlattenAppends(acc, ty, allOptional);
    assert props + map[] == props && open + {} == open;
    MergedDeclared(deps, resolving, acc, open, base, props, ty, allOptional, map[], {});
    MergedUndeclared(deps, resolving, acc, open, base, props, ty, allOptional, map[], {});
  }

  // ----------------------------------------------------------------------- enums

  /** A described variant's member is somewhere in the union. */
  lemma {:induction false} AlternativeListed(env: Env, id: nat, tagging: Tagging, variants: seq<Variant>, at: nat)
    returns (j: nat)
    requires id < |env| && Alternatives(env, id, tagging, variants).Some?
    requires at < |variants| && !SkippedVariant(env[id], variants[at])
    ensures Alternative(env, id, tagging, variants[at]).Some?
    ensures j < |Alternatives(env, id, tagging, variants).value|
    ensures Alternatives(env, id, tagging, variants).value[j] == Alternative(env, id, tagging, variants[at]).value
    decreases |variants|
  {
    if at == 0 {
      j := 0;
    } else {
      j := AlternativeListed(env, id, tagging, variants[1..], at - 1);
      j := if SkippedVariant(env[id], variants[0]) then j else j + 1;
    }
  }

  /** A described variant's entry is the one its key finds. */
  lemma {:induction false} EntryFound(env: Env, id: nat, tagging: Tagging, variants: seq<Variant>, at: nat)
    requires id < |env| && VariantEntries(env, id, tagging, variants).Some?
    requires at < |variants| && !SkippedVariant(env[id], variants[at]) && DistinctVariants(env[id], variants)
    ensures VariantEntry(env, id, tagging, variants[at]).Some?
    ensures var entries := VariantEntries(env, id, tagging, variants).value;
      var j := FindVariant(entries, VariantKey(env[id], variants[at]));
      j < |entries| && entries[j] == VariantEntry(env, id, tagging, variants[at]).value
    decreases |variants|
  {
    var first, rest := variants[0], VariantEntries(env, id, tagging, variants[1..]).value;
    if !SkippedVariant(env[id], first) {
      EntryHasKey(env, id, tagging, first);
      var entries := VariantEntries(env, id, tagging, variants).value;
      assert entries == [VariantEntry(env, id, tagging, first).value] + rest;
      assert entries[1..] == rest;
    }
    if at > 0 {
      assert DistinctVariants(env[id], variants[1..]);
      EntryFound(env, id, tagging, variants[1..], at - 1);
    }
  }

  lemma EntryHasKey(env: Env, id: nat, tagging: Tagging, variant: Variant)
    requires id < |env| && VariantEntry(env, id, tagging, variant).Some?
    ensures VariantEntry(env, id, tagging, variant).value.name == VariantKey(env[id], variant)
  {}

  /** What the variant lemmas share: variant `at` of enum `id` is encoded from `vals`. */
  ghost predicate EncodableVariant(
      env: Env, deps: seq<Schema>, id: nat, tagging: Tagging, variants: seq<Variant>, at: nat, vals: seq<Val>)
  {
    && id < |env| && WellFormed(env) && Faithful(env, deps)
    && env[id].body == EnumBody(tagging, variants) && WellFormedDecl(env, id)
    && EnumType(env, id, tagging, variants).Some?
    && at < |variants| && |variants[at].shape.fields| == |vals|
    && WellFormedVariant(env, id, tagging, variants[at])
    && SeparateDecl(env, id, VVariant(at, vals))
    && SeparateShape(env, id, variants[at].shape, vals)
    && EncodeVariant(env, tagging, variants[at], vals).Some?
  }

  lemma {:induction false} EncodedVariantIsValid(
      env: Env, deps: seq<Schema>, resolving: set<string>, id: nat, tagging: Tagging,
      variants: seq<Variant>, at: nat, vals: seq<Val>)
    requires EncodableVariant(env, deps, id, tagging, variants, at, vals)
    ensures Valid(deps, true, resolving, EnumType(env, id, tagging, variants).value,
                  EncodeVariant(env, tagging, variants[at], vals).value)
    decreases vals, 4
  {
    match tagging
    case External => EncodedExternalIsValid(env, deps, resolving, id, variants, at, vals);
    case Internal(tag) => EncodedInternalIsValid(env, deps, resolving, id, tag, variants, at, vals);
    case Adjacent(tag, content) =>
      EncodedAdjacentIsValid(env, deps, resolving, id, tag, content, variants, at, vals);
    case Untagged =>
      var j := AlternativeListed(env, id, tagging, variants, at);
      EncodedShapeIsValid(env, deps, resolving, id, variants[at].shape, vals);
  }

  lemma {:induction false} EncodedExternalIsValid(
      env: Env, deps: seq<Schema>, resolving: set<string>, id: nat,
      variants: seq<Variant>, at: nat, vals: seq<Val>)
    requires EncodableVariant(env, deps, id, External, variants, at, vals)
    ensures Valid(deps, true, resolving, EnumType(env, id, External, variants).value,
                  EncodeVariant(env, External, variants[at], vals).value)
    decreases vals, 3
  {
    var js := EncodeVariant(env, External, variants[at], vals).value;
    if AllUnit(env[id], variants) {
      EntryFound(env, id, External, variants, at);
      NamedEntryIsValid(deps, resolving, VariantEntries(env, id, External, variants).value, js);
    } else {
      var j := AlternativeListed(env, id, External, variants, at);
      ExternalMemberIsValid(env, deps, resolving, id, variants, at, vals);
      MemberIsValid(deps, resolving, Alternatives(env, id, External, variants).value, j, js);
    }
  }

  lemma {:induction false} ExternalMemberIsValid(
      env: Env, deps: seq<Schema>, resolving: set<string>, id: nat,
      variants: seq<Variant>, at: nat, vals: seq<Val>)
    requires EncodableVariant(env, deps, id, External, variants, at, vals)
    requires Alternative(env, id, External, variants[at]).Some?
    ensures Valid(deps, true, resolving, Alternative(env, id, External, variants[at]).value,
                  EncodeVariant(env, External, variants[at], vals).value)
    decreases vals, 2, 1
  {
    var variant := variants[at];
    if !variant.shape.style.UnitStyle? {
      EncodedShapeIsValid(env, deps, resolving, id, variant.shape, vals);
      SingleFieldIsValid(deps, resolving, Alternative(env, id, External, variant).value,
                         EncodeVariant(env, External, variant, vals).value);
    }
  }

  lemma MemberIsValid(deps: seq<Schema>, resolving: set<string>, types: seq<TsType>, j: nat, js: Js)
    requires j < |types| && Valid(deps, true, resolving, types[j], js)
    ensures Valid(deps, true, resolving, Union(types), js)
  {}

  lemma NamedEntryIsValid(deps: seq<Schema>, resolving: set<string>, entries: seq<TsVariant>, js: Js)
    requires js.Str? && FindVariant(entries, js.s) < |entries| && entries[FindVariant(entries, js.s)].name == js.s
    ensures Valid(deps, true, resolving, Enum(None, entries), js)
  {}

  /** An object whose tag finds the entry it fits. */
  lemma TaggedEntryIsValid(deps: seq<Schema>, resolving: set<string>, tag: string, entries: seq<TsVariant>, js: Js)
    requires js.Obj? && tag in js.props && js.props[tag].Str?
    requires var j := FindVariant(entries, js.props[tag].s);
      j < |entries| && ValidObject(deps, true, resolving, Enum(Some(tag), entries), entries[j].fields, {tag}, entries[j].rest, js)
    ensures Valid(deps, true, resolving, Enum(Some(tag), entries), js)
  {}

  lemma SingleFieldIsValid(deps: seq<Schema>, resolving: set<string>, ty: TsType, js: Js)
    requires ty.Object? && |ty.fields| == 1 && js.Obj? && js.props.Keys == {ty.fields[0].name}
    requires Valid(deps, true, resolving, ty.fields[0].ty, js.props[ty.fields[0].name])
    ensures Valid(deps, true, resolving, ty, js)
  {
    assert Declares(ty.fields, ty.fields[0].name);
  }

  lemma {:induction false} EncodedInternalIsValid(
      env: Env, deps: seq<Schema>, resolving: set<string>, id: nat, tag: string,
      variants: seq<Variant>, at: nat, vals: seq<Val>)
    requires EncodableVariant(env, deps, id, Internal(tag), variants, at, vals)
    ensures Valid(deps, true, resolving, EnumType(env, id, Internal(tag), variants).value,
                  EncodeVariant(env, Internal(tag), variants[at], vals).value)
    decreases vals, 3
  {
    var variant := variants[at];
    var shape := variant.shape;
    var base: Props := map[tag := Str(variant.ser)];
    var props := EncodeInternal(env, shape, vals, base).value;
    var js := Obj(props);
    if AllUnit(env[id], variants) {
      var j := AlternativeListed(env, id, Internal(tag), variants, at);
      assert js.props.Keys == {tag};
      SingleFieldIsValid(deps, resolving, Alternative(env, id, Internal(tag), variant).value, js);
      MemberIsValid(deps, resolving, Alternatives(env, id, Internal(tag), variants).value, j, js);
    } else {
      InternalEntryIsValid(env, deps, resolving, id, tag, variants, at, vals);
    }
  }

  lemma {:induction false} InternalEntryIsValid(
      env: Env, deps: seq<Schema>, resolving: set<string>, id: nat, tag: string,
      variants: seq<Variant>, at: nat, vals: seq<Val>)
    requires EncodableVariant(env, deps, id, Internal(tag), variants, at, vals)
    requires VariantEntries(env, id, Internal(tag), variants).Some?
    ensures Valid(deps, true, resolving, Enum(Some(tag), VariantEntries(env, id, Internal(tag), variants).value),
                  EncodeVariant(env, Internal(tag), variants[at], vals).value)
    decreases vals, 2, 1
  {
    var variant, shape := variants[at], variants[at].shape;
    var base: Props := map[tag := Str(variant.ser)];
    var props := EncodeInternal(env, shape, vals, base).value;
    var entries := VariantEntries(env, id, Internal(tag), variants).value;
    var ty := Enum(Some(tag), entries);
    EntryFound(env, id, Internal(tag), variants, at);
    if shape.style.UnitStyle? {
      assert props == base;
    } else {
      var acc, open := InternalObject(env, id, shape).value, OpenKeysOfInternal(env, shape, vals);
      InternalPayloadFits(env, deps, resolving, id, tag, shape, vals, base);
      assert entries[FindVariant(entries, variant.ser)] == acc.AsVariant(variant.ser);
      FitIsValid(deps, resolving, ty, acc, open, base, props);
      BaseKept(deps, resolving, acc, open, base, props, tag);
    }
    TaggedEntryIsValid(deps, resolving, tag, entries, Obj(props));
  }

  lemma {:induction false} InternalPayloadFits(
      env: Env, deps: seq<Schema>, resolving: set<string>, id: nat, tag: string,
      shape: Shape, vals: seq<Val>, base: Props)
    requires id < |env| && WellFormed(env) && Faithful(env, deps) && |shape.fields| == |vals|
    requires WellFormedShape(env, id, shape) && InternalObject(env, id, shape).Some?
    requires Distinct(InternalObject(env, id, shape).value.fields)
    requires !Declares(InternalObject(env, id, shape).value.fields, tag)
    requires SeparateShape(env, id, shape, vals) && base.Keys == {tag}
    requires var open := OpenKeysOfInternal(env, shape, vals);
      open !! NamesOf(InternalObject(env, id, shape).value.fields) && tag !in open
    requires EncodeInternal(env, shape, vals, base).Some?
    ensures Fits(deps, resolving, InternalObject(env, id, shape).value, OpenKeysOfInternal(env, shape, vals),
                 base, EncodeInternal(env, shape, vals, base).value)
    decreases vals, 2, 0
  {
    assert Fits(deps, resolving, EMPTY, {}, base, base);
    if shape.style.NewtypeStyle? && |vals| == 1 {
      var ty := Expanded(env, id, shape.fields[0].ty).value;
      ExpandedValueIsValid(env, deps, resolving, id, shape.fields[0].ty, vals[0]);
      MergedFits(deps, resolving, EMPTY, {}, base, base, ty, false,
                 Encode(env, shape.fields[0].ty, vals[0]).value, OpenKeys(env, shape.fields[0].ty, vals[0]));
      assert {} + OpenKeys(env, shape.fields[0].ty, vals[0]) == OpenKeysOfInternal(env, shape, vals);
    } else {
      EncodedFieldsFit(env, deps, resolving, id, shape.fields, vals, EMPTY, {}, base, base);
      assert {} + OpenKeysOf(env, shape.fields, vals) == OpenKeysOfInternal(env, shape, vals);
    }
  }

  lemma {:induction false} EncodedAdjacentIsValid(
      env: Env, deps: seq<Schema>, resolving: set<string>, id: nat, tag: string, content: string,
      variants: seq<Variant>, at: nat, vals: seq<Val>)
    requires EncodableVariant(env, deps, id, Adjacent(tag, content), variants, at, vals)
    ensures Valid(deps, true, resolving, EnumType(env, id, Adjacent(tag, content), variants).value,
                  EncodeVariant(env, Adjacent(tag, content), variants[at], vals).value)
    decreases vals, 3
  {
    if AllUnit(env[id], variants) {
      AdjacentUnitIsValid(env, deps, resolving, id, tag, content, variants, at, vals);
    } else {
      AdjacentTaggedIsValid(env, deps, resolving, id, tag, content, variants, at, vals);
    }
  }

  lemma AdjacentUnitIsValid(
      env: Env, deps: seq<Schema>, resolving: set<string>, id: nat, tag: string, content: string,
      variants: seq<Variant>, at: nat, vals: seq<Val>)
    requires EncodableVariant(env, deps, id, Adjacent(tag, content), variants, at, vals) && AllUnit(env[id], variants)
    ensures Valid(deps, true, resolving, EnumType(env, id, Adjacent(tag, content), variants).value,
                  EncodeVariant(env, Adjacent(tag, content), variants[at], vals).value)
  {
    var tagging, variant := Adjacent(tag, content), variants[at];
    var js := EncodeVariant(env, tagging, variant, vals).value;
    var j := AlternativeListed(env, id, tagging, variants, at);
    SingleFieldIsValid(deps, resolving, Alternative(env, id, tagging, variant).value, js);
    MemberIsValid(deps, resolving, Alternatives(env, id, tagging, variants).value, j, js);
  }

  lemma {:induction false} AdjacentTaggedIsValid(
      env: Env, deps: seq<Schema>, resolving: set<string>, id: nat, tag: string, content: string,
      variants: seq<Variant>, at: nat, vals: seq<Val>)
    requires EncodableVariant(env, deps, id, Adjacent(tag, content), variants, at, vals)
    requires VariantEntries(env, id, Adjacent(tag, content), variants).Some?
    ensures Valid(deps, true, resolving,
                  Enum(Some(tag), VariantEntries(env, id, Adjacent(tag, content), variants).value),
                  EncodeVariant(env, Adjacent(tag, content), variants[at], vals).value)
    decreases vals, 2, 2
  {
    var tagging := Adjacent(tag, content);
    var entries := VariantEntries(env, id, tagging, variants).value;
    EntryFound(env, id, tagging, variants, at);
    AdjacentEntryIsValid(env, deps, resolving, id, tag, content, variants, at, vals, Enum(Some(tag), entries));
    TaggedEntryIsValid(deps, resolving, tag, entries, EncodeVariant(env, tagging, variants[at], vals).value);
  }

  lemma {:induction false} AdjacentEntryIsValid(
      env: Env, deps: seq<Schema>, resolving: set<string>, id: nat, tag: string, content: string,
      variants: seq<Variant>, at: nat, vals: seq<Val>, owner: TsType)
    requires EncodableVariant(env, deps, id, Adjacent(tag, content), variants, at, vals)
    requires VariantEntry(env, id, Adjacent(tag, content), variants[at]).Some?
    requires var fields := VariantEntry(env, id, Adjacent(tag, content), variants[at]).value.fields;
      forall i | 0 <= i < |fields| :: fields[i].ty < owner
    ensures var entry := VariantEntry(env, id, Adjacent(tag, content), variants[at]).value;
      entry.rest.None? && ValidObject(deps, true, resolving, owner, entry.fields, {tag}, entry.rest,
                                      EncodeVariant(env, Adjacent(tag, content), variants[at], vals).value)
    decreases vals, 2, 1
  {
    var shape := variants[at].shape;
    if !shape.style.UnitStyle? {
      var entry := VariantEntry(env, id, Adjacent(tag, content), variants[at]).value;
      EncodedShapeIsValid(env, deps, resolving, id, shape, vals);
      assert entry.fields[0].ty == ShapeType(env, id, shape).value;
      assert Declares(entry.fields, content) by { assert entry.fields[0].name == content; }
    }
  }
}
